/** Who and what the pipeline lets through, said of the request and the configuration. */
module Admission {
  import opened Text
  import opened PathShapes
  import G = GhUrl
  import H = HostMeaning
  import R = Redirects
  import Rules
  import A = Auth
  import opened Server

  // ---- the caller ----

  lemma ReasonsDiffer(reason: string)
    requires reason == "no request target" || reason == "outside mount prefix" || reason == "authentication failed"
             || reason == "not a proxyable GitHub URL" || reason == "blocked by access list"
    ensures reason != "method not allowed" && reason[0] != 'm'
    ensures reason == "authentication failed" <==> reason[0] == 'a'
  {
    assert "method not allowed"[0] == 'm';
  }

  lemma DecidedReason(cfg: Config, verb: string, uri: string, rest: Result<string, string>, reason: string)
    requires reason == "authentication failed"
    ensures DecideUri(cfg, verb, uri, rest) == Deny(reason) <==> rest == Err(reason)
  {
    ReasonsDiffer("not a proxyable GitHub URL");
    ReasonsDiffer("blocked by access list");
    ReasonsDiffer(reason);
  }

  /** Main result: what is not denied carries the token or the proxy is open to all; and
      of requests with a served method and a target under the prefix, those that do not
      are denied for just that reason. */
  lemma DeniedExactly(cfg: Config, req: HttpRequest)
    ensures !Decide(cfg, req).Deny? ==> Brings(cfg, req)
    ensures
      req.verb in {"GET", "HEAD", "POST", "OPTIONS"} && req.uri != "" && req.uri != "*" && cfg.prefix <= req.uri ==>
        (Decide(cfg, req) == Deny("authentication failed") <==> !Brings(cfg, req))
  {
    var rest := Authenticated(cfg, req.header, req.uri);
    AuthenticatedExactly(cfg, req.header, req.uri);
    RestExactly(cfg, req, rest);
    DecidedReason(cfg, req.verb, req.uri, rest, "authentication failed");
  }

  lemma RestExactly(cfg: Config, req: HttpRequest, rest: Result<string, string>)
    requires rest == Authenticated(cfg, req.header, req.uri)
    ensures rest.Ok? ==> Brings(cfg, req)
    ensures req.uri != "" && req.uri != "*" && cfg.prefix <= req.uri ==>
              (rest == Err("authentication failed") <==> !Brings(cfg, req))
  {
    AuthenticatedExactly(cfg, req.header, req.uri);
  }

  lemma UriReason(cfg: Config, verb: string, uri: string, rest: Result<string, string>)
    requires rest.Err? ==> rest.error != "" && rest.error[0] != 'm'
    ensures DecideUri(cfg, verb, uri, rest) != Deny("method not allowed")
  {
    ReasonsDiffer("not a proxyable GitHub URL");
    ReasonsDiffer("blocked by access list");
    assert "method not allowed"[0] == 'm';
  }

  /** Main result: exactly four methods are served. */
  lemma ServedExactly(cfg: Config, req: HttpRequest)
    ensures Decide(cfg, req) == Deny("method not allowed") <==> req.verb !in {"GET", "HEAD", "POST", "OPTIONS"}
  {
    var rest := Authenticated(cfg, req.header, req.uri);
    ErrorsDiffer(cfg, req.header, req.uri);
    UriReason(cfg, req.verb, req.uri, rest);
  }

  lemma ErrorsDiffer(cfg: Config, header: R.Header, uri: string)
    ensures
      var rest := Authenticated(cfg, header, uri);
      rest.Err? ==> rest.error != "" && rest.error[0] != 'm'
  {
    ReasonsDiffer("no request target");
    ReasonsDiffer("outside mount prefix");
    ReasonsDiffer("authentication failed");
  }

  // ---- the access lists ----

  /** A rule names the pair: its owner or any owner, its repository or any of its owner's. */
  predicate NamesPair(r: Rules.Rule, owner: string, repo: string) {
    (r.owner == "*" || SameLetters(r.owner, owner)) && (r.repo == "" || SameLetters(r.repo, repo))
  }

  predicate Listed(rs: seq<Rules.Rule>, owner: string, repo: string) {
    exists i :: 0 <= i < |rs| && NamesPair(rs[i], owner, repo)
  }

  lemma ListedIs(rs: seq<Rules.Rule>, owner: string, repo: string)
    ensures Rules.AnyCovers(rs, owner, repo) <==> Listed(rs, owner, repo)
  {
    forall i | 0 <= i < |rs| ensures Rules.Covers(rs[i], owner, repo) <==> NamesPair(rs[i], owner, repo) {
      Rules.CoversExactly(rs[i], owner, repo);
    }
  }

  /** Main result: a target is let through exactly when the allow list is empty or names
      it, and the deny list does not; OPTIONS is then answered without the proxy. */
  lemma ListsExactly(cfg: Config, verb: string, t: G.Target, base: string)
    ensures DecideTarget(cfg, verb, Some(t), base) ==
            if (cfg.allow != [] && !Listed(cfg.allow, t.owner, t.repo)) || Listed(cfg.deny, t.owner, t.repo)
            then Deny("blocked by access list")
            else if verb == "OPTIONS" then Preflight(t)
            else Forward(t, base)
  {
    ListedIs(cfg.allow, t.owner, t.repo);
    ListedIs(cfg.deny, t.owner, t.repo);
  }

  // ---- the status page ----

  lemma NoPath(token: string)
    ensures !A.InPath(token, "")
  {
  }

  /** Main result: the page is for everyone where it is open or the proxy is, and else for
      those with the token in a header or in the query. */
  lemma PageExactly(cfg: Config, req: HttpRequest)
    ensures StatusAllowed(cfg, req) <==>
              || cfg.statusOpen || cfg.auth.anonymous
              || (cfg.auth.token != ""
                  && (A.InHeaders(cfg.auth.token, req.header, cfg.decode) || req.queryToken == cfg.auth.token))
  {
    A.LetInExactly(cfg.auth, req.header, cfg.decode, "");
    NoPath(cfg.auth.token);
  }

  /** Only the configured path and what a slash separates from it is the status page. */
  lemma StatusPathExactly(cfg: Config, x: string)
    requires cfg.statusPath != ""
    ensures IsStatusPath(cfg, cfg.statusPath + x) <==> x == "" || x[0] == '/'
  {
    var path := cfg.statusPath + x;
    assert path[..|cfg.statusPath|] == cfg.statusPath;
    assert cfg.statusPath + "/" <= path ==> path[|cfg.statusPath|] == '/';
    if x != "" && x[0] == '/' {
      assert path[..|cfg.statusPath| + 1] == cfg.statusPath + "/";
    }
    if x == "" {
      assert path == cfg.statusPath;
    } else {
      assert |path| > |cfg.statusPath| && path[|cfg.statusPath|] == x[0];
    }
  }

  // ---- what is recorded ----

  /** The recorded name is the owner alone for a gist, and else the owner and the
      repository with a slash between them. */
  lemma RecordedName(raw: string, defaults: seq<string>, t: G.Target)
    requires G.Resolve(raw, defaults) == Some(t)
    ensures Segments(RepoName(t)) == if t.kind.Gist? then [t.owner] else [t.owner] + [t.repo]
  {
    H.AcceptedForwardable(raw, defaults);
    NameSegments(t);
  }

  lemma NameSegments(t: G.Target)
    requires '/' !in t.owner && '/' !in t.repo && (t.repo == "" <==> t.kind.Gist?)
    ensures Segments(RepoName(t)) == if t.kind.Gist? then [t.owner] else [t.owner] + [t.repo]
  {
    FindNone(t.owner, '/');
    FindNone(t.repo, '/');
    if !t.kind.Gist? {
      SplitStep(t.owner, '/', t.repo);
    }
  }

  // ---- an input ----

  lemma OtherScheme(scheme: string)
    requires scheme == "Bearer"
    ensures !SameLetters(scheme, "token") && !SameLetters(scheme, "basic")
  {
    assert |scheme| == 6 && |"token"| == 5 && |"basic"| == 5;
  }

  lemma OffersOther(token: string, c: Cutting, decode: A.Decoder)
    requires |token| == 16 && c.before == "Bearer" && |TrimSpace(c.after)| == 1
    ensures !A.InCredential(token, c, decode)
  {
    OtherScheme(c.before);
  }

  lemma OneLetter(text: string)
    requires text == "x"
    ensures |TrimSpace(text)| == 1
  {
    assert TrimSpace(text) == text;
  }

  lemma OneField(h: R.Header, authorization: string)
    requires h == map["Authorization" := [authorization]]
    ensures R.Get(h, "Authorization") == authorization && R.Get(h, "X-Proxy-Token") == ""
  {
    assert "X-Proxy-Token"[0] == 'X' && "Authorization"[0] == 'A';
  }

  lemma WrongBearer(token: string, h: R.Header, decode: A.Decoder, authorization: string)
    requires |token| == 16 && h == map["Authorization" := [authorization]]
    requires Cut(authorization, ' ') == Cutting("Bearer", "x", true)
    ensures !A.InHeaders(token, h, decode)
  {
    OneField(h, authorization);
    OneLetter("x");
    OffersOther(token, Cut(authorization, ' '), decode);
  }

  /** A bearer value that is not the token is denied. */
  lemma WrongBearerDenied(cfg: Config, req: HttpRequest, x: string)
    requires cfg.auth == A.Authenticator("0123456789abcdef", false) && cfg.prefix == "/" && A.IsWebText(x)
    requires req.verb == "GET" && req.uri == cfg.prefix + x
    requires req.header == map["Authorization" := ["Bearer" + [' '] + "x"]]
    ensures Decide(cfg, req) == Deny("authentication failed")
  {
    var token := cfg.auth.token;
    assert |token| == 16 && '/' !in token;
    assert req.uri[|cfg.prefix|..] == x && |req.uri| > 1 && req.uri[..1] == cfg.prefix;
    A.WebIsNoToken(cfg.auth, x);
    A.PathExactly(cfg.auth, x);
    FindAt("Bearer", ' ', "x");
    WrongBearer(token, req.header, cfg.decode, "Bearer" + [' '] + "x");
    DeniedExactly(cfg, req);
  }
}
