/** From the text of a request to the last hop of its redirects. */
module Journeys {
  import opened Text
  import opened NetUrl
  import opened HostMeaning
  import G = GhUrl
  import opened Redirects
  import F = Forwarding
  import A = Auth

  // ---- where the proxy's credential goes ----

  lemma CanonicalHostname(u: Url)
    requires u.host in CANONICAL_HOSTS && G.HostCandidates(u.host).Some?
    ensures ToLower(Hostname(u)) == u.host
  {
    KnownSpelled(u.host);
    PlainAuthority(u, u.host);
    assert u.(host := u.host) == u;
  }

  /** Main result: whatever was asked for, and wherever the upstream redirects, the only
      credential on any hop is the proxy's own, and it goes to the target's own host,
      which is one of GitHub's. */
  lemma TokenStaysOnGitHub(raw: string, defaults: seq<string>, t: G.Target, p: Policy,
                           answer: seq<Request> -> Option<Reply>, sent: seq<Request>, k: nat,
                           h: Header, token: string)
    requires G.Resolve(raw, defaults) == Some(t) && k < |sent| && IsChain(p, answer, sent)
    requires sent[0].url == t.url && sent[0].header == F.Rewritten(h, token)
    ensures "Authorization" in sent[k].header ==>
              && sent[k].header["Authorization"] == ["Bearer " + token] && token != ""
              && ToLower(Hostname(sent[k].url)) == t.url.host && t.url.host in CANONICAL_HOSTS
  {
    AcceptedForwardable(raw, defaults);
    CanonicalHostname(t.url);
    CredentialHost(t, p, answer, sent, k, h, token);
  }

  lemma CredentialHost(t: G.Target, p: Policy, answer: seq<Request> -> Option<Reply>, sent: seq<Request>, k: nat,
                       h: Header, token: string)
    requires k < |sent| && IsChain(p, answer, sent)
    requires sent[0].url == t.url && sent[0].header == F.Rewritten(h, token)
    ensures "Authorization" in sent[k].header ==>
              && sent[k].header["Authorization"] == ["Bearer " + token] && token != ""
              && ToLower(Hostname(sent[k].url)) == ToLower(Hostname(t.url))
  {
    F.ChainCarriesNothing(p, answer, sent, k, h, token);
    if SameHostSoFar(sent, k) {
      assert EqualFold(Hostname(sent[k].url), Hostname(sent[0].url));
    }
  }

  /** The header the proxy itself would send, with or without its credential. */
  function OwnHeader(token: string, carried: bool): Header {
    if carried then map["Authorization" := ["Bearer " + token]] else map[]
  }

  /** Main result: on no hop can anyone learn a credential of the client's: whoever checks
      the header of a hop for one finds what the proxy itself put there. */
  lemma NoClientCredential(p: Policy, answer: seq<Request> -> Option<Reply>, sent: seq<Request>, k: nat,
                           h: Header, token: string, a: A.Authenticator, decode: A.Decoder, rest: string)
    requires k < |sent| && IsChain(p, answer, sent) && sent[0].header == F.Rewritten(h, token)
    ensures "X-Proxy-Token" !in sent[k].header
    ensures "Authorization" in sent[k].header ==> sent[k].header["Authorization"] == ["Bearer " + token]
    ensures A.Check(a, sent[k].header, decode, rest) ==
            A.Check(a, OwnHeader(token, "Authorization" in sent[k].header), decode, rest)
  {
    F.ChainCarriesNothing(p, answer, sent, k, h, token);
    OwnFieldsOnly(sent[k].header, token, a, decode, rest);
  }

  lemma OwnFieldsOnly(hop: Header, token: string, a: A.Authenticator, decode: A.Decoder, rest: string)
    requires "X-Proxy-Token" !in hop
    requires "Authorization" in hop ==> hop["Authorization"] == ["Bearer " + token]
    ensures A.Check(a, hop, decode, rest) == A.Check(a, OwnHeader(token, "Authorization" in hop), decode, rest)
  {
    TwoNames();
    A.ReadsTwoFields(a, hop, OwnHeader(token, "Authorization" in hop), decode, rest);
  }

  lemma TwoNames()
    ensures "X-Proxy-Token" != "Authorization"
  {
    assert "X-Proxy-Token"[0] == 'X' && "Authorization"[0] == 'A';
  }

  // ---- where a client is sent over the size limit ----

  /** The URL that the last redirect of a chain was followed to. */
  function LastFollowed(p: Policy, answer: seq<Request> -> Option<Reply>, sent: seq<Request>): Option<Url>
    requires |sent| > 1
  {
    match ResponseTo(answer, sent[..|sent| - 1])
    case None => None
    case Some(resp) => RedirectTarget(p, sent[|sent| - 2], resp)
  }

  lemma LastUrl(p: Policy, answer: seq<Request> -> Option<Reply>, sent: seq<Request>)
    requires |sent| > 1 && IsChain(p, answer, sent)
    ensures LastFollowed(p, answer, sent) == Some(sent[|sent| - 1].url)
  {
    assert Hop(p, answer, sent, |sent| - 2);
    NextKeeps(sent[|sent| - 2], sent[|sent| - 1].url);
  }

  /** Main result: over the size limit the client is sent to the last URL of the chain;
      that is the URL it asked for exactly when no redirect was followed or the last one
      led to a URL of the same text. */
  lemma OversizedLocation(p: Policy, answer: seq<Request> -> Option<Reply>, sent: seq<Request>, req: Request,
                          resp: Response, info: Option<F.Info>, o: F.Options, render: Url -> string)
    requires Ended(p, answer, sent, req, Returned(resp))
    requires o.sizeLimit > 0 && resp.contentLength > o.sizeLimit
    ensures
      var was := F.Handed(resp.code, resp.header, resp.contentLength, true);
      var out := F.Left(was, info, o, Some(sent[|sent| - 1].url), p.resolve, render);
      && Get(out.header, "Location") == render(sent[|sent| - 1].url)
      && (Get(out.header, "Location") == render(req.url) <==>
            || |sent| == 1
            || (LastFollowed(p, answer, sent).Some? && render(LastFollowed(p, answer, sent).value) == render(req.url)))
  {
    if |sent| > 1 {
      LastUrl(p, answer, sent);
    }
  }

  // ---- chains of two requests ----

  lemma TwoHops(p: Policy, answer: seq<Request> -> Option<Reply>, req: Request, first: Reply, next: Url)
    requires answer([req]) == Some(first) && IsRedirect(first.code) && Get(first.header, "Location") != ""
    requires p.resolve(req.url, Get(first.header, "Location")) == Some(next) && AllowedUrl(p, next)
    ensures IsChain(p, answer, [req] + [NextRequest(req, next)])
  {
    var sent := [req] + [NextRequest(req, next)];
    forall k: nat | k + 1 < |sent| ensures Hop(p, answer, sent, k) {
      assert sent[..k + 1] == [req];
    }
  }

  const FIRST := NO_URL.(scheme := "https", host := "github.com", path := "/f")

  const MOVED := NO_URL.(scheme := "https", host := "github.com", path := "/g", rawQuery := "signature=1")

  const OPEN := NO_URL.(scheme := "http", host := "github.com", path := "/f")

  const GITHUB_ONLY := map["github.com" := true]

  lemma GitHubUrl(u: Url)
    requires u == FIRST || u == MOVED || u == OPEN
    ensures ToLower(Hostname(u)) == "github.com"
  {
    assert u.host == "github.com";
    CanonicalHostname(u);
  }

  /** An upstream that redirects once and then sends ten bytes. */
  function Moving(sent: seq<Request>): Option<Reply> {
    if |sent| == 1 then Some(Reply(302, map["Location" := ["/g?signature=1"]], 0)) else Some(Reply(200, map[], 10))
  }

  function ResolveMoved(base: Url, location: string): Option<Url> {
    if location == "/g?signature=1" then Some(MOVED) else None
  }

  lemma MovedAllowed()
    ensures AllowedUrl(Policy(GITHUB_ONLY, 10, ResolveMoved), MOVED)
  {
    GitHubUrl(MOVED);
  }

  lemma MovedFirst(req: Request, first: Reply)
    requires first == Reply(302, map["Location" := ["/g?signature=1"]], 0)
    ensures Moving([req]) == Some(first) && Get(first.header, "Location") == "/g?signature=1"
    ensures ResolveMoved(req.url, "/g?signature=1") == Some(MOVED) && |"/g?signature=1"| > 0
  {
  }

  lemma MovedOnce(req: Request)
    requires req.url == FIRST && req.verb == "GET"
    ensures IsChain(Policy(GITHUB_ONLY, 10, ResolveMoved), Moving, [req] + [NextRequest(req, MOVED)])
  {
    var first := Reply(302, map["Location" := ["/g?signature=1"]], 0);
    MovedFirst(req, first);
    MovedAllowed();
    TwoHops(Policy(GITHUB_ONLY, 10, ResolveMoved), Moving, req, first, MOVED);
  }

  /** A chain ends with an answer that is no redirect. */
  lemma EndsPlainly(p: Policy, answer: seq<Request> -> Option<Reply>, req: Request, last: Request, resp: Response)
    requires IsChain(p, answer, [req] + [last]) && 1 <= p.max
    requires ResponseTo(answer, [req] + [last]) == Some(resp) && !IsRedirect(resp.code)
    ensures Ended(p, answer, [req] + [last], req, Returned(resp))
  {
    assert RedirectTarget(p, last, resp) == None;
  }

  lemma MovingEnds(req: Request)
    requires req.url == FIRST && req.verb == "GET"
    ensures Ended(Policy(GITHUB_ONLY, 10, ResolveMoved), Moving, [req] + [NextRequest(req, MOVED)], req,
                  Returned(Response(200, map[], 10, 1)))
  {
    MovedOnce(req);
    EndsPlainly(Policy(GITHUB_ONLY, 10, ResolveMoved), Moving, req, NextRequest(req, MOVED),
                Response(200, map[], 10, 1));
  }

  /** An answer over the limit, behind a redirect: the client gets the URL redirected to,
      signature and all. */
  lemma OversizedShowsSignature(req: Request, info: Option<F.Info>, render: Url -> string)
    requires req.url == FIRST && req.verb == "GET" && render(MOVED) != render(FIRST)
    ensures
      var p := Policy(GITHUB_ONLY, 10, ResolveMoved);
      Ended(p, Moving, [req] + [NextRequest(req, MOVED)], req, Returned(Response(200, map[], 10, 1)))
    ensures
      var left := F.Left(F.Handed(200, map[], 10, true), info, F.Options(5, false), Some(MOVED), ResolveMoved, render);
      Get(left.header, "Location") == render(MOVED) != render(req.url)
  {
    MovingEnds(req);
    LocationOverLimit(F.Handed(200, map[], 10, true), info, F.Options(5, false), MOVED, ResolveMoved, render);
  }

  lemma LocationOverLimit(was: F.Handed, info: Option<F.Info>, o: F.Options, at: Url,
                          resolve: (Url, string) -> Option<Url>, render: Url -> string)
    requires o.sizeLimit > 0 && was.contentLength > o.sizeLimit
    ensures Get(F.Left(was, info, o, Some(at), resolve, render).header, "Location") == render(at)
  {
    F.LocationKept(was, info, o, Some(at), resolve, render);
  }

  /** An upstream that redirects to "http" on the same host, and then answers. */
  function Downgrading(sent: seq<Request>): Option<Reply> {
    if |sent| == 1 then Some(Reply(302, map["Location" := ["http://github.com/f"]], 0)) else Some(Reply(200, map[], 0))
  }

  function ResolveOpen(base: Url, location: string): Option<Url> {
    if location == "http://github.com/f" then Some(OPEN) else None
  }

  /** The second request of this chain carries the credential without TLS. */
  lemma CredentialWithoutTls(req: Request)
    requires req.url == FIRST && req.verb == "GET" && "Authorization" in req.header
    ensures
      var p := Policy(GITHUB_ONLY, 10, ResolveOpen);
      var sent := [req] + [NextRequest(req, OPEN)];
      && IsChain(p, Downgrading, sent) && sent[1].url.scheme == "http"
      && "Authorization" in sent[1].header && sent[1].header["Authorization"] == req.header["Authorization"]
  {
    var p := Policy(GITHUB_ONLY, 10, ResolveOpen);
    GitHubUrl(FIRST);
    GitHubUrl(OPEN);
    TwoHops(p, Downgrading, req, Reply(302, map["Location" := ["http://github.com/f"]], 0), OPEN);
    NextCredential(req, OPEN);
  }
}
