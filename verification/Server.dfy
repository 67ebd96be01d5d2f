/** The request pipeline: prefix, token, URL, access lists, proxy, accounting
    (internal/server/server.go). */
module Server {
  import opened Text
  import opened NetUrl
  import G = GhUrl
  import H = HostMeaning
  import N = NamesKept
  import Rules
  import R = Redirects
  import A = Auth
  import F = Forwarding
  import opened Ranking
  import opened EventLog
  import opened Collector

  datatype Config = Config(prefix: string, auth: A.Authenticator, allow: seq<Rules.Rule>, deny: seq<Rules.Rule>,
                           defaults: seq<string>, statusPath: string, statusOpen: bool, decode: A.Decoder)

  /** `uri` is the raw request target, `path` the decoded path, `queryToken` the token
      in the query, if any. */
  datatype HttpRequest = HttpRequest(verb: string, uri: string, path: string, header: R.Header, queryToken: string)

  // ---- what the pipeline decides ----

  datatype Decision =
    | Deny(reason: string)
    | Preflight(target: G.Target)
    | Forward(target: G.Target, selfBase: string)

  function RepoName(t: G.Target): string { if t.repo == "" then t.owner else t.owner + "/" + t.repo }

  /** `listsAllow`: the allow list first, then the deny list. */
  predicate ListsAllow(cfg: Config, t: G.Target) {
    (cfg.allow == [] || Rules.AnyCovers(cfg.allow, t.owner, t.repo)) && !Rules.AnyCovers(cfg.deny, t.owner, t.repo)
  }

  predicate Served(verb: string) { verb == "GET" || verb == "HEAD" || verb == "POST" || verb == "OPTIONS" }

  /** The decision on an authenticated remainder. */
  function DecideTarget(cfg: Config, verb: string, target: Option<G.Target>, selfBase: string): Decision {
    match target
    case None => Deny("not a proxyable GitHub URL")
    case Some(t) =>
      if !ListsAllow(cfg, t) then Deny("blocked by access list")
      else if verb == "OPTIONS" then Preflight(t)
      else Forward(t, selfBase)
  }

  function DecideRemainder(cfg: Config, verb: string, remainder: string, selfBase: string): Decision {
    DecideTarget(cfg, verb, G.Resolve(remainder, cfg.defaults), selfBase)
  }

  /** The remainder behind the prefix and the token, or the reason to deny. */
  function Authenticated(cfg: Config, header: R.Header, uri: string): Result<string, string> {
    if uri == "" || uri == "*" then Err("no request target")
    else if !(cfg.prefix <= uri) then Err("outside mount prefix")
    else match A.Check(cfg.auth, header, cfg.decode, uri[|cfg.prefix|..])
      case None => Err("authentication failed")
      case Some(rest) => Ok(rest)
  }

  function DecideUri(cfg: Config, verb: string, uri: string, rest: Result<string, string>): Decision {
    match rest
    case Err(reason) => Deny(reason)
    case Ok(remainder) => DecideRemainder(cfg, verb, remainder, A.SelfBase(uri, remainder))
  }

  function Decide(cfg: Config, req: HttpRequest): Decision {
    if !Served(req.verb) then Deny("method not allowed")
    else DecideUri(cfg, req.verb, req.uri, Authenticated(cfg, req.header, req.uri))
  }

  // ---- the status page ----

  /** The configured path and everything below it. */
  predicate IsStatusPath(cfg: Config, path: string) {
    cfg.statusPath != "" && (path == cfg.statusPath || cfg.statusPath + "/" <= path)
  }

  /** `statusAllowed`. */
  predicate StatusAllowed(cfg: Config, req: HttpRequest) {
    cfg.statusOpen || A.Check(cfg.auth, req.header, cfg.decode, "").Some? || A.Equal(cfg.auth, req.queryToken)
  }

  /** What is written to a client on the status path: the page, or the 404 of every denial. */
  function StatusAnswer(cfg: Config, req: HttpRequest, page: seq<Op>, taken: nat): seq<Op> {
    if StatusAllowed(cfg, req) then page else [WriteHeader(404), Write(taken)]
  }

  // ---- the writer that counts ----

  datatype Op = WriteHeader(code: int) | Write(n: nat)

  /** The status the counting writer reports: that of the first call. */
  function RecordedStatus(ops: seq<Op>): int {
    if ops == [] then 200 else match ops[0] case WriteHeader(code) => code case Write(_) => 200
  }

  function BytesOf(ops: seq<Op>): nat {
    if ops == [] then 0
    else BytesOf(ops[..|ops| - 1]) + match ops[|ops| - 1] case WriteHeader(_) => 0 case Write(n) => n
  }

  /** Bytes are what the writes took, and only that. */
  lemma {:induction false} BytesConcat(a: seq<Op>, b: seq<Op>)
    ensures BytesOf(a + b) == BytesOf(a) + BytesOf(b)
    ensures forall n: nat :: BytesOf([Write(n)]) == n
    ensures forall code :: BytesOf([WriteHeader(code)]) == 0
  {
    assert forall op: Op :: [op][..0] == [];
    if b == [] {
      assert a + b == a;
    } else {
      var init := b[..|b| - 1];
      BytesConcat(a, init);
      assert (a + b)[..|a + b| - 1] == a + init;
    }
  }

  predicate Informational(op: Op) { op.WriteHeader? && 100 <= op.code <= 199 && op.code != 101 }

  /** The final status a client sees: informational responses come before it. */
  function ClientStatus(ops: seq<Op>): int {
    if ops == [] then 200
    else if Informational(ops[0]) then ClientStatus(ops[1..])
    else match ops[0] case WriteHeader(code) => code case Write(_) => 200
  }

  lemma {:induction false} ClientStatusFinal(ops: seq<Op>)
    ensures !Informational(WriteHeader(ClientStatus(ops)))
  {
    if ops == [] {
    } else if Informational(ops[0]) {
      ClientStatusFinal(ops[1..]);
    }
  }

  /** Main result: the recorded status is the one the client sees exactly when the
      first thing written is not an informational response. */
  lemma RecordedIsClientStatus(ops: seq<Op>)
    ensures RecordedStatus(ops) == ClientStatus(ops) <==> ops == [] || !Informational(ops[0])
  {
    ClientStatusFinal(ops);
  }

  /** After early hints the status on record is theirs. */
  lemma EarlyHintsRecorded(ops: seq<Op>)
    requires ops == [WriteHeader(103), WriteHeader(200)]
    ensures RecordedStatus(ops) == 103 && ClientStatus(ops) == 200
  {
    assert ops[1..] == [WriteHeader(200)];
  }

  class CountingWriter {
    var status: int
    var written: nat
    var wrote: bool
    ghost var ops: seq<Op>

    ghost predicate Valid()
      reads this
    {
      status == RecordedStatus(ops) && written == BytesOf(ops) && (wrote <==> ops != [])
    }

    constructor ()
      ensures Valid() && ops == []
    {
      status, written, wrote, ops := 200, 0, false, [];
    }

    method WriteHead(code: int)
      requires Valid()
      modifies this
      ensures Valid() && ops == old(ops) + [WriteHeader(code)]
    {
      if !wrote {
        status, wrote := code, true;
      }
      ops := ops + [WriteHeader(code)];
    }

    /** `n` is how much of the data the underlying writer took. */
    method WriteBody(n: nat)
      requires Valid()
      modifies this
      ensures Valid() && ops == old(ops) + [Write(n)]
    {
      wrote := true;
      written := written + n;
      ops := ops + [Write(n)];
    }

    method Play(all: seq<Op>)
      requires Valid()
      modifies this
      ensures Valid() && ops == old(ops) + all
    {
      for i := 0 to |all|
        invariant Valid() && ops == old(ops) + all[..i]
      {
        match all[i] {
          case WriteHeader(code) => WriteHead(code);
          case Write(n) => WriteBody(n);
        }
        assert all[..i + 1] == all[..i] + [all[i]];
      }
      assert all[..|all|] == all;
    }
  }

  // ---- accounting ----

  /** What a decision leaves in the recorder. */
  ghost predicate Settled(rec: Recorder, d: Decision)
    reads rec
  {
    match d
    case Deny(reason) => rec.reason == reason && rec.kind == "" && rec.repo == "" && !rec.options
    case Preflight(t) => rec.reason == "" && rec.kind == G.KindName(t.kind) && rec.repo == RepoName(t) && rec.options
    case Forward(t, _) => rec.reason == "" && rec.kind == G.KindName(t.kind) && rec.repo == RepoName(t) && !rec.options
  }

  /** An entry the pipeline can leave: a denial names no target, anything else does. */
  predicate Shaped(e: Entry) {
    if e.event.reason != "" then e.event.kind == "" && e.event.repo == "" && !e.options
    else e.event.kind != "" && e.event.repo != ""
  }

  predicate AllShaped(log: Log) { forall i :: 0 <= i < |log| ==> Shaped(log[i]) }

  /** Main result: where every entry comes from the pipeline, kinds and repositories
      are counted exactly for the requests that were not denied. */
  lemma {:induction false} KindsAddUp(log: Log)
    requires AllShaped(log)
    ensures SumOf(Tally(log, KindColumn)) == CountOutcome(log, Proxied) + CountOutcome(log, Preflighted)
    ensures CountKeyed(log, RepoColumn) == CountOutcome(log, Proxied) + CountOutcome(log, Preflighted)
  {
    TallySum(log, KindColumn);
    KeyedAddUp(log);
  }

  lemma {:induction false} KeyedAddUp(log: Log)
    requires AllShaped(log)
    ensures CountKeyed(log, KindColumn) == CountOutcome(log, Proxied) + CountOutcome(log, Preflighted)
    ensures CountKeyed(log, RepoColumn) == CountOutcome(log, Proxied) + CountOutcome(log, Preflighted)
  {
    if log == [] {
    } else {
      assert forall i | 0 <= i < |Init(log)| :: Init(log)[i] == log[i];
      KeyedAddUp(Init(log));
      assert Shaped(log[|log| - 1]);
    }
  }

  /** A decision with a name to be counted under wherever it names a target. */
  ghost predicate Named(cfg: Config, verb: string, d: Decision) {
    match d
    case Deny(reason) => reason != ""
    case Preflight(t) => NamedTarget(cfg, t) && verb == "OPTIONS"
    case Forward(t, _) => NamedTarget(cfg, t) && verb != "OPTIONS"
  }

  predicate NamesItself(t: G.Target) { RepoName(t) != "" && G.KindName(t.kind) != "" }

  /** A target the lists allow, under names that are those of the forwarded path unless
      a blob's owner or repository is called "blob". */
  ghost predicate NamedTarget(cfg: Config, t: G.Target) {
    && NamesItself(t) && H.Forwardable(t) && ListsAllow(cfg, t)
    && (N.KeepsNames(t) || N.BlobNamed(t))
  }

  lemma KindNamed(t: G.Target)
    requires t.owner != ""
    ensures NamesItself(t)
  {
    assert |RepoName(t)| >= |t.owner| > 0;
  }

  lemma TargetNamed(cfg: Config, verb: string, target: Option<G.Target>, selfBase: string)
    requires target.Some? ==>
               H.Forwardable(target.value) && (N.KeepsNames(target.value) || N.BlobNamed(target.value))
    ensures Named(cfg, verb, DecideTarget(cfg, verb, target, selfBase))
  {
    if target.Some? {
      KindNamed(target.value);
    }
  }

  lemma UriNamed(cfg: Config, verb: string, uri: string, rest: Result<string, string>)
    requires rest.Err? ==> rest.error != ""
    ensures Named(cfg, verb, DecideUri(cfg, verb, uri, rest))
  {
    if rest.Ok? {
      H.AcceptedForwardable(rest.value, cfg.defaults);
      N.AcceptedNames(rest.value, cfg.defaults);
      TargetNamed(cfg, verb, G.Resolve(rest.value, cfg.defaults), A.SelfBase(uri, rest.value));
    }
  }

  /** Main result: what is not denied is a GitHub URL the lists allow, with a kind and a
      name to be counted under; only OPTIONS is answered without the proxy. */
  lemma DecisionNamed(cfg: Config, req: HttpRequest)
    ensures Named(cfg, req.verb, Decide(cfg, req))
  {
    UriNamed(cfg, req.verb, req.uri, Authenticated(cfg, req.header, req.uri));
  }

  // ---- redirects handed back ----

  /** A web URL behind the base of an authenticated request authenticates whole. */
  lemma FollowUpAuthenticated(cfg: Config, header: R.Header, uri: string, x: string)
    requires A.Configured(cfg.auth) && A.IsWebText(x) && Authenticated(cfg, header, uri).Ok?
    ensures
      var base := A.SelfBase(uri, Authenticated(cfg, header, uri).value);
      Authenticated(cfg, header, base + x) == Ok(x) && A.SelfBase(base + x, x) == base
  {
    var rest := uri[|cfg.prefix|..];
    assert uri == cfg.prefix + rest;
    A.SelfBaseFixpoint(cfg.auth, header, cfg.decode, cfg.prefix, rest, x);
    assert |x| > 1;
  }

  lemma ForwardBase(cfg: Config, verb: string, uri: string, rest: Result<string, string>)
    requires DecideUri(cfg, verb, uri, rest).Forward?
    ensures rest.Ok? && DecideUri(cfg, verb, uri, rest).selfBase == A.SelfBase(uri, rest.value)
  {
  }

  /** Main result: a client that follows a redirect handed back through `selfBase` is
      authenticated again, and is judged on exactly the URL behind it. */
  lemma FollowUpDecision(cfg: Config, req: HttpRequest, x: string)
    requires A.Configured(cfg.auth) && A.IsWebText(x) && Decide(cfg, req).Forward?
    ensures
      var base := Decide(cfg, req).selfBase;
      Decide(cfg, req.(uri := base + x)) == DecideRemainder(cfg, req.verb, x, base)
  {
    var rest := Authenticated(cfg, req.header, req.uri);
    ForwardBase(cfg, req.verb, req.uri, rest);
    FollowUpAuthenticated(cfg, req.header, req.uri, x);
    var uri := Decide(cfg, req).selfBase + x;
    assert DecideUri(cfg, req.verb, uri, Ok(x)) == DecideRemainder(cfg, req.verb, x, A.SelfBase(uri, x));
  }

  /** Main result: of whatever the upstream answers, a redirect within the size limit
      reaches the client with a Location that, requested in the same way, is judged on
      exactly the URL the upstream redirected to; over the limit the client is sent to
      the upstream URL itself. */
  lemma RelayedFollowUp(cfg: Config, req: HttpRequest, was: F.Handed, o: F.Options, at: Url,
                        resolve: (Url, string) -> Option<Url>, render: Url -> string)
    requires A.Configured(cfg.auth) && Decide(cfg, req).Forward?
    ensures
      var d := Decide(cfg, req);
      var location := R.Get(F.Left(was, Some(F.Info(d.target.url, d.selfBase)), o, Some(at), resolve, render).header,
                            "Location");
      var next := resolve(at, R.Get(was.header, "Location"));
      if F.TooLarge(o, was.contentLength, Some(at)) then location == render(at)
      else
        R.IsRedirect(was.code) && R.Get(was.header, "Location") != "" && next.Some? && A.IsWebText(render(next.value))
        ==> Decide(cfg, req.(uri := location)) == DecideRemainder(cfg, req.verb, render(next.value), d.selfBase)
  {
    var d := Decide(cfg, req);
    F.LocationKept(was, Some(F.Info(d.target.url, d.selfBase)), o, Some(at), resolve, render);
    var next := resolve(at, R.Get(was.header, "Location"));
    if next.Some? && A.IsWebText(render(next.value)) {
      FollowUpDecision(cfg, req, render(next.value));
    }
  }

  // ---- who is let in ----

  /** The remainder behind the prefix and the token, or why there is none. */
  lemma AuthenticatedExactly(cfg: Config, header: R.Header, uri: string)
    ensures Authenticated(cfg, header, uri) ==
            if uri == "" || uri == "*" then Err("no request target")
            else if !(cfg.prefix <= uri) then Err("outside mount prefix")
            else if !A.MayPass(cfg.auth, header, cfg.decode, uri[|cfg.prefix|..]) then Err("authentication failed")
            else if !cfg.auth.anonymous && A.InPath(cfg.auth.token, uri[|cfg.prefix|..])
            then Ok(Cut(uri[|cfg.prefix|..], '/').after)
            else Ok(uri[|cfg.prefix|..])
  {
    if cfg.prefix <= uri {
      A.LetInExactly(cfg.auth, header, cfg.decode, uri[|cfg.prefix|..]);
    }
  }

  /** A request brings the token, or needs none. */
  predicate Brings(cfg: Config, req: HttpRequest) {
    && cfg.prefix <= req.uri
    && A.MayPass(cfg.auth, req.header, cfg.decode, req.uri[|cfg.prefix|..])
  }

  lemma AuthenticatedBrings(cfg: Config, req: HttpRequest)
    ensures Authenticated(cfg, req.header, req.uri).Ok? ==> Brings(cfg, req)
  {
    AuthenticatedExactly(cfg, req.header, req.uri);
  }

  // ---- the handler ----

  /** How the proxy answers a forwarded request: what it writes, and whether it then
      panics, which the reverse proxy does when a copy breaks off. */
  datatype Answer = Answer(ops: seq<Op>, panics: bool)

  /** What a decision hands over to the proxy. */
  function HandedOver(d: Decision): seq<(G.Target, string)> {
    if d.Forward? then [(d.target, d.selfBase)] else []
  }

  class Handler {
    const cfg: Config
    const metrics: Metrics?
    const upstream: (G.Target, string, nat) -> Answer
    var forwarded: seq<(G.Target, string)> // every request handed to the proxy

    constructor (cfg: Config, metrics: Metrics?, upstream: (G.Target, string, nat) -> Answer)
      ensures this.cfg == cfg && this.metrics == metrics && this.upstream == upstream && forwarded == []
    {
      this.cfg, this.metrics, this.upstream := cfg, metrics, upstream;
      forwarded := [];
    }

    predicate OnStatusPath(path: string) { metrics != null && IsStatusPath(cfg, path) }

    /** `deny`: a bare 404; `taken` is how much of its text the client took. */
    method DenyRequest(cw: CountingWriter, rec: Recorder?, reason: string, taken: nat)
      requires cw.Valid() && taken <= 19
      modifies cw, rec
      ensures cw.Valid() && cw.ops == old(cw.ops) + [WriteHeader(404), Write(taken)]
      ensures rec != null ==> rec.reason == reason
      ensures rec != null ==> rec.kind == old(rec.kind) && rec.repo == old(rec.repo) && rec.options == old(rec.options)
    {
      if rec != null {
        rec.Deny(reason);
      }
      cw.WriteHead(404);
      cw.WriteBody(taken);
    }

    /** The prefix and the token, up to the remainder. */
    method Authenticate(req: HttpRequest) returns (r: Result<string, string>)
      ensures r == Authenticated(cfg, req.header, req.uri)
      ensures r.Ok? ==> Brings(cfg, req)
    {
      var raw := req.uri;
      if raw == "" || raw == "*" {
        return Err("no request target");
      }
      if !(cfg.prefix <= raw) {
        return Err("outside mount prefix");
      }
      var rest := A.Check(cfg.auth, req.header, cfg.decode, raw[|cfg.prefix|..]);
      if rest == None {
        return Err("authentication failed");
      }
      AuthenticatedBrings(cfg, req);
      return Ok(rest.value);
    }

    method AccessAllowed(t: G.Target) returns (ok: bool)
      ensures ok == ListsAllow(cfg, t)
    {
      if |cfg.allow| > 0 {
        var listed := Rules.RuleSetMatch(cfg.allow, t.owner, t.repo);
        if !listed {
          return false;
        }
      }
      var denied := Rules.RuleSetMatch(cfg.deny, t.owner, t.repo);
      return !denied;
    }

    /** What a decision writes to the client. */
    function Written(d: Decision, taken: nat, number: nat): seq<Op> {
      match d
      case Deny(_) => [WriteHeader(404), Write(taken)]
      case Preflight(_) => [WriteHeader(204)]
      case Forward(t, base) => upstream(t, base, number).ops
    }

    /** The part of `serve` after authentication. */
    method ServeRemainder(cw: CountingWriter, rec: Recorder?, verb: string, rest: string, base: string, taken: nat)
      returns (panicked: bool)
      requires cw.Valid() && cw.ops == [] && taken <= 19
      requires rec != null ==> rec.kind == "" && rec.repo == "" && rec.reason == "" && !rec.options
      modifies cw, rec, this`forwarded
      ensures cw.Valid() && cw.ops == Written(DecideRemainder(cfg, verb, rest, base), taken, |old(forwarded)|)
      ensures rec != null ==> Settled(rec, DecideRemainder(cfg, verb, rest, base))
      ensures forwarded == old(forwarded) + HandedOver(DecideRemainder(cfg, verb, rest, base))
    {
      panicked := false;
      var target := ParseTarget(rest);
      if target == None {
        DenyRequest(cw, rec, "not a proxyable GitHub URL", taken);
        return;
      }
      panicked := ServeTarget(cw, rec, verb, target.value, base, taken);
    }

    method ParseTarget(rest: string) returns (target: Option<G.Target>)
      ensures target == G.Resolve(rest, cfg.defaults)
    {
      var found := G.ParseWithDefaults(rest, cfg.defaults);
      if found == None {
        return None;
      }
      var url := found.value.url.Copy();
      return Some(G.Target(found.value.kind, found.value.owner, found.value.repo, url));
    }

    /** The access lists, the recorder, and the proxy. */
    method ServeTarget(cw: CountingWriter, rec: Recorder?, verb: string, t: G.Target, base: string, taken: nat)
      returns (panicked: bool)
      requires cw.Valid() && cw.ops == [] && taken <= 19
      requires rec != null ==> rec.kind == "" && rec.repo == "" && rec.reason == "" && !rec.options
      modifies cw, rec, this`forwarded
      ensures cw.Valid() && cw.ops == Written(DecideTarget(cfg, verb, Some(t), base), taken, |old(forwarded)|)
      ensures rec != null ==> Settled(rec, DecideTarget(cfg, verb, Some(t), base))
      ensures forwarded == old(forwarded) + HandedOver(DecideTarget(cfg, verb, Some(t), base))
    {
      panicked := false;
      var allowed := AccessAllowed(t);
      if !allowed {
        DenyRequest(cw, rec, "blocked by access list", taken);
        return;
      }
      if rec != null {
        rec.Target(G.KindName(t.kind), RepoName(t));
      }
      if verb == "OPTIONS" {
        if rec != null {
          rec.Preflight();
        }
        cw.WriteHead(204);
        return;
      }
      var answer := upstream(t, base, |forwarded|);
      forwarded := forwarded + [(t, base)];
      cw.Play(answer.ops);
      panicked := answer.panics;
    }

    /** `serve`: one decision, written to the client and into the recorder. */
    method Serve(cw: CountingWriter, rec: Recorder?, req: HttpRequest, taken: nat) returns (panicked: bool)
      requires cw.Valid() && cw.ops == [] && taken <= 19
      requires rec != null ==> rec.kind == "" && rec.repo == "" && rec.reason == "" && !rec.options
      modifies cw, rec, this`forwarded
      ensures cw.Valid() && cw.ops == Written(Decide(cfg, req), taken, |old(forwarded)|)
      ensures rec != null ==> Settled(rec, Decide(cfg, req))
      ensures forwarded == old(forwarded) + HandedOver(Decide(cfg, req))
      ensures Decide(cfg, req).Deny? ==> cw.ops == [WriteHeader(404), Write(taken)]
      ensures Decide(cfg, req).Preflight? ==> cw.ops == [WriteHeader(204)]
    {
      panicked := false;
      if req.verb != "GET" && req.verb != "HEAD" && req.verb != "POST" && req.verb != "OPTIONS" {
        DenyRequest(cw, rec, "method not allowed", taken);
        return;
      }
      var rest := Authenticate(req);
      if rest.Err? {
        DenyRequest(cw, rec, rest.error, taken);
        return;
      }
      panicked := ServeRemainder(cw, rec, req.verb, rest.value, A.SelfBase(req.uri, rest.value), taken);
    }

    /** The status page answers before any recording starts; the page itself is not
        part of this model. */
    method ServeStatus(cw: CountingWriter, req: HttpRequest, page: seq<Op>, taken: nat)
      requires cw.Valid() && cw.ops == [] && taken <= 19
      modifies cw
      ensures cw.Valid()
      ensures cw.ops == StatusAnswer(cfg, req, page, taken)
    {
      if !StatusAllowed(cfg, req) {
        DenyRequest(cw, null, "status page authentication failed", taken);
      } else {
        cw.Play(page);
      }
    }

    /** The first half of `ServeHTTP` for a request that is recorded: start a recording
        and serve. Other requests may come and go before the second half. */
    method Begin(req: HttpRequest, mono: int, taken: nat) returns (rec: Recorder, cw: CountingWriter, panicked: bool)
      requires metrics != null && metrics.Valid() && taken <= 19
      modifies this`forwarded, metrics
      ensures metrics.Valid() && metrics.log == old(metrics.log) && metrics.started == old(metrics.started) + 1
      ensures fresh(rec) && fresh(cw) && metrics.open == old(metrics.open) + {rec}
      ensures metrics.repeats == old(metrics.repeats)
      ensures cw.Valid() && cw.ops == Written(Decide(cfg, req), taken, |old(forwarded)|)
      ensures Settled(rec, Decide(cfg, req))
      ensures forwarded == old(forwarded) + HandedOver(Decide(cfg, req))
    {
      rec := metrics.Start(req.verb, mono);
      cw := new CountingWriter();
      panicked := Serve(cw, rec, req, taken);
    }

    /** The deferred second half, which runs even when the proxy panicked. */
    method End(rec: Recorder, cw: CountingWriter, mono: int, at: int)
      requires metrics != null && metrics.Valid() && cw.Valid()
      modifies metrics, metrics.recent, metrics.history
      ensures metrics.Valid() && metrics.started == old(metrics.started)
      ensures metrics.log == old(metrics.log) + [rec.EntryAt(RecordedStatus(cw.ops), BytesOf(cw.ops), mono, at)]
      ensures metrics.open == old(metrics.open) - {rec}
      ensures metrics.repeats == old(metrics.repeats) + if rec in old(metrics.open) then 0 else 1
    {
      var panicked := metrics.Finish(rec, cw.status, cw.written, mono, at);
    }

    /** The footprint of the collector, if there is one. */
    function Collected(): set<object> {
      if metrics == null then {} else {metrics, metrics.recent, metrics.history}
    }

    /** `ServeHTTP` for one request at a time. */
    method ServeHTTP(req: HttpRequest, page: seq<Op>, taken: nat, mono: int, later: int, at: int)
      returns (cw: CountingWriter, panicked: bool)
      requires taken <= 19 && (metrics != null ==> metrics.Valid())
      modifies this`forwarded, Collected()
      ensures fresh(cw) && cw.Valid() && (metrics != null ==> metrics.Valid())
      ensures OnStatusPath(req.path) ==>
                && cw.ops == StatusAnswer(cfg, req, page, taken)
                && forwarded == old(forwarded) && metrics.log == old(metrics.log)
                && metrics.started == old(metrics.started) && metrics.open == old(metrics.open)
      ensures !OnStatusPath(req.path) ==>
                && cw.ops == Written(Decide(cfg, req), taken, |old(forwarded)|)
                && forwarded == old(forwarded) + HandedOver(Decide(cfg, req))
                && (metrics != null ==>
                      && CountedOnce(metrics.log, old(metrics.log), Decide(cfg, req), cw.ops)
                      && metrics.started == old(metrics.started) + 1 && metrics.open == old(metrics.open)
                      && metrics.inFlight == old(metrics.inFlight))
    {
      panicked := false;
      if OnStatusPath(req.path) {
        cw := new CountingWriter();
        ServeStatus(cw, req, page, taken);
        return;
      }
      if metrics == null {
        cw := new CountingWriter();
        panicked := Serve(cw, null, req, taken);
        return;
      }
      cw, panicked := ServeRecorded(req, taken, mono, later, at);
    }

    /** The two halves of `ServeHTTP` in a row. */
    method ServeRecorded(req: HttpRequest, taken: nat, mono: int, later: int, at: int)
      returns (cw: CountingWriter, panicked: bool)
      requires taken <= 19 && metrics != null && metrics.Valid()
      modifies this`forwarded, metrics, metrics.recent, metrics.history
      ensures fresh(cw) && cw.Valid() && metrics.Valid()
      ensures cw.ops == Written(Decide(cfg, req), taken, |old(forwarded)|)
      ensures forwarded == old(forwarded) + HandedOver(Decide(cfg, req))
      ensures CountedOnce(metrics.log, old(metrics.log), Decide(cfg, req), cw.ops)
      ensures metrics.started == old(metrics.started) + 1 && metrics.open == old(metrics.open)
      ensures metrics.inFlight == old(metrics.inFlight)
    {
      ghost var open := metrics.open;
      var rec;
      rec, cw, panicked := Begin(req, mono, taken);
      EndCounted(rec, cw, Decide(cfg, req), later, at);
      assert open + {rec} - {rec} == open;
    }

    /** The end of a recording, in terms of the decision it started with. */
    method EndCounted(rec: Recorder, cw: CountingWriter, ghost d: Decision, mono: int, at: int)
      requires metrics != null && metrics.Valid() && cw.Valid() && Settled(rec, d) && rec in metrics.open
      modifies metrics, metrics.recent, metrics.history
      ensures metrics.Valid() && metrics.started == old(metrics.started)
      ensures metrics.open == old(metrics.open) - {rec} && metrics.inFlight == old(metrics.inFlight) - 1
      ensures CountedOnce(metrics.log, old(metrics.log), d, cw.ops)
    {
      ghost var was := metrics.log;
      End(rec, cw, mono, at);
      ExtendsIs(metrics.log, was, rec.EntryAt(RecordedStatus(cw.ops), BytesOf(cw.ops), mono, at));
    }
  }

  /** The log has grown by one entry, which reports the decision and what was written. */
  predicate CountedOnce(log: Log, was: Log, d: Decision, ops: seq<Op>) {
    && log != [] && Init(log) == was && Reports(Last(log), d)
    && Last(log).event.status == RecordedStatus(ops) && Last(log).event.bytes == BytesOf(ops)
  }

  /** An entry that reports a decision. */
  predicate Reports(e: Entry, d: Decision) {
    match d
    case Deny(reason) =>
      e.event.reason == reason && e.event.kind == "" && e.event.repo == "" && !e.options
    case Preflight(t) =>
      e.event.reason == "" && e.event.kind == G.KindName(t.kind) && e.event.repo == RepoName(t) && e.options
    case Forward(t, _) =>
      e.event.reason == "" && e.event.kind == G.KindName(t.kind) && e.event.repo == RepoName(t) && !e.options
  }

  function OutcomeOfDecision(d: Decision): Outcome {
    match d case Deny(_) => Denied case Preflight(_) => Preflighted case Forward(_, _) => Proxied
  }

  /** An entry that reports a pipeline decision counts under its outcome
      and has the pipeline's shape. */
  lemma ReportedShape(cfg: Config, req: HttpRequest, e: Entry)
    ensures Reports(e, Decide(cfg, req)) ==> Shaped(e) && OutcomeOf(e) == OutcomeOfDecision(Decide(cfg, req))
  {
    DecisionNamed(cfg, req);
  }
}
