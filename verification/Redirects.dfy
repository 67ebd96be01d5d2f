/** Following redirects inside one round trip (internal/proxy/redirect.go), against an
    upstream that may answer anything (status codes: section 15.4 of RFC 9110). */
module Redirects {
  import opened Text
  import opened NetUrl

  /** Header fields under their canonical names. */
  type Header = map<string, seq<string>>

  /** `Header.Get`: the first value, or the empty string. */
  function Get(h: Header, name: string): string {
    if name in h && h[name] != [] then h[name][0] else ""
  }

  datatype Request = Request(verb: string, url: Url, host: string, header: Header, hasBody: bool, contentLength: int)

  /** `body` is the number of the request it answers. */
  datatype Response = Response(code: int, header: Header, contentLength: int, body: nat)

  /** What the upstream sends; it may fail instead. */
  datatype Reply = Reply(code: int, header: Header, contentLength: int)

  datatype Outcome = Returned(resp: Response) | BaseFailed | BadScheme(scheme: string) | BadHost(host: string)

  predicate IsRedirect(code: int) { code == 301 || code == 302 || code == 303 || code == 307 || code == 308 }

  /** Only these methods are safe to send again. */
  predicate Replayable(verb: string) { verb == "GET" || verb == "HEAD" }

  /** `nextRequest`: the same request to another URL, without body, and without
      credential once the host changes. */
  function NextRequest(prev: Request, next: Url): Request {
    prev.(url := next, host := "", hasBody := false, contentLength := 0,
          header := if EqualFold(Hostname(prev.url), Hostname(next)) then prev.header
                    else prev.header - {"Authorization"})
  }

  /** The base transport of one chain, with what passed over it: the requests sent,
      and the response bodies drained and closed. */
  class Wire {
    const answer: seq<Request> -> Option<Reply>
    var sent: seq<Request>
    var drained: seq<nat>
    var closed: seq<nat>

    constructor (answer: seq<Request> -> Option<Reply>)
      ensures this.answer == answer && sent == [] && drained == [] && closed == []
    {
      this.answer := answer;
      sent, drained, closed := [], [], [];
    }

    method RoundTrip(req: Request) returns (resp: Option<Response>)
      modifies this`sent
      ensures sent == old(sent) + [req]
      ensures resp == ResponseTo(answer, sent)
    {
      sent := sent + [req];
      var reply := answer(sent);
      resp := match reply
        case None => None
        case Some(r) => Some(Response(r.code, r.header, r.contentLength, |sent| - 1));
    }

    /** `drain`. */
    method Drain(resp: Response)
      modifies this`drained, this`closed
      ensures drained == old(drained) + [resp.body] && closed == old(closed) + [resp.body]
    {
      drained := drained + [resp.body];
      closed := closed + [resp.body];
    }
  }

  /** The response to the last of the requests sent. */
  function ResponseTo(answer: seq<Request> -> Option<Reply>, sent: seq<Request>): Option<Response>
    requires sent != []
  {
    match answer(sent)
    case None => None
    case Some(r) => Some(Response(r.code, r.header, r.contentLength, |sent| - 1))
  }

  /** The settings of a following transport; `resolve` is reference resolution
      (section 5.2 of RFC 3986), which may fail. */
  datatype Policy = Policy(hosts: map<string, bool>, max: int, resolve: (Url, string) -> Option<Url>)

  predicate AllowedHost(p: Policy, u: Url) {
    var h := ToLower(Hostname(u));
    h in p.hosts && p.hosts[h]
  }

  predicate AllowedUrl(p: Policy, u: Url) { (u.scheme == "http" || u.scheme == "https") && AllowedHost(p, u) }

  /** Where a response redirects a request to: `None` when it is no redirect or has no
      usable Location. */
  function RedirectTarget(p: Policy, req: Request, resp: Response): Option<Url> {
    var loc := Get(resp.header, "Location");
    if !IsRedirect(resp.code) || loc == "" then None else p.resolve(req.url, loc)
  }

  /** What a response means for the chain. */
  datatype Verdict = Final | Refused(why: Outcome) | Onward(to: Url)

  function Judge(p: Policy, req: Request, resp: Response): (v: Verdict)
    ensures v.Final? <==> RedirectTarget(p, req, resp) == None
    ensures v.Onward? ==> RedirectTarget(p, req, resp) == Some(v.to) && AllowedUrl(p, v.to)
  {
    match RedirectTarget(p, req, resp)
    case None => Final
    case Some(u) =>
      if u.scheme != "http" && u.scheme != "https" then Refused(BadScheme(u.scheme))
      else if !AllowedHost(p, u) then Refused(BadHost(Hostname(u)))
      else Onward(u)
  }

  /** Request `k + 1` is the one that the response to request `k` redirects to. */
  ghost predicate Hop(p: Policy, answer: seq<Request> -> Option<Reply>, sent: seq<Request>, k: nat)
    requires k + 1 < |sent|
  {
    && ResponseTo(answer, sent[..k + 1]).Some?
    && var v := Judge(p, sent[k], ResponseTo(answer, sent[..k + 1]).value);
    && v.Onward? && sent[k + 1] == NextRequest(sent[k], v.to)
  }

  ghost predicate IsChain(p: Policy, answer: seq<Request> -> Option<Reply>, sent: seq<Request>) {
    forall k: nat :: k + 1 < |sent| ==> Hop(p, answer, sent, k)
  }

  /** The numbers below `n`, in order. */
  function Upto(n: nat): (s: seq<nat>)
    ensures |s| == n && forall i :: 0 <= i < n ==> s[i] == i
  {
    seq(n, i => i)
  }

  lemma UptoStep(n: nat)
    ensures Upto(n + 1) == Upto(n) + [n]
  {
  }

  /** How a chain ends: what the last response is and why no further hop was made. */
  ghost predicate EndsWith(p: Policy, answer: seq<Request> -> Option<Reply>, sent: seq<Request>, out: Outcome)
    requires sent != []
  {
    var last := ResponseTo(answer, sent);
    match out
    case BaseFailed => last == None
    case Returned(resp) =>
      last == Some(resp)
      && (!Replayable(sent[0].verb) || Judge(p, sent[|sent| - 1], resp).Final? || |sent| > p.max)
    case _ =>
      last.Some? && Replayable(sent[0].verb) && |sent| <= p.max
      && Judge(p, sent[|sent| - 1], last.value) == Refused(out)
  }

  /** The bodies that must be drained and closed when a chain ends. */
  function Released(sent: seq<Request>, out: Outcome): nat
    requires sent != []
  {
    if out.BadScheme? || out.BadHost? then |sent| else |sent| - 1
  }

  /** Main result: `followingTransport.RoundTrip`. Over any upstream it makes at most
      `max + 1` calls, each further one a permitted redirect of the one before; it says
      exactly why it stopped; and every body but the one handed back is drained and
      closed once, in order. */
  method RoundTrip(p: Policy, base: Wire, req: Request) returns (out: Outcome)
    requires base.sent == [] && base.drained == [] && base.closed == []
    modifies base
    ensures Ended(p, base.answer, base.sent, req, out)
    ensures req.verb != "GET" && req.verb != "HEAD" ==> |base.sent| == 1
    ensures out.Returned? && (req.verb == "GET" || req.verb == "HEAD") ==>
              RedirectTarget(p, base.sent[|base.sent| - 1], out.resp) == None || |base.sent| == Max(0, p.max) + 1
    ensures Stopped(p, base.answer, base.sent, out)
    ensures base.closed == Upto(Released(base.sent, out)) && base.drained == base.closed
  {
    var first := base.RoundTrip(req);
    if first == None {
      return BaseFailed;
    }
    if !Replayable(req.verb) {
      return Returned(first.value);
    }
    out := Follow(p, base, req, first.value);
    StoppedForReason(p, base.answer, base.sent, req, out);
  }

  /** Why a chain that was refused was refused: the Location of the last response. */
  ghost predicate Stopped(p: Policy, answer: seq<Request> -> Option<Reply>, sent: seq<Request>, out: Outcome)
    requires sent != []
  {
    (out.BadScheme? || out.BadHost?) ==>
      exists resp, u :: ResponseTo(answer, sent) == Some(resp) && Leads(p, sent[|sent| - 1], resp, u)
                        && Becomes(p, u, Refused(out))
  }

  lemma StoppedForReason(p: Policy, answer: seq<Request> -> Option<Reply>, sent: seq<Request>, req: Request,
                         out: Outcome)
    requires Ended(p, answer, sent, req, out)
    ensures Stopped(p, answer, sent, out)
  {
    if out.BadScheme? || out.BadHost? {
      var resp := ResponseTo(answer, sent).value;
      var u := RedirectTarget(p, sent[|sent| - 1], resp).value;
      LeadsTo(p, sent[|sent| - 1], resp, u);
      JudgedAs(p, sent[|sent| - 1], resp, u);
    }
  }

  /** The loop of `followingTransport.RoundTrip`. */
  method Follow(p: Policy, base: Wire, req: Request, first: Response) returns (out: Outcome)
    requires base.sent == [req] && base.drained == [] && base.closed == [] && Replayable(req.verb)
    requires ResponseTo(base.answer, base.sent) == Some(first)
    modifies base
    ensures Ended(p, base.answer, base.sent, req, out)
    ensures base.closed == Upto(Released(base.sent, out)) && base.drained == base.closed
  {
    var resp := first;
    var cur := req;
    var i := 0;
    while i < p.max
      invariant |base.sent| == i + 1 && i <= Max(0, p.max)
      invariant Running(p, base.answer, base.sent, req, cur, resp)
      invariant base.closed == Upto(i) && base.drained == base.closed
    {
      UptoStep(i);
      var v := Inspect(p, base, cur, resp);
      if v.Final? {
        Stops(p, base.answer, base.sent, req, cur, resp);
        return Returned(resp);
      }
      if v.Refused? {
        Refuses(p, base.answer, base.sent, req, cur, resp);
        return v.why;
      }
      ghost var before := base.sent;
      ghost var prev := cur;
      cur := NextRequest(cur, v.to);
      var answered := base.RoundTrip(cur);
      GoesOn(p, base.answer, before, req, prev, resp, cur);
      i := i + 1;
      if answered == None {
        return BaseFailed;
      }
      resp := answered.value;
    }
    Stops(p, base.answer, base.sent, req, cur, resp);
    return Returned(resp);
  }

  /** A chain that has got a response to its last request and has not stopped yet. */
  ghost predicate Running(p: Policy, answer: seq<Request> -> Option<Reply>, sent: seq<Request>,
                          req: Request, cur: Request, resp: Response) {
    && sent != [] && sent[0] == req && cur == sent[|sent| - 1] && cur.verb == req.verb && Replayable(req.verb)
    && ResponseTo(answer, sent) == Some(resp) && IsChain(p, answer, sent)
  }

  /** A chain that has stopped, for a reason. */
  ghost predicate Ended(p: Policy, answer: seq<Request> -> Option<Reply>, sent: seq<Request>,
                        req: Request, out: Outcome) {
    && sent != [] && sent[0] == req && |sent| <= Max(0, p.max) + 1
    && IsChain(p, answer, sent) && EndsWith(p, answer, sent, out)
  }

  lemma Stops(p: Policy, answer: seq<Request> -> Option<Reply>, sent: seq<Request>,
              req: Request, cur: Request, resp: Response)
    requires Running(p, answer, sent, req, cur, resp) && |sent| <= Max(0, p.max) + 1
    requires Judge(p, cur, resp).Final? || |sent| > p.max
    ensures Ended(p, answer, sent, req, Returned(resp))
  {
  }

  lemma Refuses(p: Policy, answer: seq<Request> -> Option<Reply>, sent: seq<Request>,
                req: Request, cur: Request, resp: Response)
    requires Running(p, answer, sent, req, cur, resp) && |sent| <= p.max && Judge(p, cur, resp).Refused?
    ensures Ended(p, answer, sent, req, Judge(p, cur, resp).why)
  {
  }

  lemma GoesOn(p: Policy, answer: seq<Request> -> Option<Reply>, sent: seq<Request>,
               req: Request, cur: Request, resp: Response, next: Request)
    requires Running(p, answer, sent, req, cur, resp) && |sent| <= p.max
    requires Judge(p, cur, resp).Onward? && next == NextRequest(cur, Judge(p, cur, resp).to)
    ensures
      match ResponseTo(answer, sent + [next])
      case None => Ended(p, answer, sent + [next], req, BaseFailed)
      case Some(r) => Running(p, answer, sent + [next], req, next, r)
  {
    ChainGrows(p, answer, sent, next);
  }

  /** The checks of the loop: a redirect is drained before it is refused or followed. */
  method Inspect(p: Policy, base: Wire, cur: Request, resp: Response) returns (v: Verdict)
    modifies base`drained, base`closed
    ensures v == Judge(p, cur, resp)
    ensures base.drained == old(base.drained) + if v.Final? then [] else [resp.body]
    ensures base.closed == old(base.closed) + if v.Final? then [] else [resp.body]
  {
    var loc := Get(resp.header, "Location");
    if !IsRedirect(resp.code) || loc == "" {
      return Final;
    }
    var next := p.resolve(cur.url, loc);
    if next == None {
      return Final;
    }
    base.Drain(resp);
    if next.value.scheme != "http" && next.value.scheme != "https" {
      return Refused(BadScheme(next.value.scheme));
    }
    if !AllowedHost(p, next.value) {
      return Refused(BadHost(Hostname(next.value)));
    }
    return Onward(next.value);
  }

  lemma ChainGrows(p: Policy, answer: seq<Request> -> Option<Reply>, sent: seq<Request>, next: Request)
    requires sent != [] && IsChain(p, answer, sent) && ResponseTo(answer, sent).Some?
    requires
      var v := Judge(p, sent[|sent| - 1], ResponseTo(answer, sent).value);
      v.Onward? && next == NextRequest(sent[|sent| - 1], v.to)
    ensures IsChain(p, answer, sent + [next])
  {
    var more := sent + [next];
    forall k: nat | k + 1 < |more| ensures Hop(p, answer, more, k) {
      assert more[..k + 1] == sent[..k + 1];
      if k + 1 < |sent| {
        assert Hop(p, answer, sent, k);
      } else {
        assert sent[..k + 1] == sent;
      }
    }
  }

  // ---- what holds of every chain ----

  lemma NextKeeps(prev: Request, next: Url)
    ensures
      var r := NextRequest(prev, next);
      && r.url == next && r.verb == prev.verb && r.host == "" && !r.hasBody && r.contentLength == 0
      && r.header - {"Authorization"} == prev.header - {"Authorization"}
  {
  }

  /** Main result: every call after the first goes to a web URL on an allowed host, by
      the same method, without body, and with the header of the first but for the
      credential. */
  lemma {:induction false} HopsDisciplined(p: Policy, answer: seq<Request> -> Option<Reply>, sent: seq<Request>, k: nat)
    requires k < |sent| && IsChain(p, answer, sent)
    ensures k > 0 ==>
              && (sent[k].url.scheme == "http" || sent[k].url.scheme == "https")
              && ToLower(Hostname(sent[k].url)) in p.hosts && p.hosts[ToLower(Hostname(sent[k].url))]
              && !sent[k].hasBody && sent[k].contentLength == 0 && sent[k].host == ""
    ensures sent[k].verb == sent[0].verb
    ensures sent[k].header - {"Authorization"} == sent[0].header - {"Authorization"}
  {
    if k == 0 {
    } else {
      assert Hop(p, answer, sent, k - 1);
      NextKeeps(sent[k - 1], sent[k].url);
      HopsDisciplined(p, answer, sent, k - 1);
    }
  }

  // ---- what is followed and what is refused, in the terms of the upstream ----

  /** A response with one of the five redirect codes and a Location that resolves. */
  predicate Leads(p: Policy, req: Request, resp: Response, u: Url) {
    && resp.code in {301, 302, 303, 307, 308} && Get(resp.header, "Location") != ""
    && p.resolve(req.url, Get(resp.header, "Location")) == Some(u)
  }

  lemma LeadsTo(p: Policy, req: Request, resp: Response, u: Url)
    ensures Leads(p, req, resp, u) <==> RedirectTarget(p, req, resp) == Some(u)
  {
  }

  /** What becomes of a redirect to `u`: a web URL on a listed host is followed, and the
      others end the chain with an error of their own. */
  predicate Becomes(p: Policy, u: Url, v: Verdict) {
    var h := ToLower(Hostname(u));
    if u.scheme != "http" && u.scheme != "https" then v == Refused(BadScheme(u.scheme))
    else if h in p.hosts && p.hosts[h] then v == Onward(u)
    else v == Refused(BadHost(Hostname(u)))
  }

  lemma JudgedAs(p: Policy, req: Request, resp: Response, u: Url)
    requires Leads(p, req, resp, u)
    ensures Becomes(p, u, Judge(p, req, resp))
  {
    LeadsTo(p, req, resp, u);
  }

  /** Main result: while the bound allows another call, a GET or HEAD that is redirected
      ends in the error for a foreign scheme or for an unlisted host exactly when the
      Location has one, and is followed otherwise. */
  lemma RedirectExactly(p: Policy, answer: seq<Request> -> Option<Reply>, sent: seq<Request>, req: Request,
                        out: Outcome, resp: Response, u: Url)
    requires Ended(p, answer, sent, req, out) && (req.verb == "GET" || req.verb == "HEAD") && |sent| <= p.max
    requires ResponseTo(answer, sent) == Some(resp) && Leads(p, sent[|sent| - 1], resp, u)
    ensures
      var h := ToLower(Hostname(u));
      var web := u.scheme == "http" || u.scheme == "https";
      && (out == BadScheme(u.scheme) <==> !web)
      && (out == BadHost(Hostname(u)) <==> web && (h !in p.hosts || !p.hosts[h]))
      && !(web && h in p.hosts && p.hosts[h])
  {
    JudgedAs(p, sent[|sent| - 1], resp, u);
    VerbKept(p, answer, sent);
  }

  lemma VerbKept(p: Policy, answer: seq<Request> -> Option<Reply>, sent: seq<Request>)
    requires sent != [] && IsChain(p, answer, sent)
    ensures sent[|sent| - 1].verb == sent[0].verb
  {
    HopsDisciplined(p, answer, sent, |sent| - 1);
  }

  /** Main result: a request that was followed was led to its URL, a web URL on a listed
      host, by the response to the one before. */
  lemma FollowedExactly(p: Policy, answer: seq<Request> -> Option<Reply>, sent: seq<Request>, k: nat)
    requires k + 1 < |sent| && IsChain(p, answer, sent)
    ensures
      var u := sent[k + 1].url;
      && ResponseTo(answer, sent[..k + 1]).Some?
      && Leads(p, sent[k], ResponseTo(answer, sent[..k + 1]).value, u)
      && (u.scheme == "http" || u.scheme == "https")
      && ToLower(Hostname(u)) in p.hosts && p.hosts[ToLower(Hostname(u))]
  {
    assert Hop(p, answer, sent, k);
    NextKeeps(sent[k], sent[k + 1].url);
    LeadsTo(p, sent[k], ResponseTo(answer, sent[..k + 1]).value, sent[k + 1].url);
  }

  /** The hosts of the requests up to `k` are all the first one, up to case. */
  ghost predicate SameHostSoFar(sent: seq<Request>, k: nat)
    requires k < |sent|
  {
    forall j :: 0 <= j <= k ==> EqualFold(Hostname(sent[j].url), Hostname(sent[0].url))
  }

  lemma NextCredential(prev: Request, next: Url)
    ensures "Authorization" in NextRequest(prev, next).header <==>
              "Authorization" in prev.header && EqualFold(Hostname(prev.url), Hostname(next))
    ensures "Authorization" in NextRequest(prev, next).header ==>
              NextRequest(prev, next).header["Authorization"] == prev.header["Authorization"]
  {
  }

  function LowHosts(sent: seq<Request>): (hosts: seq<string>)
    ensures |hosts| == |sent|
  {
    seq(|sent|, k requires 0 <= k < |sent| => ToLower(Hostname(sent[k].url)))
  }

  function Carried(sent: seq<Request>): (carries: seq<bool>)
    ensures |carries| == |sent|
    ensures forall k :: 0 <= k < |sent| ==> carries[k] == ("Authorization" in sent[k].header)
  {
    seq(|sent|, k requires 0 <= k < |sent| => "Authorization" in sent[k].header)
  }

  /** What is carried on only while the host stays is carried exactly while it has. */
  lemma {:induction false} CarriedWhile(carries: seq<bool>, hosts: seq<string>, k: nat)
    requires k < |carries| == |hosts|
    requires forall i :: 0 <= i < |carries| - 1 ==> (carries[i + 1] <==> carries[i] && hosts[i] == hosts[i + 1])
    ensures carries[k] <==> carries[0] && forall j :: 0 <= j <= k ==> hosts[j] == hosts[0]
  {
    if k == 0 {
    } else {
      CarriedWhile(carries, hosts, k - 1);
      assert carries[k - 1 + 1] <==> carries[k - 1] && hosts[k - 1] == hosts[k - 1 + 1];
    }
  }

  lemma CredentialHop(p: Policy, answer: seq<Request> -> Option<Reply>, sent: seq<Request>, k: nat)
    requires k + 1 < |sent| && IsChain(p, answer, sent)
    ensures Carried(sent)[k + 1] <==> Carried(sent)[k] && LowHosts(sent)[k] == LowHosts(sent)[k + 1]
    ensures Carried(sent)[k + 1] ==> sent[k + 1].header["Authorization"] == sent[k].header["Authorization"]
  {
    assert Hop(p, answer, sent, k);
    NextCredential(sent[k], sent[k + 1].url);
  }

  lemma {:induction false} CredentialKept(p: Policy, answer: seq<Request> -> Option<Reply>, sent: seq<Request>, k: nat)
    requires k < |sent| && IsChain(p, answer, sent) && Carried(sent)[k]
    ensures Carried(sent)[0] && sent[k].header["Authorization"] == sent[0].header["Authorization"]
  {
    if k == 0 {
    } else {
      CredentialHop(p, answer, sent, k - 1);
      CredentialKept(p, answer, sent, k - 1);
    }
  }

  lemma SameHosts(sent: seq<Request>, k: nat)
    requires k < |sent|
    ensures SameHostSoFar(sent, k) <==> forall j :: 0 <= j <= k ==> LowHosts(sent)[j] == LowHosts(sent)[0]
  {
    assert forall j | 0 <= j < |sent| :: LowHosts(sent)[j] == ToLower(Hostname(sent[j].url));
  }

  /** Main result: a request carries the credential of the first exactly as long as the
      chain has not left the first host; once dropped it never comes back. */
  lemma CredentialDiscipline(p: Policy, answer: seq<Request> -> Option<Reply>, sent: seq<Request>, k: nat)
    requires k < |sent| && IsChain(p, answer, sent)
    ensures "Authorization" in sent[k].header <==> "Authorization" in sent[0].header && SameHostSoFar(sent, k)
    ensures "Authorization" in sent[k].header ==> sent[k].header["Authorization"] == sent[0].header["Authorization"]
  {
    forall i | 0 <= i < |sent| - 1
      ensures Carried(sent)[i + 1] <==> Carried(sent)[i] && LowHosts(sent)[i] == LowHosts(sent)[i + 1]
    {
      CredentialHop(p, answer, sent, i);
    }
    CarriedWhile(Carried(sent), LowHosts(sent), k);
    SameHosts(sent, k);
    if Carried(sent)[k] {
      CredentialKept(p, answer, sent, k);
    }
  }

  /** The credential travels by TLS only exactly when no redirect leaves https while the
      chain is still on the first host; a hop to "http" on the same host keeps it. */
  lemma CredentialByTls(p: Policy, answer: seq<Request> -> Option<Reply>, sent: seq<Request>)
    requires sent != [] && IsChain(p, answer, sent) && "Authorization" in sent[0].header
    ensures
      (forall k :: 0 <= k < |sent| && "Authorization" in sent[k].header ==> sent[k].url.scheme == "https") <==>
      (forall k :: 0 <= k < |sent| && SameHostSoFar(sent, k) ==> sent[k].url.scheme == "https")
  {
    forall k | 0 <= k < |sent| ensures "Authorization" in sent[k].header <==> SameHostSoFar(sent, k) {
      CredentialDiscipline(p, answer, sent, k);
    }
  }

  /** Main result: the upstream's answers determine the chain: two chains from one
      request agree as far as both go. */
  lemma {:induction false} ChainDetermined(p: Policy, answer: seq<Request> -> Option<Reply>,
                                           a: seq<Request>, b: seq<Request>, k: nat)
    requires IsChain(p, answer, a) && IsChain(p, answer, b)
    requires k < |a| && k < |b| && a[0] == b[0]
    ensures a[..k + 1] == b[..k + 1]
  {
    if k == 0 {
    } else {
      ChainDetermined(p, answer, a, b, k - 1);
      SameStep(p, answer, a, b, k - 1);
    }
  }

  lemma SameStep(p: Policy, answer: seq<Request> -> Option<Reply>, a: seq<Request>, b: seq<Request>, k: nat)
    requires IsChain(p, answer, a) && IsChain(p, answer, b)
    requires k + 1 < |a| && k + 1 < |b| && a[..k + 1] == b[..k + 1]
    ensures a[..k + 2] == b[..k + 2]
  {
    assert a[..k + 1][k] == b[..k + 1][k];
    assert Hop(p, answer, a, k) && Hop(p, answer, b, k);
    SameNext(p, answer, a, b, k);
    PrefixStep(a, b, k + 1);
  }

  lemma SameNext(p: Policy, answer: seq<Request> -> Option<Reply>, a: seq<Request>, b: seq<Request>, k: nat)
    requires k + 1 < |a| && k + 1 < |b| && Hop(p, answer, a, k) && Hop(p, answer, b, k)
    requires a[..k + 1] == b[..k + 1] && a[k] == b[k]
    ensures a[k + 1] == b[k + 1]
  {
  }

  lemma PrefixStep(a: seq<Request>, b: seq<Request>, k: nat)
    requires k < |a| && k < |b| && a[..k] == b[..k] && a[k] == b[k]
    ensures a[..k + 1] == b[..k + 1]
  {
  }
}
