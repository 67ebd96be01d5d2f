/** What the proxy does to a request on its way out and to a response on its way back
    (internal/proxy/proxy.go). */
module Forwarding {
  import opened Text
  import opened NetUrl
  import opened Redirects

  // ---- canonical header names ----

  predicate IsTokenChar(c: char) {
    IsLetter(c) || IsDigit(c) || c == '!' || c == '#' || c == '$' || c == '%' || c == '&' || c == '\'' || c == '*'
    || c == '+' || c == '-' || c == '.' || c == '^' || c == '_' || c == '`' || c == '|' || c == '~'
  }

  predicate IsToken(s: string) { forall i :: 0 <= i < |s| ==> IsTokenChar(s[i]) }

  function UpperChar(c: char): char { if 'a' <= c <= 'z' then (c as int - 32) as char else c }

  function Recased(s: string, upper: bool): (r: string)
    ensures |r| == |s| && (IsToken(s) ==> IsToken(r))
  {
    if s == "" then ""
    else [if upper then UpperChar(s[0]) else LowerChar(s[0])] + Recased(s[1..], s[0] == '-')
  }

  /** `CanonicalHeaderKey`: upper case at the start and after each hyphen, lower case
      elsewhere; a name with an illegal character stays as it is. */
  function Canonical(name: string): string { if IsToken(name) then Recased(name, true) else name }

  lemma {:induction false} RecasedTwice(s: string, upper: bool)
    ensures Recased(Recased(s, upper), upper) == Recased(s, upper)
  {
    if s == "" {
    } else {
      RecasedTwice(s[1..], s[0] == '-');
      assert Recased(s, upper)[1..] == Recased(s[1..], s[0] == '-');
    }
  }

  lemma CanonicalTwice(name: string)
    ensures Canonical(Canonical(name)) == Canonical(name)
  {
    RecasedTwice(name, true);
  }

  lemma LowOfRecased(c: char)
    ensures LowerChar(UpperChar(c)) == LowerChar(c) && LowerChar(LowerChar(c)) == LowerChar(c)
  {
  }

  lemma LowCons(c: char, s: string)
    ensures ToLower([c] + s) == [LowerChar(c)] + ToLower(s)
  {
  }

  lemma {:induction false} RecasedLow(s: string, upper: bool)
    ensures ToLower(Recased(s, upper)) == ToLower(s)
  {
    if s == "" {
    } else {
      RecasedLow(s[1..], s[0] == '-');
      LowOfRecased(s[0]);
      LowCons(if upper then UpperChar(s[0]) else LowerChar(s[0]), Recased(s[1..], s[0] == '-'));
      LowCons(s[0], s[1..]);
      assert s == [s[0]] + s[1..];
    }
  }

  lemma CanonicalLow(name: string)
    ensures ToLower(Canonical(name)) == ToLower(name)
  {
    RecasedLow(name, true);
  }

  // ---- the request on its way out ----

  /** The resolved target and the caller-facing prefix, attached to a request. */
  datatype Info = Info(target: Url, selfBase: string)

  /** What is always deleted by name. */
  const STRIPPED: set<string> := {"Authorization", "Cookie", "X-Proxy-Token", "X-Real-Ip", "Forwarded"}

  predicate IsForwarded(name: string) { "x-forwarded-" <= ToLower(name) }

  /** The names the loop over the header deletes. */
  ghost function ForwardedDeleted(h: Header): set<string> {
    set name | name in h.Keys && IsForwarded(name) :: Canonical(name)
  }

  ghost function Cleaned(h: Header): Header {
    h - STRIPPED - ForwardedDeleted(h - STRIPPED) - {"Referer"}
  }

  ghost function Rewritten(h: Header, token: string): Header {
    if token != "" then Cleaned(h)["Authorization" := ["Bearer " + token]] else Cleaned(h)
  }

  /** The outgoing request of the reverse proxy. */
  class Outgoing {
    var verb: string
    var url: Url
    var host: string
    var header: Header
    var hasBody: bool
    var contentLength: int

    constructor (r: Request)
      ensures Sent() == r
    {
      verb, url, host, header, hasBody, contentLength := r.verb, r.url, r.host, r.header, r.hasBody, r.contentLength;
    }

    function Sent(): Request
      reads this
    {
      Request(verb, url, host, header, hasBody, contentLength)
    }

    /** `rewrite`, given the credential `upstreamToken` returns. */
    method Rewrite(info: Option<Info>, token: string)
      modifies this`url, this`host, this`header
      ensures info == None ==> Sent() == old(Sent())
      ensures info.Some? ==>
                Sent() == old(Sent()).(url := info.value.target, host := info.value.target.host,
                                       header := Rewritten(old(header), token))
      ensures info.Some? ==> OnlyTheseFields(header, old(header), token)
    {
      if info == None {
        return;
      }
      url := info.value.target;
      host := info.value.target.host;
      ghost var h := header;
      StripHeader(token);
      OnlyOwnCredential(h, token);
    }

    /** The deletions, and the proxy's own credential. */
    method StripHeader(token: string)
      modifies this`header
      ensures header == Rewritten(old(header), token)
    {
      header := header - {"Authorization"};
      header := header - {"Cookie"};
      header := header - {"X-Proxy-Token"};
      header := header - {"X-Real-Ip"};
      header := header - {"Forwarded"};
      assert header == old(header) - STRIPPED;
      DeleteForwarded();
      header := header - {"Referer"};
      if token != "" {
        header := header["Authorization" := ["Bearer " + token]];
      }
    }

    /** The loop over the header: keys come in any order, and one that has been deleted
        meanwhile is skipped. */
    method DeleteForwarded()
      modifies this`header
      ensures header == old(header) - ForwardedDeleted(old(header))
    {
      ghost var was := header;
      ghost var gone: set<string> := {};
      var rest := header.Keys;
      while rest != {}
        invariant rest <= was.Keys
        invariant header == was - gone && gone <= ForwardedDeleted(was)
        invariant forall name :: name in was.Keys - rest && IsForwarded(name) ==> Canonical(name) in gone
        decreases rest
      {
        var name :| name in rest;
        if name in header {
          if IsForwarded(name) {
            header := header - {Canonical(name)};
            gone := gone + {Canonical(name)};
          }
        } else if IsForwarded(name) {
          assert name in gone;
          GoneIsCanonical(was, name);
        }
        rest := rest - {name};
      }
      assert gone == ForwardedDeleted(was);
    }
  }

  lemma GoneIsCanonical(h: Header, name: string)
    requires name in ForwardedDeleted(h)
    ensures Canonical(name) == name
  {
    var other :| other in h.Keys && IsForwarded(other) && Canonical(other) == name;
    CanonicalTwice(other);
  }

  // ---- which fields go out, name by name ----

  /** A name that starts with "x-forwarded-" in any case. */
  predicate StartsXForwarded(name: string) { |name| >= 12 && SameLetters(name[..12], "x-forwarded-") }

  lemma ForwardedIs(name: string)
    ensures IsForwarded(name) <==> StartsXForwarded(name)
  {
    var low := ToLower(name);
    assert ToLower("x-forwarded-") == "x-forwarded-";
    if |name| >= 12 {
      assert low[..12] == ToLower(name[..12]);
      EqualFoldIs(name[..12], "x-forwarded-");
    }
  }

  /** No small letter at the start or after a hyphen, and no capital elsewhere. */
  predicate Cased(s: string, upper: bool) { forall i :: 0 <= i < |s| ==> CasedAt(s, i, upper) }

  predicate CasedAt(s: string, i: nat, upper: bool)
    requires i < |s|
  {
    if (if i == 0 then upper else s[i - 1] == '-') then !('a' <= s[i] <= 'z') else !('A' <= s[i] <= 'Z')
  }

  lemma {:induction false} RecasedFixed(s: string, upper: bool)
    ensures Recased(s, upper) == s <==> Cased(s, upper)
  {
    if s == "" {
    } else {
      var rest := s[1..];
      RecasedFixed(rest, s[0] == '-');
      assert s == [s[0]] + rest && Recased(s, upper)[1..] == Recased(rest, s[0] == '-');
      CasedStep(s, upper);
    }
  }

  lemma CasedStep(s: string, upper: bool)
    requires s != ""
    ensures Cased(s, upper) <==>
              Cased(s[1..], s[0] == '-') && if upper then !('a' <= s[0] <= 'z') else !('A' <= s[0] <= 'Z')
  {
    var rest := s[1..];
    var hyphen := s[0] == '-';
    if Cased(s, upper) {
      forall i | 0 <= i < |rest| ensures CasedAt(rest, i, hyphen) {
        assert CasedAt(s, i + 1, upper);
      }
      assert CasedAt(s, 0, upper);
    }
    if Cased(rest, hyphen) && CasedAt(s, 0, upper) {
      forall i | 0 <= i < |s| ensures CasedAt(s, i, upper) {
        if i > 0 {
          assert CasedAt(rest, i - 1, hyphen);
        }
      }
    }
  }

  predicate IsCanonical(name: string) { IsToken(name) ==> Cased(name, true) }

  lemma CanonicalExactly(name: string)
    ensures Canonical(name) == name <==> IsCanonical(name)
  {
    RecasedFixed(name, true);
  }

  /** The fields of an outgoing header: the proxy's own credential, and all of the
      client's but for six and the canonical X-Forwarded-* ones. */
  predicate GoesOut(h: Header, token: string, name: string) {
    if name == "Authorization" then token != ""
    else
      && name in h && name !in {"Cookie", "X-Proxy-Token", "X-Real-Ip", "Forwarded", "Referer"}
      && !(StartsXForwarded(name) && IsCanonical(name))
  }

  ghost predicate OnlyTheseFields(out: Header, h: Header, token: string) {
    && (forall name :: name in out <==> GoesOut(h, token, name))
    && forall name :: name in out ==>
         out[name] == if name == "Authorization" then ["Bearer " + token] else h[name]
  }

  lemma DeletedExactly(h: Header, name: string)
    requires name in h
    ensures name in ForwardedDeleted(h) <==> StartsXForwarded(name) && IsCanonical(name)
  {
    ForwardedIs(name);
    CanonicalExactly(name);
    if name in ForwardedDeleted(h) {
      GoneIsCanonical(h, name);
      var other :| other in h.Keys && IsForwarded(other) && Canonical(other) == name;
      CanonicalLow(other);
      assert ToLower(name) == ToLower(other);
      assert IsForwarded(name);
    } else {
      assert IsForwarded(name) ==> Canonical(name) in ForwardedDeleted(h);
    }
  }

  lemma CleanedExactly(h: Header, name: string)
    ensures name in Cleaned(h) <==>
              && name in h && name !in {"Authorization", "Cookie", "X-Proxy-Token", "X-Real-Ip", "Forwarded", "Referer"}
              && !(StartsXForwarded(name) && IsCanonical(name))
  {
    if name in h - STRIPPED {
      DeletedExactly(h - STRIPPED, name);
    }
  }

  /** Main result: exactly the named fields do not go out, the only credential is the
      proxy's own, and every other field is untouched. */
  lemma OnlyOwnCredential(h: Header, token: string)
    ensures OnlyTheseFields(Rewritten(h, token), h, token)
  {
    forall name ensures name in Rewritten(h, token) <==> GoesOut(h, token, name) {
      CleanedExactly(h, name);
    }
  }

  /** Main result: a client's X-Forwarded-* field is stripped exactly when its name is
      spelled canonically, as the server's parser spells every legal name. */
  lemma ForwardedStripped(h: Header, token: string, name: string)
    requires name in h && StartsXForwarded(name)
    ensures name in Rewritten(h, token) <==> !IsCanonical(name)
  {
    OnlyOwnCredential(h, token);
    FixedNames(name);
  }

  /** In lower case the client's address goes out. */
  lemma LowerCaseSurvives(h: Header, token: string, name: string)
    requires name == "x-forwarded-for" && name in h
    ensures name in Rewritten(h, token)
  {
    assert name[..12] == "x-forwarded-" && name[0] == 'x';
    assert IsToken(name);
    ForwardedStripped(h, token, name);
  }

  lemma FixedNames(name: string)
    requires StartsXForwarded(name)
    ensures name !in {"Authorization", "Cookie", "X-Proxy-Token", "X-Real-Ip", "Forwarded", "Referer"}
  {
    assert |"Authorization"| == 13 && |"X-Proxy-Token"| == 13 && "Authorization"[1] == 'u' && "X-Proxy-Token"[2] == 'P';
    assert "x-forwarded-"[1] == '-' && "x-forwarded-"[2] == 'f';
    assert SameLetter(name[..12][1], '-') && SameLetter(name[..12][2], 'f');
    assert |"Cookie"| == 6 && |"X-Real-Ip"| == 9 && |"Forwarded"| == 9 && |"Referer"| == 7;
  }

  lemma HopField(p: Policy, answer: seq<Request> -> Option<Reply>, sent: seq<Request>, k: nat,
                 h: Header, token: string, name: string)
    requires k < |sent| && IsChain(p, answer, sent) && sent[0].header == Rewritten(h, token)
    requires name != "Authorization"
    ensures name in sent[k].header <==> GoesOut(h, token, name)
    ensures name in sent[k].header ==> sent[k].header[name] == h[name]
  {
    HopsDisciplined(p, answer, sent, k);
    OnlyOwnCredential(h, token);
    OtherFields(sent[k].header, sent[0].header, name);
  }

  lemma HopCredential(p: Policy, answer: seq<Request> -> Option<Reply>, sent: seq<Request>, k: nat,
                      h: Header, token: string)
    requires k < |sent| && IsChain(p, answer, sent) && sent[0].header == Rewritten(h, token)
    ensures "Authorization" in sent[k].header <==> token != "" && SameHostSoFar(sent, k)
    ensures "Authorization" in sent[k].header ==> sent[k].header["Authorization"] == ["Bearer " + token]
  {
    CredentialDiscipline(p, answer, sent, k);
    OnlyOwnCredential(h, token);
  }

  /** Main result: on every hop of a chain that starts with a rewritten request, the
      credential is the proxy's and only up to the first change of host, none of the
      client's identifying fields appears, and the other fields are the client's. */
  lemma ChainCarriesNothing(p: Policy, answer: seq<Request> -> Option<Reply>, sent: seq<Request>, k: nat,
                            h: Header, token: string)
    requires k < |sent| && IsChain(p, answer, sent) && sent[0].header == Rewritten(h, token)
    ensures "Authorization" in sent[k].header <==> token != "" && SameHostSoFar(sent, k)
    ensures "Authorization" in sent[k].header ==> sent[k].header["Authorization"] == ["Bearer " + token]
    ensures forall name :: name in {"Cookie", "X-Proxy-Token", "X-Real-Ip", "Forwarded", "Referer"} ==>
                             name !in sent[k].header
    ensures forall name :: name in sent[k].header && name != "Authorization" ==>
                             && name in h && sent[k].header[name] == h[name]
                             && !(StartsXForwarded(name) && IsCanonical(name))
  {
    HopCredential(p, answer, sent, k, h, token);
    NotTheCredential();
    forall name | name in {"Cookie", "X-Proxy-Token", "X-Real-Ip", "Forwarded", "Referer"}
      ensures name !in sent[k].header
    {
      HopField(p, answer, sent, k, h, token, name);
    }
    forall name | name in sent[k].header && name != "Authorization"
      ensures name in h && sent[k].header[name] == h[name] && !(StartsXForwarded(name) && IsCanonical(name))
    {
      HopField(p, answer, sent, k, h, token, name);
    }
  }

  lemma NotTheCredential()
    ensures "Authorization" !in {"Cookie", "X-Proxy-Token", "X-Real-Ip", "Forwarded", "Referer"}
  {
    assert "Authorization"[0] == 'A';
  }

  lemma OtherFields(a: Header, b: Header, name: string)
    requires a - {"Authorization"} == b - {"Authorization"} && name != "Authorization"
    ensures name in a <==> name in b
    ensures name in a ==> a[name] == b[name]
  {
    assert name in a <==> name in a - {"Authorization"};
    assert name in b <==> name in b - {"Authorization"};
    assert name in a ==> (a - {"Authorization"})[name] == a[name];
  }

  // ---- the response on its way back ----

  datatype Options = Options(sizeLimit: int, cors: bool)

  /** What a response may not set on the proxy's own domain. */
  const DROPPED: set<string> :=
    {"Set-Cookie", "Content-Security-Policy", "Content-Security-Policy-Report-Only", "Clear-Site-Data"}

  function Rehosted(h: Header, o: Options): Header {
    var r := (h - DROPPED)["X-Robots-Tag" := ["noindex, nofollow, noarchive"]];
    if o.cors then r["Access-Control-Allow-Origin" := ["*"]]["Access-Control-Expose-Headers" := ["*"]] else r
  }

  /** The Location handed to the client: through this proxy, where it resolves. */
  function RelayedHeader(h: Header, code: int, info: Option<Info>, base: Option<Url>,
                         resolve: (Url, string) -> Option<Url>, render: Url -> string): Header {
    var loc := Get(h, "Location");
    if loc != "" && IsRedirect(code) && info.Some? && base.Some? && resolve(base.value, loc).Some?
    then h["Location" := [info.value.selfBase + render(resolve(base.value, loc).value)]]
    else h
  }

  predicate Oversized(o: Options, contentLength: int, base: Option<Url>) {
    o.sizeLimit > 0 && contentLength > o.sizeLimit && base.Some?
  }

  function OversizedHeader(target: string): Header {
    map["Location" := [target], "Content-Type" := ["text/plain; charset=utf-8"],
        "X-Robots-Tag" := ["noindex, nofollow, noarchive"]]
  }

  /** A response on its way to the client. */
  datatype Handed = Handed(code: int, header: Header, contentLength: int, bodyOpen: bool)

  /** What `modifyResponse` leaves of a response to the request for `at`. */
  function Left(was: Handed, info: Option<Info>, o: Options, at: Option<Url>,
                resolve: (Url, string) -> Option<Url>, render: Url -> string): Handed {
    if Oversized(o, was.contentLength, at) then Handed(302, OversizedHeader(render(at.value)), 0, false)
    else was.(header := RelayedHeader(Rehosted(was.header, o), was.code, info, at, resolve, render))
  }

  /** `*http.Response` as `modifyResponse` sees it; `request` is the URL of the request
      it answers, and `render` is `URL.String`. */
  class Incoming {
    var code: int
    var header: Header
    var contentLength: int
    var bodyOpen: bool
    const request: Option<Url>

    constructor (r: Response, request: Option<Url>)
      ensures View() == Handed(r.code, r.header, r.contentLength, true) && this.request == request
    {
      code, header, contentLength, bodyOpen := r.code, r.header, r.contentLength, true;
      this.request := request;
    }

    function View(): Handed
      reads this
    {
      Handed(code, header, contentLength, bodyOpen)
    }

    /** `modifyResponse`, with the request's info already looked up. */
    method Modify(info: Option<Info>, o: Options, resolve: (Url, string) -> Option<Url>, render: Url -> string)
      modifies this
      ensures View() == Left(old(View()), info, o, request, resolve, render)
      ensures HandedOn(View(), old(View()), info, o, request, resolve, render)
    {
      ghost var was := View();
      RehostHeader(o);
      RelayLocation(info, resolve, render);
      if o.sizeLimit > 0 && contentLength > o.sizeLimit && request.Some? {
        RedirectOversized(render);
      }
      LeftExactly(was, info, o, request, resolve, render);
    }

    /** The deletions and settings that start `modifyResponse`. */
    method RehostHeader(o: Options)
      modifies this`header
      ensures header == Rehosted(old(header), o)
    {
      header := header - {"Set-Cookie"};
      header := header - {"Content-Security-Policy"};
      header := header - {"Content-Security-Policy-Report-Only"};
      header := header - {"Clear-Site-Data"};
      assert header == old(header) - DROPPED;
      header := header["X-Robots-Tag" := ["noindex, nofollow, noarchive"]];
      if o.cors {
        header := header["Access-Control-Allow-Origin" := ["*"]];
        header := header["Access-Control-Expose-Headers" := ["*"]];
      }
    }

    /** A redirect that reached this point is sent back through the proxy. */
    method RelayLocation(info: Option<Info>, resolve: (Url, string) -> Option<Url>, render: Url -> string)
      modifies this`header
      ensures header == RelayedHeader(old(header), code, info, request, resolve, render)
    {
      var loc := Get(header, "Location");
      if loc != "" && IsRedirect(code) && info.Some? && request.Some? {
        var abs := resolve(request.value, loc);
        if abs.Some? {
          header := header["Location" := [info.value.selfBase + render(abs.value)]];
        }
      }
    }

    /** `redirectOversized`. */
    method RedirectOversized(render: Url -> string)
      requires request.Some?
      modifies this
      ensures View() == Handed(302, OversizedHeader(render(request.value)), 0, false)
    {
      var target := render(request.value);
      bodyOpen := false;
      code := 302;
      header := OversizedHeader(target);
      contentLength := 0;
    }
  }

  /** Over the limit, and an answer to a request at `at`. */
  predicate TooLarge(o: Options, contentLength: int, at: Option<Url>) {
    o.sizeLimit > 0 && contentLength > o.sizeLimit && at.Some?
  }

  /** The Location a client gets: the upstream URL itself over the size limit, back
      through the proxy for a redirect that resolves, and where the upstream said
      otherwise. */
  function LocationLeft(was: Handed, info: Option<Info>, o: Options, at: Option<Url>,
                        resolve: (Url, string) -> Option<Url>, render: Url -> string): string {
    var loc := Get(was.header, "Location");
    if TooLarge(o, was.contentLength, at) then render(at.value)
    else if was.code in {301, 302, 303, 307, 308} && loc != "" && info.Some? && at.Some? && resolve(at.value, loc).Some?
    then info.value.selfBase + render(resolve(at.value, loc).value)
    else loc
  }

  /** The other fields of a response within the limit, name by name. */
  ghost predicate FieldsKept(out: Header, h: Header, cors: bool) {
    && "Set-Cookie" !in out && "Content-Security-Policy" !in out
    && "Content-Security-Policy-Report-Only" !in out && "Clear-Site-Data" !in out
    && "X-Robots-Tag" in out && out["X-Robots-Tag"] == ["noindex, nofollow, noarchive"]
    && (cors ==> "Access-Control-Allow-Origin" in out && out["Access-Control-Allow-Origin"] == ["*"])
    && (cors ==> "Access-Control-Expose-Headers" in out && out["Access-Control-Expose-Headers"] == ["*"])
    && forall name ::
         name !in {"Set-Cookie", "Content-Security-Policy", "Content-Security-Policy-Report-Only", "Clear-Site-Data",
                   "X-Robots-Tag", "Location"}
         && !(cors && name in {"Access-Control-Allow-Origin", "Access-Control-Expose-Headers"}) ==>
           (name in out <==> name in h) && (name in h ==> out[name] == h[name])
  }

  /** What a client gets of a response. */
  ghost predicate HandedOn(out: Handed, was: Handed, info: Option<Info>, o: Options, at: Option<Url>,
                           resolve: (Url, string) -> Option<Url>, render: Url -> string) {
    && Get(out.header, "Location") == LocationLeft(was, info, o, at, resolve, render)
    && if TooLarge(o, was.contentLength, at)
       then out.code == 302 && out.contentLength == 0 && !out.bodyOpen
            && out.header.Keys == {"Location", "Content-Type", "X-Robots-Tag"}
       else out.code == was.code && out.contentLength == was.contentLength && out.bodyOpen == was.bodyOpen
            && FieldsKept(out.header, was.header, o.cors)
  }

  lemma LocationKept(was: Handed, info: Option<Info>, o: Options, at: Option<Url>,
                     resolve: (Url, string) -> Option<Url>, render: Url -> string)
    ensures Get(Left(was, info, o, at, resolve, render).header, "Location") ==
            LocationLeft(was, info, o, at, resolve, render)
  {
    RehostedKeepsLocation(was.header, o);
  }

  lemma RehostedFields(h: Header, o: Options)
    ensures FieldsKept(Rehosted(h, o), h, o.cors)
  {
    DroppedNames();
    RehostNamesDiffer();
  }

  lemma RehostNamesDiffer()
    ensures "X-Robots-Tag" != "Access-Control-Allow-Origin" && "X-Robots-Tag" != "Access-Control-Expose-Headers"
    ensures "Access-Control-Allow-Origin" != "Access-Control-Expose-Headers"
    ensures "Location" !in {"Set-Cookie", "Content-Security-Policy", "Content-Security-Policy-Report-Only",
                            "Clear-Site-Data", "X-Robots-Tag", "Access-Control-Allow-Origin",
                            "Access-Control-Expose-Headers"}
  {
    assert |"Location"| == 8 && |"X-Robots-Tag"| == 12 && |"Access-Control-Allow-Origin"| == 27;
    assert |"Access-Control-Expose-Headers"| == 29 && |"Set-Cookie"| == 10 && |"Clear-Site-Data"| == 15;
    assert |"Content-Security-Policy"| == 23 && |"Content-Security-Policy-Report-Only"| == 35;
  }

  lemma RelayedFields(h: Header, code: int, info: Option<Info>, at: Option<Url>,
                      resolve: (Url, string) -> Option<Url>, render: Url -> string, was: Header, cors: bool)
    requires FieldsKept(h, was, cors)
    ensures FieldsKept(RelayedHeader(h, code, info, at, resolve, render), was, cors)
  {
    RehostNamesDiffer();
  }

  /** Main result: of a response within the limit the client gets all fields but the four
      that would act on the proxy's own domain, with the marks that are added and the
      Location as stated; over the limit it gets three fields and no body. */
  lemma LeftExactly(was: Handed, info: Option<Info>, o: Options, at: Option<Url>,
                    resolve: (Url, string) -> Option<Url>, render: Url -> string)
    ensures HandedOn(Left(was, info, o, at, resolve, render), was, info, o, at, resolve, render)
  {
    LocationKept(was, info, o, at, resolve, render);
    RehostedFields(was.header, o);
    RelayedFields(Rehosted(was.header, o), was.code, info, at, resolve, render, was.header, o.cors);
  }

  lemma DroppedNames()
    ensures "Location" !in DROPPED && "X-Robots-Tag" !in DROPPED
    ensures "Access-Control-Allow-Origin" !in DROPPED && "Access-Control-Expose-Headers" !in DROPPED
  {
    assert |"Location"| == 8 && |"X-Robots-Tag"| == 12 && |"Access-Control-Allow-Origin"| == 27;
    assert |"Access-Control-Expose-Headers"| == 29 && |"Set-Cookie"| == 10 && |"Clear-Site-Data"| == 15;
    assert |"Content-Security-Policy"| == 23 && |"Content-Security-Policy-Report-Only"| == 35;
  }

  lemma RehostedKeepsLocation(h: Header, o: Options)
    ensures Get(Rehosted(h, o), "Location") == Get(h, "Location")
  {
    DroppedNames();
    assert |"Location"| == 8 && |"X-Robots-Tag"| == 12 && |"Access-Control-Allow-Origin"| == 27;
    assert |"Access-Control-Expose-Headers"| == 29;
  }
}
