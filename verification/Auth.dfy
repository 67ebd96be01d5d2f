/** The shared token that gates the proxy (internal/auth/auth.go), and the base path a
    redirect is handed back through (internal/server/server.go). */
module Auth {
  import opened Text
  import opened NetUrl
  import opened Redirects

  datatype Authenticator = Authenticator(token: string, anonymous: bool)

  /** Base64 decoding as the standard library does it; it may fail. */
  type Decoder = string -> Option<string>

  /** `equal`: an absent token or candidate never matches. */
  predicate Equal(a: Authenticator, candidate: string) {
    a.token != "" && candidate != "" && candidate == a.token
  }

  /** `checkPath`: what is left when the leading segment is the token, plain or
      percent-encoded. */
  function CheckPath(a: Authenticator, rest: string): Option<string> {
    var c := Cut(rest, '/');
    if !c.found || c.before == "" then None
    else if Equal(a, c.before) then Some(c.after)
    else if Unescape(c.before).Some? && Unescape(c.before).value != c.before && Equal(a, Unescape(c.before).value) then
      Some(c.after)
    else None
  }

  /** What a decoded "user:password" lets in: the token as either half. */
  predicate AcceptsHalf(a: Authenticator, userinfo: Option<string>) {
    match userinfo
    case None => false
    case Some(raw) => Equal(a, Cut(raw, ':').after) || Equal(a, Cut(raw, ':').before)
  }

  /** What the three schemes let in. */
  predicate Accepts(a: Authenticator, scheme: string, value: string, decode: Decoder) {
    if EqualFold(scheme, "bearer") || EqualFold(scheme, "token") then Equal(a, value)
    else if EqualFold(scheme, "basic") then AcceptsHalf(a, decode(value))
    else false
  }

  predicate ByScheme(a: Authenticator, c: Cutting, decode: Decoder) {
    c.found && Accepts(a, c.before, TrimSpace(c.after), decode)
  }

  predicate CheckHeaders(a: Authenticator, h: Header, decode: Decoder) {
    Equal(a, Get(h, "X-Proxy-Token")) || ByScheme(a, Cut(Get(h, "Authorization"), ' '), decode)
  }

  /** `Check`: the remainder of the request, or nothing when no credential matched. */
  function Check(a: Authenticator, h: Header, decode: Decoder, rest: string): Option<string> {
    if a.anonymous then Some(rest)
    else if CheckPath(a, rest).Some? then CheckPath(a, rest)
    else if CheckHeaders(a, h, decode) then Some(rest)
    else None
  }

  // ---- who is let in ----

  /** The token as the first path segment, as it is or percent-encoded. */
  predicate InPath(token: string, rest: string) {
    var c := Cut(rest, '/');
    c.found && (c.before == token || Unescape(c.before) == Some(token))
  }

  /** The token as user or as password of "user:password". */
  predicate IsHalf(token: string, userinfo: string) {
    Cut(userinfo, ':').before == token || Cut(userinfo, ':').after == token
  }

  predicate HasHalf(token: string, userinfo: Option<string>) { userinfo.Some? && IsHalf(token, userinfo.value) }

  /** A bearer or token credential with the token, or a basic one with a text that decodes
      to the token as one half; the scheme is written in any case. */
  predicate Offers(token: string, scheme: string, text: string, decode: Decoder) {
    || (SameLetters(scheme, "bearer") && text == token)
    || (SameLetters(scheme, "token") && text == token)
    || (SameLetters(scheme, "basic") && HasHalf(token, decode(text)))
  }

  /** A credential "<scheme> <text>" that offers the token. */
  predicate InCredential(token: string, c: Cutting, decode: Decoder) {
    c.found && Offers(token, c.before, TrimSpace(c.after), decode)
  }

  predicate InHeaders(token: string, h: Header, decode: Decoder) {
    Get(h, "X-Proxy-Token") == token || InCredential(token, Cut(Get(h, "Authorization"), ' '), decode)
  }

  lemma PathExactly(a: Authenticator, rest: string)
    requires a.token != ""
    ensures CheckPath(a, rest).Some? <==> InPath(a.token, rest)
  {
    UnescapeEmpty(Cut(rest, '/').before);
  }

  lemma UnescapeEmpty(s: string)
    ensures s == "" ==> Unescape(s) == Some("")
  {
  }

  /** The three schemes are different words. */
  lemma SchemesDiffer(s: string)
    ensures EqualFold(s, "bearer") || EqualFold(s, "token") ==> !EqualFold(s, "basic")
  {
    assert |"bearer"| == 6 && |"basic"| == 5 && |"token"| == 5;
    assert "token"[0] == 't' && "basic"[0] == 'b';
    EqualFoldIs(s, "token");
    EqualFoldIs(s, "basic");
  }

  lemma HalfIs(a: Authenticator, userinfo: Option<string>)
    requires a.token != ""
    ensures AcceptsHalf(a, userinfo) <==> HasHalf(a.token, userinfo)
  {
  }

  lemma SchemeLetters(s: string)
    ensures EqualFold(s, "bearer") <==> SameLetters(s, "bearer")
    ensures EqualFold(s, "token") <==> SameLetters(s, "token")
    ensures EqualFold(s, "basic") <==> SameLetters(s, "basic")
  {
    EqualFoldIs(s, "bearer");
    EqualFoldIs(s, "token");
    EqualFoldIs(s, "basic");
  }

  lemma SchemesExactly(a: Authenticator, scheme: string, text: string, decode: Decoder)
    requires a.token != ""
    ensures Accepts(a, scheme, text, decode) <==> Offers(a.token, scheme, text, decode)
  {
    SchemesDiffer(scheme);
    SchemeLetters(scheme);
    HalfIs(a, decode(text));
  }

  lemma CredentialExactly(a: Authenticator, c: Cutting, decode: Decoder)
    requires a.token != ""
    ensures ByScheme(a, c, decode) <==> InCredential(a.token, c, decode)
  {
    SchemesExactly(a, c.before, TrimSpace(c.after), decode);
  }

  lemma HeadersExactly(a: Authenticator, h: Header, decode: Decoder)
    requires a.token != ""
    ensures CheckHeaders(a, h, decode) <==> InHeaders(a.token, h, decode)
  {
    CredentialExactly(a, Cut(Get(h, "Authorization"), ' '), decode);
  }

  /** Whoever is let in brought the token, or the proxy is open to all. */
  predicate MayPass(a: Authenticator, h: Header, decode: Decoder, rest: string) {
    a.anonymous || (a.token != "" && (InPath(a.token, rest) || InHeaders(a.token, h, decode)))
  }

  lemma NoTokenEqual(a: Authenticator, candidate: string)
    requires a.token == ""
    ensures !Equal(a, candidate)
  {
  }

  lemma NoTokenAccepts(a: Authenticator, scheme: string, text: string, decode: Decoder)
    requires a.token == ""
    ensures !Accepts(a, scheme, text, decode)
  {
    NoTokenHalf(a, decode(text));
  }

  lemma NoTokenHalf(a: Authenticator, userinfo: Option<string>)
    requires a.token == ""
    ensures !AcceptsHalf(a, userinfo)
  {
  }

  lemma NoTokenCredential(a: Authenticator, c: Cutting, decode: Decoder)
    requires a.token == ""
    ensures !ByScheme(a, c, decode)
  {
    NoTokenAccepts(a, c.before, TrimSpace(c.after), decode);
  }

  lemma NoTokenHeaders(a: Authenticator, h: Header, decode: Decoder)
    requires a.token == ""
    ensures !CheckHeaders(a, h, decode)
  {
    NoTokenEqual(a, Get(h, "X-Proxy-Token"));
    NoTokenCredential(a, Cut(Get(h, "Authorization"), ' '), decode);
  }

  lemma NoTokenPath(a: Authenticator, rest: string)
    requires a.token == ""
    ensures CheckPath(a, rest) == None
  {
  }

  /** Main result: a request is let in exactly when the proxy is open or the token stands
      in its path, in its own header field, or in a bearer, token or basic credential; only
      a token in the path is taken off what follows. */
  lemma LetInExactly(a: Authenticator, h: Header, decode: Decoder, rest: string)
    ensures Check(a, h, decode, rest) ==
            if !MayPass(a, h, decode, rest) then None
            else if !a.anonymous && InPath(a.token, rest) then Some(Cut(rest, '/').after)
            else Some(rest)
  {
    if a.token == "" {
      NoTokenPath(a, rest);
      NoTokenHeaders(a, h, decode);
    } else {
      PathExactly(a, rest);
      HeadersExactly(a, h, decode);
    }
  }

  /** Only two header fields matter. */
  lemma ReadsTwoFields(a: Authenticator, g: Header, h: Header, decode: Decoder, rest: string)
    requires Get(g, "X-Proxy-Token") == Get(h, "X-Proxy-Token")
    requires Get(g, "Authorization") == Get(h, "Authorization")
    ensures Check(a, g, decode, rest) == Check(a, h, decode, rest)
  {
  }

  // ---- the base a redirect is handed back through ----

  /** `selfBase`: the request target without the embedded URL. */
  function SelfBase(raw: string, rest: string): string {
    if |rest| <= |raw| && raw[|raw| - |rest|..] == rest then raw[..|raw| - |rest|] else raw
  }

  lemma SelfBaseOf(base: string, rest: string)
    ensures SelfBase(base + rest, rest) == base
  {
    assert (base + rest)[|base|..] == rest && (base + rest)[..|base|] == base;
  }

  /** A configuration either has no authentication and no token, or a token that
      start-up accepts: long enough and one path segment. */
  predicate Configured(a: Authenticator) {
    if a.anonymous then a.token == "" else |a.token| >= 16 && '/' !in a.token
  }

  /** A URL as a resolved redirect spells it. */
  predicate IsWebText(x: string) { "https://" <= x || "http://" <= x }

  /** The consumed part of a request: nothing, or the token segment and its slash. */
  lemma ConsumedSegment(a: Authenticator, h: Header, decode: Decoder, rest: string) returns (front: string)
    requires Check(a, h, decode, rest).Some?
    ensures rest == front + Check(a, h, decode, rest).value
    ensures front == "" ==> a.anonymous || (CheckPath(a, rest) == None && CheckHeaders(a, h, decode))
    ensures front != "" ==> !a.anonymous && forall x :: Check(a, h, decode, front + x) == Some(x)
  {
    front := "";
    assert "" + rest == rest;
    if !a.anonymous && CheckPath(a, rest).Some? {
      var c := Cut(rest, '/');
      front := c.before + ['/'];
      forall x ensures Check(a, h, decode, front + x) == Some(x) {
        FindAt(c.before, '/', x);
      }
    }
  }

  lemma WebFirstSegment(x: string)
    requires IsWebText(x)
    ensures Cut(x, '/').found && (Cut(x, '/').before == "https:" || Cut(x, '/').before == "http:")
  {
    if "https://" <= x {
      assert x[..8] == "https://";
      assert x == "https:" + ['/'] + x[7..] by { assert x[..7] == "https:" + ['/']; }
      FindAt("https:", '/', x[7..]);
    } else {
      assert x[..7] == "http://";
      assert x == "http:" + ['/'] + x[6..] by { assert x[..6] == "http:" + ['/']; }
      FindAt("http:", '/', x[6..]);
    }
  }

  /** A real token is longer than the first segment of a web URL. */
  lemma WebIsNoToken(a: Authenticator, x: string)
    requires Configured(a) && !a.anonymous && IsWebText(x)
    ensures CheckPath(a, x) == None
  {
    WebFirstSegment(x);
    var seg := Cut(x, '/').before;
    assert '%' !in seg && |seg| <= 6;
    UnescapePlain(seg);
  }

  /** Main result: for every authenticated request the base and the remainder make up
      the target, and any web URL put behind that base authenticates in the same way,
      comes out whole, and has the same base again. */
  lemma SelfBaseFixpoint(a: Authenticator, h: Header, decode: Decoder, prefix: string, rest: string, x: string)
    requires Configured(a) && IsWebText(x) && Check(a, h, decode, rest).Some?
    ensures
      var remainder := Check(a, h, decode, rest).value;
      var base := SelfBase(prefix + rest, remainder);
      && base + remainder == prefix + rest
      && prefix <= base + x
      && Check(a, h, decode, (base + x)[|prefix|..]) == Some(x)
      && SelfBase(base + x, x) == base
  {
    var front := ConsumedSegment(a, h, decode, rest);
    var remainder := Check(a, h, decode, rest).value;
    var base := prefix + front;
    Assoc(prefix, front, remainder);
    SelfBaseOf(base, remainder);
    SelfBaseOf(base, x);
    Assoc(prefix, front, x);
    assert (prefix + (front + x))[|prefix|..] == front + x;
    if front == "" {
      assert front + x == x;
      if !a.anonymous {
        WebIsNoToken(a, x);
      }
    }
  }

  /** With the token in a header, a web URL comes out whole exactly when its scheme with
      the colon, which is its first segment, is not the token. */
  lemma HeaderFollowUp(a: Authenticator, h: Header, decode: Decoder, x: string)
    requires !a.anonymous && CheckHeaders(a, h, decode) && IsWebText(x)
    ensures Check(a, h, decode, x) == Some(x) <==> a.token != Cut(x, '/').before
    ensures Cut(x, '/').before == "https:" || Cut(x, '/').before == "http:"
  {
    WebFirstSegment(x);
    var seg := Cut(x, '/').before;
    assert '%' !in seg;
    UnescapePlain(seg);
    assert |Cut(x, '/').after| < |x|;
    HeaderToken(a, h, decode);
  }

  lemma HeaderToken(a: Authenticator, h: Header, decode: Decoder)
    requires CheckHeaders(a, h, decode)
    ensures a.token != ""
  {
    if a.token == "" {
      NoTokenHeaders(a, h, decode);
    }
  }

  /** So the length rule matters: a token spelled like a scheme would be eaten. */
  lemma SchemeTokenEaten(h: Header, decode: Decoder, t: string)
    ensures Check(Authenticator("https:", false), h, decode, "https:" + ['/'] + t) == Some(t)
  {
    FindAt("https:", '/', t);
  }
}
