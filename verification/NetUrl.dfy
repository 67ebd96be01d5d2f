/** The part of Go's `net/url` the matcher relies on: percent-coding and the split
    into scheme, user information, host, path, query and fragment
    (sections 2.1 and 3.1 to 3.5 of RFC 3986, with Go's own deviations). */
module NetUrl {
  import opened Text

  // ---- character classes ----

  predicate IsLetter(c: char) { 'a' <= c <= 'z' || 'A' <= c <= 'Z' }

  predicate IsDigit(c: char) { '0' <= c <= '9' }

  predicate IsUnreserved(c: char) {
    IsLetter(c) || IsDigit(c) || c == '-' || c == '_' || c == '.' || c == '~'
  }

  /** The characters Go leaves alone when it encodes a whole path. */
  predicate IsPathPlain(c: char) {
    IsUnreserved(c) || c == '$' || c == '&' || c == '+' || c == ',' || c == '/' || c == ':' || c == ';'
    || c == '=' || c == '@'
  }

  /** The characters Go accepts unescaped in a path that is already encoded. */
  predicate IsPathValid(c: char) {
    IsPathPlain(c) || c == '!' || c == '\'' || c == '(' || c == ')' || c == '*' || c == '[' || c == ']' || c == '%'
  }

  predicate IsHostPlain(c: char) {
    IsUnreserved(c) || c == '!' || c == '$' || c == '&' || c == '\'' || c == '(' || c == ')' || c == '*' || c == '+'
    || c == ',' || c == ';' || c == '=' || c == ':' || c == '[' || c == ']' || c == '<' || c == '>' || c == '"'
  }

  predicate IsUserinfoValid(c: char) {
    IsUnreserved(c) || c == ':' || c == '!' || c == '$' || c == '&' || c == '\'' || c == '(' || c == ')' || c == '*'
    || c == '+' || c == ',' || c == ';' || c == '=' || c == '%' || c == '@'
  }

  predicate IsControl(c: char) { c < ' ' || c == '\U{7F}' }

  predicate HasControl(s: string) { exists i :: 0 <= i < |s| && IsControl(s[i]) }

  // ---- percent-coding ----

  predicate IsHex(c: char) { IsDigit(c) || 'a' <= c <= 'f' || 'A' <= c <= 'F' }

  function UnHex(c: char): (n: nat)
    requires IsHex(c)
    ensures n < 16
  {
    if IsDigit(c) then c as int - '0' as int
    else if 'a' <= c <= 'f' then c as int - 'a' as int + 10
    else c as int - 'A' as int + 10
  }

  function HexDigit(n: nat): (c: char)
    requires n < 16
    ensures IsHex(c) && UnHex(c) == n
  {
    if n < 10 then ('0' as int + n) as char else ('A' as int + n - 10) as char
  }

  function Prepend(a: string, s: Option<string>): Option<string> {
    match s case None => None case Some(t) => Some(a + t)
  }

  /** `unescape` for paths, path segments, fragments and user information, which
      fails only on a "%" that two hexadecimal digits do not follow. */
  function Unescape(s: string): Option<string>
    decreases |s|
  {
    if s == "" then Some("")
    else if s[0] == '%' then
      if |s| < 3 || !IsHex(s[1]) || !IsHex(s[2]) then None
      else Prepend([(16 * UnHex(s[1]) + UnHex(s[2])) as char], Unescape(s[3..]))
    else Prepend([s[0]], Unescape(s[1..]))
  }

  /** `unescape` for hosts: only bytes from 0x80 on, and "%" itself, may be
      spelled with a "%", and only some ASCII characters may stand unescaped. */
  function UnescapeHost(s: string): Option<string>
    decreases |s|
  {
    if s == "" then Some("")
    else if s[0] == '%' then
      if |s| < 3 || !IsHex(s[1]) || !IsHex(s[2]) || (UnHex(s[1]) < 8 && s[..3] != "%25") then None
      else Prepend([(16 * UnHex(s[1]) + UnHex(s[2])) as char], UnescapeHost(s[3..]))
    else if s[0] < '\U{80}' && !IsHostPlain(s[0]) then None
    else Prepend([s[0]], UnescapeHost(s[1..]))
  }

  /** `PathMode` is Go's path encoding. `ComponentMode` is the encoding clients
      apply to a whole embedded URL, which leaves only unreserved characters. */
  datatype Mode = PathMode | ComponentMode

  /** Characters are bytes; one above 255 never occurs and is left alone. */
  predicate ShouldEscape(mode: Mode, c: char) {
    c < '\U{100}' && !(if mode.PathMode? then IsPathPlain(c) else IsUnreserved(c))
  }

  function EscapeChar(mode: Mode, c: char): (r: string)
    ensures |r| >= 1
  {
    if ShouldEscape(mode, c) then ['%', HexDigit(c as int / 16), HexDigit(c as int % 16)] else [c]
  }

  function Escape(mode: Mode, s: string): string {
    if s == "" then "" else EscapeChar(mode, s[0]) + Escape(mode, s[1..])
  }

  predicate ValidEncoded(s: string) {
    forall i :: 0 <= i < |s| ==> s[i] >= '\U{100}' || IsPathValid(s[i])
  }

  // ---- URLs ----

  datatype Url = Url(scheme: string, opaquePart: string, user: Option<string>, host: string, path: string,
                     rawPath: string, forceQuery: bool, rawQuery: string, fragment: string)

  const NO_URL := Url("", "", None, "", "", "", false, "", "")

  /** `setPath` keeps the encoded form only where re-encoding would not give it back. */
  function SetPath(u: Url, p: string): Option<Url> {
    match Unescape(p)
    case None => None
    case Some(path) => Some(u.(path := path, rawPath := if Escape(PathMode, path) == p then "" else p))
  }

  function EscapedPath(u: Url): string {
    if u.rawPath != "" && ValidEncoded(u.rawPath) && Unescape(u.rawPath) == Some(u.path) then u.rawPath
    else if u.path == "*" then "*"
    else Escape(PathMode, u.path)
  }

  predicate ValidOptionalPort(port: string) {
    port == "" || (port[0] == ':' && forall i :: 1 <= i < |port| ==> IsDigit(port[i]))
  }

  /** `parseHost`; an address in brackets is taken without a zone. */
  function ParseHost(host: string): Option<string> {
    if StartsWith(host, '[') && FindLast(host, ']') == 0 then None
    else if StartsWith(host, '[') && !ValidOptionalPort(host[FindLast(host, ']')..]) then None
    else if !(StartsWith(host, '[')) && FindLast(host, ':') > 0
              && !ValidOptionalPort(host[FindLast(host, ':') - 1..]) then None
    else UnescapeHost(host)
  }

  function ParseAuthority(u: Url, authority: string): Option<Url> {
    var at := FindLast(authority, '@');
    match ParseHost(authority[at..])
    case None => None
    case Some(host) =>
      if at == 0 then Some(u.(host := host))
      else
        var info := authority[..at - 1];
        if (exists i :: 0 <= i < |info| && !IsUserinfoValid(info[i])) || Unescape(info) == None then None
        else Some(u.(host := host, user := Some(info)))
  }

  /** `URL.Hostname`: the host without a port and without brackets. */
  function Hostname(u: Url): string {
    var colon := FindLast(u.host, ':');
    var h := if colon > 0 && ValidOptionalPort(u.host[colon - 1..]) then u.host[..colon - 1] else u.host;
    if |h| >= 2 && h[0] == '[' && h[|h| - 1] == ']' then h[1..|h| - 1] else h
  }

  predicate IsSchemeChar(c: char) { IsLetter(c) || IsDigit(c) || c == '+' || c == '-' || c == '.' }

  function SchemeLength(s: string): (n: nat)
    ensures n <= |s| && forall i :: 0 <= i < n ==> IsSchemeChar(s[i])
    ensures n < |s| ==> !IsSchemeChar(s[n])
  {
    if s == "" || !IsSchemeChar(s[0]) then 0 else 1 + SchemeLength(s[1..])
  }

  /** `getScheme`: the scheme and what follows the colon. */
  function SplitScheme(s: string): Option<(string, string)> {
    var n := SchemeLength(s);
    if n == |s| || s[n] != ':' then Some(("", s))
    else if n == 0 then None
    else if IsLetter(s[0]) then Some((s[..n], s[n + 1..]))
    else Some(("", s))
  }

  /** What follows "//": an authority up to the first slash, then a path. */
  function ParseNetPath(u: Url, s: string): Option<Url> {
    var slash := Find(s, '/');
    match ParseAuthority(u, s[..slash])
    case None => None
    case Some(v) => SetPath(v, s[slash..])
  }

  /** What follows the scheme: the query comes off first. */
  function ParseHierarchy(scheme: string, rest: string): Option<Url> {
    var q := Find(rest, '?');
    var main := rest[..q];
    var u := NO_URL.(scheme := scheme, forceQuery := q + 1 == |rest|,
                    rawQuery := if q < |rest| then rest[q + 1..] else "");
    var slashes3 := StartsTwice(main, '/') && |main| >= 3 && main[2] == '/';
    if !StartsWith(main, '/') && scheme != "" then Some(u.(opaquePart := main))
    else if !StartsWith(main, '/') && ':' in Cut(main, '/').before then None
    else if (scheme != "" || !slashes3) && StartsTwice(main, '/') then ParseNetPath(u, main[2..])
    else SetPath(u, main)
  }

  function WithFragment(u: Option<Url>, fragment: string): Option<Url> {
    if u == None || fragment == "" then u
    else match Unescape(fragment)
      case None => None
      case Some(f) => Some(u.value.(fragment := f))
  }

  /** `url.Parse`. */
  function Parse(raw: string): Option<Url> {
    var c := Cut(raw, '#');
    if HasControl(c.before) then None
    else if c.before == "*" then WithFragment(Some(NO_URL.(path := "*")), c.after)
    else match SplitScheme(c.before)
      case None => None
      case Some(split) => WithFragment(ParseHierarchy(ToLower(split.0), split.1), c.after)
  }

  // ---- percent-coding laws ----

  lemma PrependTwice(a: string, b: string, s: Option<string>)
    ensures Prepend(a, Prepend(b, s)) == Prepend(a + b, s)
  {
    if s.Some? {
      assert a + (b + s.value) == a + b + s.value;
    }
  }

  lemma {:induction false} UnescapeConcat(a: string, b: string)
    requires Unescape(a).Some?
    ensures Unescape(a + b) == Prepend(Unescape(a).value, Unescape(b))
    decreases |a|
  {
    if a == "" {
      assert a + b == b;
      assert Unescape(b).Some? ==> "" + Unescape(b).value == Unescape(b).value;
    } else {
      var n := if a[0] == '%' then 3 else 1;
      assert (a + b)[n..] == a[n..] + b;
      UnescapeConcat(a[n..], b);
      PrependTwice(Unescape(a).value[..1], Unescape(a[n..]).value, Unescape(b));
    }
  }

  lemma {:induction false} UnescapePlain(a: string)
    requires '%' !in a
    ensures Unescape(a) == Some(a)
  {
    if a == "" {
    } else {
      UnescapePlain(a[1..]);
      assert a == [a[0]] + a[1..];
    }
  }

  /** The first digit of a pair is the greater one. */
  lemma HexPairs(pair: string, space: string)
    requires pair == "%2F" && space == " "
    ensures Unescape(pair) == Some("/") && Escape(PathMode, space) == "%20"
  {
    assert pair[3..] == "" && Unescape(pair[3..]) == Some("");
    assert UnHex(pair[1]) == 2 && UnHex(pair[2]) == 15 && (47 as char) == '/';
    assert ['/'] + "" == "/";
    assert space[1..] == "" && Escape(PathMode, space[1..]) == "";
    assert EscapeChar(PathMode, ' ') == "%20";
  }

  /** A part that decodes to itself can be put in front. */
  lemma UnescapePrefix(a: string, b: string)
    requires '%' !in a
    ensures Unescape(a + b) == Prepend(a, Unescape(b))
  {
    UnescapePlain(a);
    UnescapeConcat(a, b);
  }

  lemma UnescapeEscapeChar(mode: Mode, c: char)
    ensures Unescape(EscapeChar(mode, c)) == Some([c])
  {
    var e := EscapeChar(mode, c);
    if ShouldEscape(mode, c) {
      assert e[3..] == "";
      assert 16 * UnHex(e[1]) + UnHex(e[2]) == c as int;
      assert Unescape(e) == Prepend([c], Some("")) && [c] + "" == [c];
    } else {
      assert !IsUnreserved('%') && !IsPathPlain('%');
      assert c != '%';
      UnescapePlain(e);
    }
  }

  /** Decoding undoes encoding, in either mode, on every text. */
  lemma {:induction false} UnescapeEscape(mode: Mode, s: string)
    ensures Unescape(Escape(mode, s)) == Some(s)
  {
    if s == "" {
    } else {
      UnescapeEscapeChar(mode, s[0]);
      UnescapeConcat(EscapeChar(mode, s[0]), Escape(mode, s[1..]));
      UnescapeEscape(mode, s[1..]);
      assert s == [s[0]] + s[1..];
    }
  }

  lemma {:induction false} EscapeValid(s: string)
    ensures ValidEncoded(Escape(PathMode, s))
  {
    if s == "" {
    } else {
      EscapeValid(s[1..]);
    }
  }

  lemma {:induction false} EscapeConcat(mode: Mode, a: string, b: string)
    ensures Escape(mode, a + b) == Escape(mode, a) + Escape(mode, b)
  {
    if a == "" {
      assert a + b == b;
    } else {
      assert (a + b)[1..] == a[1..] + b;
      EscapeConcat(mode, a[1..], b);
    }
  }

  /** An escaped path carries no white space, query or fragment mark. */
  lemma ValidEncodedClean(s: string)
    requires ValidEncoded(s)
    ensures '?' !in s && '#' !in s && !HasControl(s)
    ensures s != "" ==> !IsSpace(s[|s| - 1])
  {
    forall i | 0 <= i < |s| ensures s[i] != '?' && s[i] != '#' && !IsControl(s[i]) && !IsSpace(s[i]) {
    }
  }

  /** After `setPath(p)` the escaped path is `p` itself where that is validly
      encoded, and the re-encoded decoding of `p` otherwise. */
  lemma SetPathEscaped(u: Url, p: string)
    requires SetPath(u, p).Some? && p != "*" && SetPath(u, p).value.path != "*"
    ensures Unescape(p) == Some(SetPath(u, p).value.path)
    ensures EscapedPath(SetPath(u, p).value) ==
            if ValidEncoded(p) then p else Escape(PathMode, Unescape(p).value)
    ensures ValidEncoded(EscapedPath(SetPath(u, p).value))
    ensures Unescape(EscapedPath(SetPath(u, p).value)) == Unescape(p)
  {
    var path := Unescape(p).value;
    EscapeValid(path);
    UnescapeEscape(PathMode, path);
  }

  // ---- parsing laws ----

  lemma {:induction false} SchemeLengthOf(scheme: string, rest: string)
    requires forall c <- scheme :: IsSchemeChar(c)
    ensures SchemeLength(scheme + ":" + rest) == |scheme|
  {
    if scheme == "" {
      assert (scheme + ":" + rest)[0] == ':';
    } else {
      assert (scheme + ":" + rest)[1..] == scheme[1..] + ":" + rest;
      SchemeLengthOf(scheme[1..], rest);
    }
  }

  /** A spelling of "http" or "https" in any case. */
  predicate IsWebScheme(scheme: string) { ToLower(scheme) == "http" || ToLower(scheme) == "https" }

  lemma WebSchemeChars(scheme: string)
    requires IsWebScheme(scheme)
    ensures forall c <- scheme :: IsLetter(c) && !IsControl(c) && !IsSpace(c) && c != '#' && c != '%' && c != '/'
    ensures |scheme| == |ToLower(scheme)| && 4 <= |scheme| <= 5
  {
    forall i | 0 <= i < |scheme| ensures IsLetter(scheme[i]) {
      assert ToLower(scheme)[i] == LowerChar(scheme[i]);
      assert ToLower(scheme)[i] in "https";
    }
  }

  /** What a web URL parses to, given what follows its "//". */
  function ParseWeb(scheme: string, tail: string): Option<Url> {
    var c := Cut(tail, '#');
    if HasControl(c.before) then None
    else WithFragment(ParseHierarchy(scheme, "//" + c.before), c.after)
  }

  lemma NoControlBefore(front: string, s: string)
    requires !HasControl(front)
    ensures HasControl(front + s) == HasControl(s)
  {
    if HasControl(s) {
      var i :| 0 <= i < |s| && IsControl(s[i]);
      assert (front + s)[|front| + i] == s[i];
    }
  }

  lemma SplitWebScheme(scheme: string, rest: string)
    requires IsWebScheme(scheme)
    ensures SplitScheme(scheme + ":" + rest) == Some((scheme, rest))
  {
    WebSchemeChars(scheme);
    SchemeLengthOf(scheme, rest);
    var s := scheme + ":" + rest;
    assert s[..|scheme|] == scheme && s[|scheme| + 1..] == rest && s[0] == scheme[0];
  }

  /** On a text "http://..." or "https://..." parsing is `ParseWeb`. */
  lemma ParseWebUrl(scheme: string, tail: string)
    requires IsWebScheme(scheme)
    ensures Parse(scheme + "://" + tail) == ParseWeb(ToLower(scheme), tail)
  {
    WebSchemeChars(scheme);
    var front := scheme + "://";
    CutShift(front, tail, '#');
    var s := Cut(tail, '#').before;
    NoControlBefore(front, s);
    assert front + s == scheme + ":" + ("//" + s);
    SplitWebScheme(scheme, "//" + s);
    assert |front + s| > 1;
  }

  /** Replacing the scheme of a parsed URL. */
  function Rescheme(u: Option<Url>, scheme: string): Option<Url> {
    match u case None => None case Some(v) => Some(v.(scheme := scheme))
  }

  lemma ParseNetPathScheme(u: Url, s: string, scheme: string)
    ensures ParseNetPath(u.(scheme := scheme), s) == Rescheme(ParseNetPath(u, s), scheme)
  {
  }

  /** The query part of a URL before its authority and path are read. */
  function QueryOnly(scheme: string, tail: string): Url {
    NO_URL.(scheme := scheme, forceQuery := Find(tail, '?') + 1 == |tail|, rawQuery := Cut(tail, '?').after)
  }

  lemma HierarchyOfWeb(scheme: string, tail: string)
    requires scheme != ""
    ensures ParseHierarchy(scheme, "//" + tail) == ParseNetPath(QueryOnly(scheme, tail), Cut(tail, '?').before)
  {
    CutShift("//", tail, '?');
    var main := "//" + Cut(tail, '?').before;
    var q := Find("//" + tail, '?');
    assert ("//" + tail)[..q] == main;
    assert StartsTwice(main, '/') && main[2..] == Cut(tail, '?').before;
  }

  /** "http" and "https" URLs differ in the scheme alone. */
  lemma ParseWebScheme(a: string, b: string, tail: string)
    requires a != "" && b != ""
    ensures Rescheme(ParseWeb(a, tail), b) == ParseWeb(b, tail)
  {
    var s := Cut(tail, '#').before;
    HierarchyOfWeb(a, s);
    HierarchyOfWeb(b, s);
    ParseNetPathScheme(QueryOnly(a, s), Cut(s, '?').before, b);
  }
}
