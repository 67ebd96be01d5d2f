/** What host a request ends up on: never another than the one it names, and for one
    that names none, the first default whose path shapes fit. */
module HostMeaning {
  import opened Text
  import opened NetUrl
  import opened GhUrl
  import opened PathShapes
  import opened SchemeRepair

  // ---- hosts ----

  const CANONICAL_HOSTS: set<string> := {
    "github.com", "raw.githubusercontent.com", "raw.github.com", "gist.github.com", "gist.githubusercontent.com"
  }

  /** A character of a parsed host. */
  predicate IsHostChar(c: char) { c >= '\U{80}' || IsHostPlain(c) || c == '%' }

  predicate IsHostText(h: string) { forall i :: 0 <= i < |h| ==> IsHostChar(h[i]) }

  lemma {:induction false} UnescapedHostText(s: string)
    ensures UnescapeHost(s).Some? ==> IsHostText(UnescapeHost(s).value)
    decreases |s|
  {
    if s == "" {
    } else if UnescapeHost(s).Some? {
      if s[0] == '%' {
        UnescapedHostText(s[3..]);
        HostByte(s[1], s[2], s[..3]);
      } else {
        UnescapedHostText(s[1..]);
      }
    }
  }

  lemma HostByte(a: char, b: char, s: string)
    requires IsHex(a) && IsHex(b) && s == ['%', a, b] && (UnHex(a) >= 8 || s == "%25")
    ensures IsHostChar((16 * UnHex(a) + UnHex(b)) as char)
  {
    if s == "%25" {
      assert a == s[1] == '2' && b == s[2] == '5';
    }
  }

  predicate IsHostSpelling(h: string) {
    |h| > 6 && '.' in h && forall i :: 0 <= i < |h| ==> IsLetter(h[i]) || h[i] == '.'
  }

  /** Lower-case letters and at least one dot, told by a position. */
  predicate SpelledLow(h: string, dot: nat) {
    |h| > 6 && dot < |h| && h[dot] == '.' && h[0] != 'h'
    && forall i :: 0 <= i < |h| ==> 'a' <= h[i] <= 'z' || h[i] == '.'
  }

  lemma SpelledLowIs(h: string, dot: nat)
    requires SpelledLow(h, dot)
    ensures IsHostSpelling(h) && h[0] != 'h' && ToLower(h) == h
  {
  }

  lemma GitHubSpelled()
    ensures SpelledLow("github.com", 6) && |"github.com"| == 10
  {
  }

  lemma WwwSpelled()
    ensures SpelledLow("www.github.com", 3) && |"www.github.com"| == 14 && "www.github.com"[0] == 'w'
  {
  }

  lemma RawContentSpelled()
    ensures SpelledLow("raw.githubusercontent.com", 3) && |"raw.githubusercontent.com"| == 25
  {
  }

  lemma RawSpelled()
    ensures SpelledLow("raw.github.com", 3) && |"raw.github.com"| == 14 && "raw.github.com"[0] == 'r'
  {
  }

  lemma GistSpelled()
    ensures SpelledLow("gist.github.com", 4) && |"gist.github.com"| == 15
  {
  }

  lemma GistContentSpelled()
    ensures SpelledLow("gist.githubusercontent.com", 4) && |"gist.githubusercontent.com"| == 26
  {
  }

  /** Any of the six names is spelled in lower-case letters and dots. */
  lemma KnownSpelled(h: string)
    requires HostCandidates(h).Some?
    ensures IsHostSpelling(h) && h[0] != 'h' && ToLower(h) == h
  {
    var dot := 3;
    if h == "github.com" { GitHubSpelled(); dot := 6; }
    else if h == "www.github.com" { WwwSpelled(); }
    else if h == "raw.githubusercontent.com" { RawContentSpelled(); }
    else if h == "raw.github.com" { RawSpelled(); }
    else if h == "gist.github.com" { GistSpelled(); dot := 4; }
    else { GistContentSpelled(); dot := 4; }
    SpelledLowIs(h, dot);
  }

  /** A known host is spelled with letters and dots, and is not an owner name. */
  lemma KnownHostText(h: string)
    requires IsKnownHost(h)
    ensures IsHostSpelling(h) && h[0] != 'h' && h[0] != 'H'
  {
    KnownSpelled(ToLower(h));
    SameSpelling(h);
    assert ToLower(h)[0] == LowerChar(h[0]);
  }

  lemma SameSpelling(h: string)
    requires IsHostSpelling(ToLower(h))
    ensures IsHostSpelling(h)
  {
    var low := ToLower(h);
    var k :| 0 <= k < |low| && low[k] == '.';
    assert h[k] == '.';
    assert forall i | 0 <= i < |h| :: low[i] == LowerChar(h[i]);
  }

  /** The canonical form of a host is one of five, and known itself. */
  lemma CanonicalKnown(h: string)
    requires HostCandidates(h).Some?
    ensures HostCandidates(h).value.canonical in CANONICAL_HOSTS
    ensures HostCandidates(HostCandidates(h).value.canonical) == HostCandidates(h)
    ensures IsKnownHost(HostCandidates(h).value.canonical)
  {
    var canonical := HostCandidates(h).value.canonical;
    assert canonical == if h == "www.github.com" then "github.com" else h;
    GitHubSpelled();
    WwwSpelled();
    RawSpelled();
    KnownSpelled(canonical);
  }

  lemma {:induction false} PlainHostUnescapes(h: string)
    requires forall i :: 0 <= i < |h| ==> IsHostPlain(h[i])
    ensures UnescapeHost(h) == Some(h)
  {
    if h == "" {
    } else {
      PlainHostUnescapes(h[1..]);
      assert h == [h[0]] + h[1..];
    }
  }

  /** An authority without port, brackets or user is taken as it is. */
  lemma PlainAuthority(u: Url, h: string)
    requires forall i :: 0 <= i < |h| ==> IsUnreserved(h[i])
    ensures ParseAuthority(u, h) == Some(u.(host := h)) && Hostname(u.(host := h)) == h
  {
    assert FindLast(h, '@') == 0 && FindLast(h, ':') == 0;
    assert h[0..] == h;
    PlainHostUnescapes(h);
  }

  // ---- what every prepared URL satisfies ----

  predicate WellFormed(u: Url) {
    && IsHostText(u.host)
    && ValidEncoded(EscapedPath(u)) && Unescape(EscapedPath(u)) == Some(u.path)
    && (EscapedPath(u) == "" || StartsWith(EscapedPath(u), '/'))
    && (u.path == "" || StartsWith(u.path, '/'))
  }

  lemma SetPathWellFormed(u: Url, p: string)
    requires IsHostText(u.host) && SetPath(u, p).Some? && (p == "" || StartsWith(p, '/'))
    ensures WellFormed(SetPath(u, p).value)
  {
    var path := Unescape(p).value;
    if p == "" {
      assert path == "";
    } else {
      StarNot(p);
      assert path[0] == '/' by { assert Unescape(p) == Prepend("/", Unescape(p[1..])); }
      assert Escape(PathMode, path)[0] == '/';
    }
    SetPathEscaped(u, p);
  }

  lemma AuthorityHost(u: Url, s: string)
    ensures ParseAuthority(u, s).Some? ==>
              IsHostText(ParseAuthority(u, s).value.host) && ParseAuthority(u, s).value.scheme == u.scheme
  {
    UnescapedHostText(s[FindLast(s, '@')..]);
  }

  lemma NetPathWellFormed(u: Url, s: string)
    ensures ParseNetPath(u, s).Some? ==>
              WellFormed(ParseNetPath(u, s).value) && ParseNetPath(u, s).value.scheme == u.scheme
  {
    var slash := Find(s, '/');
    AuthorityHost(u, s[..slash]);
    if ParseNetPath(u, s).Some? {
      SetPathWellFormed(ParseAuthority(u, s[..slash]).value, s[slash..]);
    }
  }

  lemma FragmentKeeps(u: Url, f: string)
    requires WellFormed(u)
    ensures WellFormed(u.(fragment := f))
  {
    assert EscapedPath(u.(fragment := f)) == EscapedPath(u);
  }

  lemma UserlessKeeps(u: Url)
    requires WellFormed(u)
    ensures WellFormed(u.(user := None, scheme := "https"))
  {
    assert EscapedPath(u.(user := None, scheme := "https")) == EscapedPath(u);
  }

  lemma WebWellFormed(t: string)
    ensures ParseWeb("https", t).Some? ==>
              WellFormed(ParseWeb("https", t).value) && ParseWeb("https", t).value.scheme == "https"
  {
    var c := Cut(t, '#');
    HierarchyOfWeb("https", c.before);
    NetPathWellFormed(QueryOnly("https", c.before), Cut(c.before, '?').before);
    if ParseWeb("https", t).Some? && c.after != "" {
      FragmentKeeps(ParseHierarchy("https", "//" + c.before).value, Unescape(c.after).value);
    }
  }

  lemma EmptyRejected()
    ensures Normalized(Parse("")) == None
  {
    assert Cut("", '#').before == "" && SplitScheme("") == Some(("", ""));
    assert ToLower("") == "";
    assert Cut("", '/').before == "";
  }

  lemma PreparedWellFormed(raw: string)
    ensures Prepared(raw).Some? ==>
              && WellFormed(Prepared(raw).value) && Prepared(raw).value.scheme == "https"
              && Prepared(raw).value.user == None
  {
    var s := TrimSpace(raw);
    if s == "" {
      EmptyRejected();
    } else {
      var scheme, t := PutSchemeShape(DecodeWhole(s));
      PreparedAs(raw, scheme, t);
      WebWellFormed(t);
      if ParseWeb("https", t).Some? {
        UserlessKeeps(ParseWeb("https", t).value);
      }
    }
  }

  // ---- what every accepted target satisfies ----

  lemma {:induction false} FirstMatchIs(kinds: seq<Kind>, p: string)
    ensures FirstMatch(kinds, p).Some? ==>
              var m := FirstMatch(kinds, p).value;
              m.0 in kinds && MatchPath(m.0, p) == Some((m.1, m.2))
  {
    if kinds == [] {
    } else if MatchPath(kinds[0], p) == None {
      FirstMatchIs(kinds[1..], p);
    }
  }

  /** A URL this service may connect to: https, no user, an allowed host, and an
      owner (and repository) that are whole non-empty path segments. */
  ghost predicate Forwardable(t: Target) {
    && t.url.scheme == "https" && t.url.user == None && t.url.host in CANONICAL_HOSTS
    && HostCandidates(t.url.host).Some? && t.kind in HostCandidates(t.url.host).value.kinds
    && t.owner != "" && '/' !in t.owner && '/' !in t.repo && (t.repo == "" <==> t.kind.Gist?)
  }

  /** A path that matches has exactly one leading slash, escaped or not. */
  lemma MatchedPlainPath(u: Url, kind: Kind)
    requires WellFormed(u) && MatchPath(kind, u.path).Some?
    ensures PlainPath(u)
  {
    ShapeBySegments(kind, u.path);
    OneSlashSegments(u.path);
    OneSlashDecoded(EscapedPath(u));
  }

  lemma OneSlashSegments(p: string)
    requires |Segments(p)| > 1 && Segments(p)[0] == "" && Segments(p)[1] != ""
    ensures OneSlash(p)
  {
    var rest := Segments(p)[1..];
    SegmentsCut(p);
    var after := Cut(p, '/').after;
    SegmentsCut(after);
    assert rest[0] == Cut(after, '/').before == after[..|rest[0]|];
    assert p[0] == '/' && p[1] == after[0] == rest[0][0];
    assert p[1] in rest[0];
  }

  lemma OneSlashDecoded(esc: string)
    requires Unescape(esc).Some? && OneSlash(Unescape(esc).value) && (esc == "" || StartsWith(esc, '/'))
    ensures OneSlash(esc)
  {
    assert Unescape(esc) == Prepend("/", Unescape(esc[1..]));
    assert |esc| > 1 && esc[1] == '/' ==> Unescape(esc[1..]) == Prepend("/", Unescape(esc[1..][1..]));
  }

  lemma MatchedForwardable(u: Url)
    requires WellFormed(u) && u.scheme == "https" && u.user == None
    ensures Matched(u).1.Some? ==>
              && Forwardable(Matched(u).1.value)
              && Matched(u).1.value.url == Matched(u).0
              && HostCandidates(ToLower(Hostname(u))).Some?
              && Matched(u).0.host == HostCandidates(ToLower(Hostname(u))).value.canonical
  {
    var c := HostCandidates(ToLower(Hostname(u)));
    if c.Some? {
      CanonicalKnown(ToLower(Hostname(u)));
      FirstMatchIs(c.value.kinds, u.path);
      var v := u.(host := c.value.canonical);
      var m := FirstMatch(c.value.kinds, u.path);
      if m.Some? {
        CapturedNames(m.value.0, u.path);
        MatchedPlainPath(u, m.value.0);
        assert PlainPath(v) by { assert EscapedPath(v) == EscapedPath(u); }
        BlobRewriteText(v);
      }
    }
  }

  /** The mutation of the host does not change whether the URL names one. */
  lemma NamesSameHost(u: Url)
    ensures NamesAHost(Matched(u).0) == NamesAHost(u)
    ensures !NamesAHost(u) ==> Matched(u) == (u, None)
  {
    var low := ToLower(Hostname(u));
    var c := HostCandidates(low);
    if c.Some? {
      CanonicalKnown(low);
      KnownHostText(c.value.canonical);
      assert Matched(u).0.host == c.value.canonical;
    }
  }

  lemma {:induction false} FirstAttemptForwardable(defaults: seq<string>, u: Url)
    ensures FirstAttempt(defaults, u).Some? ==> Forwardable(FirstAttempt(defaults, u).value)
  {
    if defaults == [] {
    } else {
      AttemptForwardable(defaults[0], u);
      FirstAttemptForwardable(defaults[1..], u);
    }
  }

  lemma AttemptForwardable(h: string, u: Url)
    ensures Attempt(h, u).Some? ==> Forwardable(Attempt(h, u).value)
  {
    var raw := h + "/" + Hostless(u);
    PreparedWellFormed(raw);
    if Prepared(raw).Some? {
      MatchedForwardable(Prepared(raw).value);
    }
  }

  lemma OrDefaultsForwardable(m: (Url, Option<Target>), defaults: seq<string>)
    requires m.1.Some? ==> Forwardable(m.1.value)
    ensures OrDefaults(m, defaults).Some? ==> Forwardable(OrDefaults(m, defaults).value)
  {
    FirstAttemptForwardable(defaults, m.0);
  }

  lemma ResolveUrlForwardable(prepared: Option<Url>, defaults: seq<string>)
    requires prepared.Some? ==>
               WellFormed(prepared.value) && prepared.value.scheme == "https" && prepared.value.user == None
    ensures ResolveUrl(prepared, defaults).Some? ==> Forwardable(ResolveUrl(prepared, defaults).value)
  {
    if prepared.Some? {
      MatchedForwardable(prepared.value);
      OrDefaultsForwardable(Matched(prepared.value), defaults);
    }
  }

  /** Main result: whatever the text and the defaults, an accepted target is https,
      without user, on one of the five hosts, and names an owner. */
  lemma AcceptedForwardable(raw: string, defaults: seq<string>)
    ensures Resolve(raw, defaults).Some? ==> Forwardable(Resolve(raw, defaults).value)
  {
    PreparedWellFormed(raw);
    ResolveUrlForwardable(Prepared(raw), defaults);
  }

  // ---- the hosts by name ----

  predicate IsGitHubHost(h: string) {
    || h == "github.com" || h == "www.github.com" || h == "raw.githubusercontent.com" || h == "raw.github.com"
    || h == "gist.github.com" || h == "gist.githubusercontent.com"
  }

  /** The kinds a host serves. */
  predicate Serves(h: string, kind: Kind) {
    match kind
    case Release | Blob | Git | Tags => h == "github.com" || h == "www.github.com"
    case Raw => h == "raw.githubusercontent.com" || h == "raw.github.com"
    case Gist => h == "gist.github.com" || h == "gist.githubusercontent.com"
  }

  lemma HostTable(h: string)
    ensures HostCandidates(h).Some? <==> IsGitHubHost(h)
    ensures HostCandidates(h).Some? ==>
              && HostCandidates(h).value.canonical == (if h == "www.github.com" then "github.com" else h)
              && forall kind :: kind in HostCandidates(h).value.kinds <==> Serves(h, kind)
  {
    GitHubSpelled();
    WwwSpelled();
    RawSpelled();
    RawContentSpelled();
    GistSpelled();
    GistContentSpelled();
    NamesDiffer();
  }

  lemma NamesDiffer()
    ensures "www.github.com" != "raw.github.com"
    ensures |"github.com"| == 10 && |"www.github.com"| == |"raw.github.com"| == 14
    ensures |"raw.githubusercontent.com"| == 25 && |"gist.github.com"| == 15 && |"gist.githubusercontent.com"| == 26
  {
    assert "www.github.com"[0] == 'w' && "raw.github.com"[0] == 'r';
  }

  lemma NamesAHostIs(u: Url)
    ensures NamesAHost(u) <==> IsGitHubHost(ToLower(Hostname(u))) || '.' in u.host || ':' in u.host
  {
    HostTable(ToLower(Hostname(u)));
  }

  /** What is left for the defaults, said of a prepared URL. */
  lemma NamedOrNot(u: Url, defaults: seq<string>)
    requires WellFormed(u) && u.scheme == "https" && u.user == None
    ensures
      var h := ToLower(Hostname(u));
      var r := ResolveUrl(Some(u), defaults);
      && (IsGitHubHost(h) ==>
            && r == ResolveUrl(Some(u), [])
            && (r.Some? ==> r.value.url.host == if h == "www.github.com" then "github.com" else h))
      && (!IsGitHubHost(h) ==> r == if '.' in u.host || ':' in u.host then None else FirstAttempt(defaults, u))
  {
    HostTable(ToLower(Hostname(u)));
    NamesSameHost(u);
    NamesAHostIs(u);
    NamesAHostIs(Matched(u).0);
    MatchedForwardable(u);
  }

  /** Main result: one of the six GitHub hosts resolves to its canonical form or not at
      all, whatever the defaults; any other name with a dot or a colon is rejected; and
      only what has neither is left to the defaults. */
  lemma NamedHostKept(raw: string, defaults: seq<string>)
    ensures
      Prepared(raw).Some? ==>
        var u := Prepared(raw).value;
        var h := ToLower(Hostname(u));
        && (IsGitHubHost(h) ==>
              && Resolve(raw, defaults) == Resolve(raw, [])
              && (Resolve(raw, defaults).Some? ==>
                    Resolve(raw, defaults).value.url.host == if h == "www.github.com" then "github.com" else h))
        && (!IsGitHubHost(h) ==>
              Resolve(raw, defaults) == if '.' in u.host || ':' in u.host then None else FirstAttempt(defaults, u))
  {
    PreparedWellFormed(raw);
    if Prepared(raw).Some? {
      NamedOrNot(Prepared(raw).value, defaults);
    }
  }

  // ---- what is accepted on a host ----

  lemma OneKindFits(h: string, a: Kind, b: Kind, segs: seq<string>)
    requires Serves(h, a) && Serves(h, b) && Fits(a, segs) && Fits(b, segs)
    ensures a == b
  {
    NamesDiffer();
    GitWords();
  }

  lemma GitWords()
    ensures "info" != "releases" && "info" != "archive" && "info" != "blob" && "info" != "raw" && "info" != "tags"
    ensures "releases" != "blob" && "releases" != "raw" && "releases" != "tags"
    ensures "archive" != "blob" && "archive" != "raw" && "archive" != "tags" && "blob" != "tags" && "raw" != "tags"
    ensures |"git-upload-pack"| == 15 && |"git-receive-pack"| == 16
    ensures |"releases"| == 8 && |"archive"| == 7 && |"blob"| == |"tags"| == |"info"| == 4 && |"raw"| == 3
  {
    assert "blob"[0] == 'b' && "tags"[0] == 't' && "info"[0] == 'i';
  }

  lemma {:induction false} FirstMatchOnly(kinds: seq<Kind>, p: string, kind: Kind)
    requires kind in kinds && MatchPath(kind, p).Some?
    requires forall k :: k in kinds && MatchPath(k, p).Some? ==> k == kind
    ensures FirstMatch(kinds, p) == Some((kind, MatchPath(kind, p).value.0, MatchPath(kind, p).value.1))
  {
    if kinds[0] == kind {
    } else {
      assert kinds[0] in kinds;
      FirstMatchOnly(kinds[1..], p, kind);
    }
  }

  /** Main result: at one of the six hosts a URL is accepted, as a kind and with two names,
      exactly when the host serves the kind and the segments of the path have its shape. */
  lemma MatchedExactly(u: Url, kind: Kind)
    ensures
      var h := ToLower(Hostname(u));
      var segs := Segments(u.path);
      && (Matched(u).1.Some? && Matched(u).1.value.kind == kind <==>
            IsGitHubHost(h) && Serves(h, kind) && Fits(kind, segs))
      && (Matched(u).1.Some? && Matched(u).1.value.kind == kind ==>
            && Matched(u).1.value.owner == segs[1]
            && Matched(u).1.value.repo == if kind.Gist? then "" else segs[2])
  {
    var h := ToLower(Hostname(u));
    HostTable(h);
    if HostCandidates(h).Some? {
      KindOnly(HostCandidates(h).value.kinds, h, u.path, kind);
    }
  }

  lemma KindOnly(kinds: seq<Kind>, h: string, p: string, kind: Kind)
    requires forall k :: k in kinds <==> Serves(h, k)
    ensures
      var m := FirstMatch(kinds, p);
      && (m.Some? && m.value.0 == kind <==> Serves(h, kind) && Fits(kind, Segments(p)))
      && (m.Some? && m.value.0 == kind ==>
            m.value.1 == Segments(p)[1] && m.value.2 == if kind.Gist? then "" else Segments(p)[2])
  {
    ShapeBySegments(kind, p);
    FirstMatchIs(kinds, p);
    if Serves(h, kind) && Fits(kind, Segments(p)) {
      forall k | k in kinds && MatchPath(k, p).Some? ensures k == kind {
        ShapeBySegments(k, p);
        OneKindFits(h, k, kind, Segments(p));
      }
      FirstMatchOnly(kinds, p, kind);
    }
  }

  // ---- more defaults ----

  function OrElse(a: Option<Target>, b: Option<Target>): Option<Target> { if a.Some? then a else b }

  lemma {:induction false} FirstAttemptConcat(defaults: seq<string>, more: seq<string>, u: Url)
    ensures FirstAttempt(defaults + more, u) == OrElse(FirstAttempt(defaults, u), FirstAttempt(more, u))
  {
    if defaults == [] {
      assert defaults + more == more;
    } else {
      assert (defaults + more)[0] == defaults[0] && (defaults + more)[1..] == defaults[1..] + more;
      FirstAttemptConcat(defaults[1..], more, u);
    }
  }

  lemma OrDefaultsConcat(m: (Url, Option<Target>), defaults: seq<string>, more: seq<string>)
    ensures OrDefaults(m, defaults + more) == OrElse(OrDefaults(m, defaults), OrDefaults(m, more))
  {
    if m.1 == None && !NamesAHost(m.0) {
      FirstAttemptConcat(defaults, more, m.0);
    }
  }

  lemma ResolveUrlConcat(prepared: Option<Url>, defaults: seq<string>, more: seq<string>)
    ensures ResolveUrl(prepared, defaults + more) == OrElse(ResolveUrl(prepared, defaults), ResolveUrl(prepared, more))
  {
    if prepared.Some? {
      OrDefaultsConcat(Matched(prepared.value), defaults, more);
    }
  }

  /** Main result: further defaults only serve what is not accepted without them, and
      never change what is. */
  lemma DefaultsOnlyAdd(raw: string, defaults: seq<string>, more: seq<string>)
    ensures Resolve(raw, defaults + more) == OrElse(Resolve(raw, defaults), Resolve(raw, more))
  {
    ResolveUrlConcat(Prepared(raw), defaults, more);
  }
}
