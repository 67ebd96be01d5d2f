/** The host-less short form of a URL against the long form it stands for, and the
    order in which default hosts are tried. */
module ShortForm {
  import opened Text
  import opened NetUrl
  import opened GhUrl
  import opened PathShapes
  import opened SchemeRepair
  import opened HostMeaning

  // ---- a known host in front of a text ----

  /** What `https://<host>/<text>` parses to when the text holds no fragment. */
  function AtHost(h: string, s: string): Option<Url> {
    if HasControl(s) then None
    else SetPath(QueryOnly("https", s).(host := h), "/" + Cut(s, '?').before)
  }

  lemma KnownHostPlain(h: string)
    requires IsKnownHost(h)
    ensures forall i :: 0 <= i < |h| ==> IsUnreserved(h[i])
    ensures '/' !in h && '?' !in h && '#' !in h && !HasControl(h) && !IsSpace(h[0])
  {
    KnownHostText(h);
    forall i | 0 <= i < |h|
      ensures IsUnreserved(h[i]) && h[i] != '/' && h[i] != '?' && h[i] != '#' && !IsControl(h[i]) && !IsSpace(h[i])
    {
    }
  }

  lemma NetPathPlain(u: Url, h: string, m: string)
    requires forall i :: 0 <= i < |h| ==> IsUnreserved(h[i])
    ensures ParseNetPath(u, h + "/" + m) == SetPath(u.(host := h), "/" + m)
  {
    assert '/' !in h;
    FindAt(h, '/', m);
    assert h + "/" + m == h + ['/'] + m;
    CutOut(h, "/", m);
    Assoc(h, "/", m);
    assert (h + ("/" + m))[..|h|] == h;
    PlainAuthority(u, h);
  }

  lemma NetPathAtHost(u: Url, h: string, m: string)
    requires IsKnownHost(h)
    ensures ParseNetPath(u, h + "/" + m) == SetPath(u.(host := h), "/" + m)
  {
    KnownHostPlain(h);
    NetPathPlain(u, h, m);
  }

  lemma WebNoFragment(t: string)
    requires '#' !in t
    ensures ParseWeb("https", t) ==
            if HasControl(t) then None else ParseNetPath(QueryOnly("https", t), Cut(t, '?').before)
  {
    FindNone(t, '#');
    HierarchyOfWeb("https", t);
  }

  lemma WebAtHost(h: string, s: string)
    requires IsKnownHost(h) && '#' !in s
    ensures ParseWeb("https", h + "/" + s) == AtHost(h, s)
  {
    KnownHostPlain(h);
    var front := h + "/";
    NoControlBefore(front, s);
    WebNoFragment(front + s);
    CutShift(front, s, '?');
    assert QueryOnly("https", front + s) == QueryOnly("https", s);
    Assoc(h, "/", Cut(s, '?').before);
    NetPathAtHost(QueryOnly("https", s), h, Cut(s, '?').before);
  }

  lemma KnownHostNoScheme(h: string, s: string)
    requires IsKnownHost(h)
    ensures !SpellsScheme(h + "/" + s)
  {
    KnownHostText(h);
    var low := ToLower(h + "/" + s);
    assert low[0] == LowerChar(h[0]) && low[0] != 'h';
  }

  lemma AtHostNormal(h: string, s: string)
    ensures Normalized(AtHost(h, s)) == AtHost(h, s)
  {
  }

  /** A text that spells no scheme, and the text it is trimmed to. */
  predicate BareText(s: string, t: string) {
    '#' !in s && s != "" && !IsSpace(s[0]) && t == TrimRight(s) && !SpellsScheme(t)
  }

  lemma HostTextTrimmed(h: string, s: string)
    requires IsKnownHost(h) && '#' !in s
    ensures '#' !in h + "/" + s && !IsSpace((h + "/" + s)[0]) && TrimRight(h + "/" + s) == h + "/" + TrimRight(s)
  {
    KnownHostPlain(h);
    TrimmedFront(h + "/", s);
    assert (h + "/" + s)[0] == h[0];
  }

  lemma HostTextIsBare(h: string, s: string)
    requires IsKnownHost(h) && '#' !in s
    ensures BareText(h + "/" + s, h + "/" + TrimRight(s))
  {
    HostTextTrimmed(h, s);
    KnownHostNoScheme(h, TrimRight(s));
  }

  lemma PreparedText(s: string, t: string, u: Option<Url>)
    requires BareText(s, t) && ParseWeb("https", t) == u && Normalized(u) == u
    ensures Prepared(s) == u
  {
    PreparedBare(s);
  }

  /** A default host in front of a text, repaired and parsed. */
  lemma PreparedAtHost(h: string, s: string)
    requires IsKnownHost(h) && '#' !in s
    ensures Prepared(h + "/" + s) == AtHost(h, TrimRight(s))
  {
    var t := TrimRight(s);
    HostTextIsBare(h, s);
    AtHostNormal(h, t);
    assert '#' !in t by { assert t <= s; }
    WebAtHost(h, t);
    PreparedText(h + "/" + s, h + "/" + t, AtHost(h, t));
  }

  lemma TrimmedFront(front: string, s: string)
    requires front != "" && !IsSpace(front[0]) && !IsSpace(front[|front| - 1])
    ensures TrimRight(front + s) == front + TrimRight(s)
  {
    assert (front + s)[0] == front[0];
    TrimAfter(front, s);
  }

  /** The long form, repaired and parsed. */
  lemma PreparedLong(h: string, s: string)
    requires IsKnownHost(h) && '#' !in s
    ensures Prepared("https://" + (h + "/" + s)) == AtHost(h, TrimRight(s))
  {
    KnownHostPlain(h);
    var t := TrimRight(s);
    HttpsIsWeb();
    TrimmedFront(h + "/", s);
    PreparedWhole("https", h + "/" + s);
    WebAtHost(h, t);
    AtHostNormal(h, t);
  }

  // ---- the path a default host is put in front of ----

  /** The host-less path, without the slash it may start with. */
  function BarePath(u: Url): string {
    var s := u.host + EscapedPath(u);
    if StartsWith(s, '/') then s[1..] else s
  }

  /** No character that ends a path, and no space. */
  predicate IsBare(c: char) { c != '?' && c != '#' && !IsControl(c) && !IsSpace(c) }

  lemma BarePathChars(u: Url)
    requires WellFormed(u)
    ensures forall i :: 0 <= i < |BarePath(u)| ==> IsBare(BarePath(u)[i])
  {
    ValidEncodedClean(EscapedPath(u));
    assert forall i | 0 <= i < |u.host| :: IsBare(u.host[i]) by {
      assert forall i | 0 <= i < |u.host| :: IsHostChar(u.host[i]);
    }
    assert forall i | 0 <= i < |EscapedPath(u)| :: IsBare(EscapedPath(u)[i]);
  }

  lemma BareClean(s: string)
    requires forall i :: 0 <= i < |s| ==> IsBare(s[i])
    ensures '?' !in s && '#' !in s && !HasControl(s) && TrimRight(s) == s
  {
  }

  lemma BarePathClean(u: Url)
    requires WellFormed(u)
    ensures '?' !in BarePath(u) && '#' !in BarePath(u) && !HasControl(BarePath(u))
    ensures forall i :: 0 <= i < |BarePath(u)| ==> !IsSpace(BarePath(u)[i])
    ensures TrimRight(BarePath(u)) == BarePath(u)
  {
    BarePathChars(u);
    BareClean(BarePath(u));
  }

  lemma HostlessIs(u: Url)
    ensures Hostless(u) == BarePath(u) + (if u.rawQuery != "" then "?" + u.rawQuery else "")
  {
    var s := u.host + EscapedPath(u);
    var q := if u.rawQuery != "" then "?" + u.rawQuery else "";
    if s == "" {
      assert s + q == q;
    } else {
      assert (s + q)[0] == s[0];
      assert (s + q)[1..] == s[1..] + q;
    }
  }

  /** What is left of the host-less text after trimming, and its path part. */
  lemma HostlessTrimmed(u: Url)
    requires WellFormed(u)
    ensures Cut(TrimRight(Hostless(u)), '?').before == BarePath(u)
    ensures Cut(TrimRight(Hostless(u)), '?').after == TrimRight(u.rawQuery)
  {
    BarePathClean(u);
    HostlessIs(u);
    if u.rawQuery == "" {
      assert BarePath(u) + "" == BarePath(u);
      FindNone(BarePath(u), '?');
    } else {
      QueryTrimmed(BarePath(u), u.rawQuery);
    }
  }

  lemma QueryTrimmed(bare: string, query: string)
    requires '?' !in bare && (bare == "" || !IsSpace(bare[0]))
    ensures Cut(TrimRight(bare + ("?" + query)), '?') == Cutting(bare, TrimRight(query), true)
  {
    var front := bare + "?";
    assert front[0] == if bare == "" then '?' else bare[0];
    TrimmedFront(front, query);
    Assoc(bare, "?", query);
    FindAt(bare, '?', TrimRight(query));
  }

  // ---- which default wins ----

  /** Whether a host takes a host-less path: the path decodes and its segments fit
      one of the host's shapes. */
  ghost predicate Takes(h: string, bare: string) {
    && HostCandidates(ToLower(h)).Some?
    && Unescape("/" + bare).Some?
    && exists i ::
         && 0 <= i < |HostCandidates(ToLower(h)).value.kinds|
         && Fits(HostCandidates(ToLower(h)).value.kinds[i], Segments(Unescape("/" + bare).value))
  }

  lemma {:induction false} FirstMatchFits(kinds: seq<Kind>, p: string)
    ensures FirstMatch(kinds, p).Some? <==> exists i :: 0 <= i < |kinds| && Fits(kinds[i], Segments(p))
  {
    if kinds == [] {
    } else {
      ShapeBySegments(kinds[0], p);
      FirstMatchFits(kinds[1..], p);
      if exists i :: 0 <= i < |kinds| && Fits(kinds[i], Segments(p)) {
        var i :| 0 <= i < |kinds| && Fits(kinds[i], Segments(p));
        assert i > 0 ==> kinds[1..][i - 1] == kinds[i];
      }
      assert forall i | 0 <= i < |kinds| - 1 :: kinds[1..][i] == kinds[i + 1];
    }
  }

  lemma MatchedAtHost(u: Url)
    requires IsKnownHost(u.host) && Hostname(u) == u.host
    ensures Matched(u).0.host == HostCandidates(ToLower(u.host)).value.canonical
    ensures Matched(u).1.Some? <==>
              FirstMatch(HostCandidates(ToLower(u.host)).value.kinds, u.path).Some?
    ensures Matched(u).1.Some? ==> Matched(u).1.value.url == Matched(u).0
  {
    var v := u.(host := HostCandidates(ToLower(u.host)).value.canonical);
    assert FirstMatch(HostCandidates(ToLower(u.host)).value.kinds, v.path) ==
           FirstMatch(HostCandidates(ToLower(u.host)).value.kinds, u.path);
  }

  /** At a known host a text is accepted exactly when its path fits a shape. */
  lemma AtHostTakes(h: string, s: string)
    requires IsKnownHost(h) && !HasControl(s)
    ensures MatchedOf(AtHost(h, s)).Some? <==> Takes(h, Cut(s, '?').before)
    ensures MatchedOf(AtHost(h, s)).Some? ==>
              MatchedOf(AtHost(h, s)).value.url.host == HostCandidates(ToLower(h)).value.canonical
  {
    if AtHost(h, s).Some? {
      var v := AtHost(h, s).value;
      KnownHostPlain(h);
      PlainAuthority(v, h);
      assert v.(host := h) == v;
      MatchedAtHost(v);
      FirstMatchFits(HostCandidates(ToLower(h)).value.kinds, v.path);
    }
  }

  /** A default host takes a target exactly when the shape fits, and is its host. */
  lemma AttemptTakes(h: string, u: Url)
    requires IsKnownHost(h) && WellFormed(u) && '#' !in u.rawQuery && !HasControl(u.rawQuery)
    ensures Attempt(h, u).Some? <==> Takes(h, BarePath(u))
    ensures Attempt(h, u).Some? ==> Attempt(h, u).value.url.host == HostCandidates(ToLower(h)).value.canonical
  {
    HostlessTrimmed(u);
    HostlessClean(u);
    PreparedAtHost(h, Hostless(u));
    AtHostTakes(h, TrimRight(Hostless(u)));
  }

  lemma HostlessClean(u: Url)
    requires WellFormed(u) && '#' !in u.rawQuery && !HasControl(u.rawQuery)
    ensures '#' !in Hostless(u) && !HasControl(TrimRight(Hostless(u)))
  {
    BarePathClean(u);
    HostlessIs(u);
    if u.rawQuery != "" {
      NoControlBefore(BarePath(u), "?" + u.rawQuery);
      NoControlBefore("?", u.rawQuery);
    } else {
      assert BarePath(u) + "" == BarePath(u);
    }
    NoControlPrefix(Hostless(u), TrimRight(Hostless(u)));
  }

  lemma NoControlPrefix(s: string, t: string)
    requires !HasControl(s) && t <= s
    ensures !HasControl(t)
  {
    assert forall i | 0 <= i < |t| :: t[i] == s[i];
  }

  /** The index of the first default that takes a path, or their number. */
  ghost function Winner(defaults: seq<string>, bare: string): (i: nat)
    ensures i <= |defaults| && (i < |defaults| ==> Takes(defaults[i], bare))
    ensures forall k :: 0 <= k < i ==> !Takes(defaults[k], bare)
  {
    if defaults == [] || Takes(defaults[0], bare) then 0 else 1 + Winner(defaults[1..], bare)
  }

  /** What the winner makes of a target, if there is one. */
  ghost function WinnersTarget(defaults: seq<string>, u: Url): Option<Target> {
    var w := Winner(defaults, BarePath(u));
    if w == |defaults| then None else Attempt(defaults[w], u)
  }

  /** A function that tells what each default host makes of a target. */
  ghost predicate TriesEach(f: string -> Option<Target>, u: Url) { forall h {:trigger f(h)} :: f(h) == Attempt(h, u) }

  lemma {:induction false} FirstOfAttempts(f: string -> Option<Target>, defaults: seq<string>, u: Url)
    requires TriesEach(f, u)
    ensures FirstAttempt(defaults, u) == First(Mapped(f, defaults))
  {
    if defaults == [] {
    } else {
      FirstOfAttempts(f, defaults[1..], u);
      MappedTail(f, defaults);
    }
  }

  lemma AttemptsTaken(f: string -> Option<Target>, defaults: seq<string>, u: Url)
    requires TriesEach(f, u) && WellFormed(u) && '#' !in u.rawQuery && !HasControl(u.rawQuery)
    requires forall i :: 0 <= i < |defaults| ==> IsKnownHost(defaults[i])
    ensures TakenBy(defaults, BarePath(u), Mapped(f, defaults))
  {
    forall k | 0 <= k < |defaults| ensures Mapped(f, defaults)[k].Some? <==> Takes(defaults[k], BarePath(u)) {
      AttemptTakes(defaults[k], u);
    }
  }

  ghost predicate TakenBy(defaults: seq<string>, bare: string, ts: seq<Option<Target>>) {
    |ts| == |defaults| && forall k {:trigger ts[k]} :: 0 <= k < |ts| ==> (ts[k].Some? <==> Takes(defaults[k], bare))
  }

  lemma FirstTaken(defaults: seq<string>, bare: string, ts: seq<Option<Target>>)
    requires TakenBy(defaults, bare, ts)
    ensures
      var w := Winner(defaults, bare);
      if w == |defaults| then First(ts) == None else First(ts).Some? && First(ts) == ts[w]
  {
    FirstAt(ts, Winner(defaults, bare));
  }

  lemma FirstAttemptWinner(defaults: seq<string>, u: Url)
    requires WellFormed(u) && '#' !in u.rawQuery && !HasControl(u.rawQuery)
    requires forall i :: 0 <= i < |defaults| ==> IsKnownHost(defaults[i])
    ensures FirstAttempt(defaults, u) == WinnersTarget(defaults, u)
    ensures WinnersTarget(defaults, u) == None <==> Winner(defaults, BarePath(u)) == |defaults|
  {
    var f := h => Attempt(h, u);
    AttemptsTaken(f, defaults, u);
    FirstTaken(defaults, BarePath(u), Mapped(f, defaults));
    FirstOfAttempts(f, defaults, u);
  }

  lemma QueryClean(s: string)
    requires '#' !in s && !HasControl(s)
    ensures '#' !in Cut(s, '?').after && !HasControl(Cut(s, '?').after)
  {
    var q := Cut(s, '?').after;
    assert forall i | 0 <= i < |q| :: q[i] == s[|s| - |q| + i];
  }

  lemma NetPathQuery(u: Url, s: string)
    ensures ParseNetPath(u, s).Some? ==> ParseNetPath(u, s).value.rawQuery == u.rawQuery
  {
  }

  lemma WebQueryClean(t: string)
    ensures ParseWeb("https", t).Some? ==>
              '#' !in ParseWeb("https", t).value.rawQuery && !HasControl(ParseWeb("https", t).value.rawQuery)
  {
    var s := Cut(t, '#').before;
    HierarchyOfWeb("https", s);
    NetPathQuery(QueryOnly("https", s), Cut(s, '?').before);
    if !HasControl(s) {
      QueryClean(s);
    }
  }

  lemma PreparedQueryClean(raw: string)
    ensures Prepared(raw).Some? ==>
              '#' !in Prepared(raw).value.rawQuery && !HasControl(Prepared(raw).value.rawQuery)
  {
    var s := TrimSpace(raw);
    if s == "" {
      EmptyRejected();
    } else {
      var scheme, t := PutSchemeShape(DecodeWhole(s));
      PreparedAs(raw, scheme, t);
      WebQueryClean(t);
    }
  }

  /** Main result: a target that names no host resolves to what the first default whose
      path shapes fit makes of it, and is rejected exactly when none fits. */
  lemma LeastDefaultWins(raw: string, defaults: seq<string>)
    requires Prepared(raw).Some? && !IsGitHubHost(ToLower(Hostname(Prepared(raw).value)))
    requires '.' !in Prepared(raw).value.host && ':' !in Prepared(raw).value.host
    requires forall i :: 0 <= i < |defaults| ==> IsGitHubHost(ToLower(defaults[i]))
    ensures
      var u := Prepared(raw).value;
      var w := Winner(defaults, BarePath(u));
      && Resolve(raw, defaults) == WinnersTarget(defaults, u)
      && (Resolve(raw, defaults) == None <==> w == |defaults|)
      && (w < |defaults| ==>
            Resolve(raw, defaults).value.url.host == HostCandidates(ToLower(defaults[w])).value.canonical)
  {
    var u := Prepared(raw).value;
    PreparedWellFormed(raw);
    PreparedQueryClean(raw);
    NamedHostKept(raw, defaults);
    forall i | 0 <= i < |defaults| ensures IsKnownHost(defaults[i]) {
      HostTable(ToLower(defaults[i]));
    }
    FirstAttemptWinner(defaults, u);
    WinnersHost(defaults, u);
  }

  lemma WinnersHost(defaults: seq<string>, u: Url)
    requires WellFormed(u) && '#' !in u.rawQuery && !HasControl(u.rawQuery)
    requires forall i :: 0 <= i < |defaults| ==> IsKnownHost(defaults[i])
    ensures
      var w := Winner(defaults, BarePath(u));
      w < |defaults| ==>
        WinnersTarget(defaults, u).Some?
        && WinnersTarget(defaults, u).value.url.host == HostCandidates(ToLower(defaults[w])).value.canonical
  {
    var w := Winner(defaults, BarePath(u));
    if w < |defaults| {
      AttemptTakes(defaults[w], u);
    }
  }

  // ---- short form and long form ----

  /** Two URLs that differ at most in how their path and query are kept: same host,
      decoded path, escaped path and query. */
  predicate Alike(a: Url, b: Url) {
    && a.scheme == b.scheme && a.user == b.user && a.host == b.host && a.path == b.path
    && EscapedPath(a) == EscapedPath(b) && a.rawQuery == b.rawQuery && a.fragment == b.fragment
  }

  predicate SameTarget(a: Option<Target>, b: Option<Target>) {
    a.Some? == b.Some?
    && (a.Some? ==>
          && a.value.kind == b.value.kind && a.value.owner == b.value.owner && a.value.repo == b.value.repo
          && Alike(a.value.url, b.value.url))
  }

  lemma RewriteAlike(a: Url, b: Url)
    requires Alike(a, b) && PlainPath(a) && PlainPath(b)
    ensures Alike(BlobToRaw(a), BlobToRaw(b))
  {
    BlobRewriteText(a);
    BlobRewriteText(b);
  }

  lemma RehostAlike(a: Url, b: Url, host: string)
    requires Alike(a, b)
    ensures Alike(a.(host := host), b.(host := host))
  {
    assert EscapedPath(a.(host := host)) == EscapedPath(a);
    assert EscapedPath(b.(host := host)) == EscapedPath(b);
  }

  lemma MatchedAlike(a: Url, b: Url)
    requires Alike(a, b) && WellFormed(a) && WellFormed(b)
    ensures SameTarget(Matched(a).1, Matched(b).1)
  {
    assert Hostname(a) == Hostname(b);
    var c := HostCandidates(ToLower(Hostname(a)));
    if c.Some? {
      MatchedAtAlike(a, b, c.value.canonical, c.value.kinds);
    }
  }

  lemma MatchedAtAlike(a: Url, b: Url, host: string, kinds: seq<Kind>)
    requires Alike(a, b) && WellFormed(a) && WellFormed(b)
    ensures SameTarget(MatchedAt(a.(host := host), kinds).1, MatchedAt(b.(host := host), kinds).1)
  {
    var m := FirstMatch(kinds, a.path);
    if m.Some? {
      FirstMatchIs(kinds, a.path);
      RehostPlain(a, b, host, m.value.0);
    }
  }

  lemma RehostPlain(a: Url, b: Url, host: string, kind: Kind)
    requires Alike(a, b) && WellFormed(a) && WellFormed(b) && MatchPath(kind, a.path).Some?
    ensures Alike(a.(host := host), b.(host := host))
    ensures Alike(BlobToRaw(a.(host := host)), BlobToRaw(b.(host := host)))
  {
    RehostAlike(a, b, host);
    MatchedPlainPath(a, kind);
    MatchedPlainPath(b, kind);
    RehostEscaped(a, host);
    RehostEscaped(b, host);
    RewriteAlike(a.(host := host), b.(host := host));
  }

  lemma RehostEscaped(a: Url, host: string)
    ensures EscapedPath(a.(host := host)) == EscapedPath(a)
  {
  }

  /** Letters, digits and hyphens, as GitHub owners are. */
  predicate PlainOwner(owner: string) {
    owner != "" && forall i :: 0 <= i < |owner| ==> IsLetter(owner[i]) || IsDigit(owner[i]) || owner[i] == '-'
  }

  lemma OwnerNoScheme(owner: string, tail: string)
    requires PlainOwner(owner) && (tail == "" || tail[0] == '/' || tail[0] == '?')
    ensures !SpellsScheme(owner + tail)
  {
    var s := owner + tail;
    var low := ToLower(s);
    var n := |owner|;
    assert forall i | 0 <= i < n :: low[i] == LowerChar(owner[i]) && low[i] != ':' && low[i] != '%';
    assert tail != "" ==> low[n] == tail[0];
    NoMarkNoScheme(low, n);
  }

  lemma NoMarkNoScheme(low: string, n: nat)
    requires n <= |low| && forall i :: 0 <= i < n ==> low[i] != ':' && low[i] != '%'
    requires n < |low| ==> low[n] == '/' || low[n] == '?'
    ensures !("http:" <= low) && !("https:" <= low) && !("http%3a" <= low) && !("https%3a" <= low)
  {
    assert "http:"[4] == ':' && "http%3a"[4] == '%' && "https:"[5] == ':' && "https%3a"[5] == '%';
    assert forall i | 0 <= i < 4 ::
        "http:"[i] != '/' && "http:"[i] != '?' && "http%3a"[i] != '/' && "http%3a"[i] != '?';
    assert forall i | 0 <= i < 5 ::
        "https:"[i] != '/' && "https:"[i] != '?' && "https%3a"[i] != '/' && "https%3a"[i] != '?';
  }

  lemma OwnerNetPath(u: Url, owner: string, m: string)
    requires PlainOwner(owner) && (m == "" || m[0] == '/')
    ensures ParseNetPath(u, owner + m) == SetPath(u.(host := owner), m)
  {
    PlainAuthority(u, owner);
    CutShift(owner, m, '/');
    assert Find(m, '/') == 0;
    assert (owner + m)[..|owner|] == owner && (owner + m)[|owner|..] == m;
  }

  /** What the short form parses to before any default is tried. */
  lemma ShortPrepared(owner: string, t: string, m: string)
    requires PlainOwner(owner) && '#' !in t && Cut(t, '?').before == owner + m && (m == "" || m[0] == '/')
    ensures ParseWeb("https", t) ==
            if HasControl(t) then None else SetPath(QueryOnly("https", t).(host := owner), m)
  {
    WebNoFragment(t);
    OwnerNetPath(QueryOnly("https", t), owner, m);
  }

  lemma OwnerNamesNoHost(u: Url, owner: string)
    requires PlainOwner(owner) && u.host == owner
    ensures !NamesAHost(u)
  {
    PlainAuthority(u, owner);
    assert u.(host := owner) == u;
    if IsKnownHost(owner) {
      KnownHostText(owner);
    }
  }

  lemma {:induction false} EscapePlain(a: string)
    requires forall i :: 0 <= i < |a| ==> IsPathPlain(a[i])
    ensures Escape(PathMode, a) == a
  {
    if a == "" {
    } else {
      EscapePlain(a[1..]);
      assert a == [a[0]] + a[1..];
    }
  }

  /** The escaped path of a URL whose path was set from `p`. */
  function Kept(p: string): string
    requires Unescape(p).Some?
  {
    if ValidEncoded(p) then p else Escape(PathMode, Unescape(p).value)
  }

  lemma KeptIs(u: Url, p: string)
    requires (p == "" || StartsWith(p, '/')) && Unescape(p).Some?
    ensures SetPath(u, p).Some? && SetPath(u, p).value.path == Unescape(p).value
    ensures EscapedPath(SetPath(u, p).value) == Kept(p)
    ensures ValidEncoded(Kept(p)) && Unescape(Kept(p)) == Unescape(p)
  {
    if p != "" { StarNot(p); }
    SetPathEscaped(u, p);
  }

  lemma KeptShape(p: string)
    requires (p == "" || StartsWith(p, '/')) && Unescape(p).Some?
    ensures Kept(p) == "" || StartsWith(Kept(p), '/')
  {
    if p != "" {
      assert Unescape(p) == Prepend("/", Unescape(p[1..]));
    }
  }

  lemma ValidBehind(front: string, m: string)
    requires forall i :: 0 <= i < |front| ==> IsPathPlain(front[i])
    ensures ValidEncoded(front + m) <==> ValidEncoded(m)
  {
    var s := front + m;
    assert forall i | 0 <= i < |front| :: s[i] == front[i];
    assert forall i | 0 <= i < |m| :: m[i] == s[|front| + i];
    assert forall i | |front| <= i < |s| :: s[i] == m[i - |front|];
  }

  /** Plain text in front of an escaped path stays in front of what is kept. */
  lemma KeptBehind(front: string, m: string)
    requires forall i :: 0 <= i < |front| ==> IsPathPlain(front[i])
    requires Unescape(m).Some?
    ensures Unescape(front + m) == Some(front + Unescape(m).value) && Kept(front + m) == front + Kept(m)
  {
    assert '%' !in front;
    UnescapePrefix(front, m);
    EscapePlain(front);
    EscapeConcat(PathMode, front, Unescape(m).value);
    ValidBehind(front, m);
  }

  /** The URL the long form prepares to and the one the default makes of the short
      form, both from what follows the owner. */
  lemma LongLikeSpliced(h: string, owner: string, q1: Url, q2: Url, m: string)
    requires PlainOwner(owner) && (m == "" || m[0] == '/') && Unescape(m).Some?
    requires q1 == NO_URL.(scheme := "https", rawQuery := q1.rawQuery, forceQuery := q1.forceQuery)
    requires q2 == NO_URL.(scheme := "https", rawQuery := q1.rawQuery, forceQuery := q2.forceQuery)
    ensures
      var ep := EscapedPath(SetPath(q1.(host := owner), m).value);
      var long, spliced := SetPath(q1.(host := h), "/" + (owner + m)), SetPath(q2.(host := h), "/" + (owner + ep));
      long.Some? && spliced.Some? && Alike(spliced.value, long.value)
  {
    KeptIs(q1.(host := owner), m);
    KeptShape(m);
    Assoc("/", owner, m);
    Assoc("/", owner, Kept(m));
    SameKept(q1.(host := h), q2.(host := h), "/" + owner, m);
  }

  lemma SameKept(u: Url, v: Url, front: string, m: string)
    requires StartsWith(front, '/') && forall i :: 0 <= i < |front| ==> IsPathPlain(front[i])
    requires (m == "" || m[0] == '/') && Unescape(m).Some?
    requires v == u.(forceQuery := v.forceQuery)
    ensures Unescape(Kept(m)).Some? && SetPath(u, front + m).Some? && SetPath(v, front + Kept(m)).Some?
    ensures Alike(SetPath(v, front + Kept(m)).value, SetPath(u, front + m).value)
  {
    KeptIs(u, m);
    KeptBehind(front, m);
    KeptBehind(front, Kept(m));
    KeptIs(u, front + m);
    KeptIs(v, front + Kept(m));
  }

  lemma ShortUrl(owner: string, u: Url)
    requires PlainOwner(owner) && u.host == owner
    ensures BarePath(u) == owner + EscapedPath(u)
  {
    assert (owner + EscapedPath(u))[0] == owner[0];
  }

  lemma TrimmedTail(owner: string, tail: string)
    requires PlainOwner(owner) && '#' !in tail && (tail == "" || tail[0] == '/' || tail[0] == '?')
    ensures
      var t := TrimRight(tail);
      TrimRight(owner + tail) == owner + t && '#' !in t && (t == "" || t[0] == '/' || t[0] == '?')
      && TrimRight(Cut(t, '?').after) == Cut(t, '?').after
  {
    TrimmedFront(owner, tail);
    QueryEnd(TrimRight(tail));
  }

  lemma QueryEnd(t: string)
    requires t == "" || !IsSpace(t[|t| - 1])
    ensures TrimRight(Cut(t, '?').after) == Cut(t, '?').after
  {
    var q := Cut(t, '?').after;
    assert q != "" ==> q[|q| - 1] == t[|t| - 1];
  }

  lemma TailParts(owner: string, t: string)
    requires PlainOwner(owner) && '#' !in t && (t == "" || t[0] == '/' || t[0] == '?')
    ensures '#' !in owner + t
    ensures Cut(owner + t, '?').before == owner + Cut(t, '?').before && Cut(owner + t, '?').after == Cut(t, '?').after
    ensures Cut(t, '?').before == "" || Cut(t, '?').before[0] == '/'
  {
    CutShift(owner, t, '?');
  }

  /** The trimmed short form: both sides come from the same path and query. */
  lemma ShortEqualsLongTrimmed(h: string, owner: string, t: string)
    requires IsKnownHost(h) && PlainOwner(owner) && '#' !in t && (t == "" || t[0] == '/' || t[0] == '?')
    requires TrimRight(Cut(t, '?').after) == Cut(t, '?').after
    ensures SameTarget(ResolveUrl(Normalized(ParseWeb("https", owner + t)), [h]), MatchedOf(AtHost(h, owner + t)))
  {
    TailParts(owner, t);
    ShortFromParts(h, owner, owner + t, Cut(t, '?').before);
    ShortPrepared(owner, owner + t, Cut(t, '?').before);
  }

  lemma ShortFromParts(h: string, owner: string, s: string, m: string)
    requires IsKnownHost(h) && PlainOwner(owner) && '#' !in s && (m == "" || m[0] == '/')
    requires Cut(s, '?').before == owner + m && TrimRight(Cut(s, '?').after) == Cut(s, '?').after
    ensures
      var short := if HasControl(s) then None else SetPath(QueryOnly("https", s).(host := owner), m);
      SameTarget(ResolveUrl(Normalized(short), [h]), MatchedOf(AtHost(h, s)))
  {
    var q := QueryOnly("https", s);
    if !HasControl(s) {
      if Unescape(m).Some? {
        var u := SetPath(q.(host := owner), m).value;
        ShortSide(h, owner, u);
        SplicedSide(h, owner, u, q, m, s);
      } else {
        BothFail(q.(host := h), owner, m);
      }
    }
  }

  lemma BothFail(u: Url, owner: string, m: string)
    requires PlainOwner(owner) && Unescape(m) == None
    ensures SetPath(u, "/" + (owner + m)) == None
  {
    Assoc("/", owner, m);
    UnescapePrefix("/" + owner, m);
  }

  /** The short form is left to its only default. */
  lemma ShortSide(h: string, owner: string, u: Url)
    requires PlainOwner(owner) && u.host == owner && u.scheme == "https" && u.user == None
    ensures ResolveUrl(Normalized(Some(u)), [h]) == Attempt(h, u)
  {
    OwnerNamesNoHost(u, owner);
    NamesSameHost(u);
    assert Normalized(Some(u)) == Some(u);
    assert FirstAttempt([], u) == None;
    assert [h][1..] == [];
  }

  /** What the default makes of the short form is like the long form. */
  lemma SplicedSide(h: string, owner: string, u: Url, q: Url, m: string, s: string)
    requires IsKnownHost(h) && PlainOwner(owner) && (m == "" || m[0] == '/') && Unescape(m).Some?
    requires '#' !in s && !HasControl(s) && q == QueryOnly("https", s) && Cut(s, '?').before == owner + m
    requires TrimRight(q.rawQuery) == q.rawQuery
    requires Some(u) == SetPath(q.(host := owner), m)
    ensures SameTarget(Attempt(h, u), MatchedOf(AtHost(h, s)))
  {
    SplicedPrepared(h, owner, u, q, m, s);
    var s' := TrimRight(Hostless(u));
    LongLikeSpliced(h, owner, q, QueryOnly("https", s'), m);
    BothWellFormed(h, owner + m, s);
    BothWellFormed(h, owner + EscapedPath(u), s');
    MatchedAlike(AtHost(h, s').value, AtHost(h, s).value);
  }

  lemma BothWellFormed(h: string, bare: string, s: string)
    requires IsKnownHost(h) && Cut(s, '?').before == bare && AtHost(h, s).Some?
    ensures WellFormed(AtHost(h, s).value)
  {
    KnownHostPlain(h);
    SetPathWellFormed(QueryOnly("https", s).(host := h), "/" + bare);
  }

  /** The text behind the default host, and what it parses to. */
  lemma SplicedPrepared(h: string, owner: string, u: Url, q: Url, m: string, s: string)
    requires IsKnownHost(h) && PlainOwner(owner) && (m == "" || m[0] == '/')
    requires '#' !in s && !HasControl(s) && q == QueryOnly("https", s)
    requires TrimRight(q.rawQuery) == q.rawQuery && Some(u) == SetPath(q.(host := owner), m)
    ensures
      var s' := TrimRight(Hostless(u));
      && Prepared(h + "/" + Hostless(u)) == AtHost(h, s') && !HasControl(s')
      && Cut(s', '?').before == owner + EscapedPath(u) && Cut(s', '?').after == q.rawQuery
  {
    SetPathWellFormed(q.(host := owner), m);
    QueryClean(s);
    HostlessTrimmed(u);
    HostlessClean(u);
    ShortUrl(owner, u);
    PreparedAtHost(h, Hostless(u));
  }

  lemma LongSide(h: string, s: string)
    requires IsKnownHost(h) && '#' !in s
    ensures Resolve("https://" + (h + "/" + s), []) == MatchedOf(AtHost(h, TrimRight(s)))
  {
    PreparedLong(h, s);
    if AtHost(h, TrimRight(s)).Some? {
      assert FirstAttempt([], Matched(AtHost(h, TrimRight(s)).value).0) == None;
    }
  }

  /** A text that spells no scheme resolves as its https form. */
  lemma BareResolves(s: string, t: string, defaults: seq<string>)
    requires s != "" && !IsSpace(s[0]) && t == TrimRight(s) && !SpellsScheme(t)
    ensures Resolve(s, defaults) == ResolveUrl(Normalized(ParseWeb("https", t)), defaults)
  {
    PreparedBare(s);
  }

  lemma ShortIsBare(owner: string, tail: string)
    requires PlainOwner(owner) && '#' !in tail && (tail == "" || tail[0] == '/' || tail[0] == '?')
    ensures BareText(owner + tail, owner + TrimRight(tail))
  {
    TrimmedTail(owner, tail);
    OwnerNoScheme(owner, TrimRight(tail));
    assert (owner + tail)[0] == owner[0];
  }

  lemma ShortAgrees(h: string, owner: string, tail: string)
    requires IsKnownHost(h) && PlainOwner(owner)
    requires '#' !in tail && (tail == "" || tail[0] == '/' || tail[0] == '?')
    ensures
      var t := owner + TrimRight(tail);
      SameTarget(ResolveUrl(Normalized(ParseWeb("https", t)), [h]), MatchedOf(AtHost(h, t)))
  {
    TrimmedTail(owner, tail);
    ShortEqualsLongTrimmed(h, owner, TrimRight(tail));
  }

  /** The trimmed text, both sides resolved. */
  lemma BothResolved(h: string, s: string, t: string)
    requires IsKnownHost(h) && BareText(s, t)
    requires SameTarget(ResolveUrl(Normalized(ParseWeb("https", t)), [h]), MatchedOf(AtHost(h, t)))
    ensures SameTarget(Resolve(s, [h]), Resolve("https://" + (h + "/" + s), []))
  {
    BareResolves(s, t, [h]);
    LongSide(h, s);
  }

  /** Main result: with one default host, a target that leaves the host out is
      accepted exactly when the full URL on that host is, with the same kind, owner,
      repository, path, escaped path and query. */
  lemma ShortEqualsLong(h: string, owner: string, tail: string)
    requires IsKnownHost(h) && PlainOwner(owner)
    requires '#' !in tail && (tail == "" || tail[0] == '/' || tail[0] == '?')
    ensures SameTarget(Resolve(owner + tail, [h]), Resolve("https://" + (h + "/" + (owner + tail)), []))
  {
    ShortIsBare(owner, tail);
    ShortAgrees(h, owner, tail);
    BothResolved(h, owner + tail, owner + TrimRight(tail));
  }
}
