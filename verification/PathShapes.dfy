/** The path shapes and the blob-to-raw rewrite, stated over whole segments. */
module PathShapes {
  import opened Text
  import opened NetUrl
  import opened GhUrl

  function Segments(p: string): (r: seq<string>)
    ensures |r| >= 1
  {
    Split(p, '/')
  }

  // ---- path shapes ----

  /** What each kind wants after the owner and the repository, in segments.
      `[""]` is a text that ends in a slash. */
  predicate FitsTail(kind: Kind, tail: seq<string>)
    requires |tail| >= 1
  {
    match kind
    case Release => (tail[0] == "releases" || tail[0] == "archive") && |tail| > 1 && tail[1..] != [""]
    case Blob => (tail[0] == "blob" || tail[0] == "raw") && |tail| > 1 && tail[1..] != [""]
    case Git => tail == ["info", "refs"] || tail == ["git-upload-pack"] || tail == ["git-receive-pack"]
    case Tags => tail[0] == "tags"
    case Raw => |tail| > 1 && tail[1..] != [""]
    case Gist => false
  }

  /** Which segment lists a kind accepts. */
  predicate Fits(kind: Kind, segs: seq<string>) {
    if kind.Gist? then |segs| >= 4 && segs[0] == "" && segs[1] != "" && segs[3..] != [""]
    else
      && |segs| >= 4 && segs[0] == "" && segs[1] != "" && segs[2] != "" && segs[3..] != [""]
      && FitsTail(kind, segs[3..])
  }

  lemma SegmentsCut(s: string)
    ensures Cut(s, '/').found ==> Segments(s) == [Cut(s, '/').before] + Segments(Cut(s, '/').after)
    ensures !Cut(s, '/').found ==> Segments(s) == [s]
    ensures Segments(s)[0] == Cut(s, '/').before && ((Segments(s)[1..] != []) <==> Cut(s, '/').found)
    ensures Cut(s, '/').found ==> Segments(s)[1..] == Segments(Cut(s, '/').after)
    ensures Segments(s) == [""] <==> s == ""
  {
  }

  lemma FirstSegmentBySegments(p: string)
    ensures
      var segs := Segments(p);
      if |segs| >= 3 && segs[0] == "" && segs[1] != "" then
        FirstSegment(p).Some? && FirstSegment(p).value.0 == segs[1] && Segments(FirstSegment(p).value.1) == segs[2..]
      else FirstSegment(p) == None
  {
    SegmentsCut(p);
    if StartsWith(p, '/') {
      FindAt("", '/', p[1..]);
      assert p == "" + ['/'] + p[1..];
      SegmentsCut(p[1..]);
      assert Segments(p) == [""] + Segments(p[1..]);
    }
  }

  lemma OwnerRepoBySegments(p: string)
    ensures
      var segs := Segments(p);
      if |segs| >= 4 && segs[0] == "" && segs[1] != "" && segs[2] != "" && segs[3..] != [""] then
        OwnerRepo(p).Some? && OwnerRepo(p).value.0 == segs[1] && OwnerRepo(p).value.1 == segs[2]
        && Segments(OwnerRepo(p).value.2) == segs[3..]
      else OwnerRepo(p) == None
  {
    FirstSegmentBySegments(p);
    if FirstSegment(p).Some? {
      var after := FirstSegment(p).value.1;
      var segs := Segments(p);
      SegmentsCut(after);
      SegmentsCut(Cut(after, '/').after);
      assert segs[2..][0] == segs[2] && segs[2..][1..] == segs[3..];
    }
  }

  lemma SegmentsInjective(a: string, b: string)
    requires Segments(a) == Segments(b)
    ensures a == b
  {
    JoinSplit(a, '/');
    JoinSplit(b, '/');
  }

  lemma OneSegmentText(rest: string, a: string)
    requires '/' !in a
    ensures rest == a <==> Segments(rest) == [a]
  {
    FindNone(a, '/');
    if Segments(rest) == [a] { SegmentsInjective(rest, a); }
  }

  lemma TwoSegmentText(rest: string, a: string, b: string)
    requires '/' !in a && '/' !in b
    ensures rest == a + ['/'] + b <==> Segments(rest) == [a, b]
  {
    FindNone(b, '/');
    SplitStep(a, '/', b);
    if Segments(rest) == [a, b] { SegmentsInjective(rest, a + ['/'] + b); }
  }

  lemma GitRests(rest: string)
    ensures rest == "info/refs" <==> Segments(rest) == ["info", "refs"]
    ensures rest == "git-upload-pack" <==> Segments(rest) == ["git-upload-pack"]
    ensures rest == "git-receive-pack" <==> Segments(rest) == ["git-receive-pack"]
  {
    TwoSegmentText(rest, "info", "refs");
    OneSegmentText(rest, "git-upload-pack");
    OneSegmentText(rest, "git-receive-pack");
  }

  /** The captured part of a path that fits. */
  function Captured(kind: Kind, segs: seq<string>): Option<(string, string)> {
    if Fits(kind, segs) then Some((segs[1], if kind.Gist? then "" else segs[2])) else None
  }

  /** Main result: a path is accepted as a kind exactly when its segments fit, and
      what is captured are whole segments, so no name can swallow a slash. */
  lemma ShapeBySegments(kind: Kind, p: string)
    ensures MatchPath(kind, p) == Captured(kind, Segments(p))
  {
    if kind.Gist? { GistBySegments(p); } else { RepoBySegments(kind, p); }
  }

  lemma GistBySegments(p: string)
    ensures MatchPath(Gist, p) == Captured(Gist, Segments(p))
  {
    var segs := Segments(p);
    FirstSegmentBySegments(p);
    if FirstSegment(p).Some? {
      var after := FirstSegment(p).value.1;
      SegmentsCut(after);
      SegmentsCut(Cut(after, '/').after);
      assert segs[2..][1..] == segs[3..];
    }
  }

  lemma RestBySegments(kind: Kind, rest: string)
    ensures FitsRest(kind, rest) == FitsTail(kind, Segments(rest))
  {
    if kind.Git? {
      GitRests(rest);
    } else {
      SegmentsCut(rest);
      SegmentsCut(Cut(rest, '/').after);
    }
  }

  lemma RepoBySegments(kind: Kind, p: string)
    requires !kind.Gist?
    ensures MatchPath(kind, p) == Captured(kind, Segments(p))
  {
    OwnerRepoBySegments(p);
    if OwnerRepo(p).Some? {
      RestBySegments(kind, OwnerRepo(p).value.2);
    }
  }

  /** Captured names are never empty where they must not be, and hold no slash. */
  lemma CapturedNames(kind: Kind, p: string)
    ensures MatchPath(kind, p).Some? ==>
              var m := MatchPath(kind, p).value;
              m.0 != "" && '/' !in m.0 && '/' !in m.1 && (m.1 == "" <==> kind.Gist?)
  {
    ShapeBySegments(kind, p);
    SplitPieces(p, '/');
  }

  // ---- blob to raw ----

  /** A segment as it stands between two slashes. */
  function Between(x: string): string { ['/'] + x + ['/'] }

  lemma BlobSpelling()
    ensures Between("blob") == "/blob/" && Between("raw") == "/raw/"
    ensures ValidEncoded("blob") && ValidEncoded("raw") && '%' !in "blob" && '%' !in "raw"
    ensures '/' !in "blob" && '/' !in "raw" && |"blob"| == 4 && |"raw"| == 3
  {
  }

  /** The first segment `x` that stands between two slashes, or the length. */
  function FirstInner(segs: seq<string>, x: string): (i: nat)
    ensures i < |segs| ==> 1 <= i < |segs| - 1 && segs[i] == x
    ensures i >= |segs| ==> i == |segs|
    ensures forall k :: 1 <= k < i && k < |segs| - 1 ==> segs[k] != x
  {
    if |segs| < 3 then |segs|
    else if segs[1] == x then 1
    else 1 + FirstInner(segs[1..], x)
  }

  function ReplaceInner(segs: seq<string>, x: string, y: string): seq<string> {
    if FirstInner(segs, x) < |segs| then segs[FirstInner(segs, x) := y] else segs
  }

  function FirstBlob(segs: seq<string>): nat { FirstInner(segs, "blob") }

  function RawSegments(segs: seq<string>): seq<string> { ReplaceInner(segs, "blob", "raw") }

  lemma {:induction false} IndexOfShift(a: string, s: string, x: string)
    requires '/' !in a
    ensures IndexOf(a + s, Between(x)) == |a| + IndexOf(s, Between(x))
  {
    if a == "" {
      assert a + s == s;
    } else {
      assert (a + s)[0] == a[0] && (a + s)[1..] == a[1..] + s;
      assert Between(x)[0] == '/';
      IndexOfShift(a[1..], s, x);
    }
  }

  lemma BetweenPrefix(x: string, rest: string)
    ensures Between(x) <= ['/'] + rest <==> x + ['/'] <= rest
  {
    var m := x + ['/'];
    assert Between(x) == ['/'] + m;
    if m <= rest {
      assert ['/'] + rest == ['/'] + m + rest[|m|..];
    }
    if ['/'] + m <= ['/'] + rest {
      assert forall k | 0 <= k < |m| :: m[k] == (['/'] + m)[k + 1] && rest[k] == (['/'] + rest)[k + 1];
    }
  }

  /** Where the first occurrence lies: at the first slash, or past it. */
  lemma IndexOfStep(a: string, rest: string, x: string)
    requires '/' !in a
    ensures IndexOf(a + (['/'] + rest), Between(x)) ==
            if x + ['/'] <= rest then |a| else |a| + 1 + IndexOf(rest, Between(x))
  {
    IndexOfShift(a, ['/'] + rest, x);
    BetweenPrefix(x, rest);
    assert (['/'] + rest)[1..] == rest;
  }

  lemma ReplaceHere(a: string, b: string, x: string, y: string)
    requires '/' !in a
    ensures ReplaceFirst(a + ['/'] + (x + ['/'] + b), Between(x), Between(y)) == a + ['/'] + (y + ['/'] + b)
  {
    SlashesAround(a, x, b);
    SlashesAround(a, y, b);
    assert x + ['/'] <= x + ['/'] + b;
    IndexOfStep(a, x + ['/'] + b, x);
    Assoc(a, ['/'], x + ['/'] + b);
    ReplaceAround(a, Between(x), b, Between(y));
  }

  lemma SlashesAround(a: string, x: string, b: string)
    ensures a + ['/'] + (x + ['/'] + b) == a + (Between(x) + b)
  {
  }

  lemma ReplaceLater(a: string, rest: string, x: string, y: string)
    requires '/' !in a && !(x + ['/'] <= rest)
    ensures ReplaceFirst(a + ['/'] + rest, Between(x), Between(y)) ==
            a + ['/'] + ReplaceFirst(rest, Between(x), Between(y))
  {
    IndexOfStep(a, rest, x);
    Assoc(a, ['/'], rest);
    if IndexOf(rest, Between(x)) < |rest| {
      var c, d := Around(rest, Between(x));
      var front := a + ['/'];
      Assoc(front, c, Between(x) + d);
      Assoc(front, c, Between(y) + d);
      ReplaceAround(c, Between(x), d, Between(y));
      ReplaceAround(front + c, Between(x), d, Between(y));
    }
  }

  lemma LeadingSegment(rest: string, x: string)
    requires '/' !in x
    ensures x + ['/'] <= rest <==> |Segments(rest)| >= 2 && Segments(rest)[0] == x
    ensures x + ['/'] <= rest ==> Segments(rest) == [x] + Segments(rest[|x| + 1..])
  {
    if x + ['/'] <= rest {
      assert rest == x + ['/'] + rest[|x| + 1..];
      SplitStep(x, '/', rest[|x| + 1..]);
    } else {
      SegmentsCut(rest);
    }
  }

  /** Main result: the textual replacement replaces one whole segment. */
  lemma {:induction false} ReplaceBySegments(s: string, x: string, y: string)
    requires '/' !in x && '/' !in y
    ensures ReplacesSegment(s, x, y)
    decreases |s|
  {
    SegmentsCut(s);
    var c := Cut(s, '/');
    if c.found {
      ReplaceBySegments(c.after, x, y);
      ReplaceFromRest(c.before, c.after, x, y);
    } else {
      IndexOfShift(s, "", x);
      assert s + "" == s;
    }
  }

  predicate ReplacesSegment(s: string, x: string, y: string) {
    Segments(ReplaceFirst(s, Between(x), Between(y))) == ReplaceInner(Segments(s), x, y)
    && (IndexOf(s, Between(x)) < |s| <==> FirstInner(Segments(s), x) < |Segments(s)|)
  }

  lemma ReplaceFromRest(a: string, rest: string, x: string, y: string)
    requires '/' !in a && '/' !in x && '/' !in y && ReplacesSegment(rest, x, y)
    ensures ReplacesSegment(a + ['/'] + rest, x, y)
  {
    if x + ['/'] <= rest {
      var b := AfterPrefix(x + ['/'], rest);
      ReplaceHead(a, b, x, y);
    } else {
      ReplaceTail(a, rest, x, y);
    }
  }

  lemma AfterPrefix(front: string, s: string) returns (b: string)
    requires front <= s
    ensures s == front + b
  {
    b := s[|front|..];
  }

  lemma ReplaceTail(a: string, rest: string, x: string, y: string)
    requires '/' !in a && '/' !in x && '/' !in y && ReplacesSegment(rest, x, y)
    requires !(x + ['/'] <= rest)
    ensures ReplacesSegment(a + ['/'] + rest, x, y)
  {
    LeadingSegment(rest, x);
    InnerStep(a, Segments(rest), x, y);
    SplitStep(a, '/', rest);
    ReplaceLater(a, rest, x, y);
    SplitStep(a, '/', ReplaceFirst(rest, Between(x), Between(y)));
    IndexOfStep(a, rest, x);
    Assoc(a, ['/'], rest);
  }

  lemma SplitThree(a: string, x: string, b: string)
    requires '/' !in a && '/' !in x
    ensures Segments(a + ['/'] + (x + ['/'] + b)) == [a] + ([x] + Segments(b))
  {
    SplitStep(x, '/', b);
    SplitStep(a, '/', x + ['/'] + b);
  }

  lemma InnerHead(a: string, x: string, tail: seq<string>, y: string)
    requires |tail| >= 1
    ensures FirstInner([a] + ([x] + tail), x) == 1 && ReplaceInner([a] + ([x] + tail), x, y) == [a] + ([y] + tail)
  {
    assert ([a] + ([x] + tail))[1 := y] == [a] + ([y] + tail);
  }

  lemma ReplaceHead(a: string, b: string, x: string, y: string)
    requires '/' !in a && '/' !in x && '/' !in y
    ensures ReplacesSegment(a + ['/'] + (x + ['/'] + b), x, y)
  {
    ReplaceHere(a, b, x, y);
    SplitThree(a, x, b);
    SplitThree(a, y, b);
    InnerHead(a, x, Segments(b), y);
    IndexOfHead(a, b, x);
  }

  lemma IndexOfHead(a: string, b: string, x: string)
    requires '/' !in a
    ensures IndexOf(a + ['/'] + (x + ['/'] + b), Between(x)) == |a|
  {
    assert x + ['/'] <= x + ['/'] + b;
    IndexOfStep(a, x + ['/'] + b, x);
    Assoc(a, ['/'], x + ['/'] + b);
  }

  lemma InnerStep(a: string, segs: seq<string>, x: string, y: string)
    requires |segs| >= 1 && !(|segs| >= 2 && segs[0] == x)
    ensures ReplaceInner([a] + segs, x, y) == [a] + ReplaceInner(segs, x, y)
    ensures FirstInner([a] + segs, x) < |segs| + 1 <==> FirstInner(segs, x) < |segs|
  {
    assert ([a] + segs)[1..] == segs;
  }

  predicate OneSlash(s: string) { StartsWith(s, '/') && !StartsTwice(s, '/') }

  /** The URLs the matcher works on: an escaped path that starts with a slash, is
      not a network path, and decodes to the path. */
  predicate PlainPath(u: Url) {
    var esc := EscapedPath(u);
    ValidEncoded(esc) && Unescape(esc) == Some(u.path) && OneSlash(esc)
  }

  /** A text cut before a slash decodes in two parts. */
  lemma {:induction false} UnescapeBeforeSlash(a: string, b: string)
    requires Unescape(a + b).Some? && StartsWith(b, '/')
    ensures Unescape(a).Some? && Unescape(b).Some?
    ensures Unescape(a + b).value == Unescape(a).value + Unescape(b).value
    decreases |a|
  {
    if a == "" {
      assert a + b == b;
      assert "" + Unescape(b).value == Unescape(b).value;
    } else {
      var n := if a[0] == '%' then 3 else 1;
      assert forall i | |a| <= i < |a + b| :: (a + b)[i] == b[i - |a|];
      assert |a| < n ==> !IsHex((a + b)[|a|]);
      assert (a + b)[n..] == a[n..] + b;
      UnescapeBeforeSlash(a[n..], b);
      UnescapeConcat(a, b);
    }
  }

  lemma ParsePath(esc: string)
    requires ValidEncoded(esc) && OneSlash(esc)
    ensures Parse(esc) == SetPath(NO_URL, esc)
  {
    ValidEncodedClean(esc);
    FindNone(esc, '#');
    FindNone(esc, '?');
    assert SchemeLength(esc) == 0;
    assert esc[..|esc|] == esc && ToLower("") == "";
  }

  /** Replacing a segment of an escaped path replaces it in the decoded path. */
  lemma DecodedReplace(a: string, b: string, x: string, y: string)
    requires Unescape(a + (Between(x) + b)).Some? && '%' !in x && '%' !in y
    ensures Unescape(a).Some? && Unescape(b).Some?
    ensures Unescape(a + (Between(x) + b)) == Some(Unescape(a).value + (Between(x) + Unescape(b).value))
    ensures Unescape(a + (Between(y) + b)) == Some(Unescape(a).value + (Between(y) + Unescape(b).value))
  {
    UnescapeBeforeSlash(a, Between(x) + b);
    UnescapePrefix(Between(x), b);
    UnescapePrefix(Between(y), b);
    UnescapeConcat(a, Between(y) + b);
  }

  /** The replacement leaves an absolute path that is not a network path. */
  lemma ReplacedAbsolute(a: string, b: string, x: string, y: string)
    requires
      var esc := a + (Between(x) + b);
      ValidEncoded(esc) && OneSlash(esc)
    requires y != "" && y[0] != '/' && ValidEncoded(y)
    ensures
      var out := a + (Between(y) + b);
      ValidEncoded(out) && OneSlash(out)
  {
    ValidEncodedParts(a, Between(x), b);
    ValidEncodedConcat(a, Between(y), b);
  }

  lemma ValidEncodedParts(a: string, m: string, b: string)
    requires ValidEncoded(a + (m + b))
    ensures ValidEncoded(a) && ValidEncoded(b)
  {
    var s := a + (m + b);
    assert forall i | 0 <= i < |a| :: a[i] == s[i];
    assert forall i | 0 <= i < |b| :: b[i] == s[|a| + |m| + i];
  }

  lemma ValidEncodedConcat(a: string, m: string, b: string)
    requires ValidEncoded(a) && ValidEncoded(m) && ValidEncoded(b)
    ensures ValidEncoded(a + (m + b))
  {
  }

  /** Main result: of a matched URL the rewrite changes exactly the first escaped
      segment "blob" followed by a slash, and every other one stays byte for byte. */
  lemma BlobRewrite(u: Url)
    requires PlainPath(u)
    ensures Segments(EscapedPath(BlobToRaw(u))) == RawSegments(Segments(EscapedPath(u)))
    ensures BlobToRaw(u) == u.(path := BlobToRaw(u).path, rawPath := BlobToRaw(u).rawPath)
    ensures PlainPath(BlobToRaw(u))
  {
    BlobSpelling();
    ReplaceBySegments(EscapedPath(u), "blob", "raw");
    BlobRewriteText(u);
  }

  /** The rewritten URL carries the textually replaced path. */
  lemma BlobRewriteText(u: Url)
    requires PlainPath(u)
    ensures BlobToRaw(u) == u.(path := BlobToRaw(u).path, rawPath := BlobToRaw(u).rawPath)
    ensures EscapedPath(BlobToRaw(u)) == ReplaceFirst(EscapedPath(u), "/blob/", "/raw/")
    ensures PlainPath(BlobToRaw(u))
  {
    var esc := EscapedPath(u);
    BlobSpelling();
    if IndexOf(esc, "/blob/") < |esc| {
      ReplacedIsPath(esc, "blob", "raw");
      RewrittenPath(u, ReplaceFirst(esc, "/blob/", "/raw/"));
    }
  }

  lemma ReplacedIsPath(esc: string, x: string, y: string)
    requires ValidEncoded(esc) && Unescape(esc).Some? && OneSlash(esc) && IndexOf(esc, Between(x)) < |esc|
    requires '%' !in x && '%' !in y && y != "" && y[0] != '/' && ValidEncoded(y)
    ensures
      var out := ReplaceFirst(esc, Between(x), Between(y));
      ValidEncoded(out) && OneSlash(out) && Unescape(out).Some?
  {
    var a, b := Around(esc, Between(x));
    DecodedReplace(a, b, x, y);
    ReplacedAbsolute(a, b, x, y);
    ReplaceAround(a, Between(x), b, Between(y));
  }

  /** An escaped path put into a URL by way of `url.Parse` comes back from it. */
  lemma RewrittenPath(u: Url, out: string)
    requires ValidEncoded(out) && OneSlash(out) && Unescape(out).Some?
    ensures Parse(out).Some? && Unescape(out) == Some(Parse(out).value.path)
    ensures EscapedPath(u.(path := Parse(out).value.path, rawPath := Parse(out).value.rawPath)) == out
  {
    ParsePath(out);
    StarNot(out);
    SetPathEscaped(NO_URL, out);
    var pu := SetPath(NO_URL, out).value;
    assert EscapedPath(u.(path := pu.path, rawPath := pu.rawPath)) == EscapedPath(pu);
  }

  /** No absolute path decodes to "*". */
  lemma StarNot(p: string)
    requires StartsWith(p, '/')
    ensures p != "*" && Unescape(p) != Some("*")
  {
  }

  /** A URL is left as it is exactly when its escaped path holds no "/blob/". So a
      /raw/ path is not always kept: one with a later "/blob/" is rewritten. */
  lemma UntouchedWithoutBlob(u: Url)
    requires PlainPath(u)
    ensures BlobToRaw(u) == u <==> IndexOf(EscapedPath(u), "/blob/") == |EscapedPath(u)|
  {
    BlobRewrite(u);
    BlobSpelling();
    var segs := Segments(EscapedPath(u));
    ReplaceBySegments(EscapedPath(u), "blob", "raw");
    if FirstBlob(segs) < |segs| {
      assert RawSegments(segs)[FirstBlob(segs)] == "raw";
    }
  }

  /** The number of decoded segments in front of the one the rewrite replaces. */
  function DecodedIndex(esc: string): nat {
    match Unescape(esc[..IndexOf(esc, "/blob/")])
    case None => 0
    case Some(front) => |Segments(front)|
  }

  lemma SplitAround(a: string, x: string, b: string)
    requires '/' !in x
    ensures Segments(a + (Between(x) + b)) == Segments(a) + ([x] + Segments(b))
  {
    SlashesAround(a, x, b);
    SplitConcat(a, '/', x + ['/'] + b);
    SplitStep(x, '/', b);
  }

  /** Of a fitting segment list, the names stay when a later segment turns raw. */
  lemma FitsAfterReplace(segs: seq<string>, j: nat)
    requires Fits(Blob, segs) && j < |segs| && segs[j] == "blob"
    ensures
      var out := segs[j := "raw"];
      (Fits(Blob, out) && out[1] == segs[1] && out[2] == segs[2]) <==> j >= 3
  {
    BlobSpelling();
    var out := segs[j := "raw"];
    assert |out[3..]| == |segs[3..]| > 1;
    if j >= 4 {
      assert out[3..][1..][j - 4] == "raw";
    } else {
      assert out[3..][1..] == segs[3..][1..];
    }
  }

  /** Main result: the forwarded path still names the owner and repository that
      were matched exactly when the rewritten segment comes after both; an owner or
      repository called "blob" is itself rewritten. */
  lemma RewriteKeepsNames(u: Url)
    requires PlainPath(u) && MatchPath(Blob, u.path).Some?
    requires IndexOf(EscapedPath(u), "/blob/") < |EscapedPath(u)|
    ensures MatchPath(Blob, BlobToRaw(u).path) == MatchPath(Blob, u.path) <==> DecodedIndex(EscapedPath(u)) >= 3
  {
    var esc := EscapedPath(u);
    BlobRewriteText(u);
    BlobSpelling();
    var a, b := Around(esc, "/blob/");
    CutOut(a, "/blob/", b);
    DecodedReplace(a, b, "blob", "raw");
    ReplaceAround(a, "/blob/", b, "/raw/");
    NamesAfterReplace(Unescape(a).value, Unescape(b).value, u.path, BlobToRaw(u).path);
  }

  lemma NamesAfterReplace(a: string, b: string, p: string, q: string)
    requires p == a + (Between("blob") + b) && q == a + (Between("raw") + b)
    requires MatchPath(Blob, p).Some?
    ensures MatchPath(Blob, q) == MatchPath(Blob, p) <==> |Segments(a)| >= 3
  {
    assert '/' !in "blob" && '/' !in "raw";
    SplitAround(a, "blob", b);
    SplitAround(a, "raw", b);
    UpdateMiddle(Segments(a), "blob", Segments(b), "raw");
    NamesBySegments(p, q, |Segments(a)|);
  }

  lemma NamesBySegments(p: string, q: string, j: nat)
    requires MatchPath(Blob, p).Some?
    requires j < |Segments(p)| && Segments(p)[j] == "blob" && Segments(q) == Segments(p)[j := "raw"]
    ensures MatchPath(Blob, q) == MatchPath(Blob, p) <==> j >= 3
  {
    ShapeBySegments(Blob, p);
    ShapeBySegments(Blob, q);
    FitsAfterReplace(Segments(p), j);
  }

  // ---- the same by escaped segments ----

  /** Decoding adds segments and never joins any. */
  lemma {:induction false} DecodedSegments(a: string)
    requires Unescape(a).Some?
    ensures |Segments(Unescape(a).value)| >= |Segments(a)|
    decreases |a|
  {
    SegmentsCut(a);
    var c := Cut(a, '/');
    if c.found {
      var rest := ['/'] + c.after;
      assert a == c.before + rest;
      UnescapeBeforeSlash(c.before, rest);
      UnescapePrefix(['/'], c.after);
      DecodedSegments(c.after);
      DecodedSplit(Unescape(c.before).value, Unescape(c.after).value);
    }
  }

  lemma DecodedSplit(x: string, y: string)
    ensures |Segments(x + (['/'] + y))| >= 1 + |Segments(y)|
  {
    assert x + (['/'] + y) == x + ['/'] + y;
    SplitConcat(x, '/', y);
  }

  /** The text in front of the first "/blob/" holds the segments in front of it. */
  lemma FirstBlobIndex(esc: string)
    requires IndexOf(esc, "/blob/") < |esc|
    ensures |Segments(esc[..IndexOf(esc, "/blob/")])| == FirstBlob(Segments(esc))
  {
    BlobSpelling();
    var a, b := Around(esc, "/blob/");
    CutOut(a, "/blob/", b);
    ReplaceAround(a, "/blob/", b, "/raw/");
    SplitAround(a, "blob", b);
    SplitAround(a, "raw", b);
    UpdateMiddle(Segments(a), "blob", Segments(b), "raw");
    ReplaceBySegments(esc, "blob", "raw");
    SameUpdate(Segments(esc), |Segments(a)|, FirstBlob(Segments(esc)), "blob", "raw");
  }

  lemma SameUpdate(s: seq<string>, j: nat, k: nat, x: string, y: string)
    requires j < |s| && k < |s| && s[j] == x && x != y && s[j := y] == s[k := y]
    ensures j == k
  {
    assert s[j := y][j] == y;
  }

  /** Names not spelled "blob" are kept. */
  lemma SpelledNamesKept(u: Url)
    requires PlainPath(u) && MatchPath(Blob, u.path).Some? && FirstBlob(Segments(EscapedPath(u))) >= 3
    ensures MatchPath(Blob, BlobToRaw(u).path) == MatchPath(Blob, u.path)
  {
    var esc := EscapedPath(u);
    if IndexOf(esc, "/blob/") < |esc| {
      FirstBlobIndex(esc);
      var a, b := Around(esc, "/blob/");
      CutOut(a, "/blob/", b);
      UnescapeBeforeSlash(a, "/blob/" + b);
      DecodedSegments(a);
      RewriteKeepsNames(u);
    }
  }

  lemma ThirdIsFirst(s: seq<string>, r: seq<string>)
    requires |s| > 4 && r == RawSegments(s)
    ensures s[3] == "blob" && r == s[3 := "raw"] <==> s[3] == "blob" && s[1] != "blob" && s[2] != "blob"
    ensures s[3] == "blob" && s[1] != "blob" && s[2] != "blob" ==> FirstBlob(s) == 3
  {
    BlobSpelling();
    var k := FirstBlob(s);
    if s[3] == "blob" {
      assert k <= 3;
      SameUpdateEither(s, k, 3);
    }
  }

  lemma SameUpdateEither(s: seq<string>, j: nat, k: nat)
    requires j < |s| && k < |s| && s[j] == "blob"
    ensures s[j := "raw"] == s[k := "raw"] && s[k] == "blob" ==> j == k
  {
    BlobSpelling();
    assert s[j := "raw"][j] == "raw";
  }

  /** Main result: of a matched path it is the third segment that is rewritten, with
      owner and repository kept, exactly when that segment is spelled "blob" and neither
      name is. */
  lemma RewritesTheThird(u: Url)
    requires PlainPath(u) && MatchPath(Blob, u.path).Some?
    ensures
      var s, r := Segments(EscapedPath(u)), Segments(EscapedPath(BlobToRaw(u)));
      |s| > 4 ==>
        (s[3] == "blob" && r == s[3 := "raw"] && MatchPath(Blob, BlobToRaw(u).path) == MatchPath(Blob, u.path)
         <==> s[3] == "blob" && s[1] != "blob" && s[2] != "blob")
  {
    var s := Segments(EscapedPath(u));
    BlobRewrite(u);
    if |s| > 4 {
      ThirdIsFirst(s, RawSegments(s));
      if FirstBlob(s) == 3 {
        SpelledNamesKept(u);
      }
    }
  }
}
