/** Inputs at which the program does other than its documentation says, each at the edge
    of an exact condition proved elsewhere; and inputs that the main laws apply to. */
module Deviations {
  import opened Text
  import opened NetUrl
  import opened GhUrl
  import opened PathShapes
  import opened HostMeaning
  import opened SchemeRepair
  import opened ShortForm
  import opened DotSegments
  import A = Auth
  import S = Server

  // ---- GitHub URLs without percent-coding ----

  predicate PlainText(s: string) { forall i :: 0 <= i < |s| ==> IsPathPlain(s[i]) }

  function PlainUrl(host: string, p: string): Url { NO_URL.(scheme := "https", host := host, path := p) }

  lemma PlainSetPath(u: Url, p: string)
    requires PlainText(p) && u.rawPath == ""
    ensures SetPath(u, p) == Some(u.(path := p))
  {
    assert '%' !in p;
    UnescapePlain(p);
    EscapePlain(p);
  }

  lemma PlainEscaped(host: string, p: string)
    requires PlainText(p) && StartsWith(p, '/')
    ensures EscapedPath(PlainUrl(host, p)) == p && PlainPath(PlainUrl(host, p)) == OneSlash(p)
  {
    EscapePlain(p);
    assert '%' !in p;
    UnescapePlain(p);
    assert forall i | 0 <= i < |p| :: IsPathValid(p[i]);
  }

  lemma PlainAtHost(h: string, s: string)
    requires IsKnownHost(h) && PlainText(s)
    ensures AtHost(h, s) == Some(PlainUrl(h, "/" + s))
  {
    assert '?' !in s && !HasControl(s);
    FindNone(s, '?');
    assert PlainText("/" + s);
    PlainSetPath(QueryOnly("https", s).(host := h), "/" + s);
  }

  lemma PlainTrimmed(s: string)
    requires PlainText(s)
    ensures TrimRight(s) == s && '#' !in s
  {
  }

  /** A path "/<owner>/<repo>/<word>/<rest>". */
  function PathOf(o: string, r: string, word: string, x: string): string {
    "/" + (o + ['/'] + (r + ['/'] + (word + ['/'] + x)))
  }

  predicate IsName(s: string) { s != "" && '/' !in s }

  lemma OwnerRepoOf(o: string, r: string, rest: string)
    requires IsName(o) && IsName(r) && rest != ""
    ensures OwnerRepo("/" + (o + ['/'] + (r + ['/'] + rest))) == Some((o, r, rest))
  {
    var after := r + ['/'] + rest;
    FindAt(o, '/', after);
    FindAt(r, '/', rest);
    assert ("/" + (o + ['/'] + after))[1..] == o + ['/'] + after;
  }

  lemma WordFits(word: string, x: string)
    requires word == "blob" || word == "raw"
    ensures !FitsRest(Release, word + ['/'] + x) && (x != "" ==> FitsRest(Blob, word + ['/'] + x))
  {
    assert '/' !in word && word != "releases" && word != "archive";
    FindAt(word, '/', x);
  }

  lemma BlobShape(o: string, r: string, word: string, x: string)
    requires IsName(o) && IsName(r) && (word == "blob" || word == "raw") && x != ""
    ensures MatchPath(Release, PathOf(o, r, word, x)) == None
    ensures MatchPath(Blob, PathOf(o, r, word, x)) == Some((o, r))
  {
    OwnerRepoOf(o, r, word + ['/'] + x);
    WordFits(word, x);
  }

  lemma SecondMatches(p: string, o: string, r: string)
    requires MatchPath(Release, p) == None && MatchPath(Blob, p) == Some((o, r))
    ensures FirstMatch([Release, Blob, Git, Tags], p) == Some((Blob, o, r))
  {
    var kinds := [Release, Blob, Git, Tags];
    assert kinds[0] == Release && kinds[1..][0] == Blob;
  }

  lemma MatchesAt(h: string, kinds: seq<Kind>, p: string, o: string, r: string)
    requires HostCandidates(h) == Some(HostShapes(h, kinds)) && ToLower(h) == h
    requires FirstMatch(kinds, p) == Some((Blob, o, r))
    ensures Matched(PlainUrl(h, p)).1 == Some(Target(Blob, o, r, BlobToRaw(PlainUrl(h, p))))
  {
    var u := PlainUrl(h, p);
    KnownHostPlain(h);
    PlainAuthority(u, h);
    assert u.(host := h) == u;
  }

  lemma GitHubMatches(p: string, o: string, r: string)
    requires MatchPath(Release, p) == None && MatchPath(Blob, p) == Some((o, r))
    ensures Matched(PlainUrl("github.com", p)).1 ==
            Some(Target(Blob, o, r, BlobToRaw(PlainUrl("github.com", p))))
  {
    GitHubKnown();
    SecondMatches(p, o, r);
    MatchesAt("github.com", [Release, Blob, Git, Tags], p, o, r);
  }

  lemma GitHubKnown()
    ensures ToLower("github.com") == "github.com" && IsKnownHost("github.com")
  {
  }

  /** What a plain blob URL on github.com resolves to. */
  lemma BlobResolves(raw: string, s: string, p: string, o: string, r: string, word: string, x: string)
    requires raw == "https://" + ("github.com" + "/" + s) && p == "/" + s
    requires PlainText(s) && p == PathOf(o, r, word, x)
    requires IsName(o) && IsName(r) && (word == "blob" || word == "raw") && x != ""
    ensures Resolve(raw, []) == Some(Target(Blob, o, r, BlobToRaw(PlainUrl("github.com", p))))
  {
    GitHubKnown();
    PlainTrimmed(s);
    LongSide("github.com", s);
    PlainAtHost("github.com", s);
    BlobShape(o, r, word, x);
    GitHubMatches(p, o, r);
  }

  lemma NotPrefix(s: string, sub: string)
    requires |s| >= |sub| >= 2 && (s[0] != sub[0] || s[1] != sub[1])
    ensures !(sub <= s)
  {
  }

  lemma {:induction false} IndexOfAt(s: string, sub: string, n: nat)
    requires n + |sub| <= |s| && |sub| >= 2 && sub <= s[n..]
    requires forall k :: 0 <= k < n ==> s[k] != sub[0] || s[k + 1] != sub[1]
    ensures IndexOf(s, sub) == n
  {
    if n == 0 {
      assert s[0..] == s;
    } else {
      NotPrefix(s, sub);
      assert s[1..][n - 1..] == s[n..];
      IndexOfAt(s[1..], sub, n - 1);
    }
  }

  /** What the rewrite makes of a plain path. */
  lemma PlainRewrite(u: Url, out: string)
    requires PlainPath(u) && ReplaceFirst(EscapedPath(u), "/blob/", "/raw/") == out && '%' !in out
    ensures BlobToRaw(u).path == out
  {
    BlobRewriteText(u);
    UnescapePlain(out);
  }

  lemma ReplaceAt(s: string, sub: string, put: string, n: nat)
    requires IndexOf(s, sub) == n && n + |sub| <= |s| && n < |s|
    ensures ReplaceFirst(s, sub, put) == s[..n] + put + s[n + |sub|..]
  {
  }

  // ---- names and segments called "blob" ----

  lemma Rewritten(host: string, p: string, out: string)
    requires PlainText(p) && OneSlash(p) && ReplaceFirst(p, "/blob/", "/raw/") == out && '%' !in out
    ensures BlobToRaw(PlainUrl(host, p)).path == out
  {
    PlainEscaped(host, p);
    PlainRewrite(PlainUrl(host, p), out);
  }

  /** A plain blob URL on github.com with its path, in parts, and the path it is
      rewritten to. */
  ghost predicate IsCase(raw: string, s: string, p: string, o: string, r: string, word: string, x: string,
                         out: string) {
    && raw == "https://" + ("github.com" + "/" + s) && p == "/" + s
    && PlainText(s) && PlainText(p) && OneSlash(p) && p == PathOf(o, r, word, x)
    && IsName(o) && IsName(r) && (word == "blob" || word == "raw") && x != ""
    && ReplaceFirst(p, "/blob/", "/raw/") == out && '%' !in out
  }

  /** The target, with the path that is forwarded. */
  lemma BlobForwarded(raw: string, s: string, p: string, o: string, r: string, word: string, x: string, out: string)
    requires IsCase(raw, s, p, o, r, word, x, out)
    ensures Resolve(raw, []).Some?
    ensures var t := Resolve(raw, []).value; (t.kind, t.owner, t.repo, t.url.path) == (Blob, o, r, out)
  {
    BlobResolves(raw, s, p, o, r, word, x);
    Rewritten("github.com", p, out);
  }

  lemma BlobOwnerText(raw: string, s: string, p: string)
    requires raw == "https://github.com/blob/r/blob/f" && s == "blob/r/blob/f" && p == "/blob/r/blob/f"
    ensures raw == "https://" + ("github.com" + "/" + s) && p == "/" + s
  {
  }

  lemma BlobOwnerPath(p: string, out: string)
    requires p == "/blob/r/blob/f" && out == "/raw/r/blob/f"
    ensures p == PathOf("blob", "r", "blob", "f") && out == PathOf("raw", "r", "blob", "f")
  {
  }

  lemma BlobOwnerPlain(s: string, p: string, out: string)
    requires s == "blob/r/blob/f" && p == "/blob/r/blob/f" && out == "/raw/r/blob/f"
    ensures PlainText(s) && PlainText(p) && OneSlash(p) && '%' !in out
  {
  }

  lemma BlobOwnerReplaced(p: string, out: string)
    requires p == "/blob/r/blob/f" && out == "/raw/r/blob/f"
    ensures ReplaceFirst(p, "/blob/", "/raw/") == out
  {
    ReplaceInFront("r/blob/f");
  }

  lemma ReplaceInFront(rest: string)
    ensures ReplaceFirst("/blob/" + rest, "/blob/", "/raw/") == "/raw/" + rest
  {
    CutOut("", "/blob/", rest);
  }

  lemma BlobOwnerCase(raw: string, s: string, p: string, out: string)
    requires raw == "https://github.com/blob/r/blob/f" && s == "blob/r/blob/f" && p == "/blob/r/blob/f"
    requires out == "/raw/r/blob/f"
    ensures IsCase(raw, s, p, "blob", "r", "blob", "f", out)
  {
    BlobOwnerText(raw, s, p);
    BlobOwnerPath(p, out);
    BlobOwnerPlain(s, p, out);
    BlobOwnerReplaced(p, out);
  }

  lemma BlobOwnerResolves(raw: string, out: string)
    requires raw == "https://github.com/blob/r/blob/f" && out == "/raw/r/blob/f"
    ensures
      var t := Resolve(raw, []);
      t.Some? && t.value.kind == Blob && t.value.owner == "blob" && t.value.repo == "r" && t.value.url.path == out
  {
    var s, p := "blob/r/blob/f", "/blob/r/blob/f";
    BlobOwnerCase(raw, s, p, out);
    BlobForwarded(raw, s, p, "blob", "r", "blob", "f", out);
  }

  lemma BlobOwnerNames(out: string)
    requires out == "/raw/r/blob/f"
    ensures MatchPath(Blob, out) == Some(("raw", "r"))
  {
    BlobOwnerPath("/blob/r/blob/f", out);
    BlobShape("raw", "r", "blob", "f");
  }

  /** An owner called "blob": the lists judge owner "blob", and owner "raw" is asked. */
  lemma BlobOwnerBecomesRaw(raw: string)
    requires raw == "https://github.com/blob/r/blob/f"
    ensures
      var t := Resolve(raw, []);
      t.Some? && t.value.kind == Blob && t.value.owner == "blob" && t.value.repo == "r"
      && MatchPath(Blob, t.value.url.path) == Some(("raw", "r"))
  {
    var out := "/raw/r/blob/f";
    BlobOwnerResolves(raw, out);
    BlobOwnerNames(out);
  }

  lemma RawPathText(raw: string, s: string, p: string)
    requires raw == "https://github.com/o/r/raw/blob/y" && s == "o/r/raw/blob/y" && p == "/o/r/raw/blob/y"
    ensures raw == "https://" + ("github.com" + "/" + s) && p == "/" + s
    ensures p == PathOf("o", "r", "raw", "blob/y")
  {
  }

  lemma RawPathPlain(s: string, p: string, out: string)
    requires s == "o/r/raw/blob/y" && p == "/o/r/raw/blob/y" && out == "/o/r/raw/raw/y"
    ensures PlainText(s) && PlainText(p) && OneSlash(p) && '%' !in out
  {
  }

  lemma RawPathReplaced(p: string, out: string)
    requires p == "/o/r/raw/blob/y" && out == "/o/r/raw/raw/y"
    ensures ReplaceFirst(p, "/blob/", "/raw/") == out
  {
    assert p[8..] == "/blob/y" && p[..8] == "/o/r/raw" && p[14..] == "y";
    IndexOfAt(p, "/blob/", 8);
    ReplaceAt(p, "/blob/", "/raw/", 8);
  }

  lemma RawPathCase(raw: string, s: string, p: string, out: string)
    requires raw == "https://github.com/o/r/raw/blob/y" && s == "o/r/raw/blob/y" && p == "/o/r/raw/blob/y"
    requires out == "/o/r/raw/raw/y"
    ensures IsCase(raw, s, p, "o", "r", "raw", "blob/y", out)
  {
    RawPathText(raw, s, p);
    RawPathPlain(s, p, out);
    RawPathReplaced(p, out);
  }

  /** A path that already asks for the raw file is rewritten behind that. */
  lemma RawPathRewritten(raw: string, out: string)
    requires raw == "https://github.com/o/r/raw/blob/y" && out == "/o/r/raw/raw/y"
    ensures
      var t := Resolve(raw, []);
      t.Some? && t.value.owner == "o" && t.value.repo == "r" && t.value.url.path == out
  {
    var s, p := "o/r/raw/blob/y", "/o/r/raw/blob/y";
    RawPathCase(raw, s, p, out);
    BlobForwarded(raw, s, p, "o", "r", "raw", "blob/y", out);
  }

  // ---- dot segments ----

  lemma ClimbingScheme(raw: string, rest: string)
    requires raw == "https://github.com/o/r/blob/../../../c/d/f" && rest == "github.com/o/r/blob/../../../c/d/f"
    ensures raw == "https://" + rest
  {
  }

  lemma ClimbingHost(rest: string, s: string)
    requires rest == "github.com/o/r/blob/../../../c/d/f" && s == "o/r/blob/../../../c/d/f"
    ensures rest == "github.com" + "/" + s
  {
  }

  lemma ClimbingText(raw: string, s: string)
    requires raw == "https://github.com/o/r/blob/../../../c/d/f" && s == "o/r/blob/../../../c/d/f"
    ensures raw == "https://" + ("github.com" + "/" + s)
  {
    var rest := "github.com/o/r/blob/../../../c/d/f";
    ClimbingScheme(raw, rest);
    ClimbingHost(rest, s);
  }

  lemma ClimbingSlash(s: string, p: string)
    requires s == "o/r/blob/../../../c/d/f" && p == "/o/r/blob/../../../c/d/f"
    ensures p == "/" + s
  {
    assert p[..1] == "/" && p[1..] == s;
    assert p == p[..1] + p[1..];
  }

  lemma ClimbingPath(p: string)
    requires p == "/o/r/blob/../../../c/d/f"
    ensures p == PathOf("o", "r", "blob", "../../../c/d/f")
  {
  }

  lemma ClimbingPlain(s: string, p: string, out: string)
    requires s == "o/r/blob/../../../c/d/f" && p == "/o/r/blob/../../../c/d/f" && out == "/o/r/raw/../../../c/d/f"
    ensures PlainText(s) && PlainText(p) && OneSlash(p) && '%' !in out
  {
  }

  /** Behind "/o/r" the first "/blob/" is the one that is replaced. */
  lemma ReplaceBehind(front: string, x: string, p: string)
    requires front == "/o/r" && p == front + ("/blob/" + x)
    ensures ReplaceFirst(p, "/blob/", "/raw/") == front + ("/raw/" + x)
  {
    CutOut(front, "/blob/", x);
    assert |front| == 4 && front[0] == '/' && front[1] == 'o' && front[2] == '/' && front[3] == 'r';
    assert forall k | 0 <= k < 4 :: p[k] == front[k];
    IndexOfAt(p, "/blob/", 4);
    ReplaceAround(front, "/blob/", x, "/raw/");
  }

  lemma ClimbingReplaced(p: string, out: string)
    requires p == "/o/r/blob/../../../c/d/f" && out == "/o/r/raw/../../../c/d/f"
    ensures ReplaceFirst(p, "/blob/", "/raw/") == out
  {
    var front, x := "/o/r", "../../../c/d/f";
    assert p == front + ("/blob/" + x) && out == front + ("/raw/" + x);
    ReplaceBehind(front, x, p);
  }

  lemma ClimbingCase(raw: string, s: string, p: string, out: string)
    requires raw == "https://github.com/o/r/blob/../../../c/d/f" && s == "o/r/blob/../../../c/d/f"
    requires p == "/o/r/blob/../../../c/d/f" && out == "/o/r/raw/../../../c/d/f"
    ensures IsCase(raw, s, p, "o", "r", "blob", "../../../c/d/f", out)
  {
    ClimbingText(raw, s);
    ClimbingSlash(s, p);
    ClimbingPath(p);
    ClimbingPlain(s, p, out);
    ClimbingReplaced(p, out);
  }

  lemma ClimbingResolves(raw: string, out: string)
    requires raw == "https://github.com/o/r/blob/../../../c/d/f" && out == "/o/r/raw/../../../c/d/f"
    ensures Resolve(raw, []).Some?
    ensures var t := Resolve(raw, []).value; (t.kind, t.owner, t.repo, t.url.path) == (Blob, "o", "r", out)
  {
    var s, p := "o/r/blob/../../../c/d/f", "/o/r/blob/../../../c/d/f";
    ClimbingCase(raw, s, p, out);
    BlobForwarded(raw, s, p, "o", "r", "blob", "../../../c/d/f", out);
  }

  /** Segments and slashes in turn. */
  function Slashed(a: string, rest: string): string { a + ['/'] + rest }

  lemma SlashedSegments(a: string, rest: string, segs: seq<string>)
    requires '/' !in a && Segments(rest) == segs
    ensures Segments(Slashed(a, rest)) == [a] + segs
  {
    SplitStep(a, '/', rest);
  }

  /** Six segments, the first one empty, in front of others. */
  lemma SixSegments(o: string, r: string, w: string, up: string, rest: string, segs: seq<string>)
    requires '/' !in o && '/' !in r && '/' !in w && '/' !in up && Segments(rest) == segs
    ensures Segments(Slashed("", Slashed(o, Slashed(r, Slashed(w, Slashed(up, Slashed(up, rest))))))) ==
            [""] + ([o] + ([r] + ([w] + ([up] + ([up] + segs)))))
  {
    var s5 := Slashed(up, rest);
    var s4 := Slashed(up, s5);
    var s3 := Slashed(w, s4);
    var s2 := Slashed(r, s3);
    SlashedSegments(up, rest, segs);
    SlashedSegments(up, s5, [up] + segs);
    SlashedSegments(w, s4, [up] + ([up] + segs));
    SlashedSegments(r, s3, [w] + ([up] + ([up] + segs)));
    SlashedSegments(o, s2, [r] + ([w] + ([up] + ([up] + segs))));
    SlashedSegments("", Slashed(o, s2), [o] + ([r] + ([w] + ([up] + ([up] + segs)))));
  }

  /** Four segments. */
  lemma FourSegments(up: string, c: string, d: string, f: string)
    requires '/' !in up && '/' !in c && '/' !in d && '/' !in f
    ensures Segments(Slashed(up, Slashed(c, Slashed(d, f)))) == [up] + ([c] + ([d] + [f]))
  {
    SegmentsCut(f);
    FindNone(f, '/');
    SlashedSegments(d, f, [f]);
    SlashedSegments(c, Slashed(d, f), [d] + [f]);
    SlashedSegments(up, Slashed(c, Slashed(d, f)), [c] + ([d] + [f]));
  }

  lemma ClimbingParts(out: string, down: string)
    requires out == "/o/r/raw/../../../c/d/f" && down == "../c/d/f"
    ensures out == Slashed("", Slashed("o", Slashed("r", Slashed("raw", Slashed("..", Slashed("..", down))))))
    ensures down == Slashed("..", Slashed("c", Slashed("d", "f")))
  {
  }

  lemma ClimbingSegments(out: string, segs: seq<string>)
    requires out == "/o/r/raw/../../../c/d/f"
    requires segs == ["o"] + (["r"] + (["raw"] + ([".."] + ([".."] + ([".."] + (["c"] + (["d"] + ["f"])))))))
    ensures Segments(out)[1..] == segs
  {
    var down := "../c/d/f";
    ClimbingParts(out, down);
    FourSegments("..", "c", "d", "f");
    SixSegments("o", "r", "raw", "..", down, [".."] + (["c"] + (["d"] + ["f"])));
  }

  lemma OutputPushed(segs: seq<string>, k: nat, out: seq<string>)
    requires k < |segs| && Output(segs, k) == out && !IsDot(segs[k])
    ensures Output(segs, k + 1) == out + [segs[k]]
  {
  }

  lemma OutputPopped(segs: seq<string>, k: nat, out: seq<string>, x: string)
    requires k < |segs| && Output(segs, k) == out + [x] && segs[k] == ".."
    ensures Output(segs, k + 1) == out
  {
  }

  /** Three segments up and down again, and three others. */
  lemma UpAndDown(segs: seq<string>, a: string, b: string, c: string)
    requires |segs| == 9 && segs[0] == a && segs[1] == b && segs[2] == c
    requires segs[3] == segs[4] == segs[5] == ".."
    requires forall k :: 0 <= k < 9 && !(3 <= k < 6) ==> !IsDot(segs[k])
    ensures Removed(segs) == [segs[6]] + [segs[7]] + [segs[8]]
  {
    OutputPushed(segs, 0, []);
    OutputPushed(segs, 1, [] + [a]);
    OutputPushed(segs, 2, [] + [a] + [b]);
    OutputPopped(segs, 3, [] + [a] + [b], c);
    OutputPopped(segs, 4, [] + [a], b);
    OutputPopped(segs, 5, [], a);
    OutputPushed(segs, 6, []);
    OutputPushed(segs, 7, [] + [segs[6]]);
    OutputPushed(segs, 8, [] + [segs[6]] + [segs[7]]);
  }

  lemma ClimbingRemoved(segs: seq<string>)
    requires segs == ["o"] + (["r"] + (["raw"] + ([".."] + ([".."] + ([".."] + (["c"] + (["d"] + ["f"])))))))
    ensures Removed(segs) == ["c"] + ["d"] + ["f"]
  {
    UpAndDown(segs, "o", "r", "raw");
  }

  /** A path that climbs out of the repository it was accepted for. */
  lemma ClimbsOut(raw: string)
    requires raw == "https://github.com/o/r/blob/../../../c/d/f"
    ensures Resolve(raw, []).Some?
    ensures
      var t := Resolve(raw, []).value;
      t.owner == "o" && t.repo == "r" && Removed(PathSegments(t)) == ["c"] + ["d"] + ["f"]
  {
    var out := "/o/r/raw/../../../c/d/f";
    var segs := ["o"] + (["r"] + (["raw"] + ([".."] + ([".."] + ([".."] + (["c"] + (["d"] + ["f"])))))));
    ClimbingResolves(raw, out);
    ClimbingSegments(out, segs);
    ClimbingRemoved(segs);
  }

  // ---- hosts that are not GitHub's ----

  lemma PlainHostPrepared(raw: string, h: string, m: string)
    requires raw == "https://" + (h + "/" + m) && PlainText(m)
    requires forall i :: 0 <= i < |h| ==> IsUnreserved(h[i])
    ensures Prepared(raw) == Some(PlainUrl(h, "/" + m))
  {
    var t := h + "/" + m;
    assert PlainText(t) && PlainText("/" + m);
    PlainTrimmed(t);
    HttpsWeb(raw, t);
    PlainWeb(t);
    NetPathPlain(NO_URL.(scheme := "https"), h, m);
    PlainSetPath(NO_URL.(scheme := "https", host := h), "/" + m);
  }

  lemma PlainWeb(t: string)
    requires PlainText(t) && t != ""
    ensures ParseWeb("https", t) == ParseNetPath(NO_URL.(scheme := "https"), t)
  {
    PlainTextClean(t);
    WebNoFragment(t);
    FindNone(t, '?');
  }

  lemma HttpsWeb(raw: string, t: string)
    requires raw == "https://" + t
    ensures Prepared(raw) == Normalized(ParseWeb("https", TrimRight(t)))
  {
    HttpsIsWeb();
    PreparedWhole("https", t);
    assert "https" + "://" == "https://";
  }

  /** A URL on any other host with a dot in its name is rejected, whatever the defaults. */
  lemma OtherHostRejected(raw: string, h: string, m: string, defaults: seq<string>)
    requires raw == "https://" + (h + "/" + m) && PlainText(m) && '.' in h
    requires forall i :: 0 <= i < |h| ==> IsUnreserved(h[i])
    requires !IsGitHubHost(ToLower(h))
    ensures Resolve(raw, defaults) == None
  {
    PlainHostPrepared(raw, h, m);
    var u := PlainUrl(h, "/" + m);
    PlainAuthority(u, h);
    assert u.(host := h) == u;
    NamedHostKept(raw, defaults);
  }

  lemma GitLabText(raw: string, h: string, m: string)
    requires raw == "https://gitlab.com/o/blob/x" && h == "gitlab.com" && m == "o/blob/x"
    ensures raw == "https://" + (h + "/" + m) && PlainText(m) && '.' in h
    ensures forall i :: 0 <= i < |h| ==> IsUnreserved(h[i])
  {
    assert h[6] == '.';
  }

  lemma GitLabIsOther(h: string)
    requires h == "gitlab.com"
    ensures !IsGitHubHost(ToLower(h))
  {
    var low := ToLower(h);
    assert |low| == 10 && low[3] == 'l' && "github.com"[3] == 'h';
    NamesDiffer();
  }

  /** So this one is no path of an owner "gitlab.com". */
  lemma GitLabRejected(raw: string, defaults: seq<string>)
    requires raw == "https://gitlab.com/o/blob/x"
    ensures Resolve(raw, defaults) == None
  {
    GitLabText(raw, "gitlab.com", "o/blob/x");
    GitLabIsOther("gitlab.com");
    OtherHostRejected(raw, "gitlab.com", "o/blob/x", defaults);
  }

  // ---- where the laws apply ----

  lemma RawPathIndex(p: string)
    requires p == "/o/r/raw/blob/y"
    ensures IndexOf(p, "/blob/") == 8 && |p| == 15
  {
    assert p[8..] == "/blob/y";
    IndexOfAt(p, "/blob/", 8);
  }

  lemma RawPathShape(p: string)
    requires p == "/o/r/raw/blob/y"
    ensures p == PathOf("o", "r", "raw", "blob/y") && PlainText(p) && OneSlash(p)
  {
    RawPathPlain("o/r/raw/blob/y", p, "/o/r/raw/raw/y");
  }

  lemma PlainCase(u: Url, p: string, o: string, r: string, word: string, x: string)
    requires u == PlainUrl("github.com", p) && p == PathOf(o, r, word, x) && PlainText(p) && OneSlash(p)
    requires IsName(o) && IsName(r) && (word == "blob" || word == "raw") && x != ""
    ensures PlainPath(u) && EscapedPath(u) == p && MatchPath(Blob, u.path) == Some((o, r))
  {
    PlainEscaped("github.com", p);
    BlobShape(o, r, word, x);
  }

  /** A matched URL that is rewritten, as the laws of the blob rewrite want it. */
  lemma RewrittenUrl(u: Url, p: string)
    requires p == "/o/r/raw/blob/y" && u == PlainUrl("github.com", p)
    ensures PlainPath(u) && MatchPath(Blob, u.path).Some? && IndexOf(EscapedPath(u), "/blob/") < |EscapedPath(u)|
  {
    RawPathShape(p);
    RawPathIndex(p);
    PlainCase(u, p, "o", "r", "raw", "blob/y");
  }

  lemma PlainTextClean(s: string)
    requires PlainText(s)
    ensures !HasControl(s) && '?' !in s && '#' !in s
  {
  }

  lemma PlainShort(raw: string, owner: string, tail: string)
    requires PlainOwner(owner) && PlainText(tail) && PlainText(raw) && StartsWith(tail, '/') && raw == owner + tail
    ensures Prepared(raw) == Some(QueryOnly("https", raw).(host := owner, path := tail))
  {
    PlainTrimmed(tail);
    ShortIsBare(owner, tail);
    PlainTextClean(raw);
    PlainTextClean(tail);
    FindNone(raw, '?');
    ShortPrepared(owner, raw, tail);
    var u := QueryOnly("https", raw).(host := owner);
    PlainSetPath(u, tail);
    PreparedText(raw, raw, Some(u.(path := tail)));
  }

  lemma ShortText(raw: string, owner: string, tail: string)
    requires raw == "o/r/blob/f" && owner == "o" && tail == "/r/blob/f"
    ensures raw == owner + tail && PlainText(tail) && PlainText(raw) && PlainOwner(owner)
  {
  }

  /** A target without host, as the law of the least default wants it. */
  lemma ShortTarget(raw: string)
    requires raw == "o/r/blob/f"
    ensures Prepared(raw).Some? && !NamesAHost(Prepared(raw).value)
  {
    var owner, tail := "o", "/r/blob/f";
    ShortText(raw, owner, tail);
    PlainShort(raw, owner, tail);
    OwnerNamesNoHost(QueryOnly("https", raw).(host := owner, path := tail), owner);
  }

  ghost predicate IsOpen(cfg: S.Config) {
    cfg.auth == A.Authenticator("", true) && cfg.allow == [] && cfg.deny == []
  }

  lemma OpenTarget(cfg: S.Config, target: Option<Target>, base: string)
    requires IsOpen(cfg) && target.Some?
    ensures S.DecideTarget(cfg, "GET", target, base).Forward?
  {
  }

  lemma OpenUri(cfg: S.Config, uri: string, rest: Result<string, string>)
    requires IsOpen(cfg) && rest.Ok? && Resolve(rest.value, cfg.defaults).Some?
    ensures S.DecideUri(cfg, "GET", uri, rest).Forward?
  {
    OpenTarget(cfg, Resolve(rest.value, cfg.defaults), A.SelfBase(uri, rest.value));
  }

  lemma OpenAuthenticated(cfg: S.Config, header: map<string, seq<string>>, uri: string, raw: string)
    requires IsOpen(cfg) && uri == cfg.prefix + raw && |uri| > 1
    ensures S.Authenticated(cfg, header, uri) == Ok(raw)
  {
    assert uri[|cfg.prefix|..] == raw && uri[..|cfg.prefix|] == cfg.prefix;
  }

  /** With open access, what resolves is forwarded. */
  lemma OpenForwards(cfg: S.Config, req: S.HttpRequest, raw: string)
    requires IsOpen(cfg) && req.verb == "GET" && req.uri == cfg.prefix + raw && |req.uri| > 1
    requires Resolve(raw, cfg.defaults).Some?
    ensures S.Decide(cfg, req).Forward?
  {
    var rest := S.Authenticated(cfg, req.header, req.uri);
    OpenAuthenticated(cfg, req.header, req.uri, raw);
    OpenUri(cfg, req.uri, rest);
  }

  /** A request that is forwarded, as the laws of followed redirects want it. */
  lemma ForwardedRequest(cfg: S.Config, req: S.HttpRequest, raw: string)
    requires IsOpen(cfg) && cfg.defaults == []
    requires cfg.prefix == "/" && raw == "https://github.com/o/r/raw/blob/y"
    requires req.verb == "GET" && req.uri == cfg.prefix + raw
    ensures A.Configured(cfg.auth) && S.Decide(cfg, req).Forward?
  {
    RawPathRewritten(raw, "/o/r/raw/raw/y");
    OpenForwards(cfg, req, raw);
  }
}
