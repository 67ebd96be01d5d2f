/** What dot segments do to the names of a forwarded path: the rewrite keeps them, and a
    server may remove them (section 5.2.4 of RFC 3986). */
module DotSegments {
  import opened Text
  import opened GhUrl
  import opened PathShapes
  import opened HostMeaning
  import opened NamesKept

  predicate IsDot(seg: string) { seg == "." || seg == ".." }

  /** One more segment on the output: "." adds nothing, ".." takes the last one off. */
  function Pushed(out: seq<string>, seg: string): seq<string> {
    if seg == "." then out
    else if seg == ".." then if out == [] then [] else out[..|out| - 1]
    else out + [seg]
  }

  function Output(segs: seq<string>, k: nat): seq<string>
    requires k <= |segs|
  {
    if k == 0 then [] else Pushed(Output(segs, k - 1), segs[k - 1])
  }

  /** The segments after the leading slash, without dot segments; a dot segment at the end
      leaves a slash. */
  function Removed(segs: seq<string>): seq<string> {
    Output(segs, |segs|) + if segs != [] && IsDot(segs[|segs| - 1]) then [""] else []
  }

  // ---- how deep a path is ----

  /** The depth after the first `k` segments. */
  function Depth(segs: seq<string>, k: nat): nat
    requires k <= |segs|
  {
    if k == 0 then 0
    else
      var d := Depth(segs, k - 1);
      if segs[k - 1] == "." then d
      else if segs[k - 1] == ".." then if d == 0 then 0 else d - 1
      else d + 1
  }

  /** The last time within the first `k` segments that the depth is at most `m`. */
  function LastAt(segs: seq<string>, k: nat, m: nat): (i: nat)
    requires k <= |segs|
    ensures i <= k && Depth(segs, i) <= m
    ensures forall j :: i < j <= k ==> Depth(segs, j) > m
  {
    if Depth(segs, k) <= m then k else LastAt(segs, k - 1, m)
  }

  lemma {:induction false} OutputDepth(segs: seq<string>, k: nat)
    requires k <= |segs|
    ensures |Output(segs, k)| == Depth(segs, k)
  {
    if k == 0 {
    } else {
      OutputDepth(segs, k - 1);
    }
  }

  /** What is left at depth `m` is the segment after the path was last that shallow. */
  lemma {:induction false} OutputAt(segs: seq<string>, k: nat, m: nat)
    requires k <= |segs| && m < |Output(segs, k)|
    ensures LastAt(segs, k, m) < k && Output(segs, k)[m] == segs[LastAt(segs, k, m)]
  {
    OutputDepth(segs, k);
    if k == 0 {
    } else {
      OutputDepth(segs, k - 1);
      if m < |Output(segs, k - 1)| {
        OutputAt(segs, k - 1, m);
      }
    }
  }

  /** The segment `name` is what is left at depth `m`. */
  predicate Remains(segs: seq<string>, m: nat, name: string) {
    Depth(segs, |segs|) > m && segs[LastAt(segs, |segs|, m)] == name
  }

  lemma RemainsExactly(segs: seq<string>, m: nat, name: string)
    requires name != ""
    ensures m < |Removed(segs)| && Removed(segs)[m] == name <==> Remains(segs, m, name)
  {
    OutputDepth(segs, |segs|);
    if m < Depth(segs, |segs|) {
      OutputAt(segs, |segs|, m);
    }
  }

  // ---- names ----

  function PathSegments(t: Target): seq<string> { Segments(t.url.path)[1..] }

  /** Once dot segments are removed, the path still names owner and repository. */
  predicate NamesSurvive(t: Target) {
    var segs := Removed(PathSegments(t));
    && 0 < |segs| && segs[0] == t.owner
    && (t.kind.Gist? || (1 < |segs| && segs[1] == t.repo))
  }

  /** Main result: the names of an accepted target survive the removal of dot segments
      exactly when the segment after the path was last at the root is the owner and, but
      for gists, the one after it was last one deep is the repository. */
  lemma NamesSurviveExactly(raw: string, defaults: seq<string>)
    ensures
      Resolve(raw, defaults).Some? ==>
        var t := Resolve(raw, defaults).value;
        NamesSurvive(t) <==>
          Remains(PathSegments(t), 0, t.owner) && (t.kind.Gist? || Remains(PathSegments(t), 1, t.repo))
  {
    AcceptedForwardable(raw, defaults);
    if Resolve(raw, defaults).Some? {
      TargetSurvives(Resolve(raw, defaults).value);
    }
  }

  lemma TargetSurvives(t: Target)
    requires t.owner != "" && (t.kind.Gist? || t.repo != "")
    ensures NamesSurvive(t) <==>
              Remains(PathSegments(t), 0, t.owner) && (t.kind.Gist? || Remains(PathSegments(t), 1, t.repo))
  {
    RemainsExactly(PathSegments(t), 0, t.owner);
    if !t.kind.Gist? {
      RemainsExactly(PathSegments(t), 1, t.repo);
    }
  }

  /** Past the names the path never climbs back to them. */
  predicate StaysBelow(segs: seq<string>) { forall k :: 2 <= k <= |segs| ==> Depth(segs, k) >= 2 }

  lemma NeverBack(segs: seq<string>)
    requires |segs| >= 2 && StaysBelow(segs)
    ensures LastAt(segs, |segs|, 0) == 0 && LastAt(segs, |segs|, 1) == 1 && Depth(segs, |segs|) >= 2
  {
    assert Depth(segs, 0) == 0;
    assert Depth(segs, 2) >= 2;
    assert Depth(segs, 1) == 1;
  }

  lemma NamesFirst(t: Target)
    requires KeepsNames(t)
    ensures |PathSegments(t)| >= 2 && PathSegments(t)[0] == t.owner && (t.kind.Gist? || PathSegments(t)[1] == t.repo)
  {
    ShapeBySegments(t.kind, t.url.path);
  }

  /** So names that a path keeps survive where it never climbs back to them. */
  lemma BelowSurvives(t: Target)
    requires KeepsNames(t) && t.owner != "" && (t.kind.Gist? || t.repo != "") && StaysBelow(PathSegments(t))
    ensures NamesSurvive(t)
  {
    NamesFirst(t);
    NeverBack(PathSegments(t));
    TargetSurvives(t);
  }
}
