/** Named counters as ordered lists: what the status page shows of a counter map. */
module Ranking {
  import opened Text

  datatype Pair = Pair(name: string, count: nat)

  datatype Order = ByName | ByCount

  // ---- the orders ----

  /** Go's `<` on strings. */
  predicate StringLess(a: string, b: string)
    decreases |a|
  {
    b != "" && (a == "" || a[0] < b[0] || (a[0] == b[0] && StringLess(a[1..], b[1..])))
  }

  /** `ByCount` puts the greater count first and breaks ties by name. */
  predicate Less(order: Order, p: Pair, q: Pair) {
    if order.ByCount? && p.count != q.count then p.count > q.count else StringLess(p.name, q.name)
  }

  lemma {:induction false} StringTotal(a: string, b: string)
    ensures a != b ==> StringLess(a, b) || StringLess(b, a)
    ensures !(StringLess(a, b) && StringLess(b, a)) && !StringLess(a, a)
    decreases |a|
  {
    if a == "" || b == "" {
    } else if a[0] == b[0] {
      StringTotal(a[1..], b[1..]);
      assert a == [a[0]] + a[1..] && b == [b[0]] + b[1..];
    }
    if a == "" {
    } else {
      StringTotal(a[1..], a[1..]);
    }
  }

  lemma {:induction false} StringTransitive(a: string, b: string, c: string)
    requires StringLess(a, b) && StringLess(b, c)
    ensures StringLess(a, c)
    decreases |a|
  {
    if a == "" {
    } else if a[0] == b[0] == c[0] {
      StringTransitive(a[1..], b[1..], c[1..]);
    }
  }

  lemma LessTotal(order: Order, p: Pair, q: Pair)
    ensures p.name != q.name ==> Less(order, p, q) || Less(order, q, p)
    ensures !(Less(order, p, q) && Less(order, q, p)) && !Less(order, p, p)
  {
    StringTotal(p.name, q.name);
    StringTotal(p.name, p.name);
  }

  lemma LessTransitive(order: Order, p: Pair, q: Pair, r: Pair)
    requires Less(order, p, q) && Less(order, q, r)
    ensures Less(order, p, r)
  {
    if StringLess(p.name, q.name) && StringLess(q.name, r.name) {
      StringTransitive(p.name, q.name, r.name);
    }
  }

  // ---- the orders spelled out ----

  /** At the first place where two texts differ, `a` ends or has the smaller character. */
  ghost predicate ComesFirst(a: string, b: string) {
    exists n {:trigger a[..n]} ::
      && 0 <= n <= |a| && n < |b| && a[..n] == b[..n]
      && (n == |a| || a[n] < b[n])
  }

  lemma {:induction false} StringLessIs(a: string, b: string)
    ensures StringLess(a, b) <==> ComesFirst(a, b)
    decreases |a|
  {
    if a == "" || b == "" {
      assert a[..0] == "" && b[..0] == "";
    } else if a[0] != b[0] {
      assert a[..0] == b[..0] == "";
      assert forall n {:trigger a[..n]} | 0 < n <= |a| && n < |b| :: a[..n][0] == a[0] && b[..n][0] == b[0];
    } else {
      StringLessIs(a[1..], b[1..]);
      FirstBehind(a, b);
    }
  }

  lemma FirstBehind(a: string, b: string)
    requires a != "" && b != "" && a[0] == b[0]
    ensures ComesFirst(a, b) <==> ComesFirst(a[1..], b[1..])
  {
    if ComesFirst(a, b) {
      var n :| 0 <= n <= |a| && n < |b| && a[..n] == b[..n] && (n == |a| || a[n] < b[n]);
      assert n > 0;
      assert a[1..][..n - 1] == a[..n][1..] && b[1..][..n - 1] == b[..n][1..];
    }
    if ComesFirst(a[1..], b[1..]) {
      var n :| 0 <= n <= |a[1..]| && n < |b[1..]| && a[1..][..n] == b[1..][..n]
               && (n == |a[1..]| || a[1..][n] < b[1..][n]);
      assert a[..n + 1] == [a[0]] + a[1..][..n] && b[..n + 1] == [b[0]] + b[1..][..n];
    }
  }

  /** More requests first, and among equals the name that comes first. */
  ghost predicate Ahead(p: Pair, q: Pair) {
    p.count > q.count || (p.count == q.count && ComesFirst(p.name, q.name))
  }

  lemma LessIs(order: Order, p: Pair, q: Pair)
    ensures Less(order, p, q) <==> if order.ByCount? then Ahead(p, q) else ComesFirst(p.name, q.name)
  {
    StringLessIs(p.name, q.name);
  }

  ghost predicate OrderedByCount(s: seq<Pair>) { forall i, j :: 0 <= i < j < |s| ==> Ahead(s[i], s[j]) }

  ghost predicate OrderedByName(s: seq<Pair>) { forall i, j :: 0 <= i < j < |s| ==> ComesFirst(s[i].name, s[j].name) }

  lemma SortedIs(order: Order, s: seq<Pair>)
    requires Sorted(order, s)
    ensures if order.ByCount? then OrderedByCount(s) else OrderedByName(s)
  {
    forall i, j | 0 <= i < j < |s|
      ensures if order.ByCount? then Ahead(s[i], s[j]) else ComesFirst(s[i].name, s[j].name)
    {
      LessIs(order, s[i], s[j]);
    }
  }

  // ---- sorted lists ----

  predicate DistinctNames(s: seq<Pair>) {
    forall i, j :: 0 <= i < j < |s| ==> s[i].name != s[j].name
  }

  predicate Sorted(order: Order, s: seq<Pair>) {
    forall i, j :: 0 <= i < j < |s| ==> Less(order, s[i], s[j])
  }

  /** `x` put in its place, looked for from the end. */
  function Insert(order: Order, s: seq<Pair>, x: Pair): seq<Pair> {
    if s == [] || !Less(order, x, s[|s| - 1]) then s + [x]
    else Insert(order, s[..|s| - 1], x) + [s[|s| - 1]]
  }

  function SortedSeq(order: Order, s: seq<Pair>): seq<Pair> {
    if s == [] then [] else Insert(order, SortedSeq(order, s[..|s| - 1]), s[|s| - 1])
  }

  lemma {:induction false} InsertKeeps(order: Order, s: seq<Pair>, x: Pair)
    ensures multiset(Insert(order, s, x)) == multiset(s) + multiset{x}
  {
    if s == [] {
    } else if Less(order, x, s[|s| - 1]) {
      InsertKeeps(order, s[..|s| - 1], x);
      assert s == s[..|s| - 1] + [s[|s| - 1]];
    }
  }

  lemma {:induction false} SortKeeps(order: Order, s: seq<Pair>)
    ensures multiset(SortedSeq(order, s)) == multiset(s)
  {
    if s == [] {
    } else {
      SortKeeps(order, s[..|s| - 1]);
      InsertKeeps(order, SortedSeq(order, s[..|s| - 1]), s[|s| - 1]);
      assert s == s[..|s| - 1] + [s[|s| - 1]];
    }
  }

  /** A list stays sorted when something greater than all of it is appended. */
  lemma AppendSorted(order: Order, s: seq<Pair>, x: Pair)
    requires Sorted(order, s) && forall i :: 0 <= i < |s| ==> Less(order, s[i], x)
    ensures Sorted(order, s + [x])
  {
  }

  lemma {:induction false} InsertSorted(order: Order, s: seq<Pair>, x: Pair)
    requires Sorted(order, s) && forall i :: 0 <= i < |s| ==> s[i].name != x.name
    ensures Sorted(order, Insert(order, s, x))
  {
    if s == [] {
    } else {
      var last := s[|s| - 1];
      if Less(order, x, last) {
        var t := Insert(order, s[..|s| - 1], x);
        InsertSorted(order, s[..|s| - 1], x);
        InsertKeeps(order, s[..|s| - 1], x);
        forall i | 0 <= i < |t| ensures Less(order, t[i], last) {
          assert t[i] in multiset(t);
          assert t[i] == x || t[i] in s[..|s| - 1];
        }
        AppendSorted(order, t, last);
      } else {
        LessTotal(order, x, last);
        forall i | 0 <= i < |s| ensures Less(order, s[i], x) {
          if i < |s| - 1 { LessTransitive(order, s[i], last, x); }
        }
        AppendSorted(order, s, x);
      }
    }
  }

  lemma {:induction false} SortSorts(order: Order, s: seq<Pair>)
    requires DistinctNames(s)
    ensures Sorted(order, SortedSeq(order, s))
  {
    if s == [] {
    } else {
      var init, x := s[..|s| - 1], s[|s| - 1];
      var t := SortedSeq(order, init);
      SortSorts(order, init);
      SortKeeps(order, init);
      forall i | 0 <= i < |t| ensures t[i].name != x.name {
        assert t[i] in multiset(t);
        assert t[i] in init;
      }
      InsertSorted(order, t, x);
    }
  }

  /** A sorted arrangement is the only one. */
  lemma {:induction false} SortedUnique(order: Order, s: seq<Pair>, t: seq<Pair>)
    requires Sorted(order, s) && Sorted(order, t) && multiset(s) == multiset(t)
    ensures s == t
  {
    SameSize(s, t);
    if s == [] {
    } else {
      LastSame(order, s, t);
      Popped(order, s);
      Popped(order, t);
      SortedUnique(order, s[..|s| - 1], t[..|t| - 1]);
    }
  }

  lemma Popped(order: Order, s: seq<Pair>)
    requires s != [] && Sorted(order, s)
    ensures Sorted(order, s[..|s| - 1]) && s == s[..|s| - 1] + [s[|s| - 1]]
    ensures multiset(s[..|s| - 1]) == multiset(s) - multiset{s[|s| - 1]}
  {
    PopMultiset(s);
  }

  lemma PopMultiset(s: seq<Pair>)
    requires s != []
    ensures multiset(s[..|s| - 1]) == multiset(s) - multiset{s[|s| - 1]}
  {
    assert s == s[..|s| - 1] + [s[|s| - 1]];
  }

  lemma SameSize(s: seq<Pair>, t: seq<Pair>)
    requires multiset(s) == multiset(t)
    ensures |s| == |t|
  {
    assert |multiset(s)| == |s| && |multiset(t)| == |t|;
  }

  lemma LastSame(order: Order, s: seq<Pair>, t: seq<Pair>)
    requires Sorted(order, s) && Sorted(order, t) && multiset(s) == multiset(t) && |s| == |t| > 0
    ensures s[|s| - 1] == t[|t| - 1]
  {
    var x, y := s[|s| - 1], t[|t| - 1];
    assert x in multiset(t) && y in multiset(s);
    var i :| 0 <= i < |t| && t[i] == x;
    var j :| 0 <= j < |s| && s[j] == y;
    if i < |t| - 1 && j < |s| - 1 {
      LessTotal(order, x, y);
    }
  }

  // ---- counter maps ----

  /** A list that shows every entry of a counter map once, in any order. */
  predicate Enumerates(p: seq<Pair>, m: map<string, nat>) {
    && DistinctNames(p)
    && (forall i :: 0 <= i < |p| ==> p[i].name in m && p[i].count == m[p[i].name])
    && forall name :: name in m ==> Pair(name, m[name]) in p
  }

  lemma EnumerationsAgree(p: seq<Pair>, q: seq<Pair>, m: map<string, nat>)
    requires Enumerates(p, m) && Enumerates(q, m)
    ensures multiset(p) == multiset(q)
  {
    forall x: Pair ensures multiset(p)[x] == multiset(q)[x] {
      OnceEach(p, m, x);
      OnceEach(q, m, x);
    }
  }

  lemma OnceEach(p: seq<Pair>, m: map<string, nat>, x: Pair)
    requires Enumerates(p, m)
    ensures multiset(p)[x] == if x.name in m && m[x.name] == x.count then 1 else 0
  {
    CountDistinct(p, x);
    if x in p {
      var i :| 0 <= i < |p| && p[i] == x;
    }
  }

  lemma {:induction false} CountDistinct(p: seq<Pair>, x: Pair)
    requires DistinctNames(p)
    ensures multiset(p)[x] == if x in p then 1 else 0
  {
    if p == [] {
    } else {
      var init, y := p[..|p| - 1], p[|p| - 1];
      assert p == init + [y];
      CountDistinct(init, x);
      assert x in p <==> x in init || x == y;
    }
  }

  /** Main result: in whatever order the map is walked, the shown list is the same. */
  lemma OrderIndependent(order: Order, p: seq<Pair>, q: seq<Pair>, m: map<string, nat>)
    requires Enumerates(p, m) && Enumerates(q, m)
    ensures SortedSeq(order, p) == SortedSeq(order, q)
  {
    EnumerationsAgree(p, q, m);
    SortKeeps(order, p);
    SortKeeps(order, q);
    SortSorts(order, p);
    SortSorts(order, q);
    SortedUnique(order, SortedSeq(order, p), SortedSeq(order, q));
  }

  function Truncated(s: seq<Pair>): seq<Pair> { if |s| > 10 then s[..10] else s }

  /** Main result: the truncated list is ordered by count and then by name, and holds the
      ten greatest: all that is left out has fewer requests, or as many and a name that
      comes later. */
  lemma TopTen(p: seq<Pair>, m: map<string, nat>)
    requires Enumerates(p, m)
    ensures
      var top := Truncated(SortedSeq(ByCount, p));
      && OrderedByCount(top) && |top| == Min(10, |m|)
      && (forall i :: 0 <= i < |top| ==> top[i].name in m && top[i].count == m[top[i].name])
      && forall name, i :: name in m && Pair(name, m[name]) !in top && 0 <= i < |top| ==>
           Ahead(top[i], Pair(name, m[name]))
  {
    var s := SortedSeq(ByCount, p);
    SortEnumerates(ByCount, p, m);
    SortSorts(ByCount, p);
    EnumerationSize(s, m);
    TopSorted(s);
    forall name, i | name in m && Pair(name, m[name]) !in Truncated(s) && 0 <= i < |Truncated(s)|
      ensures Ahead(Truncated(s)[i], Pair(name, m[name]))
    {
      assert Pair(name, m[name]) in s;
      AfterTheTop(s, Pair(name, m[name]), i);
      LessIs(ByCount, Truncated(s)[i], Pair(name, m[name]));
    }
  }

  lemma TopSorted(s: seq<Pair>)
    requires Sorted(ByCount, s)
    ensures OrderedByCount(Truncated(s))
  {
    SortedIs(ByCount, s);
  }

  lemma AfterTheTop(s: seq<Pair>, x: Pair, i: nat)
    requires Sorted(ByCount, s) && x in s && x !in Truncated(s) && i < |Truncated(s)|
    ensures Less(ByCount, Truncated(s)[i], x)
  {
    var k :| 0 <= k < |s| && s[k] == x;
    assert forall n | 0 <= n < |Truncated(s)| :: s[n] == Truncated(s)[n] && s[n] in Truncated(s);
  }

  lemma {:induction false} EnumerationSize(p: seq<Pair>, m: map<string, nat>)
    requires Enumerates(p, m)
    ensures |p| == |m|
    decreases |p|
  {
    if p == [] {
      assert m == map[];
    } else {
      var x := p[|p| - 1];
      DropLast(p, m);
      EnumerationSize(p[..|p| - 1], m - {x.name});
      assert m.Keys == (m - {x.name}).Keys + {x.name};
      assert |m| == |m.Keys| && |m - {x.name}| == |(m - {x.name}).Keys|;
    }
  }

  lemma DropLast(p: seq<Pair>, m: map<string, nat>)
    requires Enumerates(p, m) && p != []
    ensures Enumerates(p[..|p| - 1], m - {p[|p| - 1].name})
  {
    var x := p[|p| - 1];
    var q, m' := p[..|p| - 1], m - {x.name};
    forall name | name in m' ensures Pair(name, m'[name]) in q {
      var i :| 0 <= i < |p| && p[i] == Pair(name, m[name]);
      assert q[i] == p[i];
    }
  }

  // ---- sums ----

  /** The sum of all counters of a map. */
  ghost function SumOf(m: map<string, nat>): nat
    decreases |m|
  {
    if m == map[] then 0
    else
      var name :| name in m;
      assert (m - {name}).Keys == m.Keys - {name};
      m[name] + SumOf(m - {name})
  }

  lemma {:induction false} SumWithout(m: map<string, nat>, name: string)
    requires name in m
    ensures SumOf(m) == m[name] + SumOf(m - {name})
    decreases |m|
  {
    var first :| first in m && SumOf(m) == m[first] + SumOf(m - {first});
    if first != name {
      assert (m - {first}).Keys == m.Keys - {first} && (m - {name}).Keys == m.Keys - {name};
      SumWithout(m - {first}, name);
      SumWithout(m - {name}, first);
      assert m - {first} - {name} == m - {name} - {first};
    }
  }

  function SumPairs(p: seq<Pair>): nat {
    if p == [] then 0 else SumPairs(p[..|p| - 1]) + p[|p| - 1].count
  }

  /** Any enumeration of a map adds up to the map. */
  lemma {:induction false} SumEnumerated(p: seq<Pair>, m: map<string, nat>)
    requires Enumerates(p, m)
    ensures SumPairs(p) == SumOf(m)
  {
    if p == [] {
      assert m == map[];
    } else {
      DropLast(p, m);
      SumEnumerated(p[..|p| - 1], m - {p[|p| - 1].name});
      SumWithout(m, p[|p| - 1].name);
    }
  }

  /** Sorting does not change which map a list enumerates. */
  lemma SortEnumerates(order: Order, p: seq<Pair>, m: map<string, nat>)
    requires Enumerates(p, m)
    ensures Enumerates(SortedSeq(order, p), m)
  {
    var s := SortedSeq(order, p);
    SortKeeps(order, p);
    SortSorts(order, p);
    forall i | 0 <= i < |s| ensures s[i] in p {
      assert s[i] in multiset(s);
    }
    forall name | name in m ensures Pair(name, m[name]) in s {
      assert Pair(name, m[name]) in multiset(p);
    }
    forall i, j | 0 <= i < j < |s| ensures s[i].name != s[j].name {
      if s[i].name == s[j].name {
        LessTotal(order, s[i], s[j]);
      }
    }
  }

  // ---- the in-place sort and the walk over the map ----

  /** `pairs`: a walk over the map, in an order Go leaves open. */
  method Pairs(m: map<string, nat>) returns (out: array<Pair>)
    ensures fresh(out) && Enumerates(out[..], m)
  {
    var p: seq<Pair> := [];
    var rest := m.Keys;
    while rest != {}
      invariant rest <= m.Keys && DistinctNames(p)
      invariant forall i :: 0 <= i < |p| ==> p[i].name in m && p[i].name !in rest && p[i].count == m[p[i].name]
      invariant forall name :: name in m && name !in rest ==> Pair(name, m[name]) in p
      decreases rest
    {
      var name :| name in rest;
      p := p + [Pair(name, m[name])];
      rest := rest - {name};
    }
    out := new Pair[|p|](i requires 0 <= i < |p| => p[i]);
    assert out[..] == p;
  }

  /** One step of the insertion sort: the next element moves down to its place. */
  method InsertInPlace(order: Order, a: array<Pair>, i: nat)
    requires i < a.Length
    modifies a
    ensures a[..i + 1] == Insert(order, old(a[..i]), old(a[i])) && a[i + 1..] == old(a[i + 1..])
  {
    ghost var s := a[..i];
    var x := a[i];
    var j := MoveDown(order, a, i, x);
    a[j] := x;
    PlacedAt(s, x, j, a[..i + 1]);
  }

  /** The greater elements move up by one, down to the place of `x`. */
  method MoveDown(order: Order, a: array<Pair>, i: nat, x: Pair) returns (j: nat)
    requires i < a.Length
    modifies a
    ensures j <= i && forall k :: 0 <= k < j ==> a[k] == old(a[k])
    ensures forall k :: j < k <= i ==> a[k] == old(a[k - 1])
    ensures a[i + 1..] == old(a[i + 1..])
    ensures Insert(order, old(a[..i]), x) == old(a[..i])[..j] + [x] + old(a[..i])[j..]
  {
    ghost var s, later := a[..i], a[i + 1..];
    j := i;
    assert s[..i] == s;
    while j > 0 && Less(order, x, a[j - 1])
      invariant 0 <= j <= i
      invariant forall k :: 0 <= k < j ==> a[k] == s[k]
      invariant forall k :: j < k <= i ==> a[k] == s[k - 1]
      invariant a[i + 1..] == later
      invariant Insert(order, s, x) == Insert(order, s[..j], x) + s[j..]
    {
      InsertPasses(order, s, x, j);
      a[j] := a[j - 1];
      j := j - 1;
    }
    InsertStops(order, s, x, j);
  }

  lemma PlacedAt(s: seq<Pair>, x: Pair, j: nat, t: seq<Pair>)
    requires j <= |s| && |t| == |s| + 1 && t[j] == x
    requires forall k :: 0 <= k < j ==> t[k] == s[k]
    requires forall k :: j < k < |t| ==> t[k] == s[k - 1]
    ensures t == s[..j] + [x] + s[j..]
  {
  }

  lemma InsertPasses(order: Order, s: seq<Pair>, x: Pair, j: nat)
    requires 0 < j <= |s| && Less(order, x, s[j - 1])
    ensures Insert(order, s[..j], x) + s[j..] == Insert(order, s[..j - 1], x) + s[j - 1..]
  {
    assert s[..j][..j - 1] == s[..j - 1];
    assert s[j - 1..] == [s[j - 1]] + s[j..];
  }

  lemma InsertStops(order: Order, s: seq<Pair>, x: Pair, j: nat)
    requires j <= |s| && (j > 0 ==> !Less(order, x, s[j - 1]))
    ensures Insert(order, s[..j], x) == s[..j] + [x]
  {
  }

  /** `sort.Slice`, as an insertion sort on the slice itself. */
  method SortInPlace(order: Order, a: array<Pair>)
    modifies a
    ensures a[..] == SortedSeq(order, old(a[..]))
  {
    ghost var was := a[..];
    for i := 0 to a.Length
      invariant a[..i] == SortedSeq(order, was[..i]) && a[i..] == was[i..]
    {
      assert a[i] == a[i..][0] && a[i + 1..] == a[i..][1..];
      assert was[..i + 1][..i] == was[..i];
      InsertInPlace(order, a, i);
    }
    assert a[..a.Length] == a[..] && was[..a.Length] == was;
  }
}
