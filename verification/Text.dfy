/** String handling in the style of Go's `strings` package. A `char` stands for
    one byte of the original string; case folding and white space are ASCII. */
module Text {
  datatype Option<+T> = None | Some(value: T)

  datatype Result<+T, +E> = Ok(value: T) | Err(error: E)

  function Min(a: int, b: int): int { if a < b then a else b }

  function Max(a: int, b: int): int { if a < b then b else a }

  // ---- case ----

  function LowerChar(c: char): char {
    if 'A' <= c <= 'Z' then (c as int + 32) as char else c
  }

  function ToLower(s: string): (r: string)
    ensures |r| == |s| && forall i :: 0 <= i < |s| ==> r[i] == LowerChar(s[i])
  {
    seq(|s|, i requires 0 <= i < |s| => LowerChar(s[i]))
  }

  predicate EqualFold(a: string, b: string) { ToLower(a) == ToLower(b) }

  /** The same letters, capital or small. */
  predicate SameLetter(c: char, d: char) {
    c == d || ('A' <= c <= 'Z' && c as int + 32 == d as int) || ('A' <= d <= 'Z' && d as int + 32 == c as int)
  }

  predicate SameLetters(a: string, b: string) {
    |a| == |b| && forall i :: 0 <= i < |a| ==> SameLetter(a[i], b[i])
  }

  /** Texts are equal under case folding exactly when they agree letter by letter. */
  lemma EqualFoldIs(a: string, b: string)
    ensures EqualFold(a, b) <==> SameLetters(a, b)
  {
    var x, y := ToLower(a), ToLower(b);
    assert forall i | 0 <= i < |a| && i < |b| :: LowerChar(a[i]) == LowerChar(b[i]) <==> SameLetter(a[i], b[i]);
    if EqualFold(a, b) {
      forall i | 0 <= i < |a| ensures SameLetter(a[i], b[i]) {
        assert x[i] == y[i];
      }
    }
  }

  lemma ToLowerConcat(a: string, b: string)
    ensures ToLower(a + b) == ToLower(a) + ToLower(b)
  {
  }

  // ---- searching and cutting ----

  predicate StartsWith(s: string, c: char) { s != "" && s[0] == c }

  /** A text that starts with `c` twice. */
  predicate StartsTwice(s: string, c: char) { |s| >= 2 && s[0] == c && s[1] == c }

  /** The index of the first `c`, or the length of `s` when there is none. */
  function Find(s: string, c: char): (i: nat)
    ensures i <= |s| && c !in s[..i]
    ensures i < |s| ==> s[i] == c
  {
    if s == "" || s[0] == c then 0
    else
      var i := 1 + Find(s[1..], c);
      assert s[..i] == [s[0]] + s[1..][..i - 1];
      i
  }

  /** One past the index of the last `c`, or 0 when there is none. */
  function FindLast(s: string, c: char): (i: nat)
    ensures i <= |s| && c !in s[i..]
    ensures i > 0 ==> s[i - 1] == c
  {
    if s == "" || s[|s| - 1] == c then |s|
    else
      var i := FindLast(s[..|s| - 1], c);
      assert s[i..] == s[..|s| - 1][i..] + [s[|s| - 1]];
      i
  }

  datatype Cutting = Cutting(before: string, after: string, found: bool)

  /** `strings.Cut` at a one-byte separator. */
  function Cut(s: string, c: char): (r: Cutting)
    ensures c !in r.before
    ensures r.found ==> s == r.before + [c] + r.after
    ensures !r.found ==> r.before == s && r.after == "" && c !in s
  {
    var i := Find(s, c);
    if i < |s| then Cutting(s[..i], s[i + 1..], true) else Cutting(s, "", false)
  }

  /** The first occurrence of `c` is found wherever it is known to be. */
  lemma FindAt(a: string, c: char, b: string)
    requires c !in a
    ensures Find(a + [c] + b, c) == |a|
    ensures Cut(a + [c] + b, c) == Cutting(a, b, true)
  {
    var s := a + [c] + b;
    var i := Find(s, c);
    assert s[|a|] == c;
    assert forall k | 0 <= k < |a| :: s[k] == a[k];
    assert c in s[..i] || i <= |a|;
    assert s[..|a|] == a && s[|a| + 1..] == b;
  }

  lemma FindNone(a: string, c: char)
    requires c !in a
    ensures Find(a, c) == |a| && Cut(a, c) == Cutting(a, "", false)
  {
  }

  /** Text before the separator that does not hold it only shifts the cut. */
  lemma CutShift(a: string, s: string, c: char)
    requires c !in a
    ensures Find(a + s, c) == |a| + Find(s, c)
    ensures Cut(a + s, c) == Cut(s, c).(before := a + Cut(s, c).before)
  {
    var i := Find(s, c);
    if i < |s| {
      assert a + s == (a + s[..i]) + [c] + s[i + 1..];
      FindAt(a + s[..i], c, s[i + 1..]);
    } else {
      FindNone(a + s, c);
      assert a + s == a + Cut(s, c).before;
    }
  }

  /** `strings.Index`, or the length of `s` when there is no occurrence. */
  function IndexOf(s: string, sub: string): (i: nat)
    ensures i <= |s| && (i < |s| ==> sub <= s[i..])
  {
    if s == "" || sub <= s then 0 else 1 + IndexOf(s[1..], sub)
  }

  /** The first occurrence of `sub` replaced, if there is one. */
  function ReplaceFirst(s: string, sub: string, put: string): string {
    var i := IndexOf(s, sub);
    if i == |s| then s else s[..i] + put + s[i + |sub|..]
  }

  lemma CutOut(a: string, m: string, b: string)
    ensures (a + (m + b))[..|a|] == a && (a + (m + b))[|a| + |m|..] == b
    ensures (a + (m + b))[|a|..] == m + b
  {
  }

  /** What surrounds the first occurrence. */
  lemma Around(s: string, sub: string) returns (a: string, b: string)
    requires IndexOf(s, sub) < |s|
    ensures |a| == IndexOf(s, sub) && s == a + (sub + b)
  {
    var i := IndexOf(s, sub);
    a, b := s[..i], s[i..][|sub|..];
    assert s[i..] == sub + b;
  }

  lemma ReplaceAround(a: string, sub: string, b: string, put: string)
    requires sub != "" && IndexOf(a + (sub + b), sub) == |a|
    ensures ReplaceFirst(a + (sub + b), sub, put) == a + (put + b)
  {
    CutOut(a, sub, b);
    Assoc(a, put, b);
  }

  // ---- trimming ----

  predicate IsSpace(c: char) {
    c == ' ' || c == '\t' || c == '\n' || c == '\r' || c == '\U{0B}' || c == '\U{0C}'
  }

  function TrimLeft(s: string): (r: string)
    ensures r == "" || !IsSpace(r[0])
    ensures |r| <= |s| && r == s[|s| - |r|..]
  {
    if s != "" && IsSpace(s[0]) then TrimLeft(s[1..]) else s
  }

  function TrimRight(s: string): (r: string)
    ensures r == "" || !IsSpace(r[|r| - 1])
    ensures r <= s
    ensures s != "" && !IsSpace(s[0]) ==> r != ""
  {
    if s != "" && IsSpace(s[|s| - 1]) then TrimRight(s[..|s| - 1]) else s
  }

  /** `strings.TrimSpace`. */
  function TrimSpace(s: string): (r: string)
    ensures r == "" || (!IsSpace(r[0]) && !IsSpace(r[|r| - 1]))
    ensures (s == "" || (!IsSpace(s[0]) && !IsSpace(s[|s| - 1]))) ==> r == s
    ensures s != "" && !IsSpace(s[0]) ==> r == TrimRight(s)
  {
    var l := TrimLeft(s);
    TrimRight(l)
  }

  /** Trailing space is all that trimming removes after a non-space start, so a
      text put in front of a non-blank one is left alone. */
  lemma {:induction false} TrimRightConcat(a: string, s: string)
    requires TrimRight(s) != ""
    ensures TrimRight(a + s) == a + TrimRight(s)
    decreases |s|
  {
    if IsSpace(s[|s| - 1]) {
      assert (a + s)[..|a + s| - 1] == a + s[..|s| - 1];
      TrimRightConcat(a, s[..|s| - 1]);
    }
  }

  /** A blank text put behind one that does not end in space is trimmed away. */
  lemma {:induction false} TrimRightBlank(a: string, s: string)
    requires TrimRight(s) == ""
    requires a == "" || !IsSpace(a[|a| - 1])
    ensures TrimRight(a + s) == a
    decreases |s|
  {
    if s == "" {
      assert a + s == a;
    } else {
      assert IsSpace(s[|s| - 1]);
      assert (a + s)[..|a + s| - 1] == a + s[..|s| - 1];
      TrimRightBlank(a, s[..|s| - 1]);
    }
  }

  // ---- splitting and joining ----

  /** `strings.Split` at a one-byte separator: always at least one piece. */
  function Split(s: string, c: char): (r: seq<string>)
    ensures |r| >= 1
    decreases |s|
  {
    var i := Find(s, c);
    if i < |s| then [s[..i]] + Split(s[i + 1..], c) else [s]
  }

  predicate AllWithout(parts: seq<string>, c: char) {
    forall i :: 0 <= i < |parts| ==> c !in parts[i]
  }

  lemma {:induction false} SplitPieces(s: string, c: char)
    ensures AllWithout(Split(s, c), c)
    decreases |s|
  {
    var i := Find(s, c);
    if i < |s| {
      SplitPieces(s[i + 1..], c);
    }
  }

  /** `strings.Join` with a one-byte separator. */
  function Join(parts: seq<string>, c: char): string {
    if parts == [] then ""
    else if |parts| == 1 then parts[0]
    else parts[0] + [c] + Join(parts[1..], c)
  }

  lemma SplitStep(a: string, c: char, b: string)
    requires c !in a
    ensures Split(a + [c] + b, c) == [a] + Split(b, c)
  {
    FindAt(a, c, b);
    assert (a + [c] + b)[..|a|] == a && (a + [c] + b)[|a| + 1..] == b;
  }

  lemma Assoc<T>(a: seq<T>, b: seq<T>, c: seq<T>)
    ensures a + (b + c) == a + b + c
  {
  }

  lemma UpdateMiddle<T>(a: seq<T>, x: T, b: seq<T>, y: T)
    ensures (a + ([x] + b))[|a| := y] == a + ([y] + b) && (a + ([x] + b))[|a|] == x
  {
  }

  lemma AssocCut(x: string, c: char, rest: string, b: string)
    ensures x + [c] + rest + [c] + b == x + [c] + (rest + [c] + b)
  {
  }

  lemma {:induction false} SplitConcat(a: string, c: char, b: string)
    ensures Split(a + [c] + b, c) == Split(a, c) + Split(b, c)
    decreases |a|
  {
    var i := Find(a, c);
    if i < |a| {
      var x, rest := a[..i], a[i + 1..];
      assert a == x + [c] + rest;
      SplitStep(x, c, rest);
      SplitStep(x, c, rest + [c] + b);
      AssocCut(x, c, rest, b);
      SplitConcat(rest, c, b);
      Assoc([x], Split(rest, c), Split(b, c));
    } else {
      SplitStep(a, c, b);
    }
  }

  lemma JoinStep(a: string, rest: seq<string>, c: char)
    requires rest != []
    ensures Join([a] + rest, c) == a + [c] + Join(rest, c)
  {
    assert ([a] + rest)[1..] == rest;
  }

  lemma {:induction false} JoinSplit(s: string, c: char)
    ensures Join(Split(s, c), c) == s
    decreases |s|
  {
    var cut := Cut(s, c);
    if cut.found {
      JoinSplit(cut.after, c);
      SplitStep(cut.before, c, cut.after);
      JoinStep(cut.before, Split(cut.after, c), c);
    }
  }

  lemma {:induction false} SplitJoin(parts: seq<string>, c: char)
    requires |parts| >= 1 && AllWithout(parts, c)
    ensures Split(Join(parts, c), c) == parts
  {
    if |parts| == 1 {
      FindNone(parts[0], c);
    } else {
      SplitJoin(parts[1..], c);
      JoinStep(parts[0], parts[1..], c);
      assert parts == [parts[0]] + parts[1..];
      SplitStep(parts[0], c, Join(parts[1..], c));
    }
  }

  // ---- the first of several ----

  function First<T>(c: seq<Option<T>>): Option<T> {
    if c == [] then None else if c[0].Some? then c[0] else First(c[1..])
  }

  lemma {:induction false} FirstAt<T>(c: seq<Option<T>>, n: nat)
    requires n <= |c| && forall k :: 0 <= k < n ==> c[k].None?
    ensures n == |c| ==> First(c) == None
    ensures n < |c| && c[n].Some? ==> First(c) == c[n]
  {
    if n == 0 {
    } else {
      FirstAt(c[1..], n - 1);
    }
  }

  lemma {:induction false} FirstConcat<T>(a: seq<Option<T>>, b: seq<Option<T>>)
    ensures First(a + b) == if First(a).Some? then First(a) else First(b)
  {
    if a == [] {
      assert a + b == b;
    } else {
      FirstConcat(a[1..], b);
      assert (a + b)[1..] == a[1..] + b;
    }
  }

  function Mapped<A, B>(f: A -> B, s: seq<A>): (r: seq<B>)
    ensures |r| == |s| && forall k :: 0 <= k < |r| ==> r[k] == f(s[k])
  {
    seq(|s|, k requires 0 <= k < |s| => f(s[k]))
  }

  lemma MappedTail<A, B>(f: A -> B, s: seq<A>)
    requires s != []
    ensures Mapped(f, s) == [f(s[0])] + Mapped(f, s[1..])
  {
  }
}
