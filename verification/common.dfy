/**
 Small shared vocabulary: an Option type for Python's `None`-or-value results,
 the string predicates the scripts use (`str.startswith`, `str.endswith`,
 `in`, ASCII `str.lower`), `'sep'.join`, list filtering and the running sum
 of optional token counts.
 */
module Common {

  /** Python's `None` or a present value. */
  datatype Option<+T> = None | Some(value: T) {

    /** `x if x is not None else default` */
    function GetOr(default: T): T {
      match this
      case Some(v) => v
      case None => default
    }
  }

  /** One byte of a file's raw content. */
  newtype byte = x: int | 0 <= x < 256

  /** `s.startswith(p)` */
  predicate StartsWith(s: string, p: string) {
    |p| <= |s| && s[..|p|] == p
  }

  /** `s.endswith(p)` */
  predicate EndsWith(s: string, p: string) {
    |p| <= |s| && s[|s| - |p|..] == p
  }

  /** `t` occurs in `s` starting at index `i`. */
  predicate OccursAt(s: string, i: int, t: string) {
    0 <= i <= |s| - |t| && s[i..i + |t|] == t
  }

  /** `t in s` for strings. */
  predicate Contains(s: string, t: string) {
    exists i :: 0 <= i <= |s| && OccursAt(s, i, t)
  }

  /** `str.lower` restricted to ASCII letters. */
  function LowerChar(c: char): char {
    if 'A' <= c <= 'Z' then (c as int + 32) as char else c
  }

  function Lower(s: string): string {
    seq(|s|, i requires 0 <= i < |s| => LowerChar(s[i]))
  }

  /** `os.path.join(a, b)` (POSIX): an absolute `b` replaces `a`; otherwise one `/` separates them. */
  function JoinPath(a: string, b: string): string {
    if StartsWith(b, "/") then b
    else if a == [] || a[|a| - 1] == '/' then a + b
    else a + "/" + b
  }

  /** `sep.join(parts)` */
  function JoinWith(parts: seq<string>, sep: char): string {
    if parts == [] then []
    else if |parts| == 1 then parts[0]
    else parts[0] + [sep] + JoinWith(parts[1..], sep)
  }

  /** The characters of `s` with every `a` turned into `b`. */
  function MapChar(s: string, a: char, b: char): string {
    seq(|s|, i requires 0 <= i < |s| => if s[i] == a then b else s[i])
  }

  /** `[x for x in s if keep(x)]` over a list of names. */
  function Filter(s: seq<string>, keep: string -> bool): (r: seq<string>)
    ensures forall i :: 0 <= i < |r| ==> keep(r[i])
    ensures |r| <= |s|
  {
    if s == [] then []
    else Filter(s[..|s| - 1], keep) + (if keep(s[|s| - 1]) then [s[|s| - 1]] else [])
  }

  /** A name survives the filter exactly when it is listed and kept. */
  lemma {:induction false} FilterMembers(s: seq<string>, keep: string -> bool, x: string)
    ensures x in Filter(s, keep) <==> x in s && keep(x)
    decreases |s|
  {
    if s != [] {
      var init := s[..|s| - 1];
      FilterMembers(init, keep, x);
      assert s == init + [s[|s| - 1]];
    }
  }

  /** `a` is an order-preserving subsequence of `b`. */
  predicate IsSubseq<T(==)>(a: seq<T>, b: seq<T>)
    decreases |b|
  {
    if a == [] then true
    else if b == [] then false
    else if a[|a| - 1] == b[|b| - 1] then IsSubseq(a[..|a| - 1], b[..|b| - 1])
    else IsSubseq(a, b[..|b| - 1])
  }

  lemma {:induction false} FilterIsSubseq(s: seq<string>, keep: string -> bool)
    ensures IsSubseq(Filter(s, keep), s)
    decreases |s|
  {
    if s != [] {
      var init := s[..|s| - 1];
      FilterIsSubseq(init, keep);
      if keep(s[|s| - 1]) {
        var f := Filter(s, keep);
        assert f[..|f| - 1] == Filter(init, keep);
      } else {
        assert Filter(s, keep) == Filter(init, keep);
      }
    }
  }

  /**
   Keeping the elements that satisfy `keep` and, separately, the ones that do
   not, splits the sequence: the two parts together have its length and its
   elements with their multiplicities.
   */
  lemma FilterPartition(s: seq<string>, keep: string -> bool, drop: string -> bool)
    requires forall x :: drop(x) == !keep(x)
    ensures multiset(Filter(s, keep)) + multiset(Filter(s, drop)) == multiset(s)
    ensures |Filter(s, keep)| + |Filter(s, drop)| == |s|
  {
    FilterSplitsMultiset(s, keep, drop);
    assert |multiset(Filter(s, keep)) + multiset(Filter(s, drop))| == |multiset(s)|;
  }

  lemma {:induction false} FilterSplitsMultiset(s: seq<string>, keep: string -> bool, drop: string -> bool)
    requires forall x :: drop(x) == !keep(x)
    ensures multiset(Filter(s, keep)) + multiset(Filter(s, drop)) == multiset(s)
    decreases |s|
  {
    if s != [] {
      var init, last := s[..|s| - 1], s[|s| - 1];
      FilterSplitsMultiset(init, keep, drop);
      assert s == init + [last];
      var k, d := Filter(init, keep), Filter(init, drop);
      assert Filter(s, keep) == k + (if keep(last) then [last] else []);
      assert Filter(s, drop) == d + (if drop(last) then [last] else []);
      assert multiset(s) == multiset(init) + multiset{last};
    }
  }

  /** The concatenation of `piece(x)` over `xs`, in order. */
  function ConcatMap<T>(xs: seq<T>, piece: T -> string): string {
    if xs == [] then "" else ConcatMap(xs[..|xs| - 1], piece) + piece(xs[|xs| - 1])
  }

  /** The sum of `count(x)` over `xs`. */
  function SumMap<T>(xs: seq<T>, count: T -> nat): nat {
    if xs == [] then 0 else SumMap(xs[..|xs| - 1], count) + count(xs[|xs| - 1])
  }

  lemma ConcatMapStep<T>(xs: seq<T>, piece: T -> string, k: nat)
    requires k < |xs|
    ensures ConcatMap(xs[..k + 1], piece) == ConcatMap(xs[..k], piece) + piece(xs[k])
  {
    assert xs[..k + 1][..k] == xs[..k];
  }

  lemma SumMapStep<T>(xs: seq<T>, count: T -> nat, k: nat)
    requires k < |xs|
    ensures SumMap(xs[..k + 1], count) == SumMap(xs[..k], count) + count(xs[k])
  {
    assert xs[..k + 1][..k] == xs[..k];
  }

  /** The state reached from `start` by applying `step` to each element of `xs` in turn. */
  function FoldLeft<A, X>(step: (A, X) -> A, start: A, xs: seq<X>): A {
    if xs == [] then start else step(FoldLeft(step, start, xs[..|xs| - 1]), xs[|xs| - 1])
  }

  /** Two folds from the same start agree when their steps agree element by element. */
  lemma {:induction false} FoldLeftPointwise<A, X, Y>(f: (A, X) -> A, g: (A, Y) -> A, start: A, xs: seq<X>, ys: seq<Y>)
    requires |xs| == |ys|
    requires forall b: A, i :: 0 <= i < |xs| ==> f(b, xs[i]) == g(b, ys[i])
    ensures FoldLeft(f, start, xs) == FoldLeft(g, start, ys)
    decreases |xs|
  {
    if xs != [] {
      var n := |xs| - 1;
      FoldLeftPointwise(f, g, start, xs[..n], ys[..n]);
    }
  }

  /** A `for x in xs` loop that updates one state variable with `step`. */
  method Fold<A, X>(step: (A, X) -> A, start: A, xs: seq<X>) returns (a: A)
    ensures a == FoldLeft(step, start, xs)
  {
    a := start;
    var k := 0;
    while k < |xs|
      invariant 0 <= k <= |xs|
      invariant a == FoldLeft(step, start, xs[..k])
    {
      assert xs[..k + 1][..k] == xs[..k];
      a := step(a, xs[k]);
      k := k + 1;
    }
    assert xs[..k] == xs;
  }

  /** The pairs of corresponding elements of two equally long sequences. */
  function Zip<X, Y>(xs: seq<X>, ys: seq<Y>): (r: seq<(X, Y)>)
    requires |xs| == |ys|
    ensures |r| == |xs|
    ensures forall i :: 0 <= i < |r| ==> r[i] == (xs[i], ys[i])
  {
    if xs == [] then []
    else
      var n := |xs| - 1;
      Zip(xs[..n], ys[..n]) + [(xs[n], ys[n])]
  }

  /** Concatenating over two runs is concatenating over each and joining the results. */
  lemma {:induction false} ConcatMapAppend<T>(a: seq<T>, b: seq<T>, piece: T -> string)
    ensures ConcatMap(a + b, piece) == ConcatMap(a, piece) + ConcatMap(b, piece)
    decreases |b|
  {
    if b == [] {
      assert a + b == a;
    } else {
      var init := b[..|b| - 1];
      ConcatMapAppend(a, init, piece);
      assert (a + b)[..|a + b| - 1] == a + init;
      assert ConcatMap(a + b, piece) == ConcatMap(a + init, piece) + piece(b[|b| - 1]);
      assert ConcatMap(b, piece) == ConcatMap(init, piece) + piece(b[|b| - 1]);
    }
  }
}
