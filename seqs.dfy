/** Order-preserving selection from sequences (`Array.prototype.filter`) and the subsequence relation. */
module Seqs {

  /** `xs.filter(p)`. */
  function Filter<T>(xs: seq<T>, p: T -> bool): (r: seq<T>)
    ensures |r| <= |xs|
    ensures forall x <- r :: x in xs && p(x)
    ensures forall x <- xs :: p(x) ==> x in r
  {
    if xs == [] then []
    else if p(xs[0]) then [xs[0]] + Filter(xs[1..], p)
    else Filter(xs[1..], p)
  }

  /** `xs.map(f)`. */
  function Map<T, U>(xs: seq<T>, f: T -> U): (r: seq<U>)
    ensures |r| == |xs|
    ensures forall i :: 0 <= i < |xs| ==> r[i] == f(xs[i])
  {
    seq(|xs|, i requires 0 <= i < |xs| => f(xs[i]))
  }

  /** `xs` can be obtained from `ys` by deleting elements: it keeps their order. */
  predicate IsSubseq<T(==)>(xs: seq<T>, ys: seq<T>)
    decreases |ys|
  {
    xs == [] || (ys != [] && ((xs[0] == ys[0] && IsSubseq(xs[1..], ys[1..])) || IsSubseq(xs, ys[1..])))
  }

  /** What `filter` keeps is a subsequence of its input. */
  lemma {:induction false} FilterIsSubseq<T>(xs: seq<T>, p: T -> bool)
    ensures IsSubseq(Filter(xs, p), xs)
  {
    if xs != [] {
      FilterIsSubseq(xs[1..], p);
      if !p(xs[0]) {
        if Filter(xs, p) != [] {
          assert IsSubseq(Filter(xs, p), xs[1..]);
        }
      }
    }
  }

  /** Two tests that agree on every element select the same elements. */
  lemma {:induction false} FilterSameTest<T>(xs: seq<T>, p: T -> bool, q: T -> bool)
    requires forall x <- xs :: p(x) == q(x)
    ensures Filter(xs, p) == Filter(xs, q)
  {
    if xs != [] {
      FilterSameTest(xs[1..], p, q);
    }
  }

  lemma SubseqCons<T>(xs: seq<T>, y: T, ys: seq<T>)
    requires IsSubseq(xs, ys)
    ensures IsSubseq(xs, [y] + ys)
  {
    assert ([y] + ys)[1..] == ys;
  }

  /** A common first element extends a subsequence. */
  lemma SubseqBoth<T>(x: T, xs: seq<T>, ys: seq<T>)
    requires IsSubseq(xs, ys)
    ensures IsSubseq([x] + xs, [x] + ys)
  {
    assert ([x] + xs)[1..] == xs && ([x] + ys)[1..] == ys;
  }

  /** Every element of a subsequence is an element of the sequence. */
  lemma {:induction false} SubseqElements<T>(xs: seq<T>, ys: seq<T>)
    requires IsSubseq(xs, ys)
    ensures forall x <- xs :: x in ys
    decreases |ys|
  {
    if xs != [] {
      if xs[0] == ys[0] && IsSubseq(xs[1..], ys[1..]) {
        SubseqElements(xs[1..], ys[1..]);
        assert xs == [xs[0]] + xs[1..];
      } else {
        SubseqElements(xs, ys[1..]);
      }
      assert ys == [ys[0]] + ys[1..];
    }
  }

  /** What follows `a` in a sequence extending `a + [x]` starts with `x`. */
  lemma SliceAfter<T>(a: seq<T>, x: T, b: seq<T>)
    requires a + [x] <= b
    ensures b[|a|..] == [x] + b[|a| + 1..]
  {
    assert b[|a|] == (a + [x])[|a|];
  }

  /** Mapping distributes over a first element. */
  lemma MapCons<T, U>(x: T, xs: seq<T>, f: T -> U)
    ensures Map([x] + xs, f) == [f(x)] + Map(xs, f)
  {
  }

  /** Filtering a non-empty sequence decides its first element first. */
  lemma FilterFirst<T>(xs: seq<T>, p: T -> bool)
    requires xs != []
    ensures Filter(xs, p) == if p(xs[0]) then [xs[0]] + Filter(xs[1..], p) else Filter(xs[1..], p)
  {
  }

  /** Filtering a sequence of five elements, written out element by element. */
  lemma FilterFive<T>(xs: seq<T>, p: T -> bool)
    requires |xs| == 5
    ensures Filter(xs, p) ==
      Kept(xs[0], p) + (Kept(xs[1], p) + (Kept(xs[2], p) + (Kept(xs[3], p) + Kept(xs[4], p))))
  {
    assert xs[5..] == [];
    FilterFrom(xs, p, 4);
    var f4 := Filter(xs[4..], p);
    assert f4 == Kept(xs[4], p) + [];
    assert Kept(xs[4], p) + [] == Kept(xs[4], p);
    FilterFrom(xs, p, 3);
    FilterFrom(xs, p, 2);
    FilterFrom(xs, p, 1);
    FilterFrom(xs, p, 0);
    assert xs[0..] == xs;
  }

  /** What filtering keeps of one element. */
  function Kept<T>(x: T, p: T -> bool): seq<T> {
    if p(x) then [x] else []
  }

  /** Filtering a suffix decides its first element first. */
  lemma FilterFrom<T>(xs: seq<T>, p: T -> bool, k: nat)
    requires k < |xs|
    ensures Filter(xs[k..], p) == Kept(xs[k], p) + Filter(xs[k + 1..], p)
  {
    FilterFirst(xs[k..], p);
    assert xs[k..][1..] == xs[k + 1..];
  }

  /**
   * `xs.filter(p).map(f)` written as one pass, with no contract: proofs that
   * follow a loop element by element use it so that nothing is said about
   * `p` beyond the elements they split off.
   */
  function FilterMap<T, U>(xs: seq<T>, p: T -> bool, f: T -> U): seq<U>
    decreases |xs|
  {
    if xs == [] then []
    else (if p(xs[0]) then [f(xs[0])] else []) + FilterMap(xs[1..], p, f)
  }

  /** The pass over a non-empty sequence is its first element, then the rest. */
  lemma FilterMapFirst<T, U>(xs: seq<T>, p: T -> bool, f: T -> U)
    requires xs != []
    ensures FilterMap(xs, p, f) == FilterMap([xs[0]], p, f) + FilterMap(xs[1..], p, f)
  {
    assert [xs[0]][1..] == [];
  }

  /** The one-pass form is `filter` followed by `map`. */
  lemma {:induction false} FilterMapIsMapFilter<T, U>(xs: seq<T>, p: T -> bool, f: T -> U)
    ensures FilterMap(xs, p, f) == Map(Filter(xs, p), f)
    decreases |xs|
  {
    if xs != [] {
      FilterMapIsMapFilter(xs[1..], p, f);
      if p(xs[0]) {
        MapCons(xs[0], Filter(xs[1..], p), f);
      }
    }
  }

  function Id<T>(x: T): T { x }

  /** With the identity, the one-pass form is `filter`. */
  lemma {:induction false} FilterMapIsFilter<T>(xs: seq<T>, p: T -> bool)
    ensures FilterMap(xs, p, Id) == Filter(xs, p)
    decreases |xs|
  {
    if xs != [] {
      FilterMapIsFilter(xs[1..], p);
    }
  }

  /** `xs.reduce(step, s)`: a loop over `xs` that updates `s` once per element. */
  function FoldLeft<S, T>(step: (S, T) -> S, s: S, xs: seq<T>): S
    decreases |xs|
  {
    if xs == [] then s else FoldLeft(step, step(s, xs[0]), xs[1..])
  }

  /**
   * A loop whose step keeps `inv` and appends to `out` the selection of its
   * element appends to `out`, over the whole sequence, the selection of the
   * sequence.
   */
  lemma {:induction false} FoldSelects<S, T, U>(step: (S, T) -> S, out: S -> seq<U>, inv: S -> bool,
                                                ok: T -> bool, p: T -> bool, f: T -> U, s: S, xs: seq<T>)
    requires inv(s) && forall x <- xs :: ok(x)
    requires forall s': S, x: T :: inv(s') && ok(x) ==> inv(step(s', x)) && out(step(s', x)) == out(s') + FilterMap([x], p, f)
    ensures out(FoldLeft(step, s, xs)) == out(s) + FilterMap(xs, p, f)
    decreases |xs|
  {
    if xs != [] {
      assert xs[0] in xs;
      var s' := step(s, xs[0]);
      FoldSelects(step, out, inv, ok, p, f, s', xs[1..]);
      FilterMapFirst(xs, p, f);
      assert out(s) + FilterMap([xs[0]], p, f) + FilterMap(xs[1..], p, f) == out(s) + FilterMap(xs, p, f);
    }
  }
}
