/** Filters and left-to-right sums over sequences: the `filter`/`reduce`
    shape that every aggregation of the application is built from. */
module Sums {

  /** The elements of `xs` that satisfy `p`, in their original order. */
  function Filter<T>(xs: seq<T>, p: T -> bool): (r: seq<T>)
    ensures |r| <= |xs|
    ensures forall x :: x in r ==> x in xs && p(x)
  {
    if xs == [] then []
    else Filter(xs[..|xs| - 1], p) + (if p(xs[|xs| - 1]) then [xs[|xs| - 1]] else [])
  }

  /** Filtering drops no element that satisfies `p`. */
  lemma {:induction false} FilterKeeps<T>(xs: seq<T>, p: T -> bool, x: T)
    requires x in xs && p(x)
    ensures x in Filter(xs, p)
  {
    var n := |xs| - 1;
    if xs[n] != x {
      assert xs == xs[..n] + [xs[n]];
      FilterKeeps(xs[..n], p, x);
    }
  }

  /** Filtering a sequence no element of which satisfies `p` leaves
      nothing. */
  lemma {:induction false} FilterNone<T>(xs: seq<T>, p: T -> bool)
    requires forall i :: 0 <= i < |xs| ==> !p(xs[i])
    ensures Filter(xs, p) == []
  {
    if xs != [] {
      FilterNone(xs[..|xs| - 1], p);
    }
  }

  /** `xs.reduce((acc, x) => acc + f(x), 0)`: the sum of `f` over `xs`,
      accumulated from the left. */
  function SumBy<T>(xs: seq<T>, f: T -> int): int
  {
    if xs == [] then 0 else SumBy(xs[..|xs| - 1], f) + f(xs[|xs| - 1])
  }

  /** The number of elements of `xs` that satisfy `p`. */
  function Count<T>(xs: seq<T>, p: T -> bool): nat
  {
    |Filter(xs, p)|
  }

  lemma {:induction false} FilterAppend<T>(xs: seq<T>, ys: seq<T>, p: T -> bool)
    ensures Filter(xs + ys, p) == Filter(xs, p) + Filter(ys, p)
  {
    if ys == [] {
      assert xs + ys == xs;
    } else {
      var n, zs := |ys| - 1, xs + ys;
      assert zs[..|zs| - 1] == xs + ys[..n];
      assert zs[|zs| - 1] == ys[n];
      FilterAppend(xs, ys[..n], p);
      var a, b := Filter(xs, p), Filter(ys[..n], p);
      var last := if p(ys[n]) then [ys[n]] else [];
      assert a + b + last == a + (b + last);
    }
  }

  lemma {:induction false} SumByAppend<T>(xs: seq<T>, ys: seq<T>, f: T -> int)
    ensures SumBy(xs + ys, f) == SumBy(xs, f) + SumBy(ys, f)
  {
    if ys == [] {
      assert xs + ys == xs;
    } else {
      var n := |ys| - 1;
      assert (xs + ys)[..|xs + ys| - 1] == xs + ys[..n];
      assert (xs + ys)[|xs + ys| - 1] == ys[n];
      SumByAppend(xs, ys[..n], f);
    }
  }

  /** When `q` holds of exactly the elements of `xs` where `p` does not, the
      sums over the two filters add up to the sum over the whole
      sequence. */
  lemma {:induction false} PartitionSum<T>(xs: seq<T>, p: T -> bool, q: T -> bool, f: T -> int)
    requires forall i :: 0 <= i < |xs| ==> q(xs[i]) == !p(xs[i])
    ensures SumBy(Filter(xs, p), f) + SumBy(Filter(xs, q), f) == SumBy(xs, f)
  {
    if xs != [] {
      var n := |xs| - 1;
      PartitionSum(xs[..n], p, q, f);
      SumByAppend(Filter(xs[..n], p), if p(xs[n]) then [xs[n]] else [], f);
      SumByAppend(Filter(xs[..n], q), if q(xs[n]) then [xs[n]] else [], f);
      assert SumBy([xs[n]], f) == f(xs[n]) by {
        assert [xs[n]][..0] == [];
      }
    }
  }

  /** Under the same condition, the two counts add up to the length. */
  lemma {:induction false} PartitionCount<T>(xs: seq<T>, p: T -> bool, q: T -> bool)
    requires forall i :: 0 <= i < |xs| ==> q(xs[i]) == !p(xs[i])
    ensures Count(xs, p) + Count(xs, q) == |xs|
  {
    if xs != [] {
      PartitionCount(xs[..|xs| - 1], p, q);
    }
  }

  /** Where the last element of `xs` sits in a reordering `ys`, and what is
      left of `ys` without it. */
  lemma {:induction false} MatchLast<T>(xs: seq<T>, ys: seq<T>) returns (j: nat)
    requires xs != [] && multiset(xs) == multiset(ys)
    ensures j < |ys| && ys[j] == xs[|xs| - 1]
    ensures ys == ys[..j] + [ys[j]] + ys[j + 1..]
    ensures multiset(xs[..|xs| - 1]) == multiset(ys[..j] + ys[j + 1..])
  {
    var n := |xs| - 1;
    var x := xs[n];
    assert xs == xs[..n] + [x];
    assert x in multiset(ys);
    j :| 0 <= j < |ys| && ys[j] == x;
    var rest := ys[..j] + ys[j + 1..];
    assert ys == ys[..j] + [x] + ys[j + 1..];
    assert multiset(ys) == multiset(ys[..j]) + multiset{x} + multiset(ys[j + 1..]);
    assert multiset(rest) == multiset(ys[..j]) + multiset(ys[j + 1..]);
    assert multiset(rest) == multiset(ys) - multiset{x};
    assert multiset(xs[..n]) == multiset(xs) - multiset{x};
  }

  /** A sum does not depend on the order of the elements. */
  lemma {:induction false} SumByPermutation<T>(xs: seq<T>, ys: seq<T>, f: T -> int)
    requires multiset(xs) == multiset(ys)
    ensures SumBy(xs, f) == SumBy(ys, f)
  {
    if xs == [] {
      assert |ys| == |multiset(ys)| == 0;
      assert ys == [];
    } else {
      var n := |xs| - 1;
      var x := xs[n];
      var j := MatchLast(xs, ys);
      assert xs == xs[..n] + [x];
      SumByPermutation(xs[..n], ys[..j] + ys[j + 1..], f);
      SumByAppend(ys[..j] + [x], ys[j + 1..], f);
      SumByAppend(ys[..j], [x], f);
      SumByAppend(ys[..j], ys[j + 1..], f);
      assert SumBy([x], f) == f(x) by {
        assert [x][..0] == [];
      }
    }
  }

  /** Filtering commutes with reordering. */
  lemma {:induction false} FilterPermutation<T>(xs: seq<T>, ys: seq<T>, p: T -> bool)
    requires multiset(xs) == multiset(ys)
    ensures multiset(Filter(xs, p)) == multiset(Filter(ys, p))
  {
    if xs == [] {
      assert |ys| == |multiset(ys)| == 0;
    } else {
      var n := |xs| - 1;
      var x := xs[n];
      var j := MatchLast(xs, ys);
      FilterPermutation(xs[..n], ys[..j] + ys[j + 1..], p);
      FilterAppend(ys[..j] + [x], ys[j + 1..], p);
      FilterAppend(ys[..j], [x], p);
      FilterAppend(ys[..j], ys[j + 1..], p);
      assert Filter([x], p) == if p(x) then [x] else [] by {
        assert [x][..0] == [];
      }
    }
  }
}
