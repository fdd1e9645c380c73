/** Counting helpers used for allocation vectors, occupancy histograms, masks
 *  and toggles: how many entries hold a value, sums, and nonzero counts.
 *  All recursions peel off the last element, so that a loop that walks a
 *  sequence from left to right keeps `Count(s[..i], k)` as its invariant. */
module Counting {

  /** Number of positions of `s` that hold `k`. */
  function Count(s: seq<int>, k: int): (r: nat)
    ensures r <= |s|
  {
    if s == [] then 0 else Count(s[..|s| - 1], k) + (if s[|s| - 1] == k then 1 else 0)
  }

  function Sum(s: seq<int>): int
  {
    if s == [] then 0 else Sum(s[..|s| - 1]) + s[|s| - 1]
  }

  function SumReal(s: seq<real>): real
  {
    if s == [] then 0.0 else SumReal(s[..|s| - 1]) + s[|s| - 1]
  }

  /** Number of nonzero entries (the number of occupied components of an
   *  occupancy vector). */
  function NonZero(s: seq<int>): (r: nat)
    ensures r <= |s|
  {
    if s == [] then 0 else NonZero(s[..|s| - 1]) + (if s[|s| - 1] != 0 then 1 else 0)
  }

  /** Every entry of an allocation vector names one of `K` components. */
  predicate InRange(s: seq<int>, K: int)
  {
    forall i :: 0 <= i < |s| ==> 0 <= s[i] < K
  }

  /** Every entry is 0 or 1 (masks and toggles). */
  predicate Bits(s: seq<int>)
  {
    forall i :: 0 <= i < |s| ==> s[i] == 0 || s[i] == 1
  }

  predicate NonNegative(s: seq<int>)
  {
    forall i :: 0 <= i < |s| ==> s[i] >= 0
  }

  /** The occupancy vector of an allocation: entry k is the number of items
   *  allocated to component k. */
  function Histogram(s: seq<int>, K: nat): (h: seq<int>)
    ensures |h| == K
    ensures forall k :: 0 <= k < K ==> h[k] == Count(s, k)
  {
    seq(K, k => Count(s, k))
  }

  lemma {:induction false} CountAppend(s: seq<int>, x: int, k: int)
    ensures Count(s + [x], k) == Count(s, k) + (if x == k then 1 else 0)
  {
    assert (s + [x])[..|s + [x]| - 1] == s;
  }

  lemma {:induction false} SumAppend(s: seq<int>, x: int)
    ensures Sum(s + [x]) == Sum(s) + x
  {
    assert (s + [x])[..|s + [x]| - 1] == s;
  }

  lemma {:induction false} SumRealAppend(s: seq<real>, x: real)
    ensures SumReal(s + [x]) == SumReal(s) + x
  {
    assert (s + [x])[..|s + [x]| - 1] == s;
  }

  lemma {:induction false} NonZeroAppend(s: seq<int>, x: int)
    ensures NonZero(s + [x]) == NonZero(s) + (if x != 0 then 1 else 0)
  {
    assert (s + [x])[..|s + [x]| - 1] == s;
  }

  /** Replacing one entry changes the sum by the difference. */
  lemma {:induction false} SumUpdate(s: seq<int>, k: nat, v: int)
    requires k < |s|
    ensures Sum(s[k := v]) == Sum(s) - s[k] + v
    decreases |s|
  {
    var n := |s| - 1;
    assert s[k := v][..n] == if k == n then s[..n] else s[..n][k := v];
    if k < n {
      SumUpdate(s[..n], k, v);
    }
  }

  /** Replacing one entry changes the nonzero count only at that entry. */
  lemma {:induction false} NonZeroUpdate(s: seq<int>, k: nat, v: int)
    requires k < |s|
    ensures NonZero(s[k := v]) == NonZero(s) - (if s[k] != 0 then 1 else 0) + (if v != 0 then 1 else 0)
    decreases |s|
  {
    var n := |s| - 1;
    assert s[k := v][..n] == if k == n then s[..n] else s[..n][k := v];
    if k < n {
      NonZeroUpdate(s[..n], k, v);
    }
  }

  /** A vector of bits sums to a value between 0 and its length. */
  lemma {:induction false} BitsSumBounds(s: seq<int>)
    requires Bits(s)
    ensures 0 <= Sum(s) <= |s|
    decreases |s|
  {
    if s != [] {
      BitsSumBounds(s[..|s| - 1]);
    }
  }

  /** A nonnegative vector with a positive sum has a nonzero entry, and one
   *  with a zero sum has none. */
  lemma {:induction false} NonZeroOfSum(s: seq<int>)
    requires NonNegative(s)
    ensures Sum(s) >= 0
    ensures (NonZero(s) == 0) == (Sum(s) == 0)
    decreases |s|
  {
    if s != [] {
      NonZeroOfSum(s[..|s| - 1]);
    }
  }

  /** Adding one item to component `x` adds one to entry `x` of the
   *  occupancy vector and leaves the others alone. */
  lemma HistogramAppend(s: seq<int>, x: int, K: nat)
    requires 0 <= x < K
    ensures Histogram(s + [x], K) == Histogram(s, K)[x := Histogram(s, K)[x] + 1]
  {
    forall k | 0 <= k < K
      ensures Histogram(s + [x], K)[k] == Histogram(s, K)[x := Histogram(s, K)[x] + 1][k]
    {
      CountAppend(s, x, k);
    }
  }

  /** The occupancy vector of a valid allocation accounts for every item. */
  lemma {:induction false} HistogramSum(s: seq<int>, K: nat)
    requires InRange(s, K)
    ensures Sum(Histogram(s, K)) == |s|
    decreases |s|
  {
    if s == [] {
      HistogramOfEmpty(K);
    } else {
      var n := |s| - 1;
      assert s == s[..n] + [s[n]];
      HistogramSum(s[..n], K);
      HistogramAppend(s[..n], s[n], K);
      SumUpdate(Histogram(s[..n], K), s[n], Histogram(s[..n], K)[s[n]] + 1);
    }
  }

  lemma {:induction false} HistogramOfEmpty(K: nat)
    ensures Sum(Histogram([], K)) == 0
    decreases K
  {
    if K > 0 {
      HistogramOfEmpty(K - 1);
      assert Histogram([], K)[..K - 1] == Histogram([], K - 1);
    }
  }

  lemma HistogramNonNegative(s: seq<int>, K: nat)
    ensures NonNegative(Histogram(s, K))
  {
  }

  /** A nonempty valid allocation over `K` components occupies at least one
   *  and at most `K` of them. */
  lemma ClusterCountBounds(s: seq<int>, K: nat)
    requires InRange(s, K) && |s| >= 1
    ensures 1 <= NonZero(Histogram(s, K)) <= K
  {
    HistogramSum(s, K);
    HistogramNonNegative(s, K);
    NonZeroOfSum(Histogram(s, K));
  }

  /** Count over a prefix grows by at most one per element. */
  lemma CountPrefix(s: seq<int>, i: nat, k: int)
    requires i < |s|
    ensures Count(s[..i + 1], k) == Count(s[..i], k) + (if s[i] == k then 1 else 0)
  {
    assert s[..i + 1] == s[..i] + [s[i]];
    CountAppend(s[..i], s[i], k);
  }

  lemma SumPrefix(s: seq<int>, i: nat)
    requires i < |s|
    ensures Sum(s[..i + 1]) == Sum(s[..i]) + s[i]
  {
    assert s[..i + 1] == s[..i] + [s[i]];
    SumAppend(s[..i], s[i]);
  }

  lemma SumRealPrefix(s: seq<real>, i: nat)
    requires i < |s|
    ensures SumReal(s[..i + 1]) == SumReal(s[..i]) + s[i]
  {
    assert s[..i + 1] == s[..i] + [s[i]];
    SumRealAppend(s[..i], s[i]);
  }

  lemma NonZeroPrefix(s: seq<int>, i: nat)
    requires i < |s|
    ensures NonZero(s[..i + 1]) == NonZero(s[..i]) + (if s[i] != 0 then 1 else 0)
  {
    assert s[..i + 1] == s[..i] + [s[i]];
    NonZeroAppend(s[..i], s[i]);
  }

  /** One more group of `a` adds `a` to the product. */
  lemma MulSucc(a: nat, b: nat)
    ensures a * (b + 1) == a * b + a
  {
  }

  /** The C++ conversion of a double to int, which truncates toward zero. */
  function Trunc(x: real): (r: int)
    ensures x >= 0.0 ==> r >= 0 && r as real <= x < r as real + 1.0
    ensures x < 0.0 ==> r <= 0 && r as real - 1.0 < x <= r as real
  {
    if x >= 0.0 then x.Floor else -((-x).Floor)
  }

  lemma NonNegativeProduct(u: real, m: real)
    requires u >= 0.0 && m >= 0.0
    ensures u * m >= 0.0
  {
  }

  lemma ProductBelow(u: real, m: real)
    requires 0.0 <= u < 1.0 && m >= 0.0
    ensures u * m <= m
  {
  }

  lemma ProductStrictlyBelow(u: real, m: real)
    requires 0.0 <= u < 1.0 && m > 0.0
    ensures u * m < m
  {
  }

  /** An acceptance count over a positive number of attempts gives a rate
   *  in [0, 1]. */
  lemma RateBounds(nacc: nat, nrep: int)
    requires 0 < nrep && nacc <= nrep
    ensures 0.0 <= nacc as real / nrep as real <= 1.0
  {
  }

  /** Element-wise sum of two vectors of the same length. */
  function AddVectors(a: seq<int>, b: seq<int>): (r: seq<int>)
    requires |a| == |b|
    ensures |r| == |a|
    ensures forall k :: 0 <= k < |a| ==> r[k] == a[k] + b[k]
  {
    seq(|a|, k requires 0 <= k < |a| => a[k] + b[k])
  }

  /** The sum of an element-wise sum is the sum of the sums. */
  lemma {:induction false} SumAddVectors(a: seq<int>, b: seq<int>)
    requires |a| == |b|
    ensures Sum(AddVectors(a, b)) == Sum(a) + Sum(b)
    decreases |a|
  {
    if a != [] {
      var n := |a| - 1;
      assert AddVectors(a, b)[..n] == AddVectors(a[..n], b[..n]);
      SumAddVectors(a[..n], b[..n]);
    }
  }

  predicate PositiveReals(s: seq<real>)
  {
    forall i :: 0 <= i < |s| ==> s[i] > 0.0
  }

  predicate NonNegativeReals(s: seq<real>)
  {
    forall i :: 0 <= i < |s| ==> s[i] >= 0.0
  }

  /** A sum of nonnegative terms is nonnegative, and positive as soon as
   *  one term is. */
  lemma {:induction false} SumRealPositive(s: seq<real>, k: nat)
    requires NonNegativeReals(s) && k < |s| && s[k] > 0.0
    ensures SumReal(s) > 0.0
    decreases |s|
  {
    var n := |s| - 1;
    if k < n {
      SumRealPositive(s[..n], k);
    } else {
      SumRealNonNegative(s[..n]);
    }
  }

  lemma {:induction false} SumRealNonNegative(s: seq<real>)
    requires NonNegativeReals(s)
    ensures SumReal(s) >= 0.0
    decreases |s|
  {
    if s != [] {
      SumRealNonNegative(s[..|s| - 1]);
    }
  }

  /** Dividing every term by `t` divides the sum by `t`. */
  lemma {:induction false} SumRealDivide(s: seq<real>, t: real)
    requires t != 0.0
    ensures SumReal(seq(|s|, i requires 0 <= i < |s| => s[i] / t)) == SumReal(s) / t
    decreases |s|
  {
    var d := seq(|s|, i requires 0 <= i < |s| => s[i] / t);
    if s != [] {
      var n := |s| - 1;
      assert d[..n] == seq(n, i requires 0 <= i < n => s[..n][i] / t);
      SumRealDivide(s[..n], t);
      assert SumReal(d) == SumReal(s[..n]) / t + s[n] / t;
    }
  }
}
