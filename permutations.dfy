/** Permutations of component labels. Arrays indexed by component are
 *  permuted by gathering (`a'[k] == a[p[k]]`); allocation vectors are
 *  relabelled through the inverse permutation, so that every item still
 *  points at the same component value after both have been permuted. */
module Permutations {
  import opened Counting

  /** `p` is a bijection of `[0, |p|)` onto itself. */
  predicate IsPermutation(p: seq<int>)
  {
    && (forall i :: 0 <= i < |p| ==> 0 <= p[i] < |p|)
    && (forall i, j :: 0 <= i < j < |p| ==> p[i] != p[j])
    && (forall k :: 0 <= k < |p| ==> k in p)
  }

  function Identity(n: nat): (p: seq<int>)
    ensures |p| == n
    ensures forall i :: 0 <= i < n ==> p[i] == i
  {
    seq(n, i => i)
  }

  lemma IdentityIsPermutation(n: nat)
    ensures IsPermutation(Identity(n))
  {
    var p := Identity(n);
    forall k | 0 <= k < n ensures k in p {
      assert p[k] == k;
    }
  }

  /** Entries at `i` and `j` exchanged. */
  function Swap<T>(a: seq<T>, i: nat, j: nat): (r: seq<T>)
    requires i < |a| && j < |a|
    ensures |r| == |a| && r[i] == a[j] && r[j] == a[i]
    ensures forall k :: 0 <= k < |a| && k != i && k != j ==> r[k] == a[k]
  {
    a[i := a[j]][j := a[i]]
  }

  lemma SwapMultiset<T>(a: seq<T>, i: nat, j: nat)
    requires i < |a| && j < |a|
    ensures multiset(Swap(a, i, j)) == multiset(a)
  {
    if i != j {
      calc {
        multiset(Swap(a, i, j));
        multiset(a[i := a[j]]) - multiset{a[i := a[j]][j]} + multiset{a[i]};
        multiset(a) - multiset{a[i]} + multiset{a[j]} - multiset{a[j]} + multiset{a[i]};
      }
    }
  }

  /** Exchanging two entries of a permutation gives a permutation. */
  lemma SwapPreservesPermutation(p: seq<int>, i: nat, j: nat)
    requires IsPermutation(p) && i < |p| && j < |p|
    ensures IsPermutation(Swap(p, i, j))
  {
    var q := Swap(p, i, j);
    forall k | 0 <= k < |p| ensures k in q {
      assert k in p;
      var m :| 0 <= m < |p| && p[m] == k;
      if m == i {
        assert q[j] == k;
      } else if m == j {
        assert q[i] == k;
      } else {
        assert q[m] == k;
      }
    }
  }

  /** Gathering: component `k` of the result is component `p[k]` of `a`. */
  function Gather<T>(a: seq<T>, p: seq<int>): (r: seq<T>)
    requires forall k :: 0 <= k < |p| ==> 0 <= p[k] < |a|
    ensures |r| == |p|
    ensures forall k :: 0 <= k < |p| ==> r[k] == a[p[k]]
  {
    seq(|p|, k requires 0 <= k < |p| => a[p[k]])
  }

  /** A swap is the gather by a swapped identity. */
  lemma SwapIsGather<T>(a: seq<T>, i: nat, j: nat)
    requires i < |a| && j < |a|
    ensures Swap(a, i, j) == Gather(a, Swap(Identity(|a|), i, j))
  {
  }

  /** Gathering twice is gathering by the composed permutation. */
  lemma GatherCompose<T>(a: seq<T>, p: seq<int>, q: seq<int>)
    requires forall k :: 0 <= k < |p| ==> 0 <= p[k] < |a|
    requires forall k :: 0 <= k < |q| ==> 0 <= q[k] < |p|
    ensures Gather(Gather(a, p), q) == Gather(a, Gather(p, q))
  {
  }

  /** Swapping after a gather is gathering by the swapped permutation. */
  lemma SwapAfterGather<T>(a: seq<T>, p: seq<int>, i: nat, j: nat)
    requires forall k :: 0 <= k < |p| ==> 0 <= p[k] < |a|
    requires i < |p| && j < |p|
    ensures Swap(Gather(a, p), i, j) == Gather(a, Swap(p, i, j))
  {
  }

  /** Position of the first occurrence of `j` in `p`. */
  function IndexOf(p: seq<int>, j: int): (k: nat)
    requires j in p
    ensures k < |p| && p[k] == j
  {
    if p[0] == j then 0 else 1 + IndexOf(p[1..], j)
  }

  /** The inverse permutation: `Inverse(p)[p[k]] == k`. */
  function Inverse(p: seq<int>): (r: seq<int>)
    requires IsPermutation(p)
    ensures |r| == |p|
    ensures forall j :: 0 <= j < |p| ==> 0 <= r[j] < |p| && p[r[j]] == j
    ensures forall k :: 0 <= k < |p| ==> r[p[k]] == k
  {
    seq(|p|, j requires 0 <= j < |p| => IndexOf(p, j))
  }

  /** Relabelling an allocation vector after its components were gathered by
   *  `p`: an item on component `c` moves to the new position of `c`. */
  function Relabel(alloc: seq<int>, p: seq<int>): (r: seq<int>)
    requires IsPermutation(p) && InRange(alloc, |p|)
    ensures |r| == |alloc| && InRange(r, |p|)
  {
    var inv := Inverse(p);
    seq(|alloc|, i requires 0 <= i < |alloc| => inv[alloc[i]])
  }

  /** After gathering the component values and relabelling the allocation by
   *  the same permutation, every item still sees the value it saw before. */
  lemma RelabelLookup<T>(a: seq<T>, alloc: seq<int>, p: seq<int>, i: nat)
    requires IsPermutation(p) && |a| == |p| && InRange(alloc, |p|) && i < |alloc|
    ensures Gather(a, p)[Relabel(alloc, p)[i]] == a[alloc[i]]
  {
  }

  /** Relabelling an allocation gathers its occupancy vector by the same
   *  permutation. */
  lemma RelabelHistogram(alloc: seq<int>, p: seq<int>)
    requires IsPermutation(p) && InRange(alloc, |p|)
    ensures Histogram(Relabel(alloc, p), |p|) == Gather(Histogram(alloc, |p|), p)
  {
    forall k | 0 <= k < |p|
      ensures Count(Relabel(alloc, p), k) == Count(alloc, p[k])
    {
      RelabelCount(alloc, p, k);
    }
  }

  lemma {:induction false} RelabelCount(alloc: seq<int>, p: seq<int>, k: nat)
    requires IsPermutation(p) && InRange(alloc, |p|) && k < |p|
    ensures Count(Relabel(alloc, p), k) == Count(alloc, p[k])
    decreases |alloc|
  {
    if alloc != [] {
      var n := |alloc| - 1;
      assert Relabel(alloc, p)[..n] == Relabel(alloc[..n], p);
      RelabelCount(alloc[..n], p, k);
    }
  }

  /** A permutation that fixes its last position restricts to a
   *  permutation of the others. */
  lemma DropFixedLast(q: seq<int>)
    requires IsPermutation(q) && |q| > 0 && q[|q| - 1] == |q| - 1
    ensures IsPermutation(q[..|q| - 1])
  {
    var n := |q|;
    var q' := q[..n - 1];
    forall k | 0 <= k < n - 1 ensures 0 <= q'[k] < n - 1 {
      assert q[k] != q[n - 1];
    }
    forall k | 0 <= k < n - 1 ensures k in q' {
      assert k in q;
      var i :| 0 <= i < n && q[i] == k;
      assert q'[i] == k;
    }
  }

  lemma GatherFixedLast<T>(a: seq<T>, q: seq<int>)
    requires IsPermutation(q) && |a| == |q| && |q| > 0 && q[|q| - 1] == |q| - 1
    ensures IsPermutation(q[..|q| - 1])
    ensures Gather(a, q) == Gather(a[..|q| - 1], q[..|q| - 1]) + [a[|q| - 1]]
  {
    DropFixedLast(q);
  }

  /** Gathering by a permutation rearranges the entries and changes no
   *  multiplicity. */
  lemma {:induction false} GatherMultiset<T>(a: seq<T>, p: seq<int>)
    requires IsPermutation(p) && |a| == |p|
    ensures multiset(Gather(a, p)) == multiset(a)
    decreases |p|
  {
    var n := |p|;
    if n > 0 {
      assert n - 1 in p;
      var m := IndexOf(p, n - 1);
      var q := Swap(p, m, n - 1);
      SwapPreservesPermutation(p, m, n - 1);
      GatherFixedLast(a, q);
      var a', q' := a[..n - 1], q[..n - 1];
      GatherMultiset(a', q');
      var g := Gather(a, p);
      SwapAfterGather(a, p, m, n - 1);
      assert Swap(g, m, n - 1) == Gather(a, q);
      SwapMultiset(g, m, n - 1);
      assert multiset(g) == multiset(Gather(a', q')) + multiset{a[n - 1]};
      MultisetSnoc(a);
    }
  }

  lemma MultisetSnoc<T>(a: seq<T>)
    requires |a| > 0
    ensures multiset(a) == multiset(a[..|a| - 1]) + multiset{a[|a| - 1]}
  {
    assert a == a[..|a| - 1] + [a[|a| - 1]];
  }

  /** Permuted vectors keep their number of nonzero entries. */
  lemma GatherNonZero(a: seq<int>, p: seq<int>)
    requires IsPermutation(p) && |a| == |p|
    ensures NonZero(Gather(a, p)) == NonZero(a)
  {
    GatherMultiset(a, p);
    NonZeroByMultiset(a);
    NonZeroByMultiset(Gather(a, p));
  }

  /** The nonzero count depends only on the multiplicity of zero. */
  lemma {:induction false} NonZeroByMultiset(a: seq<int>)
    ensures NonZero(a) == |a| - multiset(a)[0]
    decreases |a|
  {
    if a != [] {
      var n := |a| - 1;
      assert a == a[..n] + [a[n]];
      NonZeroByMultiset(a[..n]);
    }
  }
}
