/** The multi-gene layer of the AAMutSelDSBDPOmega model: a base mixture of
 *  baseNcat Dirichlet components shared by all genes, the occupancy of its
 *  components aggregated over genes, the two label-switching moves on it
 *  and the permutation that records how its labels were exchanged. */
module MultiGeneMixture {
  import opened Wrappers
  import opened Counting
  import opened Permutations
  import opened Streams
  import opened AAMutSelStream

  /** A prefix read earlier, put in front of whatever the rest reads. */
  function Prefixed(p: seq<int>, r: Option<(seq<int>, seq<Token>)>): Option<(seq<int>, seq<Token>)>
  {
    match r
    case None => None
    case Some((v, s)) => Some((p + v, s))
  }

  lemma ReadIntsStep(n: nat, s: seq<Token>)
    requires n > 0
    ensures ReadInts(n, s) == if s != [] && s[0].Int? then Prefixed([s[0].i], ReadInts(n - 1, s[1..])) else None
  {
  }

  /** An integer array holding how base components were relabelled. */
  class Permutation {
    var values: seq<int>

    /** The underlying integer array is value-initialised: every entry
     *  starts at 0. */
    constructor (size: nat)
      ensures values == seq(size, k => 0)
    {
      values := seq(size, k => 0);
    }

    function GetSize(): nat
      reads this
    {
      |values|
    }

    function GetMPISize(): nat
      reads this
    {
      GetSize()
    }

    /** Entry i becomes i. */
    method Reset()
      modifies this
      ensures values == Identity(old(GetSize()))
      ensures IsPermutation(values)
    {
      for i := 0 to |values|
        invariant |values| == old(GetSize())
        invariant forall k :: 0 <= k < i ==> values[k] == k
      {
        values := values[i := i];
      }
      IdentityIsPermutation(|values|);
    }

    /** Writes the entries in index order, GetMPISize of them. */
    method MPIPut() returns (buf: seq<Token>)
      ensures buf == IntTokens(values)
      ensures |buf| == GetMPISize()
    {
      buf := [];
      for i := 0 to |values|
        invariant buf == IntTokens(values[..i])
      {
        buf := buf + [Int(values[i])];
      }
      assert values[..|values|] == values;
    }

    /** Reads GetSize entries in index order; a buffer that runs short
     *  leaves the entries read so far in place and reports failure. */
    method MPIGet(buf: seq<Token>) returns (ok: bool, rest: seq<Token>)
      modifies this
      ensures |values| == old(GetSize())
      ensures var r := ReadInts(old(GetSize()), buf);
        ok == r.Some? && (ok ==> values == r.value.0 && rest == r.value.1)
    {
      var n := |values|;
      rest := buf;
      PrefixedEmpty(ReadInts(n, buf));
      assert values[..0] == [];
      for i := 0 to n
        invariant |values| == n
        invariant ReadInts(n, buf) == Prefixed(values[..i], ReadInts(n - i, rest))
      {
        ReadIntsStep(n - i, rest);
        if !(rest != [] && rest[0].Int?) {
          return false, rest;
        }
        var x := rest[0].i;
        PrefixedAssoc(values[..i], [x], ReadInts(n - i - 1, rest[1..]));
        ghost var read := values[..i];
        values := values[i := x];
        assert values[..i + 1] == read + [x];
        rest := rest[1..];
      }
      assert values[..n] == values;
      ok := true;
    }

    /** Entries i and j exchanged. */
    method Swap(i: nat, j: nat)
      requires i < |values| && j < |values|
      modifies this
      ensures values == Permutations.Swap(old(values), i, j)
    {
      values := values[i := values[j]][j := values[i]];
    }
  }

  lemma PrefixedEmpty(r: Option<(seq<int>, seq<Token>)>)
    ensures Prefixed([], r) == r
  {
    if r.Some? {
      assert [] + r.value.0 == r.value.0;
    }
  }

  lemma PrefixedAssoc(a: seq<int>, b: seq<int>, r: Option<(seq<int>, seq<Token>)>)
    ensures Prefixed(a, Prefixed(b, r)) == Prefixed(a + b, r)
  {
    if r.Some? {
      assert a + (b + r.value.0) == (a + b) + r.value.0;
    }
  }

  /** A permutation gathered by a permutation is a permutation. */
  lemma GatherPermutation(p: seq<int>, q: seq<int>)
    requires IsPermutation(p) && IsPermutation(q) && |p| == |q|
    ensures IsPermutation(Gather(p, q))
  {
    var g := Gather(p, q);
    forall k | 0 <= k < |p| ensures k in g {
      assert k in p;
      var m :| 0 <= m < |p| && p[m] == k;
      assert m in q;
      var i :| 0 <= i < |q| && q[i] == m;
      assert g[i] == k;
    }
  }

  /** What label switching preserves when it gathers the occupancy vector
   *  and the recorded permutation by the same permutation `q`. */
  lemma LabelSwitchInvariants(occ: seq<int>, perm: seq<int>, q: seq<int>)
    requires IsPermutation(q) && |occ| == |q| && |perm| == |q|
    ensures multiset(Gather(occ, q)) == multiset(occ)
    ensures NonZero(Gather(occ, q)) == NonZero(occ)
    ensures IsPermutation(perm) ==> IsPermutation(Gather(perm, q))
  {
    GatherMultiset(occ, q);
    GatherNonZero(occ, q);
    if IsPermutation(perm) {
      GatherPermutation(perm, q);
    }
  }

  /** As allocated and never reset, the array of zeros is not a permutation
   *  once there are two components, and no relabelling changes it. */
  lemma UnresetPermutation(n: nat, q: seq<int>)
    requires n >= 2 && IsPermutation(q) && |q| == n
    ensures !IsPermutation(seq(n, k => 0))
    ensures Gather(seq(n, k => 0), q) == seq(n, k => 0)
  {
    var z := seq(n, k => 0);
    assert z[0] == z[1];
  }

  /** Number of attempts of a label-switching move, (int)(k0 * kappa). */
  function Repetitions(k0: int, kappa: real): int
  {
    Trunc(k0 as real * kappa)
  }

  /** The first index of the adjacent move: the truncation of
   *  `u * (K - 2)` for a uniform draw `u`. */
  function AdjacentIndex(u: real, K: int): int
  {
    Trunc(u * (K - 2) as real)
  }

  /** The two indices of the adjacent move are neighbours inside
   *  `[0, K)`; with three or more components the last one is never
   *  among them. */
  lemma AdjacentInRange(u: real, K: int)
    requires 0.0 <= u < 1.0 && K >= 2
    ensures var c := AdjacentIndex(u, K); 0 <= c && c + 1 < K
    ensures K >= 3 ==> AdjacentIndex(u, K) + 1 <= K - 2
  {
    var m := (K - 2) as real;
    assert 0.0 <= u * m by { NonNegativeProduct(u, m); }
    assert u * m <= m by { ProductBelow(u, m); }
    if K >= 3 {
      assert u * m < m by { ProductStrictlyBelow(u, m); }
    }
  }

  /** Fraction of accepted attempts (`total /= nrep`): undefined, 0/0, when
   *  no attempt is made, and 0 when `nrep` is negative. */
  function AcceptanceRate(nacc: nat, nrep: int): (r: Option<real>)
    requires nacc <= if nrep < 0 then 0 else nrep
    ensures r.None? <==> nrep == 0
    ensures r.Some? ==> 0.0 <= r.value <= 1.0
  {
    if nrep == 0 then None
    else if nrep < 0 then Some(0.0)
    else RateBounds(nacc, nrep); Some(nacc as real / nrep as real)
  }

  function Zeros(K: nat): (z: seq<int>)
    ensures |z| == K && NonNegative(z)
  {
    seq(K, k => 0)
  }

  lemma {:induction false} SumZeros(K: nat)
    ensures Sum(Zeros(K)) == 0
    decreases K
  {
    if K > 0 {
      assert Zeros(K)[..K - 1] == Zeros(K - 1);
      SumZeros(K - 1);
    }
  }

  /** Base occupancy summed over genes: gene `g` allocates its components
   *  to base components by `alloc[g]`. */
  function TotalOccupancy(alloc: seq<seq<int>>, K: nat): (r: seq<int>)
    ensures |r| == K
  {
    if alloc == [] then Zeros(K)
    else AddVectors(TotalOccupancy(alloc[..|alloc| - 1], K), Histogram(alloc[|alloc| - 1], K))
  }

  /** Total number of components over all genes. */
  function TotalLength(alloc: seq<seq<int>>): nat
  {
    if alloc == [] then 0 else TotalLength(alloc[..|alloc| - 1]) + |alloc[|alloc| - 1]|
  }

  /** The aggregated base occupancy counts every component of every gene
   *  exactly once. */
  lemma {:induction false} TotalOccupancySum(alloc: seq<seq<int>>, K: nat)
    requires forall g :: 0 <= g < |alloc| ==> InRange(alloc[g], K)
    ensures Sum(TotalOccupancy(alloc, K)) == TotalLength(alloc)
    decreases |alloc|
  {
    if alloc == [] {
      SumZeros(K);
    } else {
      var n := |alloc| - 1;
      TotalOccupancySum(alloc[..n], K);
      SumAddVectors(TotalOccupancy(alloc[..n], K), Histogram(alloc[n], K));
      HistogramSum(alloc[n], K);
    }
  }

  /** Entry k of the aggregated base occupancy is never negative and is
   *  at least the count of any single gene. */
  lemma {:induction false} TotalOccupancyCovers(alloc: seq<seq<int>>, K: nat, g: nat, k: nat)
    requires g < |alloc| && k < K
    ensures TotalOccupancy(alloc, K)[k] >= Count(alloc[g], k)
    ensures NonNegative(TotalOccupancy(alloc, K))
    decreases |alloc|
  {
    var n := |alloc| - 1;
    TotalOccupancyNonNegative(alloc[..n], K);
    if g < n {
      TotalOccupancyCovers(alloc[..n], K, g, k);
    }
    TotalOccupancyNonNegative(alloc, K);
  }

  lemma {:induction false} TotalOccupancyNonNegative(alloc: seq<seq<int>>, K: nat)
    ensures NonNegative(TotalOccupancy(alloc, K))
    decreases |alloc|
  {
    if alloc != [] {
      TotalOccupancyNonNegative(alloc[..|alloc| - 1], K);
    }
  }

  /** Element-wise sum of two matrices of the same shape. */
  function AddRows(a: seq<seq<real>>, b: seq<seq<real>>): (r: seq<seq<real>>)
    requires |a| == |b| && forall k :: 0 <= k < |a| ==> |a[k]| == |b[k]|
    ensures |r| == |a|
    ensures forall k :: 0 <= k < |a| ==>
      (|r[k]| == |a[k]| && forall l :: 0 <= l < |a[k]| ==> r[k][l] == a[k][l] + b[k][l])
  {
    seq(|a|, k requires 0 <= k < |a| => seq(|a[k]|, l requires 0 <= l < |a[k]| => a[k][l] + b[k][l]))
  }

  function ZeroRows(K: nat, n: nat): (r: seq<seq<real>>)
    ensures |r| == K && Rectangular(r, n)
  {
    seq(K, k => seq(n, l => 0.0))
  }

  /** Base sufficient statistics summed over genes. */
  function TotalSuffStat(ss: seq<seq<seq<real>>>, K: nat): (r: seq<seq<real>>)
    requires forall g :: 0 <= g < |ss| ==> |ss[g]| == K && Rectangular(ss[g], Naa)
    ensures |r| == K && Rectangular(r, Naa)
  {
    if ss == [] then ZeroRows(K, Naa)
    else
      var last := ss[|ss| - 1];
      assert |last| == K && Rectangular(last, Naa);
      AddRows(TotalSuffStat(ss[..|ss| - 1], K), last)
  }

  /** Random::DrawFromUrn(indices, 2, n): two distinct positions of an urn
   *  of size n, for each attempt `rep`. */
  ghost predicate UrnDraws(urn: (int, int) -> (int, int))
  {
    forall rep, n :: n >= 2 ==>
      0 <= urn(rep, n).0 < n && 0 <= urn(rep, n).1 < n && urn(rep, n).0 != urn(rep, n).1
  }

  ghost predicate UnitDraws(u: int -> real)
  {
    forall i :: 0.0 <= u(i) < 1.0
  }

  /** The Gibbs resampling of the stick-breaking weights from the base
   *  occupancy returns the beta variates V and the weights, one per base
   *  component. */
  ghost predicate ResampleShape(resample: seq<int> -> (seq<real>, seq<real>), K: nat)
  {
    forall occ :: |resample(occ).0| == K && |resample(occ).1| == K
  }

  /** Components that were empty at the start of a move have not been
   *  relabelled. */
  ghost predicate Unmoved(q: seq<int>, occ0: seq<int>)
  {
    |q| == |occ0| && forall k :: 0 <= k < |occ0| && occ0[k] == 0 ==> q[k] == k
  }

  lemma IdentityUnmoved(occ0: seq<int>)
    ensures Unmoved(Identity(|occ0|), occ0)
  {
  }

  /** Exchanging two components that are occupied now keeps every
   *  initially empty component in place. */
  lemma SwapKeepsUnmoved(q: seq<int>, occ0: seq<int>, c1: nat, c2: nat)
    requires Unmoved(q, occ0) && IsPermutation(q) && c1 < |q| && c2 < |q|
    requires Gather(occ0, q)[c1] != 0 && Gather(occ0, q)[c2] != 0
    ensures Unmoved(Swap(q, c1, c2), occ0)
  {
    var q' := Swap(q, c1, c2);
    forall k | 0 <= k < |occ0| && occ0[k] == 0 ensures q'[k] == k {
      assert k != c1 && k != c2;
    }
  }

  lemma GatherIdentity<T>(a: seq<T>)
    ensures Gather(a, Identity(|a|)) == a
  {
  }

  /** A positive count somewhere gives at least one occupied component. */
  lemma {:induction false} NonZeroPositive(s: seq<int>, k: nat)
    requires k < |s| && s[k] != 0
    ensures NonZero(s) >= 1
    decreases |s|
  {
    var n := |s| - 1;
    if k < n {
      NonZeroPositive(s[..n], k);
    }
  }

  lemma {:induction false} CountOfMember(s: seq<int>, i: nat)
    requires i < |s|
    ensures Count(s, s[i]) >= 1
    decreases |s|
  {
    var n := |s| - 1;
    if i < n {
      CountOfMember(s[..n], i);
    }
  }

  /** As soon as one gene has a component, the aggregated base occupancy
   *  has an occupied base component. */
  lemma BaseNclusterPositive(alloc: seq<seq<int>>, K: nat, g: nat)
    requires g < |alloc| && |alloc[g]| >= 1 && InRange(alloc[g], K)
    ensures 1 <= NonZero(TotalOccupancy(alloc, K)) <= K
  {
    var k := alloc[g][0];
    CountOfMember(alloc[g], 0);
    TotalOccupancyCovers(alloc, K, g, k);
    NonZeroPositive(TotalOccupancy(alloc, K), k);
  }

  /** Draws of one call of BaseLabelSwitchingMove: the two weight
   *  resamplings, the urn and uniform draws, and the two Metropolis
   *  outcomes. A Metropolis outcome sees the attempt number, the two
   *  occupancies and the two weights (or beta variates) its log ratio is
   *  computed from. */
  datatype BaseSwitchDraws = BaseSwitchDraws(
    resample1: seq<int> -> (seq<real>, seq<real>),
    urn: (int, int) -> (int, int),
    accept1: (int, int, int, real, real) -> bool,
    resample2: seq<int> -> (seq<real>, seq<real>),
    uniform: int -> real,
    accept2: (int, int, int, real, real) -> bool)

  ghost predicate DrawsOk(d: BaseSwitchDraws, K: nat)
  {
    ResampleShape(d.resample1, K) && UrnDraws(d.urn) && ResampleShape(d.resample2, K) && UnitDraws(d.uniform)
  }

  class MultiGeneAAMutSelDSBDPOmegaModel {
    const Ncat: int
    const baseNcat: nat

    var basekappa: real
    /** Stick-breaking weights of the base components and their beta
     *  variates V. */
    var baseweight: seq<real>
    var baseV: seq<real>
    var basecenter: seq<seq<real>>
    var baseconc: seq<real>
    var basesuffstat: seq<seq<real>>
    /** Number of components, over all genes, allocated to each base
     *  component. */
    var baseoccupancy: seq<int>
    /** How the base labels have been exchanged so far. */
    var permutocc: Permutation

    ghost predicate BaseShape()
      reads this, permutocc
    {
      && |baseweight| == baseNcat && |baseV| == baseNcat
      && |basecenter| == baseNcat && |baseconc| == baseNcat
      && |basesuffstat| == baseNcat && |baseoccupancy| == baseNcat
      && |permutocc.values| == baseNcat
    }

    /** The arrays a label switch moves are those of the start of the
     *  move, gathered by `q`. */
    ghost predicate PermutedBy(q: seq<int>, occ0: seq<int>, center0: seq<seq<real>>, conc0: seq<real>,
                               ss0: seq<seq<real>>, perm0: seq<int>)
      reads this, permutocc
    {
      && IsPermutation(q) && |q| == baseNcat
      && |occ0| == baseNcat && |center0| == baseNcat && |conc0| == baseNcat
      && |ss0| == baseNcat && |perm0| == baseNcat
      && baseoccupancy == Gather(occ0, q) && basecenter == Gather(center0, q)
      && baseconc == Gather(conc0, q) && basesuffstat == Gather(ss0, q)
      && permutocc.values == Gather(perm0, q)
    }

    /** Construction and allocation of the base mixture: `w0` and `v0` are
     *  the stick-breaking weights and variates drawn at allocation. The
     *  recorded permutation is reset to the identity. */
    constructor (Ncat: int, baseNcat: nat, w0: seq<real>, v0: seq<real>)
      requires |w0| == baseNcat && |v0| == baseNcat
      ensures this.Ncat == Ncat && this.baseNcat == baseNcat
      ensures BaseShape() && fresh(permutocc)
      ensures basekappa == 1.0 && baseweight == w0 && baseV == v0
      ensures forall k :: 0 <= k < baseNcat ==>
        basecenter[k] == seq(Naa, l => 1.0 / Naa as real) && baseconc[k] == 20.0
      ensures baseoccupancy == Zeros(baseNcat) && basesuffstat == ZeroRows(baseNcat, Naa)
      ensures permutocc.values == Identity(baseNcat) && IsPermutation(permutocc.values)
    {
      this.Ncat := Ncat;
      this.baseNcat := baseNcat;
      basekappa := 1.0;
      baseweight, baseV := w0, v0;
      basecenter := seq(baseNcat, k => seq(Naa, l => 1.0 / Naa as real));
      baseconc := seq(baseNcat, k => 20.0);
      basesuffstat := ZeroRows(baseNcat, Naa);
      baseoccupancy := Zeros(baseNcat);
      var p := new Permutation(baseNcat);
      p.Reset();
      permutocc := p;
    }

    /** Construction as the source has it: permutocc is only allocated,
     *  so every entry is 0, which is not a permutation once baseNcat is
     *  above 1. */
    constructor AsWritten(Ncat: int, baseNcat: nat, w0: seq<real>, v0: seq<real>)
      requires |w0| == baseNcat && |v0| == baseNcat
      ensures this.Ncat == Ncat && this.baseNcat == baseNcat
      ensures BaseShape() && fresh(permutocc)
      ensures basekappa == 1.0 && baseweight == w0 && baseV == v0
      ensures forall k :: 0 <= k < baseNcat ==>
        basecenter[k] == seq(Naa, l => 1.0 / Naa as real) && baseconc[k] == 20.0
      ensures baseoccupancy == Zeros(baseNcat) && basesuffstat == ZeroRows(baseNcat, Naa)
      ensures permutocc.values == seq(baseNcat, k => 0)
      ensures baseNcat >= 2 ==> !IsPermutation(permutocc.values)
    {
      this.Ncat := Ncat;
      this.baseNcat := baseNcat;
      basekappa := 1.0;
      baseweight, baseV := w0, v0;
      basecenter := seq(baseNcat, k => seq(Naa, l => 1.0 / Naa as real));
      baseconc := seq(baseNcat, k => 20.0);
      basesuffstat := ZeroRows(baseNcat, Naa);
      baseoccupancy := Zeros(baseNcat);
      var p := new Permutation(baseNcat);
      if baseNcat >= 2 {
        assert p.values[0] == p.values[1];
      }
      permutocc := p;
    }

    /** Number of base components with nonzero occupancy. */
    method GetBaseNcluster() returns (n: nat)
      requires |baseoccupancy| == baseNcat
      ensures n == NonZero(baseoccupancy)
    {
      n := 0;
      for i := 0 to baseNcat
        invariant n == NonZero(baseoccupancy[..i])
      {
        NonZeroPrefix(baseoccupancy, i);
        if baseoccupancy[i] != 0 {
          n := n + 1;
        }
      }
      assert baseoccupancy[..baseNcat] == baseoccupancy;
    }

    /** The occupied base components in increasing order. */
    method OccupiedIndices() returns (idx: seq<int>)
      requires |baseoccupancy| == baseNcat
      ensures |idx| == NonZero(baseoccupancy)
      ensures forall t :: 0 <= t < |idx| ==> 0 <= idx[t] < baseNcat && baseoccupancy[idx[t]] != 0
      ensures forall t, u :: 0 <= t < u < |idx| ==> idx[t] < idx[u]
      ensures forall k :: 0 <= k < baseNcat && baseoccupancy[k] != 0 ==> k in idx
    {
      idx := [];
      for k := 0 to baseNcat
        invariant |idx| == NonZero(baseoccupancy[..k])
        invariant forall t :: 0 <= t < |idx| ==> 0 <= idx[t] < k && baseoccupancy[idx[t]] != 0
        invariant forall t, u :: 0 <= t < u < |idx| ==> idx[t] < idx[u]
        invariant forall c :: 0 <= c < k && baseoccupancy[c] != 0 ==> c in idx
      {
        NonZeroPrefix(baseoccupancy, k);
        if baseoccupancy[k] != 0 {
          idx := idx + [k];
        }
      }
      assert baseoccupancy[..baseNcat] == baseoccupancy;
    }

    /** Gibbs resampling of the stick-breaking weights given the base
     *  occupancy. */
    method ResampleBaseWeights(resample: seq<int> -> (seq<real>, seq<real>))
      requires ResampleShape(resample, baseNcat)
      modifies this`baseV, this`baseweight
      ensures baseV == resample(baseoccupancy).0 && baseweight == resample(baseoccupancy).1
    {
      baseV, baseweight := resample(baseoccupancy).0, resample(baseoccupancy).1;
    }

    /** Exchanges base components `c1` and `c2` in the centers,
     *  concentrations, occupancy, sufficient statistics and the recorded
     *  permutation. */
    method SwapBase(c1: nat, c2: nat)
      requires BaseShape() && c1 < baseNcat && c2 < baseNcat
      modifies this`basecenter, this`baseconc, this`baseoccupancy, this`basesuffstat, permutocc
      ensures BaseShape()
      ensures basecenter == Swap(old(basecenter), c1, c2) && baseconc == Swap(old(baseconc), c1, c2)
      ensures baseoccupancy == Swap(old(baseoccupancy), c1, c2)
      ensures basesuffstat == Swap(old(basesuffstat), c1, c2)
      ensures permutocc.values == Swap(old(permutocc.values), c1, c2)
    {
      basecenter := Swap(basecenter, c1, c2);
      baseconc := Swap(baseconc, c1, c2);
      baseoccupancy := Swap(baseoccupancy, c1, c2);
      basesuffstat := Swap(basesuffstat, c1, c2);
      permutocc.Swap(c1, c2);
    }

    /** StickBreakingProcess::SwapComponents: the weights and the beta
     *  variates of `c1` and `c2` are exchanged. */
    method SwapWeights(c1: nat, c2: nat)
      requires |baseweight| == baseNcat && |baseV| == baseNcat && c1 < baseNcat && c2 < baseNcat
      modifies this`baseweight, this`baseV
      ensures baseweight == Swap(old(baseweight), c1, c2) && baseV == Swap(old(baseV), c1, c2)
    {
      baseweight := Swap(baseweight, c1, c2);
      baseV := Swap(baseV, c1, c2);
    }

    /** One attempt of the occupied-components move: two distinct occupied
     *  components are drawn from the urn and exchanged if accepted. */
    method OccupiedAttempt(rep: int, nocc: nat, urn: (int, int) -> (int, int),
                           accept: (int, int, int, real, real) -> bool,
                           ghost q: seq<int>, ghost occ0: seq<int>, ghost center0: seq<seq<real>>,
                           ghost conc0: seq<real>, ghost ss0: seq<seq<real>>, ghost perm0: seq<int>)
      returns (accepted: bool, ghost q': seq<int>)
      requires BaseShape() && PermutedBy(q, occ0, center0, conc0, ss0, perm0) && Unmoved(q, occ0)
      requires nocc == NonZero(baseoccupancy) && nocc >= 2 && UrnDraws(urn)
      modifies this`basecenter, this`baseconc, this`baseoccupancy, this`basesuffstat, permutocc
      ensures BaseShape() && PermutedBy(q', occ0, center0, conc0, ss0, perm0) && Unmoved(q', occ0)
      ensures nocc == NonZero(baseoccupancy)
    {
      var idx := OccupiedIndices();
      var draw := urn(rep, nocc);
      var c1, c2 := idx[draw.0], idx[draw.1];
      accepted := accept(rep, baseoccupancy[c1], baseoccupancy[c2], baseweight[c1], baseweight[c2]);
      q' := q;
      if accepted {
        SwapKeepsUnmoved(q, occ0, c1, c2);
        SwapBase(c1, c2);
        SwapStep(q, occ0, center0, conc0, ss0, perm0, c1, c2,
                 baseoccupancy, basecenter, baseconc, basesuffstat, permutocc.values);
        q' := Swap(q, c1, c2);
        GatherNonZero(occ0, q);
        GatherNonZero(occ0, q');
      }
    }

    /** The `nrep` attempts of the occupied-components move. */
    method OccupiedLoop(nrep: int, nocc: nat, urn: (int, int) -> (int, int),
                        accept: (int, int, int, real, real) -> bool,
                        ghost q: seq<int>, ghost occ0: seq<int>, ghost center0: seq<seq<real>>,
                        ghost conc0: seq<real>, ghost ss0: seq<seq<real>>, ghost perm0: seq<int>)
      returns (nacc: nat, ghost q': seq<int>)
      requires BaseShape() && PermutedBy(q, occ0, center0, conc0, ss0, perm0) && Unmoved(q, occ0)
      requires nocc == NonZero(baseoccupancy) && nocc >= 2 && UrnDraws(urn)
      modifies this`basecenter, this`baseconc, this`baseoccupancy, this`basesuffstat, permutocc
      ensures BaseShape() && PermutedBy(q', occ0, center0, conc0, ss0, perm0) && Unmoved(q', occ0)
      ensures nacc <= if nrep < 0 then 0 else nrep
    {
      nacc, q' := 0, q;
      var i := 0;
      while i < nrep
        invariant BaseShape() && PermutedBy(q', occ0, center0, conc0, ss0, perm0) && Unmoved(q', occ0)
        invariant nocc == NonZero(baseoccupancy) && nacc <= i && (nrep < 0 ==> i == 0) && (nrep >= 0 ==> i <= nrep)
      {
        var accepted;
        accepted, q' := OccupiedAttempt(i, nocc, urn, accept, q', occ0, center0, conc0, ss0, perm0);
        if accepted {
          nacc := nacc + 1;
        }
        i := i + 1;
      }
    }

    /** Before any exchange the arrays are gathered by the identity. */
    lemma IdentityStart()
      requires BaseShape()
      ensures PermutedBy(Identity(baseNcat), baseoccupancy, basecenter, baseconc, basesuffstat, permutocc.values)
      ensures Unmoved(Identity(baseNcat), baseoccupancy)
      ensures baseV == Gather(baseV, Identity(baseNcat)) && baseweight == Gather(baseweight, Identity(baseNcat))
    {
      IdentityIsPermutation(baseNcat);
      IdentityUnmoved(baseoccupancy);
      GatherIdentity(baseoccupancy);
      GatherIdentity(basecenter);
      GatherIdentity(baseconc);
      GatherIdentity(basesuffstat);
      GatherIdentity(permutocc.values);
      GatherIdentity(baseV);
      GatherIdentity(baseweight);
    }

    /** Metropolis move exchanging the labels of occupied base components,
     *  `nrep` = (int)(k0 * basekappa) times, after a Gibbs resampling of
     *  the weights. The arrays end up gathered by a permutation that never
     *  moves an initially empty component. With a single occupied
     *  component nothing is attempted and the rate is 0; otherwise the rate
     *  is the fraction of accepted attempts, undefined (0/0) when `nrep` is
     *  0. An empty urn (no occupied component) is not a case the source
     *  handles. */
    method MoveBaseOccupiedCompAlloc(k0: int, resample: seq<int> -> (seq<real>, seq<real>),
                                     urn: (int, int) -> (int, int),
                                     accept: (int, int, int, real, real) -> bool)
      returns (rate: Option<real>, ghost q: seq<int>)
      requires BaseShape() && ResampleShape(resample, baseNcat) && UrnDraws(urn)
      requires NonZero(baseoccupancy) != 0
      modifies this`basecenter, this`baseconc, this`baseoccupancy, this`basesuffstat,
               this`baseV, this`baseweight, permutocc
      ensures BaseShape()
      ensures baseV == resample(old(baseoccupancy)).0 && baseweight == resample(old(baseoccupancy)).1
      ensures PermutedBy(q, old(baseoccupancy), old(basecenter), old(baseconc), old(basesuffstat),
                         old(permutocc.values))
      ensures Unmoved(q, old(baseoccupancy))
      ensures NonZero(old(baseoccupancy)) == 1 ==> q == Identity(baseNcat) && rate == Some(0.0)
      ensures NonZero(old(baseoccupancy)) != 1 ==> (rate.None? <==> Repetitions(k0, old(basekappa)) == 0)
      ensures rate.Some? ==> 0.0 <= rate.value <= 1.0
    {
      ghost var occ0, center0, conc0, ss0, perm0 := baseoccupancy, basecenter, baseconc, basesuffstat, permutocc.values;
      IdentityStart();
      var nrep := Repetitions(k0, basekappa);
      ResampleBaseWeights(resample);
      var nocc := GetBaseNcluster();
      q := Identity(baseNcat);
      if nocc == 1 {
        return Some(0.0), q;
      }
      var nacc;
      nacc, q := OccupiedLoop(nrep, nocc, urn, accept, q, occ0, center0, conc0, ss0, perm0);
      rate := AcceptanceRate(nacc, nrep);
    }

    /** One attempt of the adjacent-components move: a uniform draw picks
     *  `c1` and its successor, which are exchanged, weights included, if
     *  accepted. */
    method AdjacentAttempt(rep: int, u: int -> real, accept: (int, int, int, real, real) -> bool,
                           ghost q: seq<int>, ghost occ0: seq<int>, ghost center0: seq<seq<real>>,
                           ghost conc0: seq<real>, ghost ss0: seq<seq<real>>, ghost perm0: seq<int>,
                           ghost v0: seq<real>, ghost w0: seq<real>)
      returns (accepted: bool, ghost q': seq<int>)
      requires BaseShape() && PermutedBy(q, occ0, center0, conc0, ss0, perm0) && baseNcat >= 2 && UnitDraws(u)
      requires |v0| == baseNcat && |w0| == baseNcat && baseV == Gather(v0, q) && baseweight == Gather(w0, q)
      requires baseNcat >= 3 ==> q[baseNcat - 1] == baseNcat - 1
      modifies this`basecenter, this`baseconc, this`baseoccupancy, this`basesuffstat,
               this`baseV, this`baseweight, permutocc
      ensures BaseShape() && PermutedBy(q', occ0, center0, conc0, ss0, perm0)
      ensures baseV == Gather(v0, q') && baseweight == Gather(w0, q')
      ensures baseNcat >= 3 ==> q'[baseNcat - 1] == baseNcat - 1
    {
      AdjacentInRange(u(rep), baseNcat);
      var c1 := AdjacentIndex(u(rep), baseNcat);
      var c2 := c1 + 1;
      accepted := accept(rep, baseoccupancy[c1], baseoccupancy[c2], baseV[c1], baseV[c2]);
      q' := q;
      if accepted {
        SwapBase(c1, c2);
        SwapWeights(c1, c2);
        SwapStep(q, occ0, center0, conc0, ss0, perm0, c1, c2,
                 baseoccupancy, basecenter, baseconc, basesuffstat, permutocc.values);
        SwapAfterGather(v0, q, c1, c2);
        SwapAfterGather(w0, q, c1, c2);
        q' := Swap(q, c1, c2);
      }
    }

    /** The `nrep` attempts of the adjacent-components move. */
    method AdjacentLoop(nrep: int, u: int -> real, accept: (int, int, int, real, real) -> bool,
                        ghost q: seq<int>, ghost occ0: seq<int>, ghost center0: seq<seq<real>>,
                        ghost conc0: seq<real>, ghost ss0: seq<seq<real>>, ghost perm0: seq<int>,
                        ghost v0: seq<real>, ghost w0: seq<real>)
      returns (nacc: nat, ghost q': seq<int>)
      requires BaseShape() && PermutedBy(q, occ0, center0, conc0, ss0, perm0) && baseNcat >= 2 && UnitDraws(u)
      requires |v0| == baseNcat && |w0| == baseNcat && baseV == Gather(v0, q) && baseweight == Gather(w0, q)
      requires baseNcat >= 3 ==> q[baseNcat - 1] == baseNcat - 1
      modifies this`basecenter, this`baseconc, this`baseoccupancy, this`basesuffstat,
               this`baseV, this`baseweight, permutocc
      ensures BaseShape() && PermutedBy(q', occ0, center0, conc0, ss0, perm0)
      ensures baseV == Gather(v0, q') && baseweight == Gather(w0, q')
      ensures baseNcat >= 3 ==> q'[baseNcat - 1] == baseNcat - 1
      ensures nacc <= if nrep < 0 then 0 else nrep
    {
      nacc, q' := 0, q;
      var i := 0;
      while i < nrep
        invariant BaseShape() && PermutedBy(q', occ0, center0, conc0, ss0, perm0)
        invariant baseV == Gather(v0, q') && baseweight == Gather(w0, q')
        invariant baseNcat >= 3 ==> q'[baseNcat - 1] == baseNcat - 1
        invariant nacc <= i && (nrep < 0 ==> i == 0) && (nrep >= 0 ==> i <= nrep)
      {
        var accepted;
        accepted, q' := AdjacentAttempt(i, u, accept, q', occ0, center0, conc0, ss0, perm0, v0, w0);
        if accepted {
          nacc := nacc + 1;
        }
        i := i + 1;
      }
    }

    /** Metropolis move exchanging the labels of adjacent base components,
     *  weights and beta variates included, `nrep` times after a Gibbs
     *  resampling of the weights. Every array, weights included, ends up
     *  gathered by one permutation; with three components or more the last
     *  one is never drawn. */
    method MoveBaseAdjacentCompAlloc(k0: int, resample: seq<int> -> (seq<real>, seq<real>),
                                     u: int -> real, accept: (int, int, int, real, real) -> bool)
      returns (rate: Option<real>, ghost q: seq<int>)
      requires BaseShape() && baseNcat >= 2 && ResampleShape(resample, baseNcat) && UnitDraws(u)
      modifies this`basecenter, this`baseconc, this`baseoccupancy, this`basesuffstat,
               this`baseV, this`baseweight, permutocc
      ensures BaseShape()
      ensures PermutedBy(q, old(baseoccupancy), old(basecenter), old(baseconc), old(basesuffstat),
                         old(permutocc.values))
      ensures baseV == Gather(resample(old(baseoccupancy)).0, q)
      ensures baseweight == Gather(resample(old(baseoccupancy)).1, q)
      ensures baseNcat >= 3 ==> q[baseNcat - 1] == baseNcat - 1
      ensures rate.None? <==> Repetitions(k0, old(basekappa)) == 0
      ensures rate.Some? ==> 0.0 <= rate.value <= 1.0
    {
      ResampleBaseWeights(resample);
      var nrep := Repetitions(k0, basekappa);
      IdentityStart();
      q := Identity(baseNcat);
      var nacc;
      nacc, q := AdjacentLoop(nrep, u, accept, q, baseoccupancy, basecenter, baseconc, basesuffstat,
                              permutocc.values, baseV, baseweight);
      rate := AcceptanceRate(nacc, nrep);
    }

    /** The two label-switching moves in turn, with k0 = 5. Together they
     *  relabel the base components by one permutation q = q1 then q2: the
     *  occupancy keeps its multiset of counts and its number of occupied
     *  components, and the recorded permutation stays a permutation. The
     *  weights and beta variates are those the second move resamples from
     *  the occupancy the first one leaves, gathered by its permutation. */
    method BaseLabelSwitchingMove(d: BaseSwitchDraws) returns (ghost q: seq<int>, ghost q1: seq<int>, ghost q2: seq<int>)
      requires BaseShape() && baseNcat >= 2 && DrawsOk(d, baseNcat) && NonZero(baseoccupancy) != 0
      modifies this`basecenter, this`baseconc, this`baseoccupancy, this`basesuffstat,
               this`baseV, this`baseweight, permutocc
      ensures BaseShape()
      ensures IsPermutation(q1) && |q1| == baseNcat && IsPermutation(q2) && |q2| == baseNcat
      ensures q == Gather(q1, q2)
      ensures baseV == Gather(d.resample2(Gather(old(baseoccupancy), q1)).0, q2)
      ensures baseweight == Gather(d.resample2(Gather(old(baseoccupancy), q1)).1, q2)
      ensures PermutedBy(q, old(baseoccupancy), old(basecenter), old(baseconc), old(basesuffstat),
                         old(permutocc.values))
      ensures multiset(baseoccupancy) == multiset(old(baseoccupancy))
      ensures NonZero(baseoccupancy) == NonZero(old(baseoccupancy))
      ensures IsPermutation(old(permutocc.values)) ==> IsPermutation(permutocc.values)
    {
      ghost var occ0, center0, conc0, ss0, perm0 := baseoccupancy, basecenter, baseconc, basesuffstat, permutocc.values;
      var rate1;
      rate1, q1 := MoveBaseOccupiedCompAlloc(5, d.resample1, d.urn, d.accept1);
      ghost var occ1, center1, conc1, ss1, perm1 := baseoccupancy, basecenter, baseconc, basesuffstat, permutocc.values;
      var rate2;
      rate2, q2 := MoveBaseAdjacentCompAlloc(5, d.resample2, d.uniform, d.accept2);
      q := Gather(q1, q2);
      GatherPermutation(q1, q2);
      GatherCompose(occ0, q1, q2);
      GatherCompose(center0, q1, q2);
      GatherCompose(conc0, q1, q2);
      GatherCompose(ss0, q1, q2);
      GatherCompose(perm0, q1, q2);
      LabelSwitchInvariants(occ0, perm0, q);
    }

    /** Clears the base occupancy and sufficient statistics and adds those
     *  of every local gene: gene `g` allocates its components to base
     *  components by `geneAlloc[g]` and contributes the base statistics
     *  `geneSuff[g]`. */
    method SlaveSendBaseSuffStat(geneAlloc: seq<seq<int>>, geneSuff: seq<seq<seq<real>>>)
      requires |geneAlloc| == |geneSuff|
      requires forall g :: 0 <= g < |geneAlloc| ==> InRange(geneAlloc[g], baseNcat)
      requires forall g :: 0 <= g < |geneSuff| ==> |geneSuff[g]| == baseNcat && Rectangular(geneSuff[g], Naa)
      modifies this`baseoccupancy, this`basesuffstat
      ensures baseoccupancy == TotalOccupancy(geneAlloc, baseNcat)
      ensures basesuffstat == TotalSuffStat(geneSuff, baseNcat)
      ensures Sum(baseoccupancy) == TotalLength(geneAlloc)
    {
      baseoccupancy := Zeros(baseNcat);
      basesuffstat := ZeroRows(baseNcat, Naa);
      for g := 0 to |geneAlloc|
        invariant baseoccupancy == TotalOccupancy(geneAlloc[..g], baseNcat)
        invariant basesuffstat == TotalSuffStat(geneSuff[..g], baseNcat)
      {
        assert geneSuff[..g + 1][..g] == geneSuff[..g];
        assert geneAlloc[..g + 1][..g] == geneAlloc[..g];
        basesuffstat := AddRows(basesuffstat, geneSuff[g]);
        baseoccupancy := AddVectors(baseoccupancy, Histogram(geneAlloc[g], baseNcat));
      }
      assert geneAlloc[..|geneAlloc|] == geneAlloc;
      assert geneSuff[..|geneSuff|] == geneSuff;
      TotalOccupancySum(geneAlloc, baseNcat);
    }

    /** Composing an accepted swap with the relabelling so far. */
    lemma SwapStep(q: seq<int>, occ0: seq<int>, center0: seq<seq<real>>, conc0: seq<real>,
                   ss0: seq<seq<real>>, perm0: seq<int>, c1: nat, c2: nat,
                   occ1: seq<int>, center1: seq<seq<real>>, conc1: seq<real>, ss1: seq<seq<real>>, perm1: seq<int>)
      requires IsPermutation(q) && |q| == |occ0| == |center0| == |conc0| == |ss0| == |perm0| && c1 < |q| && c2 < |q|
      requires occ1 == Swap(Gather(occ0, q), c1, c2) && center1 == Swap(Gather(center0, q), c1, c2)
      requires conc1 == Swap(Gather(conc0, q), c1, c2) && ss1 == Swap(Gather(ss0, q), c1, c2)
      requires perm1 == Swap(Gather(perm0, q), c1, c2)
      ensures IsPermutation(Swap(q, c1, c2))
      ensures occ1 == Gather(occ0, Swap(q, c1, c2)) && center1 == Gather(center0, Swap(q, c1, c2))
      ensures conc1 == Gather(conc0, Swap(q, c1, c2)) && ss1 == Gather(ss0, Swap(q, c1, c2))
      ensures perm1 == Gather(perm0, Swap(q, c1, c2))
    {
      SwapPreservesPermutation(q, c1, c2);
      SwapAfterGather(occ0, q, c1, c2);
      SwapAfterGather(center0, q, c1, c2);
      SwapAfterGather(conc0, q, c1, c2);
      SwapAfterGather(ss0, q, c1, c2);
      SwapAfterGather(perm0, q, c1, c2);
    }
  }
}
