/** MultivariateBrownianTreeProcess: a vector of GetDim values at every
 *  node of a time tree, evolving along the branches as a multivariate
 *  Brownian motion, with a node-by-dimension clamp mask for the entries
 *  fixed to observed data. The tree is given by its parent vector, with
 *  the root at node 0 and every parent numbered before its children (the
 *  order in which the NHX parser creates nodes), so a walk from the root
 *  that visits parents before children is a pass over increasing node
 *  indices. The normal draws, sqrt, log and the covariance matrix
 *  algebra belong to collaborators outside this model. */
module BrownianTree {
  import opened Wrappers

  /** A rooted tree as a parent vector: node 0 is the root, and every other
   *  node's parent has a smaller index. */
  predicate TreeShape(parent: seq<int>)
  {
    |parent| >= 1 && parent[0] == -1 && forall i :: 1 <= i < |parent| ==> 0 <= parent[i] < i
  }

  /** A node is a leaf when it is no node's parent. */
  predicate IsLeaf(parent: seq<int>, i: int)
  {
    forall c :: 0 <= c < |parent| ==> parent[c] != i
  }

  predicate Matrix<T>(m: seq<seq<T>>, rows: nat, cols: nat)
  {
    |m| == rows && forall i :: 0 <= i < rows ==> |m[i]| == cols
  }

  /** The random inputs of one Sample: the multivariate normal contrast
   *  drawn for node i, coordinate j, and the square root. */
  datatype Draws = Draws(contrast: (int, int) -> real, sqrt: real -> real)

  /** The time interval above node i: its parent's time minus its own. */
  function Dt(parent: seq<int>, time: seq<real>, i: int): real
  {
    if 0 <= i < |parent| && i < |time| && 0 <= parent[i] < |time| then time[parent[i]] - time[i] else 0.0
  }

  /** Whether every branch above nodes 1 .. n-1 has a positive length. */
  predicate PositiveBranches(parent: seq<int>, time: seq<real>, n: nat)
  {
    forall i :: 1 <= i < n ==> Dt(parent, time, i) > 0.0
  }

  // ---------------------------------------------------------------------
  // Sampling
  // ---------------------------------------------------------------------

  /** LocalSample at the root: every unclamped coordinate becomes 0. */
  function RootRow(cur: seq<real>, cl: seq<bool>): (r: seq<real>)
    ensures |r| == |cur|
  {
    seq(|cur|, j requires 0 <= j < |cur| => if j < |cl| && cl[j] then cur[j] else 0.0)
  }

  /** LocalSample below the root: every unclamped coordinate becomes the
   *  parent's value plus the scaled contrast. */
  function SampledRow(up: seq<real>, cur: seq<real>, cl: seq<bool>, scaling: real, d: Draws, i: int): (r: seq<real>)
    ensures |r| == |cur|
  {
    seq(|cur|, j requires 0 <= j < |cur| =>
      if j < |cl| && cl[j] then cur[j] else (if j < |up| then up[j] else 0.0) + scaling * d.contrast(i, j))
  }

  /** One LocalSample, on values: the root is reset; a node under a branch
   *  of positive length is drawn around its parent; otherwise (the fatal
   *  case) nothing is written. */
  function SampleStep(v: seq<seq<real>>, cl: seq<seq<bool>>, parent: seq<int>, time: seq<real>, d: Draws, i: int): (r: seq<seq<real>>)
    ensures |r| == |v|
  {
    if !(0 <= i < |v| && i < |cl|) then v
    else if i == 0 then v[0 := RootRow(v[0], cl[0])]
    else if !(i < |parent| && 0 <= parent[i] < |v|) || Dt(parent, time, i) <= 0.0 then v
    else v[i := SampledRow(v[parent[i]], v[i], cl[i], d.sqrt(Dt(parent, time, i)), d, i)]
  }

  /** Sample: LocalSample on nodes 0 .. n-1 in order. */
  function SampleChain(v: seq<seq<real>>, cl: seq<seq<bool>>, parent: seq<int>, time: seq<real>, d: Draws, n: nat): (r: seq<seq<real>>)
    ensures |r| == |v|
  {
    if n == 0 then v else SampleStep(SampleChain(v, cl, parent, time, d, n - 1), cl, parent, time, d, n - 1)
  }

  /** Sampling keeps every row's length and never changes a clamped
   *  entry. */
  lemma {:induction false} SampleChainKeeps(v: seq<seq<real>>, cl: seq<seq<bool>>, parent: seq<int>, time: seq<real>, d: Draws, n: nat, dim: nat)
    requires Matrix(v, |v|, dim) && Matrix(cl, |v|, dim)
    ensures Matrix(SampleChain(v, cl, parent, time, d, n), |v|, dim)
    ensures forall i, j :: 0 <= i < |v| && 0 <= j < dim && cl[i][j] ==> SampleChain(v, cl, parent, time, d, n)[i][j] == v[i][j]
    decreases n
  {
    if n > 0 {
      SampleChainKeeps(v, cl, parent, time, d, n - 1, dim);
    }
  }

  /** Rows at or beyond n are not yet sampled. */
  lemma {:induction false} SampleChainLater(v: seq<seq<real>>, cl: seq<seq<bool>>, parent: seq<int>, time: seq<real>, d: Draws, n: nat)
    ensures forall i :: n <= i < |v| ==> SampleChain(v, cl, parent, time, d, n)[i] == v[i]
    decreases n
  {
    if n > 0 {
      SampleChainLater(v, cl, parent, time, d, n - 1);
    }
  }

  /** What a completed pass promises of node i: the root's unclamped
   *  coordinates are 0, and every unclamped coordinate of another node is
   *  its parent's final value plus sqrt(dt) times its contrast draw. */
  predicate NodeSampled(r: seq<seq<real>>, v: seq<seq<real>>, cl: seq<seq<bool>>, parent: seq<int>, time: seq<real>, d: Draws, i: int, dim: nat)
    requires TreeShape(parent) && 0 <= i < |parent| == |v| && Matrix(v, |v|, dim) && Matrix(cl, |v|, dim) && Matrix(r, |v|, dim)
  {
    if i == 0 then forall j :: 0 <= j < dim ==> r[0][j] == if cl[0][j] then v[0][j] else 0.0
    else forall j :: 0 <= j < dim && !cl[i][j] ==> r[i][j] == r[parent[i]][j] + d.sqrt(Dt(parent, time, i)) * d.contrast(i, j)
  }

  predicate Brownian(r: seq<seq<real>>, v: seq<seq<real>>, cl: seq<seq<bool>>, parent: seq<int>, time: seq<real>, d: Draws, n: nat, dim: nat)
    requires TreeShape(parent) && n <= |parent| == |v| && Matrix(v, |v|, dim) && Matrix(cl, |v|, dim) && Matrix(r, |v|, dim)
  {
    forall i :: 0 <= i < n ==> NodeSampled(r, v, cl, parent, time, d, i, dim)
  }

  /** What a node was promised survives later writes to other nodes than
   *  itself and its parent. */
  lemma NodeSampledFrame(p: seq<seq<real>>, r: seq<seq<real>>, v: seq<seq<real>>, cl: seq<seq<bool>>, parent: seq<int>, time: seq<real>, d: Draws, i: int, dim: nat)
    requires TreeShape(parent) && 0 <= i < |parent| == |v| && Matrix(v, |v|, dim) && Matrix(cl, |v|, dim)
    requires Matrix(p, |v|, dim) && Matrix(r, |v|, dim)
    requires r[i] == p[i] && (i != 0 ==> r[parent[i]] == p[parent[i]])
    requires NodeSampled(p, v, cl, parent, time, d, i, dim)
    ensures NodeSampled(r, v, cl, parent, time, d, i, dim)
  {
  }

  lemma {:induction false} SampleChainBrownian(v: seq<seq<real>>, cl: seq<seq<bool>>, parent: seq<int>, time: seq<real>, d: Draws, n: nat, dim: nat)
    requires TreeShape(parent) && n <= |parent| == |v| && Matrix(v, |v|, dim) && Matrix(cl, |v|, dim)
    requires PositiveBranches(parent, time, n)
    ensures Matrix(SampleChain(v, cl, parent, time, d, n), |v|, dim)
    ensures Brownian(SampleChain(v, cl, parent, time, d, n), v, cl, parent, time, d, n, dim)
    decreases n
  {
    SampleChainKeeps(v, cl, parent, time, d, n, dim);
    if n > 0 {
      var m := n - 1;
      var p := SampleChain(v, cl, parent, time, d, m);
      var r := SampleChain(v, cl, parent, time, d, n);
      SampleChainKeeps(v, cl, parent, time, d, m, dim);
      SampleChainBrownian(v, cl, parent, time, d, m, dim);
      SampleChainLater(v, cl, parent, time, d, m);
      assert r == SampleStep(p, cl, parent, time, d, m);
      forall i | 0 <= i < m
        ensures NodeSampled(r, v, cl, parent, time, d, i, dim)
      {
        NodeSampledFrame(p, r, v, cl, parent, time, d, i, dim);
      }
      assert NodeSampled(r, v, cl, parent, time, d, m, dim) by {
        assert p[m] == v[m];
        if m != 0 {
          assert r[parent[m]] == p[parent[m]];
        }
      }
    }
  }

  // ---------------------------------------------------------------------
  // Shift
  // ---------------------------------------------------------------------

  /** Shift(index, delta), on values: coordinate `index` of every non-root
   *  node moves by delta where it is not clamped. */
  function ShiftValues(v: seq<seq<real>>, cl: seq<seq<bool>>, index: int, delta: real): (r: seq<seq<real>>)
    ensures |r| == |v| && forall i :: 0 <= i < |v| ==> |r[i]| == |v[i]|
  {
    seq(|v|, i requires 0 <= i < |v| =>
      seq(|v[i]|, j requires 0 <= j < |v[i]| =>
        if i != 0 && j == index && i < |cl| && j < |cl[i]| && !cl[i][j] then v[i][j] + delta else v[i][j]))
  }

  /** Shifting back by -delta undoes a shift, and a shift leaves the root,
   *  the clamped entries and the other coordinates alone. */
  lemma ShiftInverse(v: seq<seq<real>>, cl: seq<seq<bool>>, index: int, delta: real)
    ensures ShiftValues(ShiftValues(v, cl, index, delta), cl, index, -delta) == v
    ensures forall i, j :: 0 <= i < |v| && 0 <= j < |v[i]| && (i == 0 || j != index || (i < |cl| && j < |cl[i]| && cl[i][j])) ==>
      ShiftValues(v, cl, index, delta)[i][j] == v[i][j]
  {
    var w := ShiftValues(ShiftValues(v, cl, index, delta), cl, index, -delta);
    forall i | 0 <= i < |v|
      ensures w[i] == v[i]
    {
    }
  }

  // ---------------------------------------------------------------------
  // Set and clamp
  // ---------------------------------------------------------------------

  /** The observed data: the taxon index of a leaf name (-1 when absent)
   *  and the value of a character for a taxon (-1 when missing). */
  datatype ContinuousData = ContinuousData(taxonIndex: string -> int, state: (int, int) -> real)

  predicate Observed(parent: seq<int>, names: seq<string>, data: ContinuousData, fromindex: int, i: int)
  {
    0 <= i < |names| && IsLeaf(parent, i) && data.taxonIndex(names[i]) != -1
    && data.state(data.taxonIndex(names[i]), fromindex) != -1.0
  }

  /** Leaves among nodes 0 .. n-1, and observed leaves among them. */
  function Leaves(parent: seq<int>, n: nat): nat
  {
    if n == 0 then 0 else Leaves(parent, n - 1) + (if IsLeaf(parent, n - 1) then 1 else 0)
  }

  function ObservedLeaves(parent: seq<int>, names: seq<string>, data: ContinuousData, fromindex: int, n: nat): nat
  {
    if n == 0 then 0 else ObservedLeaves(parent, names, data, fromindex, n - 1) + (if Observed(parent, names, data, fromindex, n - 1) then 1 else 0)
  }

  /** k <= n: every observed leaf is a leaf. */
  lemma {:induction false} ObservedAtMostLeaves(parent: seq<int>, names: seq<string>, data: ContinuousData, fromindex: int, n: nat)
    ensures ObservedLeaves(parent, names, data, fromindex, n) <= Leaves(parent, n)
    decreases n
  {
    if n > 0 {
      ObservedAtMostLeaves(parent, names, data, fromindex, n - 1);
    }
  }

  /** Every tree has a leaf: its highest-numbered node is no node's
   *  parent. */
  lemma HasLeaf(parent: seq<int>)
    requires TreeShape(parent)
    ensures IsLeaf(parent, |parent| - 1) && Leaves(parent, |parent|) >= 1
  {
    assert IsLeaf(parent, |parent| - 1);
  }

  // ---------------------------------------------------------------------
  // Sample covariance
  // ---------------------------------------------------------------------

  /** covmat.add(a, b, c[a] * c[b]) for every pair of coordinates: the
   *  outer product of a contrast added to a covariance matrix. */
  method AddOuter(covmat: seq<seq<real>>, c: seq<real>) returns (m: seq<seq<real>>)
    requires Matrix(covmat, |c|, |c|)
    ensures Matrix(m, |c|, |c|)
    ensures forall a, b :: 0 <= a < |c| && 0 <= b < |c| ==> m[a][b] == covmat[a][b] + c[a] * c[b]
  {
    m := covmat;
    for a := 0 to |c|
      invariant Matrix(m, |c|, |c|)
      invariant forall x, y :: 0 <= x < a && 0 <= y < |c| ==> m[x][y] == covmat[x][y] + c[x] * c[y]
      invariant forall x :: a <= x < |c| ==> m[x] == covmat[x]
    {
      var row := m[a];
      for b := 0 to |c|
        invariant |row| == |c|
        invariant forall y :: 0 <= y < b ==> row[y] == covmat[a][y] + c[a] * c[y]
        invariant forall y :: b <= y < |c| ==> row[y] == covmat[a][y]
      {
        row := row[b := row[b] + c[a] * c[b]];
      }
      m := m[a := row];
    }
  }

  /** GetContrast: coordinate a of the contrast across the branch above
   *  node i, the difference to the parent divided by sqrt(dt). */
  function Contrast(v: seq<seq<real>>, parent: seq<int>, time: seq<real>, d: Draws, i: int, a: int): real
  {
    if 0 <= i < |v| && 0 <= a < |v[i]| && i < |parent| && 0 <= parent[i] < |v| && a < |v[parent[i]]| && d.sqrt(Dt(parent, time, i)) != 0.0
    then (v[i][a] - v[parent[i]][a]) / d.sqrt(Dt(parent, time, i))
    else 0.0
  }

  /** The sum over the branches above nodes 1 .. n-1 of the products of
   *  contrast coordinates a and b. */
  function CovSum(v: seq<seq<real>>, parent: seq<int>, time: seq<real>, d: Draws, n: nat, a: int, b: int): real
  {
    if n <= 1 then 0.0
    else CovSum(v, parent, time, d, n - 1, a, b) + Product(Contrast(v, parent, time, d, n - 1, a), Contrast(v, parent, time, d, n - 1, b))
  }

  /** A product kept as a term of its own, so that the sign lemmas below
   *  speak about the same term as the sums they feed. */
  function Product(x: real, y: real): real
  {
    x * y
  }

  /** The diagonal of the accumulated matrix is a sum of squares, and it is
   *  positive as soon as one contrast coordinate is nonzero. */
  lemma {:induction false} CovSumDiagonal(v: seq<seq<real>>, parent: seq<int>, time: seq<real>, d: Draws, n: nat, a: int, k: nat)
    ensures CovSum(v, parent, time, d, n, a, a) >= 0.0
    ensures 1 <= k < n && Contrast(v, parent, time, d, k, a) != 0.0 ==> CovSum(v, parent, time, d, n, a, a) > 0.0
    decreases n
  {
    if n > 1 {
      CovSumDiagonal(v, parent, time, d, n - 1, a, k);
      var c := Contrast(v, parent, time, d, n - 1, a);
      SquareSign(c);
    }
  }

  lemma SquareSign(c: real)
    ensures Product(c, c) >= 0.0
    ensures c != 0.0 ==> Product(c, c) > 0.0
  {
    if c < 0.0 {
      NegativeProduct(c, c);
    } else if c > 0.0 {
      PositiveProduct(c, c);
    } else {
      assert Product(c, c) == 0.0 * 0.0;
    }
  }

  lemma PositiveProduct(x: real, y: real)
    requires x > 0.0 && y > 0.0
    ensures Product(x, y) > 0.0
  {
  }

  lemma NegativeProduct(x: real, y: real)
    requires x < 0.0 && y < 0.0
    ensures Product(x, y) > 0.0
  {
  }

  /** A node that differs from its parent across a branch whose sqrt is
   *  positive has a nonzero contrast. */
  lemma ContrastNonZero(v: seq<seq<real>>, parent: seq<int>, time: seq<real>, d: Draws, i: int, a: int)
    requires 0 <= i < |v| && 0 <= a < |v[i]| && i < |parent| && 0 <= parent[i] < |v| && a < |v[parent[i]]|
    requires d.sqrt(Dt(parent, time, i)) > 0.0 && v[i][a] != v[parent[i]][a]
    ensures Contrast(v, parent, time, d, i, a) != 0.0
  {
    var s := d.sqrt(Dt(parent, time, i));
    var c := (v[i][a] - v[parent[i]][a]) / s;
    assert c * s == v[i][a] - v[parent[i]][a];
  }

  // ---------------------------------------------------------------------
  // The process
  // ---------------------------------------------------------------------

  class MultivariateBrownianTreeProcess {
    const Nnode: nat
    const Dim: nat
    const parent: seq<int>
    const names: seq<string>
    const time: seq<real>
    var values: seq<seq<real>>
    var clamp: seq<seq<bool>>

    ghost predicate Shape()
      reads this
    {
      TreeShape(parent) && |parent| == Nnode && |names| == Nnode && |time| == Nnode
      && Matrix(values, Nnode, Dim) && Matrix(clamp, Nnode, Dim)
    }

    /** Construction: every node vector is assigned Dim zeros (Assign from
     *  the root) and nothing is clamped. */
    constructor (parent: seq<int>, names: seq<string>, time: seq<real>, Dim: nat)
      requires TreeShape(parent) && |names| == |parent| && |time| == |parent|
      ensures Shape() && this.Nnode == |parent| && this.Dim == Dim
      ensures this.parent == parent && this.names == names && this.time == time
      ensures forall i, j :: 0 <= i < Nnode && 0 <= j < Dim ==> values[i][j] == 0.0 && !clamp[i][j]
    {
      Nnode, this.Dim := |parent|, Dim;
      this.parent, this.names, this.time := parent, names, time;
      values := seq(|parent|, i => []);
      clamp := seq(|parent|, i => seq(Dim, j => false));
      new;
      Assign();
    }

    /** Assign: every node vector is set to GetDim zeros. */
    method Assign()
      requires |values| == Nnode
      modifies this`values
      ensures Matrix(values, Nnode, Dim)
      ensures forall i, j :: 0 <= i < Nnode && 0 <= j < Dim ==> values[i][j] == 0.0
    {
      for i := 0 to Nnode
        invariant |values| == Nnode
        invariant forall x :: 0 <= x < i ==> values[x] == seq(Dim, j => 0.0)
      {
        values := values[i := seq(Dim, j => 0.0)];
      }
    }

    /** LocalSample of node i: the root's unclamped coordinates become 0; a
     *  node under a non-positive time interval is a fatal error; any other
     *  node's unclamped coordinates are drawn around its parent's. Clamped
     *  coordinates never change. */
    method LocalSample(i: int, d: Draws) returns (r: Result<()>)
      requires Shape() && 0 <= i < Nnode
      modifies this`values
      ensures Shape()
      ensures r.Fatal? <==> i != 0 && Dt(parent, time, i) <= 0.0
      ensures values == SampleStep(old(values), clamp, parent, time, d, i)
    {
      var cl := clamp[i];
      if i == 0 {
        var val := values[i];
        for j := 0 to Dim
          invariant |val| == Dim
          invariant forall x :: 0 <= x < j ==> val[x] == RootRow(values[i], cl)[x]
          invariant forall x :: j <= x < Dim ==> val[x] == values[i][x]
        {
          if !cl[j] {
            val := val[j := 0.0];
          }
        }
        assert val == RootRow(values[i], cl);
        values := values[i := val];
        return Ok(());
      }
      var dt := time[parent[i]] - time[i];
      if dt <= 0.0 {
        return Fatal("error: negative time interval");
      }
      var scaling := d.sqrt(dt);
      var initval := values[parent[i]];
      var finalval := values[i];
      for j := 0 to Dim
        invariant |finalval| == Dim
        invariant forall x :: 0 <= x < j ==> finalval[x] == SampledRow(initval, values[i], cl, scaling, d, i)[x]
        invariant forall x :: j <= x < Dim ==> finalval[x] == values[i][x]
      {
        if !cl[j] {
          finalval := finalval[j := initval[j] + scaling * d.contrast(i, j)];
        }
      }
      assert finalval == SampledRow(initval, values[i], cl, scaling, d, i);
      values := values[i := finalval];
      r := Ok(());
    }

    /** Sample: LocalSample from the root down. It is fatal exactly when
     *  some branch has a non-positive time interval; otherwise every node
     *  is drawn around its parent's final value. */
    method Sample(d: Draws) returns (r: Result<()>)
      requires Shape()
      modifies this`values
      ensures Shape()
      ensures r.Fatal? <==> !PositiveBranches(parent, time, Nnode)
      ensures forall i, j :: 0 <= i < Nnode && 0 <= j < Dim && clamp[i][j] ==> values[i][j] == old(values[i][j])
      ensures r.Ok? ==> values == SampleChain(old(values), clamp, parent, time, d, Nnode)
      ensures r.Ok? ==> Brownian(values, old(values), clamp, parent, time, d, Nnode, Dim)
    {
      ghost var v0 := values;
      for i := 0 to Nnode
        invariant Shape()
        invariant values == SampleChain(v0, clamp, parent, time, d, i)
        invariant PositiveBranches(parent, time, i)
      {
        r := LocalSample(i, d);
        if r.Fatal? {
          SampleChainKeeps(v0, clamp, parent, time, d, i, Dim);
          return;
        }
      }
      SampleChainKeeps(v0, clamp, parent, time, d, Nnode, Dim);
      SampleChainBrownian(v0, clamp, parent, time, d, Nnode, Dim);
      r := Ok(());
    }

    /** Shift(index, delta). */
    method Shift(index: int, delta: real)
      requires Shape() && 0 <= index < Dim
      modifies this`values
      ensures Shape()
      ensures values == ShiftValues(old(values), clamp, index, delta)
    {
      ghost var v0 := values;
      for i := 0 to Nnode
        invariant Shape()
        invariant forall x :: 0 <= x < i ==> values[x] == ShiftValues(v0, clamp, index, delta)[x]
        invariant forall x :: i <= x < Nnode ==> values[x] == v0[x]
      {
        if i != 0 {
          if !clamp[i][index] {
            values := values[i := values[i][index := values[i][index] + delta]];
          }
        }
      }
    }

    /** LocalProposeMove(i, j, tuning) with the uniform draw `u`: entry
     *  (i, j) moves by tuning * (u - 1/2) unless it is clamped; nothing
     *  else changes, and the log Hastings ratio returned is 0. */
    method LocalProposeMove(i: int, j: int, tuning: real, u: real) returns (r: real)
      requires Shape() && 0 <= i < Nnode && 0 <= j < Dim
      modifies this`values
      ensures Shape() && r == 0.0
      ensures clamp[i][j] ==> values == old(values)
      ensures !clamp[i][j] ==> values == old(values)[i := old(values)[i][j := old(values)[i][j] + tuning * (u - 0.5)]]
    {
      if !clamp[i][j] {
        values := values[i := values[i][j := values[i][j] + tuning * (u - 0.5)]];
      }
      r := 0.0;
    }

    /** SetAndClamp: every leaf is counted in n; a leaf whose taxon has a
     *  value for character `fromindex` is counted in k, gets log(value) -
     *  rootval[index] in coordinate `index`, and is clamped there. */
    method SetAndClamp(data: ContinuousData, log: real -> real, rootval: seq<real>, index: int, fromindex: int)
      returns (k: int, n: int)
      requires Shape() && 0 <= index < Dim && index < |rootval|
      modifies this`values, this`clamp
      ensures Shape()
      ensures n == Leaves(parent, Nnode) && k == ObservedLeaves(parent, names, data, fromindex, Nnode) && 0 <= k <= n && n >= 1
      ensures forall i, j :: 0 <= i < Nnode && 0 <= j < Dim ==>
        clamp[i][j] == (old(clamp[i][j]) || (j == index && Observed(parent, names, data, fromindex, i)))
      ensures forall i, j :: 0 <= i < Nnode && 0 <= j < Dim ==>
        values[i][j] == if j == index && Observed(parent, names, data, fromindex, i)
                        then log(data.state(data.taxonIndex(names[i]), fromindex)) - rootval[index]
                        else old(values[i][j])
    {
      ghost var v0, c0 := values, clamp;
      k, n := 0, 0;
      for i := 0 to Nnode
        invariant Shape()
        invariant n == Leaves(parent, i) && k == ObservedLeaves(parent, names, data, fromindex, i)
        invariant forall x, j :: 0 <= x < i && 0 <= j < Dim ==>
          clamp[x][j] == (c0[x][j] || (j == index && Observed(parent, names, data, fromindex, x)))
        invariant forall x, j :: 0 <= x < i && 0 <= j < Dim ==>
          values[x][j] == if j == index && Observed(parent, names, data, fromindex, x)
                          then log(data.state(data.taxonIndex(names[x]), fromindex)) - rootval[index]
                          else v0[x][j]
        invariant forall x :: i <= x < Nnode ==> values[x] == v0[x] && clamp[x] == c0[x]
      {
        if IsLeaf(parent, i) {
          n := n + 1;
          var tax := data.taxonIndex(names[i]);
          if tax != -1 {
            var tmp := data.state(tax, fromindex);
            if tmp != -1.0 {
              k := k + 1;
              values := values[i := values[i][index := log(tmp) - rootval[index]]];
              clamp := clamp[i := clamp[i][index := true]];
            }
          }
        }
      }
      ObservedAtMostLeaves(parent, names, data, fromindex, Nnode);
      HasLeaf(parent);
    }

    /** GetSampleCovarianceMatrix as written: the contrast vector is created
     *  as zeros and never filled, so the matrix is unchanged; n still
     *  grows by one per non-root node. */
    method GetSampleCovarianceMatrixAsWritten(covmat: seq<seq<real>>, n: int) returns (covmat': seq<seq<real>>, n': int)
      requires Shape() && Matrix(covmat, Dim, Dim)
      ensures covmat' == covmat && n' == n + Nnode - 1
    {
      covmat', n' := covmat, n;
      for i := 0 to Nnode
        invariant covmat' == covmat && n' == n + (if i == 0 then 0 else i - 1)
      {
        if i != 0 {
          var contrast := seq(Dim, a => 0.0);
          var m := AddOuter(covmat', contrast);
          assert m == covmat' by {
            forall a | 0 <= a < Dim
              ensures m[a] == covmat'[a]
            {
              forall b | 0 <= b < Dim
                ensures m[a][b] == covmat'[a][b]
              {
                assert contrast[a] == 0.0 && contrast[b] == 0.0;
              }
            }
          }
          covmat' := m;
          n' := n' + 1;
        }
      }
    }

    /** GetContrast for node i > 0, into a zero vector. */
    method GetContrast(i: int, d: Draws) returns (contrast: seq<real>)
      requires Shape() && 1 <= i < Nnode
      requires d.sqrt(Dt(parent, time, i)) != 0.0
      ensures |contrast| == Dim
      ensures forall a :: 0 <= a < Dim ==> contrast[a] == Contrast(values, parent, time, d, i, a)
    {
      var dt := time[parent[i]] - time[i];
      var scaling := d.sqrt(dt);
      var up := values[i];
      var down := values[parent[i]];
      contrast := seq(Dim, a => 0.0);
      for a := 0 to Dim
        invariant |contrast| == Dim
        invariant forall x :: 0 <= x < a ==> contrast[x] == Contrast(values, parent, time, d, i, x)
        invariant forall x :: a <= x < Dim ==> contrast[x] == 0.0
      {
        contrast := contrast[a := contrast[a] + (up[a] - down[a]) / scaling];
      }
    }

    /** GetSampleCovarianceMatrix with the contrast filled by GetContrast:
     *  the outer product of every branch's contrast is added, and n grows
     *  by one per non-root node. */
    method GetSampleCovarianceMatrix(covmat: seq<seq<real>>, n: int, d: Draws) returns (covmat': seq<seq<real>>, n': int)
      requires Shape() && Matrix(covmat, Dim, Dim)
      requires forall i :: 1 <= i < Nnode ==> d.sqrt(Dt(parent, time, i)) != 0.0
      ensures Matrix(covmat', Dim, Dim) && n' == n + Nnode - 1
      ensures forall a, b :: 0 <= a < Dim && 0 <= b < Dim ==>
        covmat'[a][b] == covmat[a][b] + CovSum(values, parent, time, d, Nnode, a, b)
    {
      covmat', n' := covmat, n;
      for i := 0 to Nnode
        invariant Matrix(covmat', Dim, Dim) && n' == n + (if i == 0 then 0 else i - 1)
        invariant forall a, b :: 0 <= a < Dim && 0 <= b < Dim ==>
          covmat'[a][b] == covmat[a][b] + CovSum(values, parent, time, d, i, a, b)
      {
        if i != 0 {
          var contrast := GetContrast(i, d);
          covmat' := AddOuter(covmat', contrast);
          n' := n' + 1;
        }
      }
    }
  }

  /** The contrast that is never filled in: whenever some coordinate of a
   *  node differs from its parent across a branch of positive sqrt, the
   *  matrix accumulated with the filled contrast gains a positive
   *  diagonal term, while the matrix accumulated as written does not
   *  change at all. */
  lemma CovarianceFinding(v: seq<seq<real>>, parent: seq<int>, time: seq<real>, d: Draws, i: int, a: int)
    requires 1 <= i < |v| && 0 <= a < |v[i]| && i < |parent| && 0 <= parent[i] < |v| && a < |v[parent[i]]|
    requires d.sqrt(Dt(parent, time, i)) > 0.0 && v[i][a] != v[parent[i]][a]
    ensures CovSum(v, parent, time, d, |v|, a, a) > 0.0
  {
    ContrastNonZero(v, parent, time, d, i, a);
    CovSumDiagonal(v, parent, time, d, |v|, a, i);
  }

  // ---------------------------------------------------------------------
  // Branch lengths from the process
  // ---------------------------------------------------------------------

  /** MVBranchExpoLengthArray: the length of each branch is the mean of
   *  exp over the branch's two end values times the branch's chronogram
   *  duration. The mean (exp(up) - exp(down)) / (up - down) is a
   *  floating-point expression and a parameter `logmean` here. */
  class MVBranchExpoLengthArray {
    const parent: seq<int>
    const branch: seq<int>
    const chrono: seq<real>
    var lengths: seq<real>

    constructor (parent: seq<int>, branch: seq<int>, chrono: seq<real>, nbranch: nat)
      ensures this.parent == parent && this.branch == branch && this.chrono == chrono
      ensures |lengths| == nbranch
    {
      this.parent, this.branch, this.chrono := parent, branch, chrono;
      lengths := seq(nbranch, b => 0.0);
    }

    /** LocalUpdate of node i from the values `up` at the node and `down`
     *  at its parent: nothing at the root, a fatal error on a non-positive
     *  chronogram interval, else the branch above i gets mean times dt. */
    method LocalUpdate(i: int, up: real, down: real, logmean: (real, real) -> real) returns (r: Result<()>)
      requires TreeShape(parent) && 0 <= i < |parent| && |chrono| == |parent| && |branch| == |parent|
      requires i != 0 ==> 0 <= branch[i] < |lengths|
      modifies this`lengths
      ensures r.Fatal? <==> i != 0 && Dt(parent, chrono, i) <= 0.0
      ensures r.Fatal? || i == 0 ==> lengths == old(lengths)
      ensures r.Ok? && i != 0 ==> lengths == old(lengths)[branch[i] := logmean(up, down) * Dt(parent, chrono, i)]
    {
      if i == 0 {
        return Ok(());
      }
      var mean := logmean(up, down);
      var dt := chrono[parent[i]] - chrono[i];
      if dt <= 0.0 {
        return Fatal("error: negative time on chronogram");
      }
      assert dt == Dt(parent, chrono, i);
      assert mean * dt == logmean(up, down) * Dt(parent, chrono, i);
      assert lengths == old(lengths);
      lengths := lengths[branch[i] := mean * dt];
      r := Ok(());
    }

    /** The tree, the branch numbering and the chronogram fit together:
     *  one branch index of `nbranch` above every non-root node, no two
     *  nodes sharing one. */
    predicate Numbering(nbranch: nat)
    {
      && TreeShape(parent) && |chrono| == |parent| && |branch| == |parent|
      && (forall i :: 1 <= i < |parent| ==> 0 <= branch[i] < nbranch)
      && (forall i, j :: 1 <= i < j < |parent| ==> branch[i] != branch[j])
    }

    /** Coordinate `idx` of every node's value, and of the root value. */
    predicate Coordinates(values: seq<seq<real>>, rootval: seq<real>, idx: nat)
    {
      |values| == |parent| && idx < |rootval| && forall i :: 0 <= i < |values| ==> idx < |values[i]|
    }

    /** The length LocalUpdate gives the branch above non-root node i:
     *  the log-mean of its two end values, shifted by the root value,
     *  times the branch's chronogram interval. */
    function NodeLength(values: seq<seq<real>>, rootval: seq<real>, idx: nat, logmean: (real, real) -> real, i: int): real
      requires TreeShape(parent) && Coordinates(values, rootval, idx) && 1 <= i < |parent|
    {
      logmean(values[i][idx] + rootval[idx], values[parent[i]][idx] + rootval[idx]) * Dt(parent, chrono, i)
    }

    /** The lengths after LocalUpdate of nodes 0 .. n-1, in index order. */
    function UpdatedLengths(l: seq<real>, values: seq<seq<real>>, rootval: seq<real>, idx: nat,
                            logmean: (real, real) -> real, n: nat): (r: seq<real>)
      requires Numbering(|l|) && Coordinates(values, rootval, idx) && n <= |parent|
      ensures |r| == |l|
    {
      if n <= 1 then l
      else UpdatedLengths(l, values, rootval, idx, logmean, n - 1)[branch[n - 1] := NodeLength(values, rootval, idx, logmean, n - 1)]
    }

    /** After the first n nodes, the branch above every non-root one of
     *  them holds that node's length, and every branch above no such node
     *  keeps its old value. */
    lemma {:induction false} UpdatedLengthsAt(l: seq<real>, values: seq<seq<real>>, rootval: seq<real>, idx: nat,
                                             logmean: (real, real) -> real, n: nat)
      requires Numbering(|l|) && Coordinates(values, rootval, idx) && n <= |parent|
      ensures forall i :: 1 <= i < n ==>
        UpdatedLengths(l, values, rootval, idx, logmean, n)[branch[i]] == NodeLength(values, rootval, idx, logmean, i)
      ensures forall b :: 0 <= b < |l| && (forall i :: 1 <= i < n ==> branch[i] != b) ==>
        UpdatedLengths(l, values, rootval, idx, logmean, n)[b] == l[b]
      decreases n
    {
      if n > 1 {
        UpdatedLengthsAt(l, values, rootval, idx, logmean, n - 1);
      }
    }

    /** Update: LocalUpdate of every node, parents before children. It
     *  stops with a fatal error at the first non-root node whose
     *  chronogram interval is not positive; otherwise every branch gets
     *  the length of the node below it. */
    method Update(values: seq<seq<real>>, rootval: seq<real>, idx: nat, logmean: (real, real) -> real)
      returns (r: Result<()>)
      requires Numbering(|lengths|) && Coordinates(values, rootval, idx)
      modifies this`lengths
      ensures |lengths| == |old(lengths)|
      ensures r.Fatal? <==> !PositiveBranches(parent, chrono, |parent|)
      ensures r.Ok? ==> lengths == UpdatedLengths(old(lengths), values, rootval, idx, logmean, |parent|)
      ensures r.Ok? ==> forall i :: 1 <= i < |parent| ==>
        lengths[branch[i]] == NodeLength(values, rootval, idx, logmean, i)
    {
      for i := 0 to |parent|
        invariant |lengths| == |old(lengths)|
        invariant PositiveBranches(parent, chrono, i)
        invariant lengths == UpdatedLengths(old(lengths), values, rootval, idx, logmean, i)
      {
        var up := values[i][idx] + rootval[idx];
        var down := if i == 0 then 0.0 else values[parent[i]][idx] + rootval[idx];
        ghost var before := lengths;
        r := LocalUpdate(i, up, down, logmean);
        if r.Fatal? {
          return;
        }
        if i != 0 {
          assert logmean(up, down) * Dt(parent, chrono, i) == NodeLength(values, rootval, idx, logmean, i);
          assert lengths == before[branch[i] := NodeLength(values, rootval, idx, logmean, i)];
        }
      }
      r := Ok(());
      UpdatedLengthsAt(old(lengths), values, rootval, idx, logmean, |parent|);
    }

    /** The source's constructor: a branch array of the tree's size,
     *  filled by Update. */
    static method Create(parent: seq<int>, branch: seq<int>, chrono: seq<real>, nbranch: nat,
                         values: seq<seq<real>>, rootval: seq<real>, idx: nat, logmean: (real, real) -> real)
      returns (a: MVBranchExpoLengthArray, r: Result<()>)
      requires TreeShape(parent) && |chrono| == |parent| && |branch| == |parent|
      requires forall i :: 1 <= i < |parent| ==> 0 <= branch[i] < nbranch
      requires forall i, j :: 1 <= i < j < |parent| ==> branch[i] != branch[j]
      requires |values| == |parent| && idx < |rootval| && forall i :: 0 <= i < |values| ==> idx < |values[i]|
      ensures fresh(a) && a.parent == parent && a.branch == branch && a.chrono == chrono
      ensures |a.lengths| == nbranch
      ensures r.Fatal? <==> !PositiveBranches(parent, chrono, |parent|)
      ensures r.Ok? ==> forall i :: 1 <= i < |parent| ==>
        a.lengths[branch[i]] == a.NodeLength(values, rootval, idx, logmean, i)
    {
      a := new MVBranchExpoLengthArray(parent, branch, chrono, nbranch);
      r := a.Update(values, rootval, idx, logmean);
    }
  }
}
