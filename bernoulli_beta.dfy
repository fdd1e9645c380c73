/** IIDBernoulliBeta: an array of independent variables, each 0 with
 *  probability 1 - pi and otherwise drawn from a Beta distribution with
 *  a given mean and inverse concentration; and BernoulliBetaSuffStat,
 *  the four numbers that summarise such an array for its log density.
 *  log, logGamma and the random draws belong to a numerics library
 *  outside this model and are parameters here. */
module BernoulliBeta {
  import opened Wrappers
  import opened Streams

  /** The special functions the densities use. */
  datatype Special = Special(log: real -> real, logGamma: real -> real)

  /** The statistic as a value: sumlog0 is the sum of log x and sumlog1
   *  the sum of log(1 - x) over the nonzero entries x; n0 and n1 count
   *  the zero and the nonzero entries. */
  datatype BBStat = BBStat(sumlog0: real, sumlog1: real, n0: int, n1: int)

  const Zero: BBStat := BBStat(0.0, 0.0, 0, 0)

  /** Component-wise sum (Add and +=). */
  function Plus(s: BBStat, t: BBStat): BBStat
  {
    BBStat(s.sumlog0 + t.sumlog0, s.sumlog1 + t.sumlog1, s.n0 + t.n0, s.n1 + t.n1)
  }

  lemma PlusMonoid(s: BBStat, t: BBStat, u: BBStat)
    ensures Plus(s, Zero) == s && Plus(Zero, s) == s
    ensures Plus(s, t) == Plus(t, s)
    ensures Plus(Plus(s, t), u) == Plus(s, Plus(t, u))
  {
  }

  /** What one entry contributes (IIDBernoulliBeta::AddSuffStat). */
  function EntryStat(f: Special, x: real): BBStat
  {
    if x == 0.0 then BBStat(0.0, 0.0, 1, 0) else BBStat(f.log(x), f.log(1.0 - x), 0, 1)
  }

  /** What a whole array contributes, entry by entry from the left. */
  function EntriesStat(f: Special, v: seq<real>): BBStat
  {
    if v == [] then Zero else Plus(EntriesStat(f, v[..|v| - 1]), EntryStat(f, v[|v| - 1]))
  }

  /** Number of zero entries, and sum and number of the nonzero ones. */
  function Zeros(v: seq<real>): (r: nat)
    ensures r <= |v|
  {
    if v == [] then 0 else Zeros(v[..|v| - 1]) + (if v[|v| - 1] == 0.0 then 1 else 0)
  }

  function PosSum(v: seq<real>): real
  {
    if v == [] then 0.0 else PosSum(v[..|v| - 1]) + (if v[|v| - 1] != 0.0 then v[|v| - 1] else 0.0)
  }

  function PosCount(v: seq<real>): nat
  {
    |v| - Zeros(v)
  }

  lemma EntriesStatPrefix(f: Special, v: seq<real>, i: nat)
    requires i < |v|
    ensures EntriesStat(f, v[..i + 1]) == Plus(EntriesStat(f, v[..i]), EntryStat(f, v[i]))
  {
    assert v[..i + 1][..i] == v[..i];
  }

  lemma ZerosPrefix(v: seq<real>, i: nat)
    requires i < |v|
    ensures Zeros(v[..i + 1]) == Zeros(v[..i]) + (if v[i] == 0.0 then 1 else 0)
    ensures PosSum(v[..i + 1]) == PosSum(v[..i]) + (if v[i] != 0.0 then v[i] else 0.0)
  {
    assert v[..i + 1][..i] == v[..i];
  }

  /** Every entry is counted as zero or as nonzero: n0 is the number of
   *  zero entries, and n0 + n1 is the length of the array. */
  lemma {:induction false} EntriesStatCounts(f: Special, v: seq<real>)
    ensures EntriesStat(f, v).n0 == Zeros(v)
    ensures EntriesStat(f, v).n1 == PosCount(v)
    ensures EntriesStat(f, v).n0 + EntriesStat(f, v).n1 == |v|
    decreases |v|
  {
    if v != [] {
      EntriesStatCounts(f, v[..|v| - 1]);
    }
  }

  // ---------------------------------------------------------------------
  // Parameters and densities
  // ---------------------------------------------------------------------

  /** The Beta shape parameters from the mean and the inverse
   *  concentration (GetAlpha, GetBeta). */
  function Alpha(mean: real, invconc: real): (r: real)
    requires invconc != 0.0
    ensures r * invconc == mean
  {
    mean / invconc
  }

  function BetaParam(mean: real, invconc: real): (r: real)
    requires invconc != 0.0
    ensures r * invconc == 1.0 - mean
  {
    (1.0 - mean) / invconc
  }

  /** The two shape parameters add up to the concentration: the mean
   *  parameterisation splits 1 / invconc into mean and 1 - mean. */
  lemma ShapeSum(mean: real, invconc: real)
    requires invconc != 0.0
    ensures (Alpha(mean, invconc) + BetaParam(mean, invconc)) * invconc == 1.0
  {
    var a, b := Alpha(mean, invconc), BetaParam(mean, invconc);
    assert (a + b) * invconc == a * invconc + b * invconc;
  }

  /** The log density of a Beta(a, b) variate x, in its standard form. */
  function LogBetaDensity(f: Special, x: real, a: real, b: real): real
  {
    f.logGamma(a + b) - f.logGamma(a) - f.logGamma(b) + (a - 1.0) * f.log(x) + (b - 1.0) * f.log(1.0 - x)
  }

  /** IIDBernoulliBeta::GetLogProb(i): one entry's log density. It is
   *  the log density of that entry's statistic: log x goes with
   *  alpha - 1 and log(1 - x) with beta - 1. */
  function EntryLogProb(f: Special, x: real, pi: real, mean: real, invconc: real): (r: real)
    requires invconc != 0.0
    ensures r == StatLogProb(f, EntryStat(f, x), pi, mean, invconc)
  {
    if x == 0.0 then f.log(1.0 - pi)
    else f.log(pi) + LogBetaDensity(f, x, Alpha(mean, invconc), BetaParam(mean, invconc))
  }

  /** The whole array's log density, entry by entry: 0 for no entry,
   *  the entry's own for one. */
  function TotalLogProb(f: Special, v: seq<real>, pi: real, mean: real, invconc: real): (r: real)
    requires invconc != 0.0
    ensures v == [] ==> r == 0.0
    ensures |v| == 1 ==> r == EntryLogProb(f, v[0], pi, mean, invconc)
  {
    if v == [] then 0.0 else TotalLogProb(f, v[..|v| - 1], pi, mean, invconc) + EntryLogProb(f, v[|v| - 1], pi, mean, invconc)
  }

  /** BernoulliBetaSuffStat::GetLogProb: the log density computed from the
   *  four totals alone. */
  function StatLogProb(f: Special, s: BBStat, pi: real, mean: real, invconc: real): (r: real)
    requires invconc != 0.0
    ensures s == Zero ==> r == 0.0
    ensures s.n1 == 0 && s.sumlog0 == 0.0 && s.sumlog1 == 0.0 ==> r == s.n0 as real * f.log(1.0 - pi)
  {
    var alpha := mean / invconc;
    var beta := (1.0 - mean) / invconc;
    var logbern := s.n0 as real * f.log(1.0 - pi) + s.n1 as real * f.log(pi);
    var logbeta := s.n1 as real * (f.logGamma(alpha + beta) - f.logGamma(alpha) - f.logGamma(beta))
      + (alpha - 1.0) * s.sumlog0 + (beta - 1.0) * s.sumlog1;
    logbern + logbeta
  }

  /** The statistic's log density is additive over accumulated statistics. */
  lemma StatLogProbPlus(f: Special, s: BBStat, t: BBStat, pi: real, mean: real, invconc: real)
    requires invconc != 0.0
    ensures StatLogProb(f, Plus(s, t), pi, mean, invconc)
         == StatLogProb(f, s, pi, mean, invconc) + StatLogProb(f, t, pi, mean, invconc)
  {
    var alpha := mean / invconc;
    var beta := (1.0 - mean) / invconc;
    var g := f.logGamma(alpha + beta) - f.logGamma(alpha) - f.logGamma(beta);
    var l0, l1 := f.log(1.0 - pi), f.log(pi);
    assert (s.n0 + t.n0) as real * l0 == s.n0 as real * l0 + t.n0 as real * l0;
    assert (s.n1 + t.n1) as real * l1 == s.n1 as real * l1 + t.n1 as real * l1;
    assert (s.n1 + t.n1) as real * g == s.n1 as real * g + t.n1 as real * g;
    assert (alpha - 1.0) * (s.sumlog0 + t.sumlog0) == (alpha - 1.0) * s.sumlog0 + (alpha - 1.0) * t.sumlog0;
    assert (beta - 1.0) * (s.sumlog1 + t.sumlog1) == (beta - 1.0) * s.sumlog1 + (beta - 1.0) * t.sumlog1;
  }

  /** Sufficiency: the log density computed from the statistic of an array
   *  equals the sum of its entries' log densities. In particular log x
   *  goes with alpha - 1 and log(1 - x) with beta - 1. */
  lemma {:induction false} Sufficiency(f: Special, v: seq<real>, pi: real, mean: real, invconc: real)
    requires invconc != 0.0
    ensures StatLogProb(f, EntriesStat(f, v), pi, mean, invconc) == TotalLogProb(f, v, pi, mean, invconc)
    decreases |v|
  {
    if v != [] {
      var n := |v| - 1;
      Sufficiency(f, v[..n], pi, mean, invconc);
      StatLogProbPlus(f, EntriesStat(f, v[..n]), EntryStat(f, v[n]), pi, mean, invconc);
    }
  }

  /** The total log density of two arrays laid end to end is the sum of
   *  their totals. */
  lemma {:induction false} TotalLogProbAppend(f: Special, a: seq<real>, b: seq<real>, pi: real, mean: real, invconc: real)
    requires invconc != 0.0
    ensures TotalLogProb(f, a + b, pi, mean, invconc)
         == TotalLogProb(f, a, pi, mean, invconc) + TotalLogProb(f, b, pi, mean, invconc)
    decreases |b|
  {
    if b == [] {
      assert a + b == a;
    } else {
      var n := |b| - 1;
      assert (a + b)[..|a + b| - 1] == a + b[..n];
      TotalLogProbAppend(f, a, b[..n], pi, mean, invconc);
    }
  }

  /** GetPosMean: the mean of the nonzero entries, 0 when there is none. */
  function PosMean(v: seq<real>): (r: real)
    ensures PosCount(v) == 0 ==> r == 0.0
    ensures PosCount(v) > 0 ==> r * PosCount(v) as real == PosSum(v)
  {
    if PosCount(v) == 0 then 0.0 else PosSum(v) / PosCount(v) as real
  }

  predicate UnitEntries(v: seq<real>)
  {
    forall i :: 0 <= i < |v| ==> 0.0 <= v[i] <= 1.0
  }

  lemma {:induction false} PosSumBounds(v: seq<real>)
    requires UnitEntries(v)
    ensures 0.0 <= PosSum(v) <= PosCount(v) as real
    decreases |v|
  {
    if v != [] {
      PosSumBounds(v[..|v| - 1]);
    }
  }

  /** An array of values in [0, 1] has its positive mean in [0, 1]. */
  lemma PosMeanBounds(v: seq<real>)
    requires UnitEntries(v)
    ensures 0.0 <= PosMean(v) <= 1.0
  {
    PosSumBounds(v);
    if PosCount(v) > 0 {
      var c := PosCount(v) as real;
      QuotientBounds(PosSum(v), c, PosMean(v));
    }
  }

  lemma QuotientBounds(x: real, c: real, r: real)
    requires 0.0 <= x <= c && c > 0.0 && r * c == x
    ensures 0.0 <= r <= 1.0
  {
  }

  // ---------------------------------------------------------------------
  // Buffers
  // ---------------------------------------------------------------------

  /** The serialised form: sumlog0, sumlog1, n0, n1. */
  function Put(s: BBStat): (r: seq<Token>)
    ensures |r| == 4 && AllValues(r)
  {
    [Real(s.sumlog0), Real(s.sumlog1), Int(s.n0), Int(s.n1)]
  }

  function Get(buf: seq<Token>): Option<(BBStat, seq<Token>)>
  {
    if |buf| >= 4 && buf[0].Real? && buf[1].Real? && buf[2].Int? && buf[3].Int?
    then Some((BBStat(buf[0].r, buf[1].r, buf[2].i, buf[3].i), buf[4..]))
    else None
  }

  lemma PutGet(s: BBStat, rest: seq<Token>)
    ensures Get(Put(s) + rest) == Some((s, rest))
  {
    assert (Put(s) + rest)[4..] == rest;
  }

  // ---------------------------------------------------------------------
  // The accumulator
  // ---------------------------------------------------------------------

  class BernoulliBetaSuffStat {
    var sumlog0: real
    var sumlog1: real
    var n0: int
    var n1: int

    function Value(): BBStat
      reads this
    {
      BBStat(sumlog0, sumlog1, n0, n1)
    }

    /** The default constructor sets nothing: the fields hold arbitrary
     *  values until Clear. */
    constructor ()
    {
    }

    method Clear()
      modifies this
      ensures Value() == Zero
    {
      sumlog0, sumlog1 := 0.0, 0.0;
      n0, n1 := 0, 0;
    }

    /** `c` more variates equal to 0; only n0 changes. */
    method AddNullSuffStat(c: int)
      modifies this`n0
      ensures Value() == Plus(old(Value()), BBStat(0.0, 0.0, c, 0))
    {
      n0 := n0 + c;
    }

    /** `c` more positive variates with the given logs; n0 is untouched. */
    method AddPosSuffStat(log0: real, log1: real, c: int)
      modifies this`sumlog0, this`sumlog1, this`n1
      ensures Value() == Plus(old(Value()), BBStat(log0, log1, 0, c))
    {
      sumlog0 := sumlog0 + log0;
      sumlog1 := sumlog1 + log1;
      n1 := n1 + c;
    }

    method Add(from: BBStat)
      modifies this
      ensures Value() == Plus(old(Value()), from)
    {
      sumlog0 := sumlog0 + from.sumlog0;
      sumlog1 := sumlog1 + from.sumlog1;
      n0 := n0 + from.n0;
      n1 := n1 + from.n1;
    }
  }

  // ---------------------------------------------------------------------
  // The array
  // ---------------------------------------------------------------------

  /** The random draws of one Sample: a uniform per entry, and a Beta
   *  variate per entry given its shape parameters. */
  datatype Draws = Draws(uniform: int -> real, beta: (int, real, real) -> real)

  function SampledEntry(d: Draws, i: int, pi: real, mean: real, invconc: real): real
    requires invconc != 0.0
  {
    if d.uniform(i) < pi then d.beta(i, Alpha(mean, invconc), BetaParam(mean, invconc)) else 0.0
  }

  class IIDBernoulliBeta {
    const pi: real
    const mean: real
    const invconc: real
    var values: seq<real>

    /** Allocates `insize` entries and samples them all. */
    constructor (insize: nat, pi: real, mean: real, invconc: real, d: Draws)
      requires invconc != 0.0
      ensures this.pi == pi && this.mean == mean && this.invconc == invconc
      ensures |values| == insize
      ensures forall i :: 0 <= i < insize ==> values[i] == SampledEntry(d, i, pi, mean, invconc)
    {
      this.pi, this.mean, this.invconc := pi, mean, invconc;
      values := seq(insize, i => 0.0);
      new;
      Sample(d);
    }

    function GetAlpha(): (r: real)
      reads this
      requires invconc != 0.0
      ensures r * invconc == mean
    {
      Alpha(mean, invconc)
    }

    function GetBeta(): (r: real)
      reads this
      requires invconc != 0.0
      ensures r * invconc == 1.0 - mean
    {
      BetaParam(mean, invconc)
    }

    /** Sample: every entry is a Beta draw when its uniform falls below pi
     *  and 0 otherwise. */
    method Sample(d: Draws)
      requires invconc != 0.0
      modifies this`values
      ensures |values| == old(|values|)
      ensures forall i :: 0 <= i < |values| ==> values[i] == SampledEntry(d, i, pi, mean, invconc)
    {
      for i := 0 to |values|
        invariant |values| == old(|values|)
        invariant forall j :: 0 <= j < i ==> values[j] == SampledEntry(d, j, pi, mean, invconc)
      {
        if d.uniform(i) < pi {
          values := values[i := d.beta(i, GetAlpha(), GetBeta())];
        } else {
          values := values[i := 0.0];
        }
      }
    }

    /** GetNullSet: the number of entries equal to 0. */
    method GetNullSet() returns (tot: int)
      ensures tot == Zeros(values)
    {
      tot := 0;
      for i := 0 to |values|
        invariant tot == Zeros(values[..i])
      {
        ZerosPrefix(values, i);
        if values[i] == 0.0 {
          tot := tot + 1;
        }
      }
      assert values[..|values|] == values;
    }

    /** GetLogProb: the sum of the entries' log densities. */
    method GetLogProb(f: Special) returns (total: real)
      requires invconc != 0.0
      ensures total == TotalLogProb(f, values, pi, mean, invconc)
    {
      total := 0.0;
      for i := 0 to |values|
        invariant total == TotalLogProb(f, values[..i], pi, mean, invconc)
      {
        assert values[..i + 1][..i] == values[..i];
        total := total + EntryLogProb(f, values[i], pi, mean, invconc);
      }
      assert values[..|values|] == values;
    }

    /** AddSuffStat: each zero entry adds one to n0, each other entry x adds
     *  log x to sumlog0, log(1 - x) to sumlog1 and one to n1. */
    method AddSuffStat(f: Special, suffstat: BernoulliBetaSuffStat)
      modifies suffstat
      ensures suffstat.Value() == Plus(old(suffstat.Value()), EntriesStat(f, values))
      ensures suffstat.n0 == old(suffstat.n0) + Zeros(values)
      ensures suffstat.n0 + suffstat.n1 == old(suffstat.n0 + suffstat.n1) + |values|
    {
      for i := 0 to |values|
        invariant suffstat.Value() == Plus(old(suffstat.Value()), EntriesStat(f, values[..i]))
      {
        AddEntry(f, suffstat, values[i]);
        EntriesStatPrefix(f, values, i);
        PlusMonoid(old(suffstat.Value()), EntriesStat(f, values[..i]), EntryStat(f, values[i]));
      }
      assert values[..|values|] == values;
      EntriesStatCounts(f, values);
    }

    /** The body of the AddSuffStat loop, for one entry. */
    static method AddEntry(f: Special, suffstat: BernoulliBetaSuffStat, x: real)
      modifies suffstat
      ensures suffstat.Value() == Plus(old(suffstat.Value()), EntryStat(f, x))
    {
      if x == 0.0 {
        suffstat.AddNullSuffStat(1);
      } else {
        suffstat.AddPosSuffStat(f.log(x), f.log(1.0 - x), 1);
      }
    }

    /** GetPosMean: the mean of the nonzero entries, 0 if there is none. */
    method GetPosMean() returns (m1: real)
      ensures m1 == PosMean(values)
    {
      var tot := 0;
      m1 := 0.0;
      for i := 0 to |values|
        invariant tot == i - Zeros(values[..i]) && m1 == PosSum(values[..i])
      {
        ZerosPrefix(values, i);
        if values[i] != 0.0 {
          m1 := m1 + values[i];
          tot := tot + 1;
        }
      }
      assert values[..|values|] == values;
      if tot == 0 {
        return 0.0;
      }
      m1 := m1 / tot as real;
    }
  }
}
