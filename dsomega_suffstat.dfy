/** dSOmegaPathSuffStat: the sufficient statistics of substitution
 *  histories for a model with a synonymous rate dS and a ratio omega.
 *  Observed substitutions are split into synonymous and nonsynonymous
 *  counts, and waiting times are turned into the matching rate integrals
 *  (the "beta" terms). The four totals add component-wise, scale by a
 *  factor, and travel through message buffers and text streams in one
 *  fixed order. */
module DSOmegaSuffStat {
  import opened Wrappers
  import opened Counting
  import opened Streams

  /** The four totals, as a value. */
  datatype Stat = Stat(nsyn: real, nnonsyn: real, bsyn: real, bnonsyn: real)

  const Zero: Stat := Stat(0.0, 0.0, 0.0, 0.0)

  /** Component-wise sum (Add and +=). */
  function Plus(s: Stat, t: Stat): Stat
  {
    Stat(s.nsyn + t.nsyn, s.nnonsyn + t.nnonsyn, s.bsyn + t.bsyn, s.bnonsyn + t.bnonsyn)
  }

  /** Every component multiplied by `f` (Normalize). */
  function Scale(s: Stat, f: real): Stat
  {
    Stat(s.nsyn * f, s.nnonsyn * f, s.bsyn * f, s.bnonsyn * f)
  }

  /** The statistics form a commutative monoid under Plus with Zero as
   *  identity, so the order of accumulation does not matter. */
  lemma PlusMonoid(s: Stat, t: Stat, u: Stat)
    ensures Plus(s, Zero) == s && Plus(Zero, s) == s
    ensures Plus(s, t) == Plus(t, s)
    ensures Plus(Plus(s, t), u) == Plus(s, Plus(t, u))
  {
  }

  /** Normalising a sum is summing the normalised parts. */
  lemma ScalePlus(s: Stat, t: Stat, f: real)
    ensures Scale(Plus(s, t), f) == Plus(Scale(s, f), Scale(t, f))
  {
    assert (s.nsyn + t.nsyn) * f == s.nsyn * f + t.nsyn * f;
    assert (s.nnonsyn + t.nnonsyn) * f == s.nnonsyn * f + t.nnonsyn * f;
    assert (s.bsyn + t.bsyn) * f == s.bsyn * f + t.bsyn * f;
    assert (s.bnonsyn + t.bnonsyn) * f == s.bnonsyn * f + t.bnonsyn * f;
  }

  // ---------------------------------------------------------------------
  // Substitution histories
  // ---------------------------------------------------------------------

  /** One entry of the pair-count map: `count` substitutions from codon
   *  `from` to codon `to`. */
  datatype PairCount = PairCount(from: int, to: int, count: real)

  /** One entry of the waiting-time map: time spent in codon `state`. */
  datatype Waiting = Waiting(state: int, time: real)

  /** The codon substitution matrix, as rates between codons, and the
   *  genetic code's test of whether a substitution is synonymous; both
   *  belong to collaborators outside this model. */
  datatype Codons = Codons(ncodon: nat, rate: (int, int) -> real, synonymous: (int, int) -> bool)

  /** Synonymous substitution rate out of codon `a` towards the first `n`
   *  codons: off-diagonal nonzero rates to codons the code calls
   *  synonymous. */
  function SynRate(c: Codons, a: int, n: nat): real
  {
    if n == 0 then 0.0
    else SynRate(c, a, n - 1) + (if n - 1 != a && c.rate(a, n - 1) != 0.0 && c.synonymous(a, n - 1) then c.rate(a, n - 1) else 0.0)
  }

  function NonSynRate(c: Codons, a: int, n: nat): real
  {
    if n == 0 then 0.0
    else NonSynRate(c, a, n - 1) + (if n - 1 != a && c.rate(a, n - 1) != 0.0 && !c.synonymous(a, n - 1) then c.rate(a, n - 1) else 0.0)
  }

  /** Total rate out of codon `a` towards the first `n` codons, the
   *  diagonal excluded. */
  function OutRate(c: Codons, a: int, n: nat): real
  {
    if n == 0 then 0.0 else OutRate(c, a, n - 1) + (if n - 1 != a then c.rate(a, n - 1) else 0.0)
  }

  /** The split covers the whole off-diagonal row: synonymous plus
   *  nonsynonymous is the total rate out of the codon. */
  lemma {:induction false} RateSplit(c: Codons, a: int, n: nat)
    ensures SynRate(c, a, n) + NonSynRate(c, a, n) == OutRate(c, a, n)
    decreases n
  {
    if n > 0 {
      RateSplit(c, a, n - 1);
    }
  }

  /** The diagonal rate of a codon plays no part in its rates. */
  lemma {:induction false} RateIgnoresDiagonal(c: Codons, c': Codons, a: int, n: nat)
    requires c'.synonymous == c.synonymous
    requires forall b :: b != a ==> c'.rate(a, b) == c.rate(a, b)
    ensures SynRate(c', a, n) == SynRate(c, a, n) && NonSynRate(c', a, n) == NonSynRate(c, a, n)
    decreases n
  {
    if n > 0 {
      RateIgnoresDiagonal(c, c', a, n - 1);
    }
  }

  /** Waiting times weighted by the synonymous rates out of their codons. */
  function WaitSyn(c: Codons, wt: seq<Waiting>): real
  {
    if wt == [] then 0.0 else WaitSyn(c, wt[..|wt| - 1]) + wt[|wt| - 1].time * SynRate(c, wt[|wt| - 1].state, c.ncodon)
  }

  function WaitNonSyn(c: Codons, wt: seq<Waiting>): real
  {
    if wt == [] then 0.0 else WaitNonSyn(c, wt[..|wt| - 1]) + wt[|wt| - 1].time * NonSynRate(c, wt[|wt| - 1].state, c.ncodon)
  }

  /** Counts of the synonymous pairs, and of the others. */
  function PairSyn(c: Codons, pc: seq<PairCount>): real
  {
    if pc == [] then 0.0
    else PairSyn(c, pc[..|pc| - 1]) + (if c.synonymous(pc[|pc| - 1].from, pc[|pc| - 1].to) then pc[|pc| - 1].count else 0.0)
  }

  function PairNonSyn(c: Codons, pc: seq<PairCount>): real
  {
    if pc == [] then 0.0
    else PairNonSyn(c, pc[..|pc| - 1]) + (if !c.synonymous(pc[|pc| - 1].from, pc[|pc| - 1].to) then pc[|pc| - 1].count else 0.0)
  }

  function PairTotal(pc: seq<PairCount>): real
  {
    if pc == [] then 0.0 else PairTotal(pc[..|pc| - 1]) + pc[|pc| - 1].count
  }

  /** Every pair count goes to exactly one of the two totals. */
  lemma {:induction false} PairSplit(c: Codons, pc: seq<PairCount>)
    ensures PairSyn(c, pc) + PairNonSyn(c, pc) == PairTotal(pc)
    decreases |pc|
  {
    if pc != [] {
      PairSplit(c, pc[..|pc| - 1]);
    }
  }

  /** What one history adds, with the beta terms still to be divided. */
  function HistoryStat(c: Codons, pc: seq<PairCount>, wt: seq<Waiting>): Stat
  {
    Stat(PairSyn(c, pc), PairNonSyn(c, pc), WaitSyn(c, wt), WaitNonSyn(c, wt))
  }

  lemma WaitPrefix(c: Codons, wt: seq<Waiting>, i: nat)
    requires i < |wt|
    ensures WaitSyn(c, wt[..i + 1]) == WaitSyn(c, wt[..i]) + wt[i].time * SynRate(c, wt[i].state, c.ncodon)
    ensures WaitNonSyn(c, wt[..i + 1]) == WaitNonSyn(c, wt[..i]) + wt[i].time * NonSynRate(c, wt[i].state, c.ncodon)
  {
    assert wt[..i + 1][..i] == wt[..i];
  }

  lemma PairPrefix(c: Codons, pc: seq<PairCount>, i: nat)
    requires i < |pc|
    ensures PairSyn(c, pc[..i + 1]) == PairSyn(c, pc[..i]) + (if c.synonymous(pc[i].from, pc[i].to) then pc[i].count else 0.0)
    ensures PairNonSyn(c, pc[..i + 1]) == PairNonSyn(c, pc[..i]) + (if !c.synonymous(pc[i].from, pc[i].to) then pc[i].count else 0.0)
  {
    assert pc[..i + 1][..i] == pc[..i];
  }

  // ---------------------------------------------------------------------
  // Derived quantities
  // ---------------------------------------------------------------------

  /** GetdS: the synonymous rate estimate, 0 without synonymous exposure. */
  function DS(s: Stat): (r: real)
    ensures s.bsyn == 0.0 ==> r == 0.0
    ensures s.bsyn != 0.0 ==> r * s.bsyn == s.nsyn
  {
    if s.bsyn == 0.0 then 0.0 else s.nsyn / s.bsyn
  }

  /** GetdN: the nonsynonymous rate estimate, 0 without nonsynonymous
   *  exposure. */
  function DN(s: Stat): (r: real)
    ensures s.bnonsyn == 0.0 ==> r == 0.0
    ensures s.bnonsyn != 0.0 ==> r * s.bnonsyn == s.nnonsyn
  {
    if s.bnonsyn == 0.0 then 0.0 else s.nnonsyn / s.bnonsyn
  }

  /** GetdNdS: 0 when either exposure or the synonymous count is 0. */
  function DNDS(s: Stat): (r: real)
    ensures s.bsyn == 0.0 || s.bnonsyn == 0.0 || s.nsyn == 0.0 ==> r == 0.0
  {
    if s.bsyn == 0.0 || s.bnonsyn == 0.0 || s.nsyn == 0.0 then 0.0 else (s.nnonsyn / s.bnonsyn) / (s.nsyn / s.bsyn)
  }

  /** Wherever it is not guarded to 0, dN/dS is the ratio of the two rate
   *  estimates. */
  lemma DNDSRatio(s: Stat)
    requires s.bsyn != 0.0 && s.bnonsyn != 0.0 && s.nsyn != 0.0
    ensures DS(s) != 0.0 && DNDS(s) * DS(s) == DN(s)
  {
    var ds := s.nsyn / s.bsyn;
    assert ds * s.bsyn == s.nsyn;
  }

  /** Normalising by a nonzero factor leaves the rate estimates alone. */
  lemma ScaleKeepsRates(s: Stat, f: real)
    requires f != 0.0
    ensures DS(Scale(s, f)) == DS(s) && DN(Scale(s, f)) == DN(s)
  {
    if s.bsyn != 0.0 {
      DivideScaled(s.nsyn, s.bsyn, f);
    }
    if s.bnonsyn != 0.0 {
      DivideScaled(s.nnonsyn, s.bnonsyn, f);
    }
  }

  lemma DivideScaled(x: real, y: real, f: real)
    requires y != 0.0 && f != 0.0
    ensures y * f != 0.0 && (x * f) / (y * f) == x / y
  {
    var q := x / y;
    assert q * y == x;
    assert q * (y * f) == x * f by {
      assert q * (y * f) == (q * y) * f;
    }
  }

  /** Exposure at ratio `omega`: synonymous plus omega times
   *  nonsynonymous. */
  function Beta(s: Stat, omega: real): real
  {
    s.bsyn + omega * s.bnonsyn
  }

  /** Exposure is additive over accumulated statistics, and at ratio 0 it
   *  is the synonymous exposure alone. */
  lemma BetaPlus(s: Stat, t: Stat, omega: real)
    ensures Beta(Plus(s, t), omega) == Beta(s, omega) + Beta(t, omega)
    ensures Beta(s, 0.0) == s.bsyn
  {
    assert omega * (s.bnonsyn + t.bnonsyn) == omega * s.bnonsyn + omega * t.bnonsyn;
  }

  // ---------------------------------------------------------------------
  // Buffers and streams
  // ---------------------------------------------------------------------

  /** MPIPut: the four totals in the order nsyn, nnonsyn, bsyn, bnonsyn. */
  function Put(s: Stat): (r: seq<Token>)
    ensures |r| == 4 && AllValues(r)
  {
    [Real(s.nsyn), Real(s.nnonsyn), Real(s.bsyn), Real(s.bnonsyn)]
  }

  /** MPIGet: reads four values in the same order. */
  function Get(buf: seq<Token>): Option<(Stat, seq<Token>)>
  {
    match ReadReals(4, buf)
    case None => None
    case Some((v, rest)) => Some((Stat(v[0], v[1], v[2], v[3]), rest))
  }

  /** Reading back what was put gives the same totals and leaves the rest
   *  of the buffer. */
  lemma PutGet(s: Stat, rest: seq<Token>)
    ensures Get(Put(s) + rest) == Some((s, rest))
  {
    var v := [s.nsyn, s.nnonsyn, s.bsyn, s.bnonsyn];
    assert Put(s) == RealTokens(v);
    ReadRealsRoundTrip(v, rest);
  }

  /** ToStream: the four totals separated by tabs (none after the last). */
  function Text(s: Stat): seq<Token>
  {
    [Real(s.nsyn), Tab, Real(s.nnonsyn), Tab, Real(s.bsyn), Tab, Real(s.bnonsyn)]
  }

  lemma TextStrip(s: Stat)
    ensures Strip(Text(s)) == Put(s)
  {
    var v := Put(s);
    assert Tabbed(v[..3]) == [v[0], Tab, v[1], Tab, v[2], Tab] by {
      assert Tabbed([v[2]]) == [v[2], Tab] by {
        assert [v[2]][1..] == [];
      }
      assert Tabbed([v[1], v[2]]) == [v[1], Tab, v[2], Tab] by {
        assert [v[1], v[2]][1..] == [v[2]];
      }
      assert v[..3][1..] == [v[1], v[2]];
    }
    assert Text(s) == Tabbed(v[..3]) + [v[3]];
    StripAppend(Tabbed(v[..3]), [v[3]]);
    StripTabbed(v[..3]);
    StripValues([v[3]]);
    assert v[..3] + [v[3]] == v;
  }

  /** FromStream after ToStream restores the totals. */
  lemma TextRoundTrip(s: Stat)
    ensures Get(Strip(Text(s))) == Some((s, []))
  {
    TextStrip(s);
    PutGet(s, []);
    assert Put(s) + [] == Put(s);
  }

  // ---------------------------------------------------------------------
  // The accumulator
  // ---------------------------------------------------------------------

  class DSOmegaPathSuffStat {
    var nsyn: real
    var nnonsyn: real
    var bsyn: real
    var bnonsyn: real

    function Value(): Stat
      reads this
    {
      Stat(nsyn, nnonsyn, bsyn, bnonsyn)
    }

    /** A new accumulator is cleared. */
    constructor ()
      ensures Value() == Zero
    {
      nsyn, nnonsyn := 0.0, 0.0;
      bsyn, bnonsyn := 0.0, 0.0;
    }

    method Clear()
      modifies this
      ensures Value() == Zero
    {
      nsyn, nnonsyn := 0.0, 0.0;
      bsyn, bnonsyn := 0.0, 0.0;
    }

    /** The synonymous and nonsynonymous rates out of codon `a`. */
    static method CodonRates(c: Codons, a: int) returns (totsyn: real, totnonsyn: real)
      ensures totsyn == SynRate(c, a, c.ncodon) && totnonsyn == NonSynRate(c, a, c.ncodon)
    {
      totsyn, totnonsyn := 0.0, 0.0;
      for b := 0 to c.ncodon
        invariant totsyn == SynRate(c, a, b) && totnonsyn == NonSynRate(c, a, b)
      {
        if b != a {
          if c.rate(a, b) != 0.0 {
            if !c.synonymous(a, b) {
              totnonsyn := totnonsyn + c.rate(a, b);
            } else {
              totsyn := totsyn + c.rate(a, b);
            }
          }
        }
      }
    }

    /** The waiting-time loop shared by both AddSuffStat overloads. */
    static method WaitingTotals(c: Codons, wt: seq<Waiting>) returns (tmpbsyn: real, tmpbnonsyn: real)
      ensures tmpbsyn == WaitSyn(c, wt) && tmpbnonsyn == WaitNonSyn(c, wt)
    {
      tmpbsyn, tmpbnonsyn := 0.0, 0.0;
      for i := 0 to |wt|
        invariant tmpbsyn == WaitSyn(c, wt[..i]) && tmpbnonsyn == WaitNonSyn(c, wt[..i])
      {
        var totsyn, totnonsyn := CodonRates(c, wt[i].state);
        WaitPrefix(c, wt, i);
        tmpbsyn := tmpbsyn + wt[i].time * totsyn;
        tmpbnonsyn := tmpbnonsyn + wt[i].time * totnonsyn;
      }
      assert wt[..|wt|] == wt;
    }

    /** The pair-count loop shared by both AddSuffStat overloads: each
     *  count goes to nsyn or to nnonsyn. */
    method AddPairCounts(c: Codons, pc: seq<PairCount>)
      modifies this`nsyn, this`nnonsyn
      ensures nsyn == old(nsyn) + PairSyn(c, pc) && nnonsyn == old(nnonsyn) + PairNonSyn(c, pc)
      ensures nsyn + nnonsyn == old(nsyn + nnonsyn) + PairTotal(pc)
    {
      for i := 0 to |pc|
        invariant nsyn == old(nsyn) + PairSyn(c, pc[..i]) && nnonsyn == old(nnonsyn) + PairNonSyn(c, pc[..i])
      {
        PairPrefix(c, pc, i);
        if !c.synonymous(pc[i].from, pc[i].to) {
          nnonsyn := nnonsyn + pc[i].count;
        } else {
          nsyn := nsyn + pc[i].count;
        }
      }
      assert pc[..|pc|] == pc;
      PairSplit(c, pc);
    }

    /** AddSuffStat for a history in absolute time along a branch of
     *  length `branchlength` with ratio `omega`. */
    method AddSuffStat(c: Codons, pc: seq<PairCount>, wt: seq<Waiting>, branchlength: real, omega: real)
      requires branchlength != 0.0 && omega != 0.0
      modifies this
      ensures var h := HistoryStat(c, pc, wt);
        Value() == Plus(old(Value()), Stat(h.nsyn, h.nnonsyn, h.bsyn / branchlength, h.bnonsyn / (branchlength * omega)))
      ensures nsyn + nnonsyn == old(nsyn + nnonsyn) + PairTotal(pc)
    {
      var tmpbsyn, tmpbnonsyn := WaitingTotals(c, wt);
      tmpbsyn := tmpbsyn / branchlength;
      tmpbnonsyn := tmpbnonsyn / (branchlength * omega);
      bsyn := bsyn + tmpbsyn;
      bnonsyn := bnonsyn + tmpbnonsyn;
      AddPairCounts(c, pc);
    }

    /** AddSuffStat for a history in relative time: only the nonsynonymous
     *  term is divided, by `omega`. */
    method AddRelativeSuffStat(c: Codons, pc: seq<PairCount>, wt: seq<Waiting>, omega: real)
      requires omega != 0.0
      modifies this
      ensures var h := HistoryStat(c, pc, wt);
        Value() == Plus(old(Value()), Stat(h.nsyn, h.nnonsyn, h.bsyn, h.bnonsyn / omega))
      ensures nsyn + nnonsyn == old(nsyn + nnonsyn) + PairTotal(pc)
    {
      var tmpbsyn, tmpbnonsyn := WaitingTotals(c, wt);
      tmpbnonsyn := tmpbnonsyn / omega;
      bsyn := bsyn + tmpbsyn;
      bnonsyn := bnonsyn + tmpbnonsyn;
      AddPairCounts(c, pc);
    }

    /** Add and +=: component-wise addition of another accumulator's
     *  totals. */
    method Add(from: Stat)
      modifies this
      ensures Value() == Plus(old(Value()), from)
    {
      nsyn := nsyn + from.nsyn;
      nnonsyn := nnonsyn + from.nnonsyn;
      bsyn := bsyn + from.bsyn;
      bnonsyn := bnonsyn + from.bnonsyn;
    }

    method Normalize(factor: real)
      modifies this
      ensures Value() == Scale(old(Value()), factor)
    {
      nsyn := nsyn * factor;
      nnonsyn := nnonsyn * factor;
      bsyn := bsyn * factor;
      bnonsyn := bnonsyn * factor;
    }

    /** GetCount: the total count, converted to int. */
    function GetCount(): (r: int)
      reads this
      ensures nsyn + nnonsyn >= 0.0 ==> r >= 0 && r as real <= nsyn + nnonsyn < r as real + 1.0
    {
      Trunc(nsyn + nnonsyn)
    }

    function GetSynCount(): (r: int)
      reads this
      ensures nsyn >= 0.0 ==> r >= 0 && r as real <= nsyn < r as real + 1.0
    {
      Trunc(nsyn)
    }

    function GetNonSynCount(): (r: int)
      reads this
      ensures nnonsyn >= 0.0 ==> r >= 0 && r as real <= nnonsyn < r as real + 1.0
    {
      Trunc(nnonsyn)
    }

    /** GetBeta(omega): the total exposure at ratio `omega`. */
    function GetBeta(omega: real): (r: real)
      reads this
      ensures r == Beta(Value(), omega)
    {
      bsyn + omega * bnonsyn
    }

    function GetMPISize(): (r: nat)
      reads this
      ensures r == |Put(Value())|
    {
      4
    }

    method MPIPut() returns (buf: seq<Token>)
      ensures buf == Put(Value())
    {
      buf := [Real(nsyn), Real(nnonsyn), Real(bsyn), Real(bnonsyn)];
    }

    /** MPIGet: on a well-formed buffer, the totals become the four values
     *  read; on a short or mistyped buffer nothing changes. */
    method MPIGet(buf: seq<Token>) returns (ok: bool, rest: seq<Token>)
      modifies this
      ensures ok == Get(buf).Some?
      ensures ok ==> Value() == Get(buf).value.0 && rest == Get(buf).value.1
      ensures !ok ==> Value() == old(Value())
    {
      var r := Get(buf);
      if r.None? { return false, buf; }
      nsyn, nnonsyn, bsyn, bnonsyn := r.value.0.nsyn, r.value.0.nnonsyn, r.value.0.bsyn, r.value.0.bnonsyn;
      ok, rest := true, r.value.1;
    }

    /** Add(buffer): reads four values in the MPIPut order and adds each to
     *  its total. */
    method AddBuffer(buf: seq<Token>) returns (ok: bool, rest: seq<Token>)
      modifies this
      ensures ok == Get(buf).Some?
      ensures ok ==> Value() == Plus(old(Value()), Get(buf).value.0) && rest == Get(buf).value.1
      ensures !ok ==> Value() == old(Value())
    {
      var r := Get(buf);
      if r.None? { return false, buf; }
      Add(r.value.0);
      ok, rest := true, r.value.1;
    }

    method ToStream() returns (os: seq<Token>)
      ensures os == Text(Value())
      ensures Strip(os) == Put(Value())
    {
      os := [Real(nsyn), Tab, Real(nnonsyn), Tab, Real(bsyn), Tab, Real(bnonsyn)];
      TextStrip(Value());
    }

    method FromStream(input: seq<Token>) returns (ok: bool)
      modifies this
      ensures ok == Get(Strip(input)).Some?
      ensures ok ==> Value() == Get(Strip(input)).value.0
      ensures !ok ==> Value() == old(Value())
    {
      var rest;
      ok, rest := MPIGet(Strip(input));
    }
  }

  /** dSOmegaPathSuffStatBranchArray: one accumulator per branch, held by
   *  value. */
  class DSOmegaPathSuffStatBranchArray {
    const Nbranch: nat
    var stats: seq<Stat>

    constructor (Nbranch: nat)
      ensures this.Nbranch == Nbranch && stats == seq(Nbranch, i => Zero)
    {
      this.Nbranch := Nbranch;
      stats := seq(Nbranch, i => Zero);
    }

    method Clear()
      requires |stats| == Nbranch
      modifies this`stats
      ensures stats == seq(Nbranch, i => Zero)
    {
      for i := 0 to Nbranch
        invariant |stats| == Nbranch
        invariant forall j :: 0 <= j < i ==> stats[j] == Zero
      {
        stats := stats[i := Zero];
      }
    }

    /** Add: branch-wise Plus of another array over the same tree. */
    method Add(from: seq<Stat>)
      requires |stats| == Nbranch && |from| == Nbranch
      modifies this`stats
      ensures |stats| == Nbranch
      ensures forall i :: 0 <= i < Nbranch ==> stats[i] == Plus(old(stats[i]), from[i])
    {
      ghost var s0 := stats;
      for i := 0 to Nbranch
        invariant |stats| == Nbranch
        invariant forall j :: 0 <= j < i ==> stats[j] == Plus(s0[j], from[j])
        invariant forall j :: i <= j < Nbranch ==> stats[j] == s0[j]
      {
        stats := stats[i := Plus(stats[i], from[i])];
      }
    }

    method Normalize(factor: real)
      requires |stats| == Nbranch
      modifies this`stats
      ensures |stats| == Nbranch
      ensures forall i :: 0 <= i < Nbranch ==> stats[i] == Scale(old(stats[i]), factor)
    {
      ghost var s0 := stats;
      for i := 0 to Nbranch
        invariant |stats| == Nbranch
        invariant forall j :: 0 <= j < i ==> stats[j] == Scale(s0[j], factor)
        invariant forall j :: i <= j < Nbranch ==> stats[j] == s0[j]
      {
        stats := stats[i := Scale(stats[i], factor)];
      }
    }
  }
}
