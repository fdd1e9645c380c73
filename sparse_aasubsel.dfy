/** SparseAASubSelModel: an amino-acid substitution model whose site
 *  profiles are sparse. Every site carries a mask of active amino acids,
 *  fitted from the alignment and then moved one bit at a time under a
 *  running count of active amino acids that never lets a site lose its
 *  last one. The checkpoint saves each group of parameters behind a mode
 *  gate, in one order for the writer and the reader. */
module SparseAASubSel {
  import opened Wrappers
  import opened Counting
  import opened Streams

  const Naa: nat := 20

  /** The alignment's code for a missing state; any value outside
   *  [0, Naa) behaves the same here. */
  const unknown: int := -1

  /** Number of unordered pairs of `n` states. */
  function Pairs(n: nat): nat
  {
    if n == 0 then 0 else Pairs(n - 1) + (n - 1)
  }

  lemma {:induction false} PairsClosedForm(n: nat)
    ensures 2 * Pairs(n) == n * (n - 1)
    decreases n
  {
    if n > 0 {
      PairsClosedForm(n - 1);
      assert (n - 1) * (n - 2) + 2 * (n - 1) == n * (n - 1);
    }
  }

  /** GetNrr: one relative exchange rate per unordered pair of amino
   *  acids. */
  function Nrr(): (r: nat)
    ensures r == Pairs(Naa) && r == 190
  {
    PairsClosedForm(Naa);
    Naa * (Naa - 1) / 2
  }

  // ---------------------------------------------------------------------
  // Mask configuration chosen by the constructor
  // ---------------------------------------------------------------------

  datatype MaskConfig = MaskConfig(maskepsilon: real, maskmode: int, maskepsilonmode: int)

  /** The constructor's reading of `inepsilon`: 1 fixes the background
   *  fitness at 1 and the masks with it; another nonnegative value fixes
   *  the background fitness only; a negative value leaves both free, with
   *  the background fitness starting at 0.01. A mode of 2 or more keeps
   *  its parameter out of the checkpoint (masks: 3 or more). */
  function EpsilonConfig(inepsilon: real): (c: MaskConfig)
    ensures (c.maskepsilonmode < 2) <==> inepsilon < 0.0
    ensures (c.maskmode < 2) <==> inepsilon != 1.0
    ensures (c.maskmode < 3) <==> inepsilon != 1.0
    ensures inepsilon >= 0.0 ==> c.maskepsilon == inepsilon
    ensures inepsilon < 0.0 ==> c.maskepsilon == 0.01
    ensures inepsilon == 1.0 ==> c == MaskConfig(1.0, 3, 3)
    ensures inepsilon >= 0.0 && inepsilon != 1.0 ==> c == MaskConfig(inepsilon, 0, 3)
    ensures inepsilon < 0.0 ==> c == MaskConfig(0.01, 0, 0)
  {
    if inepsilon == 1.0 then MaskConfig(1.0, 3, 3)
    else if inepsilon >= 0.0 then MaskConfig(inepsilon, 0, 3)
    else MaskConfig(0.01, 0, 0)
  }

  // ---------------------------------------------------------------------
  // Masks fitted from the alignment
  // ---------------------------------------------------------------------

  /** `data[j][i]` is the state of taxon `j` at site `i`: an amino acid or
   *  `unknown`. */
  predicate Alignment(data: seq<seq<int>>, Nsite: nat)
  {
    forall j :: 0 <= j < |data| ==>
      |data[j]| == Nsite && forall i :: 0 <= i < Nsite ==> data[j][i] == unknown || 0 <= data[j][i] < Naa
  }

  /** Some taxon among the first `n` shows amino acid `k` at site `i`. */
  predicate SeenAmong(data: seq<seq<int>>, i: nat, k: int, n: nat)
    requires n <= |data| && forall j :: 0 <= j < n ==> i < |data[j]|
  {
    exists j :: 0 <= j < n && data[j][i] == k
  }

  // ---------------------------------------------------------------------
  // The mask move of one site, as a chain of states
  // ---------------------------------------------------------------------

  /** Draws of one MoveMasks call, for site `i` and attempt `rep`: the
   *  uniform draw choosing the amino acid, the Metropolis outcome, and the
   *  gamma draw for a preprofile entry that is switched on. */
  datatype MaskDraws = MaskDraws(
    uniform: (int, int) -> real,
    accept: (int, int) -> bool,
    gamma: (int, int) -> real)

  ghost predicate UnitDraws(d: MaskDraws)
  {
    forall i, rep :: 0.0 <= d.uniform(i, rep) < 1.0
  }

  /** Number of attempts per site: none for a negative `nrep`. */
  function Reps(nrep: int): nat
  {
    if nrep < 0 then 0 else nrep
  }

  /** The amino acid attempt `rep` targets: (int)(Naa * U), or `rep` itself
   *  when `nrep` is 20. */
  function MaskTarget(d: MaskDraws, i: int, rep: nat, nrep: int): (k: int)
    requires UnitDraws(d) && rep < nrep
    ensures 0 <= k < Naa
  {
    var u := d.uniform(i, rep);
    NonNegativeProduct(u, Naa as real);
    ProductStrictlyBelow(u, Naa as real);
    if nrep == 20 then rep else Trunc(u * Naa as real)
  }

  /** The value stored in a switched-on preprofile entry: a draw of exactly
   *  0 is replaced by 1e-8, so a nonnegative draw always gives a positive
   *  entry. */
  function Redraw(g: real): (v: real)
    ensures g >= 0.0 ==> v > 0.0
    ensures g != 0.0 ==> v == g
  {
    if g == 0.0 then 0.00000001 else g
  }

  /** State of one site during MoveMasks: its mask, its preprofile, the
   *  running count `naa`, and the accepted and attempted flips. */
  datatype MaskSite = MaskSite(mask: seq<int>, pre: seq<real>, naa: int, nacc: nat, ntot: nat)

  /** One attempt. A bit may flip only if it is off or another amino acid
   *  stays active. Switching a bit on with `profilemode < 2` redraws its
   *  preprofile entry; a rejected flip is undone, the redrawn entry is
   *  kept. */
  function MaskStep(d: MaskDraws, i: int, rep: nat, nrep: int, profilemode: int, s: MaskSite): (r: MaskSite)
    requires UnitDraws(d) && rep < nrep && |s.mask| == Naa && |s.pre| == Naa
    ensures |r.mask| == Naa && |r.pre| == Naa
  {
    var k := MaskTarget(d, i, rep, nrep);
    if s.mask[k] == 0 || s.naa > 1 then
      var on := 1 - s.mask[k];
      var pre := if profilemode < 2 && on == 1 then s.pre[k := Redraw(d.gamma(i, rep))] else s.pre;
      if d.accept(i, rep) then MaskSite(s.mask[k := on], pre, s.naa - s.mask[k] + on, s.nacc + 1, s.ntot + 1)
      else MaskSite(s.mask, pre, s.naa, s.nacc, s.ntot + 1)
    else s
  }

  /** The site state after the first `n` attempts. */
  function MaskChain(d: MaskDraws, i: int, n: nat, nrep: int, profilemode: int, s0: MaskSite): (r: MaskSite)
    requires UnitDraws(d) && n <= Reps(nrep) && |s0.mask| == Naa && |s0.pre| == Naa
    ensures |r.mask| == Naa && |r.pre| == Naa
    decreases n
  {
    if n == 0 then s0
    else MaskStep(d, i, n - 1, nrep, profilemode, MaskChain(d, i, n - 1, nrep, profilemode, s0))
  }

  /** The state of site `i` at the end of MoveMasks. */
  function SiteResult(d: MaskDraws, i: int, nrep: int, profilemode: int, row: seq<int>, pre: seq<real>): (r: MaskSite)
    requires UnitDraws(d) && |row| == Naa && |pre| == Naa
    ensures |r.mask| == Naa && |r.pre| == Naa
    ensures r.nacc <= r.ntot <= Reps(nrep)
  {
    var s0 := MaskSite(row, pre, Sum(row), 0, 0);
    MaskChainCounts(d, i, Reps(nrep), nrep, profilemode, s0);
    MaskChain(d, i, Reps(nrep), nrep, profilemode, s0)
  }

  /** A site state whose running count is the number of active amino
   *  acids of its mask of bits. */
  predicate GoodSite(s: MaskSite)
  {
    |s.mask| == Naa && Bits(s.mask) && s.naa == Sum(s.mask) && |s.pre| == Naa
  }

  /** One attempt keeps the mask a vector of bits and `naa` its number of
   *  ones, and keeps an active site active. */
  lemma MaskStepKeeps(d: MaskDraws, i: int, rep: nat, nrep: int, profilemode: int, s: MaskSite)
    requires UnitDraws(d) && rep < nrep && GoodSite(s)
    ensures var r := MaskStep(d, i, rep, nrep, profilemode, s);
      GoodSite(r) && (Sum(s.mask) >= 1 ==> Sum(r.mask) >= 1)
  {
    var k := MaskTarget(d, i, rep, nrep);
    SumUpdate(s.mask, k, 1 - s.mask[k]);
    BitsSumBounds(s.mask);
  }

  /** One attempt changes at most the targeted bit, and nothing when it is
   *  rejected. */
  lemma MaskStepLocal(d: MaskDraws, i: int, rep: nat, nrep: int, profilemode: int, s: MaskSite)
    requires UnitDraws(d) && rep < nrep && |s.mask| == Naa && |s.pre| == Naa
    ensures var r := MaskStep(d, i, rep, nrep, profilemode, s);
      && (forall j :: 0 <= j < Naa && j != MaskTarget(d, i, rep, nrep) ==> r.mask[j] == s.mask[j])
      && (!d.accept(i, rep) ==> r.mask == s.mask && r.naa == s.naa)
  {
  }

  /** Over the whole chain the mask stays a vector of bits counted by
   *  `naa`, and a site with an active amino acid keeps one. */
  lemma {:induction false} MaskChainKeeps(d: MaskDraws, i: int, n: nat, nrep: int, profilemode: int, s0: MaskSite)
    requires UnitDraws(d) && n <= Reps(nrep) && GoodSite(s0)
    ensures var r := MaskChain(d, i, n, nrep, profilemode, s0);
      GoodSite(r) && (Sum(s0.mask) >= 1 ==> Sum(r.mask) >= 1)
    decreases n
  {
    if n > 0 {
      MaskChainKeeps(d, i, n - 1, nrep, profilemode, s0);
      MaskStepKeeps(d, i, n - 1, nrep, profilemode, MaskChain(d, i, n - 1, nrep, profilemode, s0));
    }
  }

  /** The counts of accepted and attempted flips, for any starting mask. */
  lemma {:induction false} MaskChainCounts(d: MaskDraws, i: int, n: nat, nrep: int, profilemode: int, s0: MaskSite)
    requires UnitDraws(d) && n <= Reps(nrep) && |s0.mask| == Naa && |s0.pre| == Naa
    requires s0.nacc == 0 && s0.ntot == 0
    ensures var r := MaskChain(d, i, n, nrep, profilemode, s0); r.nacc <= r.ntot <= n
    decreases n
  {
    if n > 0 {
      MaskChainCounts(d, i, n - 1, nrep, profilemode, s0);
    }
  }

  /** With every flip rejected the mask is exactly the one the move
   *  started from. */
  lemma {:induction false} MaskChainAllRejected(d: MaskDraws, i: int, n: nat, nrep: int, profilemode: int, s0: MaskSite)
    requires UnitDraws(d) && n <= Reps(nrep) && |s0.mask| == Naa && |s0.pre| == Naa
    requires forall rep :: 0 <= rep < n ==> !d.accept(i, rep)
    ensures MaskChain(d, i, n, nrep, profilemode, s0).mask == s0.mask
    ensures MaskChain(d, i, n, nrep, profilemode, s0).naa == s0.naa
    decreases n
  {
    if n > 0 {
      MaskChainAllRejected(d, i, n - 1, nrep, profilemode, s0);
    }
  }

  /** Nonnegative gamma draws keep a positive preprofile positive. */
  lemma {:induction false} MaskChainPositive(d: MaskDraws, i: int, n: nat, nrep: int, profilemode: int, s0: MaskSite)
    requires UnitDraws(d) && n <= Reps(nrep) && |s0.mask| == Naa && |s0.pre| == Naa
    requires forall rep :: 0 <= rep < n ==> d.gamma(i, rep) >= 0.0
    requires PositiveReals(s0.pre)
    ensures PositiveReals(MaskChain(d, i, n, nrep, profilemode, s0).pre)
    decreases n
  {
    if n > 0 {
      MaskChainPositive(d, i, n - 1, nrep, profilemode, s0);
      var s := MaskChain(d, i, n - 1, nrep, profilemode, s0);
      var k := MaskTarget(d, i, n - 1, nrep);
      assert Redraw(d.gamma(i, n - 1)) > 0.0;
    }
  }

  /** With 20 attempts every amino acid is targeted once, in order. */
  lemma SweepTargets(d: MaskDraws, i: int, rep: nat)
    requires UnitDraws(d) && rep < 20
    ensures MaskTarget(d, i, rep, 20) == rep
  {
  }

  /** The end state of every site, each moved from its own mask and
   *  preprofile. */
  function SiteResults(d: MaskDraws, nrep: int, profilemode: int, m0: seq<seq<int>>, p0: seq<seq<real>>): (rs: seq<MaskSite>)
    requires UnitDraws(d) && |m0| == |p0| && Rectangular(m0, Naa) && Rectangular(p0, Naa)
    ensures |rs| == |m0|
    ensures forall i :: 0 <= i < |m0| ==> rs[i] == SiteResult(d, i, nrep, profilemode, m0[i], p0[i])
  {
    seq(|m0|, i requires 0 <= i < |m0| => SiteResult(d, i, nrep, profilemode, m0[i], p0[i]))
  }

  /** Accepted and attempted flips summed over sites. */
  function Trials(rs: seq<MaskSite>): (t: (nat, nat))
    ensures (forall j :: 0 <= j < |rs| ==> rs[j].nacc <= rs[j].ntot) ==> t.0 <= t.1
    decreases |rs|
  {
    if rs == [] then (0, 0)
    else
      var t := Trials(rs[..|rs| - 1]);
      (t.0 + rs[|rs| - 1].nacc, t.1 + rs[|rs| - 1].ntot)
  }

  lemma TrialsPrefix(rs: seq<MaskSite>, i: nat)
    requires i < |rs|
    ensures Trials(rs[..i + 1]) == (Trials(rs[..i]).0 + rs[i].nacc, Trials(rs[..i]).1 + rs[i].ntot)
  {
    assert rs[..i + 1][..i] == rs[..i];
  }

  /** With at most `b` attempts per site, at most `|rs| * b` in all. */
  lemma {:induction false} TrialsBound(rs: seq<MaskSite>, b: nat)
    requires forall j :: 0 <= j < |rs| ==> rs[j].ntot <= b
    ensures Trials(rs).1 <= b * |rs|
    decreases |rs|
  {
    if rs != [] {
      TrialsBound(rs[..|rs| - 1], b);
      MulSucc(b, |rs| - 1);
    }
  }

  /** MoveMasks attempts at most `nrep` flips per site and accepts no
   *  more than it attempts. */
  lemma MoveMasksBound(d: MaskDraws, nrep: int, profilemode: int, m0: seq<seq<int>>, p0: seq<seq<real>>)
    requires UnitDraws(d) && |m0| == |p0| && Rectangular(m0, Naa) && Rectangular(p0, Naa)
    ensures var t := Trials(SiteResults(d, nrep, profilemode, m0, p0)); t.0 <= t.1 <= Reps(nrep) * |m0|
  {
    TrialsBound(SiteResults(d, nrep, profilemode, m0, p0), Reps(nrep));
  }

  // ---------------------------------------------------------------------
  // Checkpoint layout (ToStream/FromStream, MPIPut/MPIGet/GetMPISize)
  // ---------------------------------------------------------------------

  datatype Modes = Modes(blmode: int, rrmode: int, profilemode: int, maskmode: int, maskepsilonmode: int)

  /** The saved parameters in the order they are written. */
  datatype Params = Params(
    lambda: real, branchlength: seq<real>, relrate: seq<real>,
    preprofile: seq<seq<real>>, pi: real, mask: seq<seq<int>>, maskepsilon: real)

  predicate SameShape(t: Params, p: Params)
  {
    && |t.branchlength| == |p.branchlength| && |t.relrate| == |p.relrate|
    && |t.preprofile| == |p.preprofile| && Rectangular(p.preprofile, Naa)
    && |t.mask| == |p.mask| && Rectangular(p.mask, Naa)
  }

  function BranchValues(p: Params, m: Modes): seq<Token>
  {
    if m.blmode < 2 then [Real(p.lambda)] + RealTokens(p.branchlength) else []
  }

  function RelRateValues(p: Params, m: Modes): seq<Token>
  {
    if m.rrmode < 2 then RealTokens(p.relrate) else []
  }

  function ProfileValues(p: Params, m: Modes): seq<Token>
  {
    if m.profilemode < 2 then RowTokens(p.preprofile) else []
  }

  function PiValues(p: Params, m: Modes): seq<Token>
  {
    if m.maskmode < 2 then [Real(p.pi)] else []
  }

  function MaskValues(p: Params, m: Modes): seq<Token>
  {
    if m.maskmode < 3 then IntRowTokens(p.mask) else []
  }

  function EpsilonValues(p: Params, m: Modes): seq<Token>
  {
    if m.maskepsilonmode < 2 then [Real(p.maskepsilon)] else []
  }

  /** What MPIPut writes. */
  function PutValues(p: Params, m: Modes): seq<Token>
  {
    BranchValues(p, m) + RelRateValues(p, m) + ProfileValues(p, m)
    + PiValues(p, m) + MaskValues(p, m) + EpsilonValues(p, m)
  }

  /** A gated part of the text stream: its text when the gate is open,
   *  nothing otherwise. */
  function Group(open: bool, w: seq<Token>): seq<Token>
  {
    if open then w else []
  }

  /** What ToStream writes: the fields of MPIPut, a scalar followed by one
   *  tab, a vector written value by value, each value followed by a tab,
   *  with one more tab after it. */
  function StreamText(p: Params, m: Modes): seq<Token>
  {
    Group(m.blmode < 2, Tabbed([Real(p.lambda)])) + Group(m.blmode < 2, Field(RealTokens(p.branchlength)))
    + Group(m.rrmode < 2, Field(RealTokens(p.relrate)))
    + Group(m.profilemode < 2, Field(RowTokens(p.preprofile)))
    + Group(m.maskmode < 2, Tabbed([Real(p.pi)]))
    + Group(m.maskmode < 3, Field(IntRowTokens(p.mask)))
    + Group(m.maskepsilonmode < 2, Tabbed([Real(p.maskepsilon)]))
  }

  /** GetMPISize, field by field. */
  function MPISize(p: Params, m: Modes): nat
  {
    (if m.blmode < 2 then 1 + |p.branchlength| else 0)
    + (if m.rrmode < 2 then |p.relrate| else 0)
    + (if m.profilemode < 2 then |p.preprofile| * Naa else 0)
    + (if m.maskmode < 2 then 1 else 0)
    + (if m.maskmode < 3 then |p.mask| * Naa else 0)
    + (if m.maskepsilonmode < 2 then 1 else 0)
  }

  // Readers: each group reads into the reader's current values `t`,
  // taking vector sizes from it, and changes only its own fields.

  function ReadBranch(t: Params, m: Modes, s: seq<Token>): (r: Option<(Params, seq<Token>)>)
    ensures r.Some? ==> r.value.0 == t.(lambda := r.value.0.lambda, branchlength := r.value.0.branchlength)
  {
    if m.blmode < 2 then
      match ReadReal(s)
      case None => None
      case Some((lambda, s1)) =>
        match ReadReals(|t.branchlength|, s1)
        case None => None
        case Some((bl, s2)) => Some((t.(lambda := lambda, branchlength := bl), s2))
    else Some((t, s))
  }

  function ReadRelRate(t: Params, m: Modes, s: seq<Token>): (r: Option<(Params, seq<Token>)>)
    ensures r.Some? ==> r.value.0 == t.(relrate := r.value.0.relrate)
  {
    if m.rrmode < 2 then
      match ReadReals(|t.relrate|, s)
      case None => None
      case Some((rr, s1)) => Some((t.(relrate := rr), s1))
    else Some((t, s))
  }

  function ReadProfile(t: Params, m: Modes, s: seq<Token>): (r: Option<(Params, seq<Token>)>)
    ensures r.Some? ==> r.value.0 == t.(preprofile := r.value.0.preprofile)
  {
    if m.profilemode < 2 then
      match ReadRows(|t.preprofile|, Naa, s)
      case None => None
      case Some((pp, s1)) => Some((t.(preprofile := pp), s1))
    else Some((t, s))
  }

  function ReadPi(t: Params, m: Modes, s: seq<Token>): (r: Option<(Params, seq<Token>)>)
    ensures r.Some? ==> r.value.0 == t.(pi := r.value.0.pi)
  {
    if m.maskmode < 2 then
      match ReadReal(s)
      case None => None
      case Some((pi, s1)) => Some((t.(pi := pi), s1))
    else Some((t, s))
  }

  function ReadMask(t: Params, m: Modes, s: seq<Token>): (r: Option<(Params, seq<Token>)>)
    ensures r.Some? ==> r.value.0 == t.(mask := r.value.0.mask)
  {
    if m.maskmode < 3 then
      match ReadIntRows(|t.mask|, Naa, s)
      case None => None
      case Some((mk, s1)) => Some((t.(mask := mk), s1))
    else Some((t, s))
  }

  function ReadEpsilon(t: Params, m: Modes, s: seq<Token>): (r: Option<(Params, seq<Token>)>)
    ensures r.Some? ==> r.value.0 == t.(maskepsilon := r.value.0.maskepsilon)
  {
    if m.maskepsilonmode < 2 then
      match ReadReal(s)
      case None => None
      case Some((e, s1)) => Some((t.(maskepsilon := e), s1))
    else Some((t, s))
  }

  /** The reader (MPIGet, and FromStream once separators are skipped). */
  function GetValues(t: Params, m: Modes, s: seq<Token>): Option<(Params, seq<Token>)>
  {
    match ReadBranch(t, m, s)
    case None => None
    case Some((t1, s1)) =>
      match ReadRelRate(t1, m, s1)
      case None => None
      case Some((t2, s2)) =>
        match ReadProfile(t2, m, s2)
        case None => None
        case Some((t3, s3)) => GetMaskValues(t3, m, s3)
  }

  /** The reader's second half: the mask parameters. */
  function GetMaskValues(t: Params, m: Modes, s: seq<Token>): Option<(Params, seq<Token>)>
  {
    match ReadPi(t, m, s)
    case None => None
    case Some((t4, s4)) =>
      match ReadMask(t4, m, s4)
      case None => None
      case Some((t5, s5)) => ReadEpsilon(t5, m, s5)
  }

  /** What the reader holds after reading a writer holding `p`: the fields
   *  behind an open gate come from `p`, the others stay as they were. */
  function Merge(t: Params, p: Params, m: Modes): Params
  {
    var t1 := if m.blmode < 2 then t.(lambda := p.lambda, branchlength := p.branchlength) else t;
    var t2 := if m.rrmode < 2 then t1.(relrate := p.relrate) else t1;
    var t3 := if m.profilemode < 2 then t2.(preprofile := p.preprofile) else t2;
    MergeMask(t3, p, m)
  }

  function MergeMask(t: Params, p: Params, m: Modes): Params
  {
    var t4 := if m.maskmode < 2 then t.(pi := p.pi) else t;
    var t5 := if m.maskmode < 3 then t4.(mask := p.mask) else t4;
    if m.maskepsilonmode < 2 then t5.(maskepsilon := p.maskepsilon) else t5
  }

  lemma ReadBranchRoundTrip(t: Params, p: Params, m: Modes, rest: seq<Token>)
    requires |t.branchlength| == |p.branchlength|
    ensures ReadBranch(t, m, BranchValues(p, m) + rest)
         == Some((if m.blmode < 2 then t.(lambda := p.lambda, branchlength := p.branchlength) else t, rest))
  {
    if m.blmode < 2 {
      assert (BranchValues(p, m) + rest)[1..] == RealTokens(p.branchlength) + rest;
      ReadRealsRoundTrip(p.branchlength, rest);
    } else {
      assert BranchValues(p, m) + rest == rest;
    }
  }

  lemma ReadRelRateRoundTrip(t: Params, p: Params, m: Modes, rest: seq<Token>)
    requires |t.relrate| == |p.relrate|
    ensures ReadRelRate(t, m, RelRateValues(p, m) + rest)
         == Some((if m.rrmode < 2 then t.(relrate := p.relrate) else t, rest))
  {
    if m.rrmode < 2 {
      ReadRealsRoundTrip(p.relrate, rest);
    } else {
      assert RelRateValues(p, m) + rest == rest;
    }
  }

  lemma ReadProfileRoundTrip(t: Params, p: Params, m: Modes, rest: seq<Token>)
    requires |t.preprofile| == |p.preprofile| && Rectangular(p.preprofile, Naa)
    ensures ReadProfile(t, m, ProfileValues(p, m) + rest)
         == Some((if m.profilemode < 2 then t.(preprofile := p.preprofile) else t, rest))
  {
    if m.profilemode < 2 {
      ReadRowsRoundTrip(p.preprofile, Naa, rest);
    } else {
      assert ProfileValues(p, m) + rest == rest;
    }
  }

  lemma ReadPiRoundTrip(t: Params, p: Params, m: Modes, rest: seq<Token>)
    ensures ReadPi(t, m, PiValues(p, m) + rest)
         == Some((if m.maskmode < 2 then t.(pi := p.pi) else t, rest))
  {
    if m.maskmode < 2 {
      assert (PiValues(p, m) + rest)[1..] == rest;
    } else {
      assert PiValues(p, m) + rest == rest;
    }
  }

  lemma ReadMaskRoundTrip(t: Params, p: Params, m: Modes, rest: seq<Token>)
    requires |t.mask| == |p.mask| && Rectangular(p.mask, Naa)
    ensures ReadMask(t, m, MaskValues(p, m) + rest)
         == Some((if m.maskmode < 3 then t.(mask := p.mask) else t, rest))
  {
    if m.maskmode < 3 {
      ReadIntRowsRoundTrip(p.mask, Naa, rest);
    } else {
      assert MaskValues(p, m) + rest == rest;
    }
  }

  lemma ReadEpsilonRoundTrip(t: Params, p: Params, m: Modes, rest: seq<Token>)
    ensures ReadEpsilon(t, m, EpsilonValues(p, m) + rest)
         == Some((if m.maskepsilonmode < 2 then t.(maskepsilon := p.maskepsilon) else t, rest))
  {
    if m.maskepsilonmode < 2 {
      assert (EpsilonValues(p, m) + rest)[1..] == rest;
    } else {
      assert EpsilonValues(p, m) + rest == rest;
    }
  }

  /** MPIGet after MPIPut restores every saved field, leaves the unsaved
   *  ones as they were and consumes exactly what was written. */
  lemma RoundTrip(t: Params, p: Params, m: Modes, rest: seq<Token>)
    requires SameShape(t, p)
    ensures GetValues(t, m, PutValues(p, m) + rest) == Some((Merge(t, p, m), rest))
  {
    var r3 := PiValues(p, m) + MaskValues(p, m) + EpsilonValues(p, m) + rest;
    var r2 := ProfileValues(p, m) + r3;
    var r1 := RelRateValues(p, m) + r2;
    var b, rr, pp, pi, mk := BranchValues(p, m), RelRateValues(p, m), ProfileValues(p, m), PiValues(p, m), MaskValues(p, m);
    assert PutValues(p, m) + rest == (b + rr + pp) + r3;
    assert (b + rr + pp) + r3 == (b + rr) + r2;
    assert (b + rr) + r2 == b + r1;
    ReadBranchRoundTrip(t, p, m, r1);
    var t1 := if m.blmode < 2 then t.(lambda := p.lambda, branchlength := p.branchlength) else t;
    ReadRelRateRoundTrip(t1, p, m, r2);
    var t2 := if m.rrmode < 2 then t1.(relrate := p.relrate) else t1;
    ReadProfileRoundTrip(t2, p, m, r3);
    var t3 := if m.profilemode < 2 then t2.(preprofile := p.preprofile) else t2;
    MaskRoundTrip(t3, p, m, rest);
  }

  lemma MaskRoundTrip(t: Params, p: Params, m: Modes, rest: seq<Token>)
    requires |t.mask| == |p.mask| && Rectangular(p.mask, Naa)
    ensures GetMaskValues(t, m, PiValues(p, m) + MaskValues(p, m) + EpsilonValues(p, m) + rest)
         == Some((MergeMask(t, p, m), rest))
  {
    var r5 := EpsilonValues(p, m) + rest;
    var r4 := MaskValues(p, m) + r5;
    assert PiValues(p, m) + MaskValues(p, m) + EpsilonValues(p, m) + rest == PiValues(p, m) + r4;
    ReadPiRoundTrip(t, p, m, r4);
    var t4 := if m.maskmode < 2 then t.(pi := p.pi) else t;
    ReadMaskRoundTrip(t4, p, m, r5);
    var t5 := if m.maskmode < 3 then t4.(mask := p.mask) else t4;
    ReadEpsilonRoundTrip(t5, p, m, rest);
  }

  /** Writing one more gated part adds its values to what the stream
   *  holds. */
  lemma StripStep(acc: seq<Token>, vals: seq<Token>, open: bool, w: seq<Token>, v: seq<Token>)
    requires Strip(acc) == vals && Strip(w) == v
    ensures Strip(acc + Group(open, w)) == vals + (if open then v else [])
  {
    StripAppend(acc, Group(open, w));
  }

  /** The text stream holds exactly the buffer's values, in order. */
  lemma StreamTextStrip(p: Params, m: Modes)
    ensures Strip(StreamText(p, m)) == PutValues(p, m)
  {
    StripScalar(Real(p.lambda));
    StripField(RealTokens(p.branchlength));
    StripField(RealTokens(p.relrate));
    StripField(RowTokens(p.preprofile));
    StripScalar(Real(p.pi));
    StripField(IntRowTokens(p.mask));
    StripScalar(Real(p.maskepsilon));
    var a := Group(m.blmode < 2, Tabbed([Real(p.lambda)]));
    StripStep([], [], m.blmode < 2, Tabbed([Real(p.lambda)]), [Real(p.lambda)]);
    var ab := a + Group(m.blmode < 2, Field(RealTokens(p.branchlength)));
    StripStep(a, if m.blmode < 2 then [Real(p.lambda)] else [], m.blmode < 2, Field(RealTokens(p.branchlength)), RealTokens(p.branchlength));
    var v1 := BranchValues(p, m);
    var ac := ab + Group(m.rrmode < 2, Field(RealTokens(p.relrate)));
    StripStep(ab, v1, m.rrmode < 2, Field(RealTokens(p.relrate)), RealTokens(p.relrate));
    var v2 := v1 + RelRateValues(p, m);
    var ad := ac + Group(m.profilemode < 2, Field(RowTokens(p.preprofile)));
    StripStep(ac, v2, m.profilemode < 2, Field(RowTokens(p.preprofile)), RowTokens(p.preprofile));
    var v3 := v2 + ProfileValues(p, m);
    var ae := ad + Group(m.maskmode < 2, Tabbed([Real(p.pi)]));
    StripStep(ad, v3, m.maskmode < 2, Tabbed([Real(p.pi)]), [Real(p.pi)]);
    var v4 := v3 + PiValues(p, m);
    var af := ae + Group(m.maskmode < 3, Field(IntRowTokens(p.mask)));
    StripStep(ae, v4, m.maskmode < 3, Field(IntRowTokens(p.mask)), IntRowTokens(p.mask));
    var v5 := v4 + MaskValues(p, m);
    StripStep(af, v5, m.maskepsilonmode < 2, Tabbed([Real(p.maskepsilon)]), [Real(p.maskepsilon)]);
  }

  /** The text stream reads back the same way as the buffer once its
   *  separators are skipped. */
  lemma StreamRoundTrip(t: Params, p: Params, m: Modes)
    requires SameShape(t, p)
    ensures GetValues(t, m, Strip(StreamText(p, m))) == Some((Merge(t, p, m), []))
  {
    StreamTextStrip(p, m);
    RoundTrip(t, p, m, []);
    assert PutValues(p, m) + [] == PutValues(p, m);
  }

  /** The size announced for the buffer is the number of values written. */
  lemma MPISizeRoundTrip(p: Params, m: Modes)
    requires Rectangular(p.preprofile, Naa) && Rectangular(p.mask, Naa)
    ensures MPISize(p, m) == |PutValues(p, m)|
  {
    RowTokensLength(p.preprofile, Naa);
    IntRowTokensLength(p.mask, Naa);
  }

  /** Writes a scalar and its tab when its gate is open. */
  method AppendScalar(os: seq<Token>, open: bool, x: Token) returns (os': seq<Token>)
    ensures os' == os + Group(open, Tabbed([x]))
  {
    os' := os;
    if open {
      os' := WriteValues(os', [x]);
    }
  }

  /** Writes a vector field when its gate is open. */
  method AppendField(os: seq<Token>, open: bool, v: seq<Token>) returns (os': seq<Token>)
    ensures os' == os + Group(open, Field(v))
  {
    os' := os;
    if open {
      os' := WriteField(os', v);
    }
  }

  // ---------------------------------------------------------------------
  // The model
  // ---------------------------------------------------------------------

  class SparseAASubSelModel {
    const Nsite: nat
    const Ntaxa: nat
    const Nbranch: nat

    var blmode: int
    var rrmode: int
    var maskepsilonmode: int
    var maskmode: int
    var ratemode: int
    var profilemode: int

    var lambda: real
    var branchlength: seq<real>
    var relrate: seq<real>
    /** Unnormalised site profiles, Nsite rows of Naa entries. */
    var preprofile: seq<seq<real>>
    var pi: real
    /** Site masks, Nsite rows of Naa bits: 1 marks an active amino acid. */
    var mask: seq<seq<int>>
    var maskepsilon: real

    ghost predicate Shape()
      reads this
    {
      && |branchlength| == Nbranch && |relrate| == Nrr()
      && |preprofile| == Nsite && Rectangular(preprofile, Naa)
      && |mask| == Nsite && Rectangular(mask, Naa)
    }

    /** The constructor's mode settings, followed by the allocation of the
     *  parameters: `bl0`, `rr0` and `pre0` are the initial draws of the
     *  branch lengths, exchange rates and preprofiles. The masks start
     *  empty until FitSiteMaskArray fills them. */
    constructor (Nsite: nat, Ntaxa: nat, Nbranch: nat, inratemode: int, inprofilemode: int, inepsilon: real,
                 bl0: seq<real>, rr0: seq<real>, pre0: seq<seq<real>>)
      requires |bl0| == Nbranch && |rr0| == Nrr() && |pre0| == Nsite && Rectangular(pre0, Naa)
      ensures this.Nsite == Nsite && this.Ntaxa == Ntaxa && this.Nbranch == Nbranch && Shape()
      ensures blmode == 0 && rrmode == 0 && ratemode == inratemode && profilemode == inprofilemode
      ensures MaskConfig(maskepsilon, maskmode, maskepsilonmode) == EpsilonConfig(inepsilon)
      ensures lambda == 10.0 && pi == 0.1
      ensures branchlength == bl0 && relrate == rr0 && preprofile == pre0
      ensures mask == seq(Nsite, i => seq(Naa, k => 0))
    {
      this.Nsite, this.Ntaxa, this.Nbranch := Nsite, Ntaxa, Nbranch;
      blmode, rrmode := 0, 0;
      ratemode, profilemode := inratemode, inprofilemode;
      var c := EpsilonConfig(inepsilon);
      maskepsilon, maskmode, maskepsilonmode := c.maskepsilon, c.maskmode, c.maskepsilonmode;
      lambda := 10.0;
      branchlength, relrate, preprofile := bl0, rr0, pre0;
      pi := 0.1;
      mask := seq(Nsite, i => seq(Naa, k => 0));
    }

    /** Sets the mask of every site: amino acid `k` is active at site `i`
     *  exactly when some taxon shows `k` there. */
    method FitSiteMaskArray(data: seq<seq<int>>)
      requires |data| == Ntaxa && Alignment(data, Nsite) && |mask| == Nsite
      modifies this`mask
      ensures |mask| == Nsite && Rectangular(mask, Naa)
      ensures forall i :: 0 <= i < Nsite ==> Bits(mask[i])
      ensures forall i, k :: 0 <= i < Nsite && 0 <= k < Naa ==>
        (mask[i][k] == 1 <==> SeenAmong(data, i, k, Ntaxa))
    {
      for i := 0 to Nsite
        invariant |mask| == Nsite
        invariant forall i' :: 0 <= i' < i ==> |mask[i']| == Naa && Bits(mask[i'])
        invariant forall i', k :: 0 <= i' < i && 0 <= k < Naa ==>
          (mask[i'][k] == 1 <==> SeenAmong(data, i', k, Ntaxa))
      {
        var x := FitSite(data, i);
        mask := mask[i := x];
      }
    }

    /** The mask of site `i`: cleared, then every observed state set. */
    method FitSite(data: seq<seq<int>>, i: nat) returns (x: seq<int>)
      requires |data| == Ntaxa && Alignment(data, Nsite) && i < Nsite
      ensures |x| == Naa && Bits(x)
      ensures forall k :: 0 <= k < Naa ==> (x[k] == 1 <==> SeenAmong(data, i, k, Ntaxa))
    {
      x := seq(Naa, k => 0);
      for j := 0 to Ntaxa
        invariant |x| == Naa && Bits(x)
        invariant forall k :: 0 <= k < Naa ==> (x[k] == 1 <==> SeenAmong(data, i, k, j))
      {
        var state := data[j][i];
        if state != unknown {
          x := x[state := 1];
        }
        forall k | 0 <= k < Naa
          ensures x[k] == 1 <==> SeenAmong(data, i, k, j + 1)
        {
          if data[j][i] == k {
            assert SeenAmong(data, i, k, j + 1);
          } else if SeenAmong(data, i, k, j + 1) {
            var j' :| 0 <= j' < j + 1 && data[j'][i] == k;
            assert SeenAmong(data, i, k, j);
          }
        }
      }
    }

    ghost predicate MaskShape()
      reads this
    {
      |mask| == Nsite && Rectangular(mask, Naa) && |preprofile| == Nsite && Rectangular(preprofile, Naa)
    }

    /** The running count at the start of a site: the sum of its mask. */
    method CountActive(row: seq<int>) returns (naa: int)
      ensures naa == Sum(row)
    {
      naa := 0;
      for k := 0 to |row|
        invariant naa == Sum(row[..k])
      {
        SumPrefix(row, k);
        naa := naa + row[k];
      }
      assert row[..|row|] == row;
    }

    /** Attempt `rep` at site `i`, on the site's row of mask bits, its row
     *  of preprofile entries and its running counts. */
    method MaskAttempt(i: nat, rep: nat, nrep: int, d: MaskDraws, s: MaskSite) returns (r: MaskSite)
      requires UnitDraws(d) && rep < nrep && |s.mask| == Naa && |s.pre| == Naa
      ensures r == MaskStep(d, i, rep, nrep, profilemode, s)
    {
      var row, pre, naa, nacc, ntot := s.mask, s.pre, s.naa, s.nacc, s.ntot;
      var k := MaskTarget(d, i, rep, nrep);
      if row[k] == 0 || naa > 1 {
        naa := naa - row[k];
        row := row[k := 1 - row[k]];
        naa := naa + row[k];
        if profilemode < 2 && row[k] == 1 {
          pre := pre[k := Redraw(d.gamma(i, rep))];
        }
        if d.accept(i, rep) {
          nacc := nacc + 1;
        } else {
          naa := naa - row[k];
          row := row[k := 1 - row[k]];
          naa := naa + row[k];
          assert row == s.mask;
        }
        ntot := ntot + 1;
      }
      r := MaskSite(row, pre, naa, nacc, ntot);
    }

    /** The `nrep` attempts at site `i`; the site ends as SiteResult
     *  describes and no other site changes. The site's mask and
     *  preprofile are worked on as a row and written back at the end. */
    method MoveSiteMask(i: nat, nrep: int, d: MaskDraws) returns (nacc: nat, ntot: nat)
      requires MaskShape() && i < Nsite && UnitDraws(d)
      modifies this`mask, this`preprofile
      ensures MaskShape()
      ensures var r := SiteResult(d, i, nrep, profilemode, old(mask)[i], old(preprofile)[i]);
        && mask == old(mask)[i := r.mask] && preprofile == old(preprofile)[i := r.pre]
        && nacc == r.nacc && ntot == r.ntot
    {
      var naa := CountActive(mask[i]);
      var s := MaskSite(mask[i], preprofile[i], naa, 0, 0);
      ghost var s0 := s;
      var rep := 0;
      while rep < nrep
        invariant 0 <= rep <= Reps(nrep)
        invariant s == MaskChain(d, i, rep, nrep, profilemode, s0)
        modifies {}
      {
        s := MaskAttempt(i, rep, nrep, d, s);
        rep := rep + 1;
      }
      mask := mask[i := s.mask];
      preprofile := preprofile[i := s.pre];
      nacc, ntot := s.nacc, s.ntot;
    }

    /** Metropolis moves on the masks, site after site. Every site ends as
     *  SiteResult describes; the rate is the fraction of accepted flips,
     *  undefined (0/0) when no flip was attempted. */
    method MoveMasks(nrep: int, d: MaskDraws) returns (rate: Option<real>)
      requires MaskShape() && UnitDraws(d)
      modifies this`mask, this`preprofile
      ensures MaskShape()
      ensures var rs := SiteResults(d, nrep, profilemode, old(mask), old(preprofile));
        && (forall i :: 0 <= i < Nsite ==> mask[i] == rs[i].mask && preprofile[i] == rs[i].pre)
        && var t := Trials(rs);
        && (rate.None? <==> t.1 == 0)
        && (rate.Some? ==> rate.value == t.0 as real / t.1 as real && 0.0 <= rate.value <= 1.0)
    {
      ghost var rs := SiteResults(d, nrep, profilemode, mask, preprofile);
      ghost var m0, p0 := mask, preprofile;
      var nacc, ntot := 0, 0;
      for i := 0 to Nsite
        invariant MaskShape()
        invariant forall j :: 0 <= j < i ==> mask[j] == rs[j].mask && preprofile[j] == rs[j].pre
        invariant forall j :: i <= j < Nsite ==> mask[j] == m0[j] && preprofile[j] == p0[j]
        invariant (nacc, ntot) == Trials(rs[..i])
      {
        assert rs[i] == SiteResult(d, i, nrep, profilemode, mask[i], preprofile[i]);
        var a, t := MoveSiteMask(i, nrep, d);
        assert a == rs[i].nacc && t == rs[i].ntot;
        TrialsPrefix(rs, i);
        nacc, ntot := nacc + a, ntot + t;
      }
      assert rs[..Nsite] == rs;
      if ntot == 0 {
        rate := None;
      } else {
        RateBounds(nacc, ntot);
        rate := Some(nacc as real / ntot as real);
      }
    }

    // Checkpoint

    function GetParams(): Params
      reads this
    {
      Params(lambda, branchlength, relrate, preprofile, pi, mask, maskepsilon)
    }

    function GetModes(): Modes
      reads this
    {
      Modes(blmode, rrmode, profilemode, maskmode, maskepsilonmode)
    }

    method MPIPut() returns (buf: seq<Token>)
      ensures buf == PutValues(GetParams(), GetModes())
    {
      var p, m := GetParams(), GetModes();
      buf := [];
      if blmode < 2 {
        buf := buf + [Real(lambda)] + RealTokens(branchlength);
      }
      assert buf == BranchValues(p, m);
      if rrmode < 2 {
        buf := buf + RealTokens(relrate);
      }
      assert buf == BranchValues(p, m) + RelRateValues(p, m);
      if profilemode < 2 {
        buf := buf + RowTokens(preprofile);
      }
      assert buf == BranchValues(p, m) + RelRateValues(p, m) + ProfileValues(p, m);
      if maskmode < 2 {
        buf := buf + [Real(pi)];
      }
      if maskmode < 3 {
        buf := buf + IntRowTokens(mask);
      }
      assert buf == BranchValues(p, m) + RelRateValues(p, m) + ProfileValues(p, m) + PiValues(p, m) + MaskValues(p, m);
      if maskepsilonmode < 2 {
        buf := buf + [Real(maskepsilon)];
      }
    }

    method ToStream() returns (os: seq<Token>)
      ensures os == StreamText(GetParams(), GetModes())
      ensures Strip(os) == PutValues(GetParams(), GetModes())
    {
      var p, m := GetParams(), GetModes();
      os := AppendScalar([], m.blmode < 2, Real(p.lambda));
      assert os == Group(m.blmode < 2, Tabbed([Real(p.lambda)]));
      os := AppendField(os, m.blmode < 2, RealTokens(p.branchlength));
      os := AppendField(os, m.rrmode < 2, RealTokens(p.relrate));
      os := AppendField(os, m.profilemode < 2, RowTokens(p.preprofile));
      os := AppendScalar(os, m.maskmode < 2, Real(p.pi));
      os := AppendField(os, m.maskmode < 3, IntRowTokens(p.mask));
      os := AppendScalar(os, m.maskepsilonmode < 2, Real(p.maskepsilon));
      StreamTextStrip(p, m);
    }

    method GetMPISize() returns (size: nat)
      requires Shape()
      ensures size == |PutValues(GetParams(), GetModes())|
    {
      size := 0;
      if blmode < 2 {
        size := size + 1 + |branchlength|;
      }
      if rrmode < 2 {
        size := size + |relrate|;
      }
      if profilemode < 2 {
        size := size + |preprofile| * Naa;
      }
      if maskmode < 2 {
        size := size + 1;
      }
      if maskmode < 3 {
        size := size + |mask| * Naa;
      }
      if maskepsilonmode < 2 {
        size := size + 1;
      }
      MPISizeRoundTrip(GetParams(), GetModes());
    }

    /** Reads the saved groups back in the writer's order. */
    method MPIGet(buf: seq<Token>) returns (ok: bool)
      modifies this`lambda, this`branchlength, this`relrate, this`preprofile, this`pi, this`mask, this`maskepsilon
      ensures var r := GetValues(old(GetParams()), GetModes(), buf);
        ok == r.Some? && (ok ==> GetParams() == r.value.0)
    {
      var rest;
      ok, rest := GetBranch(buf);
      if !ok { return; }
      ok, rest := GetRelRate(rest);
      if !ok { return; }
      ok, rest := GetProfile(rest);
      if !ok { return; }
      ok, rest := GetPi(rest);
      if !ok { return; }
      ok, rest := GetMask(rest);
      if !ok { return; }
      ok, rest := GetEpsilon(rest);
    }

    // One reader per group of saved fields.

    method GetBranch(buf: seq<Token>) returns (ok: bool, rest: seq<Token>)
      modifies this`lambda, this`branchlength
      ensures var r := ReadBranch(old(GetParams()), GetModes(), buf);
        ok == r.Some? && (ok ==> GetParams() == r.value.0 && rest == r.value.1)
    {
      var r := ReadBranch(GetParams(), GetModes(), buf);
      if r.None? { return false, []; }
      lambda, branchlength := r.value.0.lambda, r.value.0.branchlength;
      ok, rest := true, r.value.1;
    }

    method GetRelRate(buf: seq<Token>) returns (ok: bool, rest: seq<Token>)
      modifies this`relrate
      ensures var r := ReadRelRate(old(GetParams()), GetModes(), buf);
        ok == r.Some? && (ok ==> GetParams() == r.value.0 && rest == r.value.1)
    {
      var r := ReadRelRate(GetParams(), GetModes(), buf);
      if r.None? { return false, []; }
      relrate := r.value.0.relrate;
      ok, rest := true, r.value.1;
    }

    method GetProfile(buf: seq<Token>) returns (ok: bool, rest: seq<Token>)
      modifies this`preprofile
      ensures var r := ReadProfile(old(GetParams()), GetModes(), buf);
        ok == r.Some? && (ok ==> GetParams() == r.value.0 && rest == r.value.1)
    {
      var r := ReadProfile(GetParams(), GetModes(), buf);
      if r.None? { return false, []; }
      preprofile := r.value.0.preprofile;
      ok, rest := true, r.value.1;
    }

    method GetPi(buf: seq<Token>) returns (ok: bool, rest: seq<Token>)
      modifies this`pi
      ensures var r := ReadPi(old(GetParams()), GetModes(), buf);
        ok == r.Some? && (ok ==> GetParams() == r.value.0 && rest == r.value.1)
    {
      var r := ReadPi(GetParams(), GetModes(), buf);
      if r.None? { return false, []; }
      pi := r.value.0.pi;
      ok, rest := true, r.value.1;
    }

    method GetMask(buf: seq<Token>) returns (ok: bool, rest: seq<Token>)
      modifies this`mask
      ensures var r := ReadMask(old(GetParams()), GetModes(), buf);
        ok == r.Some? && (ok ==> GetParams() == r.value.0 && rest == r.value.1)
    {
      var r := ReadMask(GetParams(), GetModes(), buf);
      if r.None? { return false, []; }
      mask := r.value.0.mask;
      ok, rest := true, r.value.1;
    }

    method GetEpsilon(buf: seq<Token>) returns (ok: bool, rest: seq<Token>)
      modifies this`maskepsilon
      ensures var r := ReadEpsilon(old(GetParams()), GetModes(), buf);
        ok == r.Some? && (ok ==> GetParams() == r.value.0 && rest == r.value.1)
    {
      var r := ReadEpsilon(GetParams(), GetModes(), buf);
      if r.None? { return false, []; }
      maskepsilon := r.value.0.maskepsilon;
      ok, rest := true, r.value.1;
    }

    /** The text reader skips the separators and reads as MPIGet. */
    method FromStream(input: seq<Token>) returns (ok: bool)
      modifies this`lambda, this`branchlength, this`relrate, this`preprofile, this`pi, this`mask, this`maskepsilon
      ensures var r := GetValues(old(GetParams()), GetModes(), Strip(input));
        ok == r.Some? && (ok ==> GetParams() == r.value.0)
    {
      ok := MPIGet(Strip(input));
    }
  }

  /** A site that shows at least one amino acid in the alignment starts
   *  with an active amino acid, and MoveMasks keeps it so. */
  lemma FittedSitesStayActive(data: seq<seq<int>>, Nsite: nat, i: nat, row: seq<int>, pre: seq<real>,
                              d: MaskDraws, nrep: int, profilemode: int)
    requires Alignment(data, Nsite) && i < Nsite && UnitDraws(d)
    requires |row| == Naa && Bits(row) && |pre| == Naa
    requires forall k :: 0 <= k < Naa ==> (row[k] == 1 <==> SeenAmong(data, i, k, |data|))
    requires exists j :: 0 <= j < |data| && data[j][i] != unknown
    ensures Sum(SiteResult(d, i, nrep, profilemode, row, pre).mask) >= 1
  {
    var j :| 0 <= j < |data| && data[j][i] != unknown;
    var k := data[j][i];
    assert SeenAmong(data, i, k, |data|);
    assert row[k] == 1;
    SumOneBit(row, k);
    MaskChainKeeps(d, i, Reps(nrep), nrep, profilemode, MaskSite(row, pre, Sum(row), 0, 0));
  }

  /** A vector of bits with a one somewhere sums to at least one. */
  lemma {:induction false} SumOneBit(s: seq<int>, k: nat)
    requires Bits(s) && k < |s| && s[k] == 1
    ensures Sum(s) >= 1
    decreases |s|
  {
    var n := |s| - 1;
    BitsSumBounds(s[..n]);
    if k < n {
      SumOneBit(s[..n], k);
    }
  }
}
