/** DiffSelSparseModel: a codon model whose amino-acid fitness may shift
 *  between conditions. Condition 0 is the baseline; for every other
 *  condition k a row of toggles (k-1) says, site by site and amino acid by
 *  amino acid, whether the fitness of condition k replaces the baseline.
 *  The model keeps a running count of the set toggles while it flips them,
 *  scales exactly the active fitness entries in its compensatory move, and
 *  moves the shifted fitness only at sites that have a shift. */
module DiffSelSparse {
  import opened Wrappers
  import opened Counting
  import opened Streams

  const Naa: nat := 20
  /** Nucleotide states and nucleotide exchange rates; both constants are
   *  defined in headers that are not part of this model. */
  const Nnuc: nat := 4
  const Nrr: nat := 6

  // ---------------------------------------------------------------------
  // Counting toggles
  // ---------------------------------------------------------------------

  /** Number of set toggles of one condition, over all sites (the row event
   *  number of the toggle array). */
  function Shifts(rows: seq<seq<int>>): int
  {
    if rows == [] then 0 else Shifts(rows[..|rows| - 1]) + Sum(rows[|rows| - 1])
  }

  predicate BitRows(rows: seq<seq<int>>)
  {
    forall i :: 0 <= i < |rows| ==> Bits(rows[i])
  }

  /** ResampleShiftProb's count: between 0 and Nsite * Naa. */
  lemma {:induction false} ShiftsBounds(rows: seq<seq<int>>)
    requires BitRows(rows) && Rectangular(rows, Naa)
    ensures 0 <= Shifts(rows) <= Naa * |rows|
    decreases |rows|
  {
    if rows != [] {
      var n := |rows| - 1;
      ShiftsBounds(rows[..n]);
      BitsSumBounds(rows[n]);
      MulSucc(Naa, n);
    }
  }

  /** Replacing one site's row changes the count by the difference of the
   *  rows' sums. */
  lemma {:induction false} ShiftsUpdate(rows: seq<seq<int>>, i: nat, row: seq<int>)
    requires i < |rows|
    ensures Shifts(rows[i := row]) == Shifts(rows) - Sum(rows[i]) + Sum(row)
    decreases |rows|
  {
    var n := |rows| - 1;
    if i < n {
      assert rows[i := row][..n] == rows[..n][i := row];
      ShiftsUpdate(rows[..n], i, row);
    } else {
      assert rows[i := row][..n] == rows[..n];
    }
  }

  lemma ShiftsPrefix(rows: seq<seq<int>>, i: nat)
    requires i < |rows|
    ensures Shifts(rows[..i + 1]) == Shifts(rows[..i]) + Sum(rows[i])
  {
    assert rows[..i + 1][..i] == rows[..i];
  }

  /** A toggle array of (Ncond-1) rows of Nsite sites of Naa bits. */
  predicate ToggleShape(toggle: seq<seq<seq<int>>>, n: nat, Nsite: nat)
  {
    |toggle| == n && forall k :: 0 <= k < n ==> |toggle[k]| == Nsite && Rectangular(toggle[k], Naa) && BitRows(toggle[k])
  }

  /** A fitness array of Ncond rows of Nsite sites of Naa entries. */
  predicate FitnessShape(fitness: seq<seq<seq<real>>>, n: nat, Nsite: nat)
  {
    |fitness| == n && forall k :: 0 <= k < n ==> |fitness[k]| == Nsite && Rectangular(fitness[k], Naa)
  }

  // ---------------------------------------------------------------------
  // MoveShiftToggles, as a chain of states
  // ---------------------------------------------------------------------

  /** Draws of one MoveShiftToggles call for condition `k`, by replicate
   *  `rep` and site `i`: the uniform choosing the amino acid, the
   *  Metropolis outcome, the gamma draw for a fitness switched on, and the
   *  final Beta draw of the shift probability, given the hyperparameters,
   *  the number of set toggles and the number of toggles. */
  datatype ToggleDraws = ToggleDraws(
    uniform: (int, int, int) -> real,
    accept: (int, int, int) -> bool,
    gamma: (int, int, int) -> real,
    beta: (int, real, real, int, int) -> real)

  ghost predicate UnitToggleDraws(d: ToggleDraws)
  {
    forall k, rep, i :: 0.0 <= d.uniform(k, rep, i) < 1.0
  }

  function Reps(nrep: int): nat
  {
    if nrep < 0 then 0 else nrep
  }

  /** The amino acid a toggle proposal targets: (int)(Naa * U). */
  function ToggleTarget(d: ToggleDraws, k: int, rep: int, i: int): (a: int)
    requires UnitToggleDraws(d)
    ensures 0 <= a < Naa
  {
    var u := d.uniform(k, rep, i);
    NonNegativeProduct(u, Naa as real);
    ProductStrictlyBelow(u, Naa as real);
    Trunc(u * Naa as real)
  }

  /** One condition's toggles and shifted fitness during the move, with the
   *  running shift count and the accepted and attempted flips. */
  datatype ToggleState = ToggleState(toggle: seq<seq<int>>, fitness: seq<seq<real>>, nshift: int, nacc: nat, ntot: nat)

  predicate Shaped(s: ToggleState)
  {
    |s.fitness| == |s.toggle| && Rectangular(s.toggle, Naa) && Rectangular(s.fitness, Naa)
  }

  /** The toggles are bits and the running count is their number. */
  predicate Counted(s: ToggleState)
  {
    Shaped(s) && BitRows(s.toggle) && s.nshift == Shifts(s.toggle) && s.nacc <= s.ntot
  }

  /** One proposal at site `i`: a toggle that is off is switched on with a
   *  fresh fitness value, any other is switched off; a rejected flip is
   *  undone by writing back 0 or 1 (the fresh fitness value stays). */
  function ToggleStep(d: ToggleDraws, k: int, rep: int, i: nat, s: ToggleState): (r: ToggleState)
    requires UnitToggleDraws(d) && Shaped(s) && i < |s.toggle|
    ensures Shaped(r) && |r.toggle| == |s.toggle| && r.ntot == s.ntot + 1
  {
    var a := ToggleTarget(d, k, rep, i);
    if s.toggle[i][a] == 0 then
      var fit := s.fitness[i := s.fitness[i][a := d.gamma(k, rep, i)]];
      if d.accept(k, rep, i) then
        ToggleState(s.toggle[i := s.toggle[i][a := 1]], fit, s.nshift + 1, s.nacc + 1, s.ntot + 1)
      else ToggleState(s.toggle, fit, s.nshift, s.nacc, s.ntot + 1)
    else if d.accept(k, rep, i) then
      ToggleState(s.toggle[i := s.toggle[i][a := 0]], s.fitness, s.nshift - 1, s.nacc + 1, s.ntot + 1)
    else ToggleState(s.toggle[i := s.toggle[i][a := 1]], s.fitness, s.nshift, s.nacc, s.ntot + 1)
  }

  /** The first `n` sites of replicate `rep`. */
  function ToggleSweep(d: ToggleDraws, k: int, rep: int, n: nat, s: ToggleState): (r: ToggleState)
    requires UnitToggleDraws(d) && Shaped(s) && n <= |s.toggle|
    ensures Shaped(r) && |r.toggle| == |s.toggle| && r.ntot == s.ntot + n
    decreases n
  {
    if n == 0 then s else ToggleStep(d, k, rep, n - 1, ToggleSweep(d, k, rep, n - 1, s))
  }

  /** The first `n` replicates, each sweeping every site. */
  function ToggleChain(d: ToggleDraws, k: int, n: nat, s: ToggleState): (r: ToggleState)
    requires UnitToggleDraws(d) && Shaped(s)
    ensures Shaped(r) && |r.toggle| == |s.toggle|
    decreases n
  {
    if n == 0 then s else ToggleSweep(d, k, n - 1, |s.toggle|, ToggleChain(d, k, n - 1, s))
  }

  /** A proposal keeps the toggles bits and the running count equal to
   *  their number. */
  lemma ToggleStepCounted(d: ToggleDraws, k: int, rep: int, i: nat, s: ToggleState)
    requires UnitToggleDraws(d) && Counted(s) && i < |s.toggle|
    ensures Counted(ToggleStep(d, k, rep, i, s))
  {
    var a := ToggleTarget(d, k, rep, i);
    var r := ToggleStep(d, k, rep, i, s);
    ToggleStepFlips(d, k, rep, i, s);
    if d.accept(k, rep, i) {
      var v := 1 - s.toggle[i][a];
      SumUpdate(s.toggle[i], a, v);
      ShiftsUpdate(s.toggle, i, s.toggle[i][a := v]);
    }
  }

  /** Writing back the value a position already holds changes nothing. */
  lemma RewriteBit(t: seq<seq<int>>, i: nat, a: nat, v: int)
    requires i < |t| && a < |t[i]| && t[i][a] == v
    ensures t[i := t[i][a := v]] == t
  {
    assert t[i][a := v] == t[i];
  }

  /** A proposal flips exactly the targeted toggle when accepted and
   *  leaves every toggle as it was when rejected. */
  lemma ToggleStepFlips(d: ToggleDraws, k: int, rep: int, i: nat, s: ToggleState)
    requires UnitToggleDraws(d) && Counted(s) && i < |s.toggle|
    ensures var a := ToggleTarget(d, k, rep, i); var r := ToggleStep(d, k, rep, i, s);
      && (d.accept(k, rep, i) ==> r.toggle == s.toggle[i := s.toggle[i][a := 1 - s.toggle[i][a]]])
      && (!d.accept(k, rep, i) ==> r.toggle == s.toggle)
  {
    var a := ToggleTarget(d, k, rep, i);
    assert Bits(s.toggle[i]);
    if s.toggle[i][a] != 0 {
      RewriteBit(s.toggle, i, a, 1);
    }
  }

  lemma {:induction false} ToggleSweepCounted(d: ToggleDraws, k: int, rep: int, n: nat, s: ToggleState)
    requires UnitToggleDraws(d) && Counted(s) && n <= |s.toggle|
    ensures Counted(ToggleSweep(d, k, rep, n, s))
    decreases n
  {
    if n > 0 {
      ToggleSweepCounted(d, k, rep, n - 1, s);
      ToggleStepCounted(d, k, rep, n - 1, ToggleSweep(d, k, rep, n - 1, s));
    }
  }

  /** The running count is the number of set toggles after every
   *  replicate. */
  lemma {:induction false} ToggleChainCounted(d: ToggleDraws, k: int, n: nat, s: ToggleState)
    requires UnitToggleDraws(d) && Counted(s)
    ensures Counted(ToggleChain(d, k, n, s))
    decreases n
  {
    if n > 0 {
      ToggleChainCounted(d, k, n - 1, s);
      ToggleSweepCounted(d, k, n - 1, |s.toggle|, ToggleChain(d, k, n - 1, s));
    }
  }

  /** Every replicate makes one proposal per site. */
  lemma {:induction false} ToggleChainAttempts(d: ToggleDraws, k: int, n: nat, s: ToggleState)
    requires UnitToggleDraws(d) && Shaped(s)
    ensures ToggleChain(d, k, n, s).ntot == s.ntot + |s.toggle| * n
    decreases n
  {
    if n > 0 {
      ToggleChainAttempts(d, k, n - 1, s);
      MulSucc(|s.toggle|, n - 1);
    }
  }

  // ---------------------------------------------------------------------
  // CompMoveFitness: the active set
  // ---------------------------------------------------------------------

  /** Whether entry `a` of condition `k` at site `i` is in play: every
   *  baseline entry, and the entries of another condition whose toggle is
   *  set (none outside the toggle array). */
  predicate Active(toggle: seq<seq<seq<int>>>, k: nat, i: nat, a: nat)
  {
    k == 0 || (k - 1 < |toggle| && i < |toggle[k - 1]| && a < |toggle[k - 1][i]| && toggle[k - 1][i][a] != 0)
  }

  /** Row `i` of condition `k` with each active entry multiplied by `e`. */
  function ScaleRow(row: seq<real>, toggle: seq<seq<seq<int>>>, k: nat, i: nat, e: real): (r: seq<real>)
    ensures |r| == |row|
    ensures forall a :: 0 <= a < |row| ==> r[a] == if Active(toggle, k, i, a) then row[a] * e else row[a]
  {
    seq(|row|, a requires 0 <= a < |row| => if Active(toggle, k, i, a) then row[a] * e else row[a])
  }

  function DivideRow(row: seq<real>, toggle: seq<seq<seq<int>>>, k: nat, i: nat, e: real): (r: seq<real>)
    requires e != 0.0
    ensures |r| == |row|
    ensures forall a :: 0 <= a < |row| ==> r[a] == if Active(toggle, k, i, a) then row[a] / e else row[a]
  {
    seq(|row|, a requires 0 <= a < |row| => if Active(toggle, k, i, a) then row[a] / e else row[a])
  }

  /** Dividing back the same set by the same factor restores the row. */
  lemma DivideScaleRow(row: seq<real>, toggle: seq<seq<seq<int>>>, k: nat, i: nat, e: real)
    requires e != 0.0
    ensures DivideRow(ScaleRow(row, toggle, k, i, e), toggle, k, i, e) == row
  {
    var r := DivideRow(ScaleRow(row, toggle, k, i, e), toggle, k, i, e);
    forall a | 0 <= a < |row| ensures r[a] == row[a] {
      if Active(toggle, k, i, a) {
        assert row[a] * e / e == row[a];
      }
    }
  }

  /** Site `i` of every condition, with each active entry multiplied by
   *  `e`. */
  function ScaleSite(fitness: seq<seq<seq<real>>>, toggle: seq<seq<seq<int>>>, i: nat, e: real): (r: seq<seq<seq<real>>>)
    ensures |r| == |fitness|
  {
    seq(|fitness|, k requires 0 <= k < |fitness| =>
      if i < |fitness[k]| then fitness[k][i := ScaleRow(fitness[k][i], toggle, k, i, e)] else fitness[k])
  }

  function DivideSite(fitness: seq<seq<seq<real>>>, toggle: seq<seq<seq<int>>>, i: nat, e: real): (r: seq<seq<seq<real>>>)
    requires e != 0.0
    ensures |r| == |fitness|
  {
    seq(|fitness|, k requires 0 <= k < |fitness| =>
      if i < |fitness[k]| then fitness[k][i := DivideRow(fitness[k][i], toggle, k, i, e)] else fitness[k])
  }

  /** Number of active entries among the first `n` of row `i` of
   *  condition `k`. */
  function ActiveIn(toggle: seq<seq<seq<int>>>, k: nat, i: nat, n: nat): nat
  {
    if n == 0 then 0 else ActiveIn(toggle, k, i, n - 1) + (if Active(toggle, k, i, n - 1) then 1 else 0)
  }

  /** Number of scaled entries at site `i` over the first `n` conditions:
   *  the `n` of the Hastings term. */
  function ActiveCount(toggle: seq<seq<seq<int>>>, i: nat, n: nat): nat
  {
    if n == 0 then 0 else ActiveCount(toggle, i, n - 1) + ActiveIn(toggle, n - 1, i, Naa)
  }

  /** Set toggles of site `i` over the first `n` toggle rows. */
  function SiteShifts(toggle: seq<seq<seq<int>>>, i: nat, n: nat): int
    requires n <= |toggle| && forall k :: 0 <= k < |toggle| ==> i < |toggle[k]|
  {
    if n == 0 then 0 else SiteShifts(toggle, i, n - 1) + Sum(toggle[n - 1][i])
  }

  /** With toggles that are bits, the count is the Naa baseline entries
   *  plus the set toggles of the site. */
  lemma {:induction false} ActiveCountShifts(toggle: seq<seq<seq<int>>>, i: nat, n: nat, Nsite: nat)
    requires ToggleShape(toggle, |toggle|, Nsite) && i < Nsite && 1 <= n <= |toggle| + 1
    ensures ActiveCount(toggle, i, n) == Naa + SiteShifts(toggle, i, n - 1)
    decreases n
  {
    if n == 1 {
      BaselineActive(toggle, i, Naa);
    } else {
      ActiveCountShifts(toggle, i, n - 1, Nsite);
      ActiveInShifts(toggle, n - 1, i, Naa);
      assert toggle[n - 2][i][..Naa] == toggle[n - 2][i];
    }
  }

  lemma {:induction false} BaselineActive(toggle: seq<seq<seq<int>>>, i: nat, n: nat)
    ensures ActiveIn(toggle, 0, i, n) == n
    decreases n
  {
    if n > 0 {
      BaselineActive(toggle, i, n - 1);
    }
  }

  /** In a shifted condition, the active entries of a row of bits are its
   *  set toggles. */
  lemma {:induction false} ActiveInShifts(toggle: seq<seq<seq<int>>>, k: nat, i: nat, n: nat)
    requires 1 <= k <= |toggle| && i < |toggle[k - 1]| && n <= |toggle[k - 1][i]| && Bits(toggle[k - 1][i])
    ensures ActiveIn(toggle, k, i, n) == Sum(toggle[k - 1][i][..n])
    decreases n
  {
    if n > 0 {
      ActiveInShifts(toggle, k, i, n - 1);
      SumPrefix(toggle[k - 1][i], n - 1);
    }
  }

  /** Draws of one CompMoveFitness call: the factor e = exp(m) and the
   *  Metropolis outcome, which may depend on the number of scaled entries
   *  through the Hastings term n * m. */
  datatype CompDraws = CompDraws(scale: (int, int) -> real, accept: (int, int, int) -> bool)

  ghost predicate PositiveScales(d: CompDraws)
  {
    forall rep, i :: d.scale(rep, i) > 0.0
  }

  datatype CompState = CompState(fitness: seq<seq<seq<real>>>, nacc: nat, ntot: nat)

  /** One proposal at site `i`: the active entries are scaled by e; a
   *  rejection divides the same entries back. */
  function CompStep(d: CompDraws, toggle: seq<seq<seq<int>>>, rep: int, i: nat, s: CompState): (r: CompState)
    requires PositiveScales(d)
    ensures r.ntot == s.ntot + 1 && r.nacc <= s.nacc + 1
  {
    var e := d.scale(rep, i);
    var up := ScaleSite(s.fitness, toggle, i, e);
    if d.accept(rep, i, ActiveCount(toggle, i, |s.fitness|)) then CompState(up, s.nacc + 1, s.ntot + 1)
    else CompState(DivideSite(up, toggle, i, e), s.nacc, s.ntot + 1)
  }

  function CompSweep(d: CompDraws, toggle: seq<seq<seq<int>>>, rep: int, n: nat, s: CompState): (r: CompState)
    requires PositiveScales(d)
    ensures r.ntot == s.ntot + n
    decreases n
  {
    if n == 0 then s else CompStep(d, toggle, rep, n - 1, CompSweep(d, toggle, rep, n - 1, s))
  }

  /** `n` replicates, each sweeping the first `Nsite` sites. */
  function CompChain(d: CompDraws, toggle: seq<seq<seq<int>>>, Nsite: nat, n: nat, s: CompState): CompState
    requires PositiveScales(d)
    decreases n
  {
    if n == 0 then s else CompSweep(d, toggle, n - 1, Nsite, CompChain(d, toggle, Nsite, n - 1, s))
  }

  /** A rejected proposal leaves every fitness value as it was. */
  lemma CompStepRejected(d: CompDraws, toggle: seq<seq<seq<int>>>, rep: int, i: nat, s: CompState)
    requires PositiveScales(d) && !d.accept(rep, i, ActiveCount(toggle, i, |s.fitness|))
    ensures CompStep(d, toggle, rep, i, s).fitness == s.fitness
  {
    var e := d.scale(rep, i);
    var up := ScaleSite(s.fitness, toggle, i, e);
    var r := DivideSite(up, toggle, i, e);
    forall k | 0 <= k < |s.fitness| ensures r[k] == s.fitness[k] {
      if i < |s.fitness[k]| {
        DivideScaleRow(s.fitness[k][i], toggle, k, i, e);
        assert up[k] == s.fitness[k][i := ScaleRow(s.fitness[k][i], toggle, k, i, e)];
        assert r[k] == up[k][i := DivideRow(up[k][i], toggle, k, i, e)];
      }
    }
  }

  /** Entry (k, j, a) of a fitness array, 0 outside it. */
  function Entry(f: seq<seq<seq<real>>>, k: nat, j: nat, a: nat): real
  {
    if k < |f| && j < |f[k]| && a < |f[k][j]| then f[k][j][a] else 0.0
  }

  /** A proposal never touches an inactive entry. */
  lemma CompStepInactive(d: CompDraws, toggle: seq<seq<seq<int>>>, rep: int, i: nat, s: CompState, k: nat, j: nat, a: nat)
    requires PositiveScales(d) && !Active(toggle, k, j, a)
    ensures Entry(CompStep(d, toggle, rep, i, s).fitness, k, j, a) == Entry(s.fitness, k, j, a)
  {
    var e := d.scale(rep, i);
    var up := ScaleSite(s.fitness, toggle, i, e);
    assert Entry(up, k, j, a) == Entry(s.fitness, k, j, a);
    var dn := DivideSite(up, toggle, i, e);
    assert Entry(dn, k, j, a) == Entry(up, k, j, a);
  }

  lemma {:induction false} CompSweepInactive(d: CompDraws, toggle: seq<seq<seq<int>>>, rep: int, n: nat, s: CompState,
                                             k: nat, j: nat, a: nat)
    requires PositiveScales(d) && !Active(toggle, k, j, a)
    ensures Entry(CompSweep(d, toggle, rep, n, s).fitness, k, j, a) == Entry(s.fitness, k, j, a)
    decreases n
  {
    if n > 0 {
      CompSweepInactive(d, toggle, rep, n - 1, s, k, j, a);
      CompStepInactive(d, toggle, rep, n - 1, CompSweep(d, toggle, rep, n - 1, s), k, j, a);
    }
  }

  /** The whole move leaves every inactive fitness entry as it was. */
  lemma {:induction false} CompChainInactive(d: CompDraws, toggle: seq<seq<seq<int>>>, Nsite: nat, n: nat, s: CompState,
                                             k: nat, j: nat, a: nat)
    requires PositiveScales(d) && !Active(toggle, k, j, a)
    ensures Entry(CompChain(d, toggle, Nsite, n, s).fitness, k, j, a) == Entry(s.fitness, k, j, a)
    decreases n
  {
    if n > 0 {
      CompChainInactive(d, toggle, Nsite, n - 1, s, k, j, a);
      CompSweepInactive(d, toggle, n - 1, Nsite, CompChain(d, toggle, Nsite, n - 1, s), k, j, a);
    }
  }

  /** A proposal at site `i` leaves every other site as it was. */
  lemma CompStepOtherSites(d: CompDraws, toggle: seq<seq<seq<int>>>, rep: int, i: nat, s: CompState, k: nat, j: nat)
    requires PositiveScales(d) && j != i && k < |s.fitness|
    ensures j < |s.fitness[k]| ==> CompStep(d, toggle, rep, i, s).fitness[k][j] == s.fitness[k][j]
  {
  }

  /** The move keeps the shape of the fitness array. */
  lemma {:induction false} CompChainShape(d: CompDraws, toggle: seq<seq<seq<int>>>, Nsite: nat, n: nat, s: CompState)
    requires PositiveScales(d) && FitnessShape(s.fitness, |s.fitness|, Nsite)
    ensures FitnessShape(CompChain(d, toggle, Nsite, n, s).fitness, |s.fitness|, Nsite)
    decreases n
  {
    if n > 0 {
      CompChainShape(d, toggle, Nsite, n - 1, s);
      CompSweepShape(d, toggle, n - 1, Nsite, CompChain(d, toggle, Nsite, n - 1, s), Nsite);
    }
  }

  lemma {:induction false} CompSweepShape(d: CompDraws, toggle: seq<seq<seq<int>>>, rep: int, n: nat, s: CompState, Nsite: nat)
    requires PositiveScales(d) && FitnessShape(s.fitness, |s.fitness|, Nsite)
    ensures FitnessShape(CompSweep(d, toggle, rep, n, s).fitness, |s.fitness|, Nsite)
    decreases n
  {
    if n > 0 {
      CompSweepShape(d, toggle, rep, n - 1, s, Nsite);
      var c := CompSweep(d, toggle, rep, n - 1, s);
      var e := d.scale(rep, n - 1);
      var up := ScaleSite(c.fitness, toggle, n - 1, e);
      assert FitnessShape(up, |s.fitness|, Nsite) by {
        forall k | 0 <= k < |up| ensures |up[k]| == Nsite && Rectangular(up[k], Naa) {
        }
      }
      var dn := DivideSite(up, toggle, n - 1, e);
      assert FitnessShape(dn, |s.fitness|, Nsite) by {
        forall k | 0 <= k < |dn| ensures |dn[k]| == Nsite && Rectangular(dn[k], Naa) {
        }
      }
    }
  }

  /** Every replicate makes one proposal per site. */
  lemma {:induction false} CompChainAttempts(d: CompDraws, toggle: seq<seq<seq<int>>>, Nsite: nat, n: nat, s: CompState)
    requires PositiveScales(d)
    ensures CompChain(d, toggle, Nsite, n, s).ntot == s.ntot + Nsite * n
    ensures CompChain(d, toggle, Nsite, n, s).nacc <= CompChain(d, toggle, Nsite, n, s).ntot - s.ntot + s.nacc
    decreases n
  {
    if n > 0 {
      CompChainAttempts(d, toggle, Nsite, n - 1, s);
      CompSweepAccepts(d, toggle, n - 1, Nsite, CompChain(d, toggle, Nsite, n - 1, s));
      MulSucc(Nsite, n - 1);
    }
  }

  lemma {:induction false} CompSweepAccepts(d: CompDraws, toggle: seq<seq<seq<int>>>, rep: int, n: nat, s: CompState)
    requires PositiveScales(d)
    ensures CompSweep(d, toggle, rep, n, s).nacc <= s.nacc + n
    decreases n
  {
    if n > 0 {
      CompSweepAccepts(d, toggle, rep, n - 1, s);
    }
  }

  // ---------------------------------------------------------------------
  // MoveFitnessShifts: only sites with a shift
  // ---------------------------------------------------------------------

  /** Draws of one MoveFitnessShifts call for condition `k`: the proposed
   *  fitness vector (which may move only the toggled entries; it is
   *  computed by code outside this model) and the Metropolis outcome. */
  datatype ShiftDraws = ShiftDraws(propose: (int, int, seq<real>, seq<int>) -> seq<real>, accept: (int, int) -> bool)

  ghost predicate ProposalShape(d: ShiftDraws)
  {
    forall rep, i, x, m :: |d.propose(rep, i, x, m)| == |x|
  }

  datatype ShiftState = ShiftState(fitness: seq<seq<real>>, nacc: nat, ntot: nat)

  /** One visit of site `i`: skipped when the site has no shift; otherwise
   *  a proposal that a rejection restores from the backup. */
  function ShiftStep(d: ShiftDraws, toggle: seq<seq<int>>, rep: int, i: nat, s: ShiftState): (r: ShiftState)
    requires ProposalShape(d) && |s.fitness| == |toggle| && Rectangular(s.fitness, Naa) && i < |toggle|
    ensures |r.fitness| == |toggle| && Rectangular(r.fitness, Naa)
  {
    if Sum(toggle[i]) != 0 then
      if d.accept(rep, i) then ShiftState(s.fitness[i := d.propose(rep, i, s.fitness[i], toggle[i])], s.nacc + 1, s.ntot + 1)
      else ShiftState(s.fitness, s.nacc, s.ntot + 1)
    else s
  }

  function ShiftSweep(d: ShiftDraws, toggle: seq<seq<int>>, rep: int, n: nat, s: ShiftState): (r: ShiftState)
    requires ProposalShape(d) && |s.fitness| == |toggle| && Rectangular(s.fitness, Naa) && n <= |toggle|
    ensures |r.fitness| == |toggle| && Rectangular(r.fitness, Naa)
    decreases n
  {
    if n == 0 then s else ShiftStep(d, toggle, rep, n - 1, ShiftSweep(d, toggle, rep, n - 1, s))
  }

  function ShiftChain(d: ShiftDraws, toggle: seq<seq<int>>, n: nat, s: ShiftState): (r: ShiftState)
    requires ProposalShape(d) && |s.fitness| == |toggle| && Rectangular(s.fitness, Naa)
    ensures |r.fitness| == |toggle| && Rectangular(r.fitness, Naa)
    decreases n
  {
    if n == 0 then s else ShiftSweep(d, toggle, n - 1, |toggle|, ShiftChain(d, toggle, n - 1, s))
  }

  /** Sites among the first `n` that have a shift. */
  function ShiftedSites(toggle: seq<seq<int>>, n: nat): nat
    requires n <= |toggle|
  {
    if n == 0 then 0 else ShiftedSites(toggle, n - 1) + (if Sum(toggle[n - 1]) != 0 then 1 else 0)
  }

  /** A site without a shift keeps its fitness vector through a sweep. */
  lemma {:induction false} ShiftSweepSkips(d: ShiftDraws, toggle: seq<seq<int>>, rep: int, n: nat, s: ShiftState, j: nat)
    requires ProposalShape(d) && |s.fitness| == |toggle| && Rectangular(s.fitness, Naa) && n <= |toggle|
    requires j < |toggle| && Sum(toggle[j]) == 0
    ensures ShiftSweep(d, toggle, rep, n, s).fitness[j] == s.fitness[j]
    decreases n
  {
    if n > 0 {
      ShiftSweepSkips(d, toggle, rep, n - 1, s, j);
    }
  }

  /** The whole move never touches a site without a shift. */
  lemma {:induction false} ShiftChainSkips(d: ShiftDraws, toggle: seq<seq<int>>, n: nat, s: ShiftState, j: nat)
    requires ProposalShape(d) && |s.fitness| == |toggle| && Rectangular(s.fitness, Naa)
    requires j < |toggle| && Sum(toggle[j]) == 0
    ensures ShiftChain(d, toggle, n, s).fitness[j] == s.fitness[j]
    decreases n
  {
    if n > 0 {
      ShiftChainSkips(d, toggle, n - 1, s, j);
      ShiftSweepSkips(d, toggle, n - 1, |toggle|, ShiftChain(d, toggle, n - 1, s), j);
    }
  }

  /** A sweep makes one attempt per shifted site. */
  lemma {:induction false} ShiftSweepCounts(d: ShiftDraws, toggle: seq<seq<int>>, rep: int, n: nat, s: ShiftState)
    requires ProposalShape(d) && |s.fitness| == |toggle| && Rectangular(s.fitness, Naa) && n <= |toggle|
    ensures var r := ShiftSweep(d, toggle, rep, n, s);
      r.ntot == s.ntot + ShiftedSites(toggle, n) && r.nacc - s.nacc <= r.ntot - s.ntot && r.nacc >= s.nacc
    decreases n
  {
    if n > 0 {
      ShiftSweepCounts(d, toggle, rep, n - 1, s);
    }
  }

  /** The number of attempts is the number of replicates times the number
   *  of shifted sites, and at most that many are accepted. */
  lemma {:induction false} ShiftChainCounts(d: ShiftDraws, toggle: seq<seq<int>>, n: nat, s: ShiftState)
    requires ProposalShape(d) && |s.fitness| == |toggle| && Rectangular(s.fitness, Naa)
    ensures var r := ShiftChain(d, toggle, n, s);
      r.ntot == s.ntot + ShiftedSites(toggle, |toggle|) * n && r.nacc - s.nacc <= r.ntot - s.ntot && r.nacc >= s.nacc
    decreases n
  {
    if n > 0 {
      ShiftChainCounts(d, toggle, n - 1, s);
      ShiftSweepCounts(d, toggle, n - 1, |toggle|, ShiftChain(d, toggle, n - 1, s));
      MulSucc(ShiftedSites(toggle, |toggle|), n - 1);
    }
  }

  /** A rejected proposal leaves the fitness as it was. */
  lemma ShiftStepRejected(d: ShiftDraws, toggle: seq<seq<int>>, rep: int, i: nat, s: ShiftState)
    requires ProposalShape(d) && |s.fitness| == |toggle| && Rectangular(s.fitness, Naa) && i < |toggle|
    requires !d.accept(rep, i)
    ensures ShiftStep(d, toggle, rep, i, s).fitness == s.fitness
  {
  }

  /** The acceptance rate nacc/ntot: undefined (0/0) without attempts. */
  function Rate(nacc: nat, ntot: nat): (r: Option<real>)
    ensures r.None? <==> ntot == 0
    ensures r.Some? ==> r.value * ntot as real == nacc as real
    ensures r.Some? && nacc <= ntot ==> 0.0 <= r.value <= 1.0
  {
    if ntot == 0 then None
    else
      if nacc <= ntot then RateBounds(nacc, ntot); Some(nacc as real / ntot as real)
      else Some(nacc as real / ntot as real)
  }

  // ---------------------------------------------------------------------
  // Checkpoint (ToStream/FromStream)
  // ---------------------------------------------------------------------

  datatype Params = Params(lambda: real, branchlength: seq<real>, nucrelrate: seq<real>, nucstat: seq<real>)

  /** The values in the order they are written and read. */
  function PutValues(p: Params): seq<Token>
  {
    [Real(p.lambda)] + RealTokens(p.branchlength) + RealTokens(p.nucrelrate) + RealTokens(p.nucstat)
  }

  /** A vector written on a line of its own, each value followed by a
   *  tab. */
  function Line(v: seq<Token>): seq<Token>
  {
    Tabbed(v) + [Newline]
  }

  /** What ToStream writes: lambda, the branch lengths, the nucleotide
   *  exchange rates and the nucleotide frequencies, one per line. */
  function StreamText(p: Params): seq<Token>
  {
    [Real(p.lambda), Newline] + Line(RealTokens(p.branchlength)) + Line(RealTokens(p.nucrelrate)) + Line(RealTokens(p.nucstat))
  }

  /** FromStream: the vectors keep the sizes the reader already has. */
  function GetValues(t: Params, s: seq<Token>): Option<(Params, seq<Token>)>
  {
    match ReadReal(s)
    case None => None
    case Some((lambda, s1)) =>
      match ReadReals(|t.branchlength|, s1)
      case None => None
      case Some((bl, s2)) =>
        match ReadReals(|t.nucrelrate|, s2)
        case None => None
        case Some((rr, s3)) =>
          match ReadReals(|t.nucstat|, s3)
          case None => None
          case Some((st, s4)) => Some((Params(lambda, bl, rr, st), s4))
  }

  lemma StripLine(acc: seq<Token>, vals: seq<Token>, v: seq<Token>)
    requires Strip(acc) == vals && AllValues(v)
    ensures Strip(acc + Line(v)) == vals + v
  {
    StripTabbed(v);
    StripAppend(Tabbed(v), [Newline]);
    assert [Newline][1..] == [];
    StripAppend(acc, Line(v));
  }

  /** The text stream holds exactly the written values. */
  lemma StreamTextStrip(p: Params)
    ensures Strip(StreamText(p)) == PutValues(p)
  {
    var a := [Real(p.lambda), Newline];
    assert Strip(a) == [Real(p.lambda)] by {
      assert a[1..] == [Newline];
      assert a[1..][1..] == [];
    }
    var b, r, f := RealTokens(p.branchlength), RealTokens(p.nucrelrate), RealTokens(p.nucstat);
    StripLine(a, [Real(p.lambda)], b);
    StripLine(a + Line(b), [Real(p.lambda)] + b, r);
    StripLine(a + Line(b) + Line(r), [Real(p.lambda)] + b + r, f);
  }

  /** FromStream after ToStream restores the four parameters. */
  lemma StreamRoundTrip(t: Params, p: Params)
    requires |t.branchlength| == |p.branchlength| && |t.nucrelrate| == |p.nucrelrate| && |t.nucstat| == |p.nucstat|
    ensures GetValues(t, Strip(StreamText(p))) == Some((p, []))
  {
    StreamTextStrip(p);
    var b, r, f := RealTokens(p.branchlength), RealTokens(p.nucrelrate), RealTokens(p.nucstat);
    var s := PutValues(p);
    assert s[1..] == b + (r + (f + []));
    ReadRealsRoundTrip(p.branchlength, r + (f + []));
    ReadRealsRoundTrip(p.nucrelrate, f + []);
    ReadRealsRoundTrip(p.nucstat, []);
  }

  // ---------------------------------------------------------------------
  // The model
  // ---------------------------------------------------------------------

  class DiffSelSparseModel {
    const Ncond: nat
    const Nsite: nat
    const Nbranch: nat

    var lambda: real
    var branchlength: seq<real>
    var nucrelrate: seq<real>
    var nucstat: seq<real>
    /** Ncond x Nsite x Naa; condition 0 is the baseline. */
    var fitness: seq<seq<seq<real>>>
    /** (Ncond-1) x Nsite x Naa bits. */
    var toggle: seq<seq<seq<int>>>
    var pi: seq<real>
    var shiftprobhypermean: seq<real>
    var shiftprobhyperinvconc: seq<real>
    var shiftprob: seq<real>

    ghost predicate Shape()
      reads this
    {
      && Ncond >= 1
      && FitnessShape(fitness, Ncond, Nsite) && ToggleShape(toggle, Ncond - 1, Nsite)
      && |pi| == Ncond - 1 && |shiftprobhypermean| == Ncond - 1
      && |shiftprobhyperinvconc| == Ncond - 1 && |shiftprob| == Ncond - 1
    }

    /** Allocate: lambda 10, one entry per condition other than the
     *  baseline in each shift vector (pi 1, hypermean 0.5, hyperinvconc
     *  0.5, shift probability 0.1). The initial draws of the branch
     *  lengths, nucleotide rates, fitness and toggles are parameters. */
    constructor (Ncond: nat, Nsite: nat, Nbranch: nat, bl0: seq<real>, rr0: seq<real>, st0: seq<real>,
                 fit0: seq<seq<seq<real>>>, tog0: seq<seq<seq<int>>>)
      requires Ncond >= 1 && |bl0| == Nbranch && |rr0| == Nrr && |st0| == Nnuc
      requires FitnessShape(fit0, Ncond, Nsite) && ToggleShape(tog0, Ncond - 1, Nsite)
      ensures Shape() && this.Ncond == Ncond && this.Nsite == Nsite && this.Nbranch == Nbranch
      ensures lambda == 10.0 && branchlength == bl0 && nucrelrate == rr0 && nucstat == st0
      ensures fitness == fit0 && toggle == tog0
      ensures pi == seq(Ncond - 1, k => 1.0) && shiftprobhypermean == seq(Ncond - 1, k => 0.5)
      ensures shiftprobhyperinvconc == seq(Ncond - 1, k => 0.5) && shiftprob == seq(Ncond - 1, k => 0.1)
    {
      this.Ncond, this.Nsite, this.Nbranch := Ncond, Nsite, Nbranch;
      lambda := 10.0;
      branchlength, nucrelrate, nucstat := bl0, rr0, st0;
      fitness, toggle := fit0, tog0;
      pi := seq(Ncond - 1, k => 1.0);
      shiftprobhypermean := seq(Ncond - 1, k => 0.5);
      shiftprobhyperinvconc := seq(Ncond - 1, k => 0.5);
      shiftprob := seq(Ncond - 1, k => 0.1);
    }

    /** Number of set toggles of condition `cond` over all sites; calling
     *  it on the baseline is a fatal error. */
    function GetNshift(cond: nat): (r: Result<int>)
      requires Shape() && cond < Ncond
      reads this
      ensures r.Fatal? <==> cond == 0
      ensures r.Ok? ==> r.value == Shifts(toggle[cond - 1]) && 0 <= r.value <= Naa * Nsite
    {
      if cond == 0 then Fatal("error: GetNshift called on baseline")
      else
        ShiftsBounds(toggle[cond - 1]);
        Ok(Shifts(toggle[cond - 1]))
    }

    /** Number of set toggles of condition `cond` at one site. */
    function GetSiteNshift(cond: nat, site: nat): (r: Result<int>)
      requires Shape() && cond < Ncond && site < Nsite
      reads this
      ensures r.Fatal? <==> cond == 0
      ensures r.Ok? ==> r.value == Sum(toggle[cond - 1][site]) && 0 <= r.value <= Naa
    {
      if cond == 0 then Fatal("error: GetNshift called on baseline")
      else
        BitsSumBounds(toggle[cond - 1][site]);
        Ok(Sum(toggle[cond - 1][site]))
    }

    /** The count loop shared by ResampleShiftProb and MoveShiftToggles. */
    static method CountShifts(rows: seq<seq<int>>) returns (n: int)
      ensures n == Shifts(rows)
    {
      n := 0;
      for i := 0 to |rows|
        invariant n == Shifts(rows[..i])
      {
        ShiftsPrefix(rows, i);
        for a := 0 to |rows[i]|
          invariant n == Shifts(rows[..i]) + Sum(rows[i][..a])
        {
          SumPrefix(rows[i], a);
          n := n + rows[i][a];
        }
        assert rows[i][..|rows[i]|] == rows[i];
      }
      assert rows[..|rows|] == rows;
    }

    /** Redraws every shift probability from its Beta posterior given the
     *  number of set toggles of its condition, out of Nsite * Naa. */
    method ResampleShiftProb(beta: (int, real, real, int, int) -> real)
      requires Shape()
      modifies this`shiftprob
      ensures Shape()
      ensures forall j :: 0 <= j < Ncond - 1 ==>
        shiftprob[j] == beta(j + 1, shiftprobhypermean[j], shiftprobhyperinvconc[j], Shifts(toggle[j]), Nsite * Naa)
    {
      for k := 1 to Ncond
        invariant Shape()
        invariant forall j :: 0 <= j < k - 1 ==>
          shiftprob[j] == beta(j + 1, shiftprobhypermean[j], shiftprobhyperinvconc[j], Shifts(toggle[j]), Nsite * Naa)
      {
        var nshift := CountShifts(toggle[k - 1]);
        var nn := Nsite * Naa;
        shiftprob := shiftprob[k - 1 := beta(k, shiftprobhypermean[k - 1], shiftprobhyperinvconc[k - 1], nshift, nn)];
      }
    }

    /** One toggle proposal, on the condition's toggle rows and its
     *  fitness rows. */
    static method ToggleAttempt(d: ToggleDraws, k: int, rep: int, i: nat, s: ToggleState) returns (r: ToggleState)
      requires UnitToggleDraws(d) && Shaped(s) && i < |s.toggle|
      ensures r == ToggleStep(d, k, rep, i, s)
    {
      var tog, fit, nshift, nacc, ntot := s.toggle, s.fitness, s.nshift, s.nacc, s.ntot;
      var a := ToggleTarget(d, k, rep, i);
      if tog[i][a] == 0 {
        tog := tog[i := tog[i][a := 1]];
        fit := fit[i := fit[i][a := d.gamma(k, rep, i)]];
        if d.accept(k, rep, i) {
          nacc := nacc + 1;
          nshift := nshift + 1;
        } else {
          tog := tog[i := tog[i][a := 0]];
          assert tog[i] == s.toggle[i][a := 0];
          RewriteBit(s.toggle, i, a, 0);
        }
      } else {
        tog := tog[i := tog[i][a := 0]];
        if d.accept(k, rep, i) {
          nacc := nacc + 1;
          nshift := nshift - 1;
        } else {
          tog := tog[i := tog[i][a := 1]];
          assert tog[i] == s.toggle[i][a := 1];
        }
      }
      ntot := ntot + 1;
      r := ToggleState(tog, fit, nshift, nacc, ntot);
    }

    /** MoveShiftToggles(k, nrep): `nrep` sweeps of single-toggle flips on
     *  condition `k`, while a running count tracks the set toggles; the
     *  count then feeds the Beta redraw of the condition's shift
     *  probability. Returns the acceptance rate. */
    method MoveShiftToggles(k: nat, nrep: int, d: ToggleDraws) returns (rate: Option<real>)
      requires Shape() && 1 <= k < Ncond && UnitToggleDraws(d)
      modifies this`toggle, this`fitness, this`shiftprob
      ensures Shape()
      ensures var s := ToggleChain(d, k, Reps(nrep), ToggleState(old(toggle[k - 1]), old(fitness[k]), Shifts(old(toggle[k - 1])), 0, 0));
        && toggle == old(toggle)[k - 1 := s.toggle] && fitness == old(fitness)[k := s.fitness]
        && rate == Rate(s.nacc, s.ntot)
      ensures shiftprob == old(shiftprob)[k - 1 := d.beta(k, shiftprobhypermean[k - 1], shiftprobhyperinvconc[k - 1], Shifts(toggle[k - 1]), Nsite * Naa)]
      ensures rate.None? <==> Nsite == 0 || nrep <= 0
    {
      var nshift := CountShifts(toggle[k - 1]);
      var nn := Nsite * Naa;
      var s0 := ToggleState(toggle[k - 1], fitness[k], nshift, 0, 0);
      var s := ToggleRun(d, k, nrep, s0);
      ToggleChainCounted(d, k, Reps(nrep), s0);
      ToggleChainAttempts(d, k, Reps(nrep), s0);
      toggle := toggle[k - 1 := s.toggle];
      fitness := fitness[k := s.fitness];
      shiftprob := shiftprob[k - 1 := d.beta(k, shiftprobhypermean[k - 1], shiftprobhyperinvconc[k - 1], s.nshift, nn)];
      rate := Rate(s.nacc, s.ntot);
    }

    /** The replicate and site loops of MoveShiftToggles. */
    static method ToggleRun(d: ToggleDraws, k: int, nrep: int, s0: ToggleState) returns (s: ToggleState)
      requires UnitToggleDraws(d) && Shaped(s0)
      ensures s == ToggleChain(d, k, Reps(nrep), s0)
    {
      s := s0;
      var rep := 0;
      while rep < Reps(nrep)
        invariant 0 <= rep <= Reps(nrep)
        invariant s == ToggleChain(d, k, rep, s0)
      {
        var i := 0;
        while i < |s0.toggle|
          invariant 0 <= i <= |s0.toggle|
          invariant s == ToggleSweep(d, k, rep, i, ToggleChain(d, k, rep, s0))
        {
          s := ToggleAttempt(d, k, rep, i, s);
          i := i + 1;
        }
        rep := rep + 1;
      }
    }

    /** Scales the active entries of site `i` by `e`, counting them. */
    method ScaleActive(i: nat, e: real) returns (n: nat)
      requires Shape() && i < Nsite
      modifies this`fitness
      ensures Shape()
      ensures fitness == ScaleSite(old(fitness), toggle, i, e)
      ensures n == ActiveCount(toggle, i, Ncond)
    {
      ghost var f0 := fitness;
      n := 0;
      for k := 0 to Ncond
        invariant Shape() && |fitness| == Ncond
        invariant forall c :: 0 <= c < k ==> fitness[c] == ScaleSite(f0, toggle, i, e)[c]
        invariant forall c :: k <= c < Ncond ==> fitness[c] == f0[c]
        invariant n == ActiveCount(toggle, i, k)
      {
        var row := fitness[k][i];
        ghost var row0 := row;
        for a := 0 to Naa
          invariant |row| == Naa
          invariant forall b :: 0 <= b < a ==> row[b] == ScaleRow(row0, toggle, k, i, e)[b]
          invariant forall b :: a <= b < Naa ==> row[b] == row0[b]
          invariant n == ActiveCount(toggle, i, k) + ActiveIn(toggle, k, i, a)
        {
          if k == 0 || toggle[k - 1][i][a] != 0 {
            row := row[a := row[a] * e];
            n := n + 1;
          }
        }
        assert row == ScaleRow(row0, toggle, k, i, e);
        fitness := fitness[k := fitness[k][i := row]];
      }
      assert fitness == ScaleSite(f0, toggle, i, e);
    }

    /** Divides the active entries of site `i` back by `e`. */
    method DivideActive(i: nat, e: real)
      requires Shape() && i < Nsite && e != 0.0
      modifies this`fitness
      ensures Shape()
      ensures fitness == DivideSite(old(fitness), toggle, i, e)
    {
      ghost var f0 := fitness;
      for k := 0 to Ncond
        invariant Shape() && |fitness| == Ncond
        invariant forall c :: 0 <= c < k ==> fitness[c] == DivideSite(f0, toggle, i, e)[c]
        invariant forall c :: k <= c < Ncond ==> fitness[c] == f0[c]
      {
        var row := fitness[k][i];
        ghost var row0 := row;
        for a := 0 to Naa
          invariant |row| == Naa
          invariant forall b :: 0 <= b < a ==> row[b] == DivideRow(row0, toggle, k, i, e)[b]
          invariant forall b :: a <= b < Naa ==> row[b] == row0[b]
        {
          if k == 0 || toggle[k - 1][i][a] != 0 {
            row := row[a := row[a] / e];
          }
        }
        assert row == DivideRow(row0, toggle, k, i, e);
        fitness := fitness[k := fitness[k][i := row]];
      }
      assert fitness == DivideSite(f0, toggle, i, e);
    }

    /** One proposal of CompMoveFitness at site `i`. */
    method CompSite(rep: int, i: nat, d: CompDraws, nacc: nat, ntot: nat) returns (nacc': nat, ntot': nat)
      requires Shape() && PositiveScales(d) && i < Nsite
      modifies this`fitness
      ensures Shape()
      ensures CompState(fitness, nacc', ntot') == CompStep(d, toggle, rep, i, CompState(old(fitness), nacc, ntot))
    {
      var e := d.scale(rep, i);
      var n := ScaleActive(i, e);
      nacc', ntot' := nacc, ntot + 1;
      if d.accept(rep, i, n) {
        nacc' := nacc + 1;
      } else {
        DivideActive(i, e);
      }
    }

    /** The replicate and site loops of CompMoveFitness. */
    method CompRun(nrep: int, d: CompDraws) returns (nacc: nat, ntot: nat)
      requires Shape() && PositiveScales(d)
      modifies this`fitness
      ensures Shape()
      ensures CompState(fitness, nacc, ntot) == CompChain(d, toggle, Nsite, Reps(nrep), CompState(old(fitness), 0, 0))
    {
      ghost var s0 := CompState(fitness, 0, 0);
      nacc, ntot := 0, 0;
      var rep := 0;
      while rep < Reps(nrep)
        invariant 0 <= rep <= Reps(nrep) && Shape()
        invariant CompState(fitness, nacc, ntot) == CompChain(d, toggle, Nsite, rep, s0)
      {
        var i := 0;
        while i < Nsite
          invariant 0 <= i <= Nsite && Shape()
          invariant CompState(fitness, nacc, ntot) == CompSweep(d, toggle, rep, i, CompChain(d, toggle, Nsite, rep, s0))
        {
          nacc, ntot := CompSite(rep, i, d, nacc, ntot);
          i := i + 1;
        }
        rep := rep + 1;
      }
    }

    /** CompMoveFitness(nrep): at each site, one factor scales the baseline
     *  fitness and every shifted fitness whose toggle is set; a rejection
     *  divides the same entries back. Returns the acceptance rate. */
    method CompMoveFitness(nrep: int, d: CompDraws) returns (rate: Option<real>)
      requires Shape() && PositiveScales(d)
      modifies this`fitness
      ensures Shape()
      ensures var s := CompChain(d, toggle, Nsite, Reps(nrep), CompState(old(fitness), 0, 0));
        fitness == s.fitness && s.nacc <= s.ntot && rate == Rate(s.nacc, s.ntot)
      ensures forall k, j, a :: !Active(toggle, k, j, a) ==> Entry(fitness, k, j, a) == Entry(old(fitness), k, j, a)
      ensures rate.None? <==> Nsite == 0 || nrep <= 0
    {
      ghost var s0 := CompState(fitness, 0, 0);
      var nacc, ntot := CompRun(nrep, d);
      CompChainAttempts(d, toggle, Nsite, Reps(nrep), s0);
      forall k: nat, j: nat, a: nat | !Active(toggle, k, j, a)
        ensures Entry(fitness, k, j, a) == Entry(s0.fitness, k, j, a)
      {
        CompChainInactive(d, toggle, Nsite, Reps(nrep), s0, k, j, a);
      }
      rate := Rate(nacc, ntot);
    }

    /** MoveFitnessShifts(k, nrep): proposals on the shifted fitness of
     *  condition `k`, at the sites that have a shift only. Returns the
     *  acceptance rate (none when no site has a shift). */
    method MoveFitnessShifts(k: nat, nrep: int, d: ShiftDraws) returns (rate: Option<real>)
      requires Shape() && 1 <= k < Ncond && ProposalShape(d)
      modifies this`fitness
      ensures Shape()
      ensures var s := ShiftChain(d, toggle[k - 1], Reps(nrep), ShiftState(old(fitness[k]), 0, 0));
        fitness == old(fitness)[k := s.fitness] && rate == Rate(s.nacc, s.ntot)
      ensures forall j :: 0 <= j < Nsite && Sum(toggle[k - 1][j]) == 0 ==> fitness[k][j] == old(fitness[k][j])
      ensures rate.None? <==> ShiftedSites(toggle[k - 1], Nsite) == 0 || nrep <= 0
    {
      ghost var s0 := ShiftState(fitness[k], 0, 0);
      var nacc: nat, ntot: nat := 0, 0;
      var rep := 0;
      while rep < Reps(nrep)
        invariant 0 <= rep <= Reps(nrep) && Shape()
        invariant fitness == old(fitness)[k := fitness[k]]
        invariant ShiftState(fitness[k], nacc, ntot) == ShiftChain(d, toggle[k - 1], rep, s0)
      {
        var i := 0;
        while i < Nsite
          invariant 0 <= i <= Nsite && Shape()
          invariant fitness == old(fitness)[k := fitness[k]]
          invariant ShiftState(fitness[k], nacc, ntot) == ShiftSweep(d, toggle[k - 1], rep, i, ShiftChain(d, toggle[k - 1], rep, s0))
        {
          nacc, ntot := ShiftSite(k, rep, i, d, nacc, ntot);
          i := i + 1;
        }
        rep := rep + 1;
      }
      ShiftChainCounts(d, toggle[k - 1], Reps(nrep), s0);
      forall j | 0 <= j < Nsite && Sum(toggle[k - 1][j]) == 0
        ensures fitness[k][j] == s0.fitness[j]
      {
        ShiftChainSkips(d, toggle[k - 1], Reps(nrep), s0, j);
      }
      rate := Rate(nacc, ntot);
    }

    /** One visit of site `i` by MoveFitnessShifts. */
    method ShiftSite(k: nat, rep: int, i: nat, d: ShiftDraws, nacc: nat, ntot: nat) returns (nacc': nat, ntot': nat)
      requires Shape() && 1 <= k < Ncond && i < Nsite && ProposalShape(d)
      modifies this`fitness
      ensures Shape() && fitness == old(fitness)[k := fitness[k]]
      ensures ShiftState(fitness[k], nacc', ntot') == ShiftStep(d, toggle[k - 1], rep, i, ShiftState(old(fitness[k]), nacc, ntot))
    {
      nacc', ntot' := nacc, ntot;
      var nshift := GetSiteNshift(k, i);
      if nshift.Ok? && nshift.value != 0 {
        var bk := fitness[k][i];
        var x := d.propose(rep, i, bk, toggle[k - 1][i]);
        fitness := fitness[k := fitness[k][i := x]];
        if d.accept(rep, i) {
          nacc' := nacc + 1;
        } else {
          fitness := fitness[k := fitness[k][i := bk]];
          assert fitness[k] == old(fitness[k]);
        }
        ntot' := ntot + 1;
      }
    }

    function GetParams(): Params
      reads this
    {
      Params(lambda, branchlength, nucrelrate, nucstat)
    }

    /** ToStream: lambda, branch lengths, nucleotide exchange rates and
     *  nucleotide frequencies, each on its own line. */
    method ToStream() returns (os: seq<Token>)
      ensures os == StreamText(GetParams())
      ensures Strip(os) == PutValues(GetParams())
    {
      os := [Real(lambda), Newline];
      os := os + Line(RealTokens(branchlength));
      os := os + Line(RealTokens(nucrelrate));
      os := os + Line(RealTokens(nucstat));
      StreamTextStrip(GetParams());
    }

    /** FromStream: reads the same four parameters in the same order, the
     *  vectors keeping their sizes. */
    method FromStream(input: seq<Token>) returns (ok: bool)
      modifies this`lambda, this`branchlength, this`nucrelrate, this`nucstat
      ensures var r := GetValues(old(GetParams()), Strip(input));
        ok == r.Some? && (ok ==> GetParams() == r.value.0) && (!ok ==> GetParams() == old(GetParams()))
    {
      var r := GetValues(GetParams(), Strip(input));
      if r.None? { return false; }
      lambda, branchlength, nucrelrate, nucstat := r.value.0.lambda, r.value.0.branchlength, r.value.0.nucrelrate, r.value.0.nucstat;
      ok := true;
    }
  }
}
