/** Allocation and occupancy bookkeeping of AAMutSelDSBDPOmegaModel, a
 *  codon model whose sites are allocated to `Ncat` amino-acid fitness
 *  profiles, themselves allocated to `baseNcat` base components.
 *  Log-densities and random draws are inputs: a proposed value, an
 *  accept/reject outcome, a drawn allocation or permutation. */
module AAMutSelMixture {
  import opened Wrappers
  import opened Counting
  import opened Permutations
  import opened Streams
  import opened AAMutSelStream

  const Nrr: nat := 6
  const Nnuc: nat := 4
  /** Floor applied to fitness entries by the multiplicative move. */
  const MinFitness: real := 1e-50

  /** Number of fitness components: -1 asks for one per site, at most 100. */
  function ResolveNcat(inNcat: int, Nsite: nat): (r: int)
    ensures inNcat != -1 ==> r == inNcat
    ensures inNcat == -1 ==> 0 <= r <= 100 && r <= Nsite && (r == Nsite || r == 100)
  {
    if inNcat == -1 then (if Nsite > 100 then 100 else Nsite) else inNcat
  }

  /** Number of base components: -1 asks for the default of 100. */
  function ResolveBaseNcat(inbaseNcat: int): (r: int)
    ensures inbaseNcat == -1 ==> r == 100
    ensures inbaseNcat != -1 ==> r == inbaseNcat
  {
    if inbaseNcat == -1 then 100 else inbaseNcat
  }

  /** A fitness profile: one positive value per amino acid. */
  predicate IsFitness(x: seq<real>)
  {
    |x| == Naa && PositiveReals(x)
  }

  /** Outcomes of a profile move: `propose(i, rep, x)` is the profile proposed
   *  from `x` for component `i` at repetition `rep`, and `accept(i, rep, x, y)`
   *  is the outcome of the Metropolis test of `y` against `x`. */
  datatype ProfileDraws = ProfileDraws(
    propose: (int, int, seq<real>) -> seq<real>,
    accept: (int, int, seq<real>, seq<real>) -> bool)

  /** Proposals map fitness profiles to fitness profiles. */
  ghost predicate KeepsFitness(d: ProfileDraws)
  {
    forall i, rep, x :: IsFitness(x) ==> IsFitness(d.propose(i, rep, x))
  }

  /** Profile of component `i` after `nrep` Metropolis proposals: an accepted
   *  proposal is kept, a rejected one leaves the profile as it was. */
  function ProfileChain(d: ProfileDraws, i: int, nrep: nat, x: seq<real>): seq<real>
  {
    if nrep == 0 then x
    else
      var cur := ProfileChain(d, i, nrep - 1, x);
      var y := d.propose(i, nrep - 1, cur);
      if d.accept(i, nrep - 1, cur, y) then y else cur
  }

  lemma {:induction false} ProfileChainKeepsFitness(d: ProfileDraws, i: int, nrep: nat, x: seq<real>)
    requires KeepsFitness(d) && IsFitness(x)
    ensures IsFitness(ProfileChain(d, i, nrep, x))
    decreases nrep
  {
    if nrep > 0 {
      ProfileChainKeepsFitness(d, i, nrep - 1, x);
    }
  }

  /** A chain in which every proposal is rejected returns its start. */
  lemma {:induction false} ProfileChainAllRejected(d: ProfileDraws, i: int, nrep: nat, x: seq<real>)
    requires forall rep, y :: 0 <= rep < nrep ==> !d.accept(i, rep, x, y)
    ensures ProfileChain(d, i, nrep, x) == x
    decreases nrep
  {
    if nrep > 0 {
      ProfileChainAllRejected(d, i, nrep - 1, x);
    }
  }

  /** The fitness array after MoveAA: occupied components run their chain,
   *  the others keep their profile. */
  function MoveAAResult(fit: seq<seq<real>>, occ: seq<int>, d: ProfileDraws, nrep: nat): (r: seq<seq<real>>)
    requires |occ| == |fit|
    ensures |r| == |fit|
    ensures forall i :: 0 <= i < |fit| && occ[i] == 0 ==> r[i] == fit[i]
  {
    seq(|fit|, i requires 0 <= i < |fit| => if occ[i] != 0 then ProfileChain(d, i, nrep, fit[i]) else fit[i])
  }

  /** Outcomes of the multiplicative (gamma) profile move: `z(i)` is the
   *  gamma scale drawn for component `i`, `factor(i, rep, l)` the factor
   *  exp(m) applied to entry `l`, and `accept(i, rep, x, y)` the outcome of
   *  the test of profile `y` against `x`. */
  datatype GammaDraws = GammaDraws(
    z: int -> real,
    factor: (int, int, int) -> real,
    accept: (int, int, seq<real>, seq<real>) -> bool)

  ghost predicate PositiveDraws(g: GammaDraws)
  {
    && (forall i :: g.z(i) > 0.0)
    && (forall i, rep, l :: g.factor(i, rep, l) > 0.0)
  }

  /** Working state of the gamma move for one component: the profile `aa`,
   *  the unnormalised gamma variables `x` and their total `z`. */
  datatype GammaState = GammaState(aa: seq<real>, x: seq<real>, z: real)

  predicate GoodState(s: GammaState)
  {
    IsFitness(s.aa) && |s.x| == Naa && PositiveReals(s.x) && s.z > 0.0
  }

  function GammaStart(g: GammaDraws, i: int, aa: seq<real>): (s: GammaState)
    requires PositiveDraws(g) && IsFitness(aa)
    ensures GoodState(s) && s.aa == aa
  {
    GammaState(aa, seq(|aa|, l requires 0 <= l < |aa| => g.z(i) * aa[l]), g.z(i))
  }

  function Clamp(v: real): (r: real)
    ensures r >= MinFitness && (r == v || r == MinFitness)
  {
    if v < MinFitness then MinFitness else v
  }

  function Scaled(g: GammaDraws, i: int, rep: int, x: seq<real>): (y: seq<real>)
    ensures |y| == |x|
  {
    seq(|x|, l requires 0 <= l < |x| => x[l] * g.factor(i, rep, l))
  }

  function Normalised(x: seq<real>, z: real): (aa: seq<real>)
    requires z != 0.0
    ensures |aa| == |x| && forall l :: 0 <= l < |x| ==> aa[l] >= MinFitness
  {
    seq(|x|, l requires 0 <= l < |x| => Clamp(x[l] / z))
  }

  /** One proposal of the gamma move from state `cur`: scale, renormalise
   *  with the floor, then keep the proposal or the current state. */
  function GammaNext(g: GammaDraws, i: int, rep: int, cur: GammaState): (s: GammaState)
    requires PositiveDraws(g) && GoodState(cur)
    ensures GoodState(s)
    ensures s == cur || forall l :: 0 <= l < Naa ==> s.aa[l] >= MinFitness
  {
    var x := Scaled(g, i, rep, cur.x);
    assert PositiveReals(x);
    SumRealPositive(x, 0);
    var z := SumReal(x);
    var aa := Normalised(x, z);
    if g.accept(i, rep, cur.aa, aa) then GammaState(aa, x, z) else cur
  }

  /** State of the gamma move of component `i` after `nrep` proposals. Every
   *  profile it ever holds is either the starting one or one whose entries
   *  all reach the floor of 1e-50. */
  function GammaChain(g: GammaDraws, i: int, nrep: nat, s0: GammaState): (s: GammaState)
    requires PositiveDraws(g) && GoodState(s0)
    ensures GoodState(s)
    ensures s.aa == s0.aa || forall l :: 0 <= l < Naa ==> s.aa[l] >= MinFitness
    decreases nrep
  {
    if nrep == 0 then s0 else GammaNext(g, i, nrep - 1, GammaChain(g, i, nrep - 1, s0))
  }

  function MoveAAGammaResult(fit: seq<seq<real>>, occ: seq<int>, g: GammaDraws, nrep: nat): (r: seq<seq<real>>)
    requires |occ| == |fit| && PositiveDraws(g)
    requires forall i :: 0 <= i < |fit| ==> IsFitness(fit[i])
    ensures |r| == |fit|
    ensures forall i :: 0 <= i < |fit| && occ[i] == 0 ==> r[i] == fit[i]
  {
    seq(|fit|, i requires 0 <= i < |fit| => if occ[i] != 0 then GammaProfile(g, i, nrep, fit[i]) else fit[i])
  }

  /** Profile of component `i` at the end of its `nrep` gamma proposals. */
  function GammaProfile(g: GammaDraws, i: int, nrep: nat, aa: seq<real>): (r: seq<real>)
    requires PositiveDraws(g) && IsFitness(aa)
    ensures IsFitness(r)
    ensures r == aa || forall l :: 0 <= l < Naa ==> r[l] >= MinFitness
  {
    GammaChain(g, i, nrep, GammaStart(g, i, aa)).aa
  }

  /** The running maximum of the allocation posterior: the first value
   *  initialises it, later values replace it when larger. */
  function MaxOf(s: seq<real>): real
  {
    if s == [] then 0.0
    else
      var m := MaxOf(s[..|s| - 1]);
      if |s| == 1 || m < s[|s| - 1] then s[|s| - 1] else m
  }

  /** The running maximum is the largest value, whatever the signs. */
  lemma {:induction false} MaxOfIsMaximum(s: seq<real>)
    requires |s| > 0
    ensures exists j :: 0 <= j < |s| && s[j] == MaxOf(s)
    ensures forall j :: 0 <= j < |s| ==> s[j] <= MaxOf(s)
    decreases |s|
  {
    var n := |s| - 1;
    if n == 0 {
      assert s[0] == MaxOf(s);
    } else {
      MaxOfIsMaximum(s[..n]);
      var j :| 0 <= j < n && s[..n][j] == MaxOf(s[..n]);
      assert s[j] == MaxOf(s[..n]);
      if MaxOf(s[..n]) < s[n] {
        assert s[n] == MaxOf(s);
      } else {
        assert s[j] == MaxOf(s);
      }
      forall i | 0 <= i < |s| ensures s[i] <= MaxOf(s) {
        if i < n {
          assert s[..n][i] == s[i];
        }
      }
    }
  }

  /** Unnormalised allocation weights w[k] * exp(logp[k] - m), for the
   *  running maximum m of the log-likelihoods. */
  function Unnormalised(w: seq<real>, logp: seq<real>, m: real, expf: real -> real): (u: seq<real>)
    requires |w| == |logp|
    ensures |u| == |w| && forall k :: 0 <= k < |w| ==> u[k] == w[k] * expf(logp[k] - m)
  {
    seq(|w|, k requires 0 <= k < |w| => w[k] * expf(logp[k] - m))
  }

  /** Total of the unnormalised weights. */
  function Total(w: seq<real>, logp: seq<real>, expf: real -> real): real
    requires |w| == |logp|
  {
    SumReal(Unnormalised(w, logp, MaxOf(logp), expf))
  }

  /** Every entry divided by `t`. */
  function Divided(s: seq<real>, t: real): (r: seq<real>)
    requires t != 0.0
    ensures |r| == |s| && forall k :: 0 <= k < |s| ==> r[k] == s[k] / t
  {
    seq(|s|, k requires 0 <= k < |s| => s[k] / t)
  }

  /** The allocation posterior: unnormalised weights divided by their
   *  total. */
  function PostProb(w: seq<real>, logp: seq<real>, expf: real -> real): (r: seq<real>)
    requires |w| == |logp| && Total(w, logp, expf) != 0.0
    ensures |r| == |w|
  {
    Divided(Unnormalised(w, logp, MaxOf(logp), expf), Total(w, logp, expf))
  }

  /** The posterior probabilities sum to one. */
  lemma PostProbSumsToOne(w: seq<real>, logp: seq<real>, expf: real -> real)
    requires |w| == |logp| && Total(w, logp, expf) != 0.0
    ensures SumReal(PostProb(w, logp, expf)) == 1.0
  {
    var u := Unnormalised(w, logp, MaxOf(logp), expf);
    var t := Total(w, logp, expf);
    SumRealDivide(u, t);
    assert Divided(u, t) == seq(|u|, k requires 0 <= k < |u| => u[k] / t);
    assert t / t == 1.0;
  }

  predicate TotalIsPositive(w: seq<real>, logp: seq<real>, expf: real -> real)
    requires |w| == |logp|
  {
    Total(w, logp, expf) > 0.0
  }

  ghost predicate ExpPositive(expf: real -> real)
  {
    forall v :: expf(v) > 0.0
  }

  /** With positive weights and a positive exponential the total is
   *  positive, so the division is defined. */
  lemma TotalPositive(w: seq<real>, logp: seq<real>, expf: real -> real)
    requires |w| == |logp| && |w| > 0 && PositiveReals(w) && ExpPositive(expf)
    ensures Total(w, logp, expf) > 0.0
  {
    var u := Unnormalised(w, logp, MaxOf(logp), expf);
    forall k | 0 <= k < |u| ensures u[k] > 0.0 {
      var e := expf(logp[k] - MaxOf(logp));
      assert e > 0.0 && w[k] > 0.0;
      assert u[k] == w[k] * e;
    }
    SumRealPositive(u, 0);
  }

  /** Computes the allocation posterior over the components for one item:
   *  the running maximum of the log-likelihoods, the shifted and weighted
   *  exponentials, their total, and the division by the total. */
  method AllocPostProb(w: seq<real>, logp: seq<real>, expf: real -> real) returns (postprob: seq<real>)
    requires |w| == |logp| && Total(w, logp, expf) != 0.0
    ensures postprob == PostProb(w, logp, expf)
    ensures |postprob| == |w| && SumReal(postprob) == 1.0
  {
    var max;
    postprob, max := RunningMax(logp);
    var total;
    postprob, total := Exponentiate(w, postprob, max, expf);
    postprob := DivideBy(postprob, total);
    PostProbSumsToOne(w, logp, expf);
  }

  /** First loop of the allocation posterior: copies the log-likelihoods
   *  and keeps their running maximum, initialised by the first one. */
  method RunningMax(logp: seq<real>) returns (postprob: seq<real>, max: real)
    ensures postprob == logp && max == MaxOf(logp)
  {
    var n := |logp|;
    postprob := seq(n, k => 0.0);
    max := 0.0;
    for i := 0 to n
      invariant |postprob| == n
      invariant forall k :: 0 <= k < i ==> postprob[k] == logp[k]
      invariant max == MaxOf(logp[..i])
    {
      var tmp := logp[i];
      postprob := postprob[i := tmp];
      assert logp[..i + 1][..i] == logp[..i];
      if i == 0 || max < tmp {
        max := tmp;
      }
    }
    assert logp[..n] == logp;
  }

  /** Second loop: weighted exponentials shifted by the maximum, and their
   *  total. */
  method Exponentiate(w: seq<real>, logp: seq<real>, max: real, expf: real -> real)
    returns (postprob: seq<real>, total: real)
    requires |w| == |logp|
    ensures postprob == Unnormalised(w, logp, max, expf) && total == SumReal(postprob)
  {
    var n := |w|;
    postprob := logp;
    total := 0.0;
    for i := 0 to n
      invariant |postprob| == n
      invariant forall k :: 0 <= k < i ==> postprob[k] == w[k] * expf(logp[k] - max)
      invariant forall k :: i <= k < n ==> postprob[k] == logp[k]
      invariant total == SumReal(postprob[..i])
    {
      var e := expf(postprob[i] - max);
      postprob := postprob[i := w[i] * e];
      SumRealPrefix(postprob, i);
      total := total + postprob[i];
    }
    assert postprob[..n] == postprob;
    assert postprob == Unnormalised(w, logp, max, expf);
  }

  /** Third loop: every entry divided by the total. */
  method DivideBy(u: seq<real>, total: real) returns (postprob: seq<real>)
    requires total != 0.0
    ensures postprob == Divided(u, total)
  {
    postprob := u;
    for i := 0 to |u|
      invariant |postprob| == |u|
      invariant forall k :: 0 <= k < i ==> postprob[k] == u[k] / total
      invariant forall k :: i <= k < |u| ==> postprob[k] == u[k]
    {
      postprob := postprob[i := postprob[i] / total];
    }
  }

  /** Random outcomes of one round of MoveAAMixture. */
  datatype MixtureRound = MixtureRound(
    comp1: ProfileDraws, comp2: ProfileDraws,
    mul1: GammaDraws, mul2: GammaDraws,
    prior: int -> seq<real>,
    loglik: (int, int) -> real,
    expf: real -> real,
    pick: (int, seq<real>) -> int,
    switch: (seq<int>, seq<real>) -> seq<int>,
    newweight: seq<int> -> seq<real>)

  /** The outcomes have the shapes the moves need: proposals and prior draws
   *  are fitness profiles, scales are positive, the drawn allocation is an
   *  index of the probability vector, the label switch is a permutation of
   *  the components and the resampled weights are positive. */
  ghost predicate RoundOk(r: MixtureRound)
  {
    && KeepsFitness(r.comp1) && KeepsFitness(r.comp2)
    && PositiveDraws(r.mul1) && PositiveDraws(r.mul2)
    && (forall i :: IsFitness(r.prior(i)))
    && ExpPositive(r.expf)
    && (forall i, p :: |p| > 0 ==> 0 <= r.pick(i, p) < |p|)
    && (forall occ, w :: IsPermutation(r.switch(occ, w)) && |r.switch(occ, w)| == |occ|)
    && (forall occ :: |r.newweight(occ)| == |occ| && PositiveReals(r.newweight(occ)))
  }

  /** `a` is the draw of `pick` from the allocation posterior of item `i`. */
  predicate Drawn(a: int, i: int, w: seq<real>, loglik: (int, int) -> real,
                  expf: real -> real, pick: (int, seq<real>) -> int)
  {
    var logp := SiteLogProbs(loglik, i, |w|);
    TotalIsPositive(w, logp, expf) && a == pick(i, PostProb(w, logp, expf))
  }

  /** Profiles after MoveAAProfiles: two Metropolis passes, then two
   *  multiplicative passes, each of three proposals per component. */
  function ProfilesResult(fit: seq<seq<real>>, occ: seq<int>, r: MixtureRound): (res: seq<seq<real>>)
    requires |occ| == |fit| && RoundOk(r)
    requires forall i :: 0 <= i < |fit| ==> IsFitness(fit[i])
    ensures |res| == |fit| && forall i :: 0 <= i < |fit| ==> IsFitness(res[i])
  {
    MoveAAResultKeepsFitness(fit, occ, r.comp1, 3);
    var f1 := MoveAAResult(fit, occ, r.comp1, 3);
    MoveAAResultKeepsFitness(f1, occ, r.comp2, 3);
    var f2 := MoveAAResult(f1, occ, r.comp2, 3);
    MoveAAGammaResultKeepsFitness(f2, occ, r.mul1, 3);
    var f3 := MoveAAGammaResult(f2, occ, r.mul1, 3);
    MoveAAGammaResultKeepsFitness(f3, occ, r.mul2, 3);
    MoveAAGammaResult(f3, occ, r.mul2, 3)
  }

  /** Log-likelihoods of every component for site `i`. */
  function SiteLogProbs(loglik: (int, int) -> real, i: int, K: nat): (r: seq<real>)
    ensures |r| == K && forall k :: 0 <= k < K ==> r[k] == loglik(i, k)
  {
    seq(K, k => loglik(i, k))
  }

  /** The fields one round of MoveAAMixture changes. */
  datatype MixtureState = MixtureState(
    fitness: seq<seq<real>>, sitealloc: seq<int>, occupancy: seq<int>, weight: seq<real>)

  /** The shapes the moves of a round need and keep: occupancy is the
   *  histogram of the allocation, every profile is a fitness profile and
   *  the weights are positive. */
  ghost predicate MixtureOk(s: MixtureState, Ncat: nat, Nsite: nat)
  {
    && Ncat >= 1
    && |s.fitness| == Ncat && (forall i :: 0 <= i < Ncat ==> IsFitness(s.fitness[i]))
    && |s.sitealloc| == Nsite && InRange(s.sitealloc, Ncat) && s.occupancy == Histogram(s.sitealloc, Ncat)
    && |s.weight| == Ncat && PositiveReals(s.weight)
  }

  /** Profiles after ResampleEmptyComponents: an empty component gets its
   *  prior draw, an occupied one keeps its profile. */
  function Redrawn(fit: seq<seq<real>>, occ: seq<int>, prior: int -> seq<real>): (r: seq<seq<real>>)
    requires |occ| == |fit|
    ensures |r| == |fit|
    ensures forall i :: 0 <= i < |fit| ==> r[i] == if occ[i] == 0 then prior(i) else fit[i]
  {
    seq(|fit|, i requires 0 <= i < |fit| => if occ[i] == 0 then prior(i) else fit[i])
  }

  /** The component `pick` draws for site `i` from its allocation
   *  posterior. */
  function DrawAlloc(w: seq<real>, r: MixtureRound, i: int): (a: int)
    requires |w| > 0 && PositiveReals(w) && ExpPositive(r.expf)
    requires forall i, p :: |p| > 0 ==> 0 <= r.pick(i, p) < |p|
    ensures Drawn(a, i, w, r.loglik, r.expf, r.pick) && 0 <= a < |w|
  {
    var logp := SiteLogProbs(r.loglik, i, |w|);
    TotalPositive(w, logp, r.expf);
    r.pick(i, PostProb(w, logp, r.expf))
  }

  /** The allocation ResampleAlloc draws for every site. */
  function AllocResult(w: seq<real>, r: MixtureRound, Nsite: nat): (a: seq<int>)
    requires |w| > 0 && PositiveReals(w) && ExpPositive(r.expf)
    requires forall i, p :: |p| > 0 ==> 0 <= r.pick(i, p) < |p|
    ensures |a| == Nsite && InRange(a, |w|)
    ensures forall i :: 0 <= i < Nsite ==> Drawn(a[i], i, w, r.loglik, r.expf, r.pick)
  {
    seq(Nsite, i requires 0 <= i < Nsite => DrawAlloc(w, r, i))
  }

  /** The state after one round: profile moves on the current occupancy,
   *  prior draws for its empty components, the new allocation and its
   *  histogram, the label switch the round draws on them, and the new
   *  weights given the switched occupancy. */
  ghost function MixtureRoundResult(s: MixtureState, r: MixtureRound, Ncat: nat, Nsite: nat): (t: MixtureState)
    requires MixtureOk(s, Ncat, Nsite) && RoundOk(r)
    ensures MixtureOk(t, Ncat, Nsite)
  {
    var f1 := ProfilesResult(s.fitness, s.occupancy, r);
    var f2 := Redrawn(f1, s.occupancy, r.prior);
    var a1 := AllocResult(s.weight, r, Nsite);
    var o1 := Histogram(a1, Ncat);
    var p := r.switch(o1, s.weight);
    LabelSwitchFacts(a1, o1, f2, p);
    var o2 := Gather(o1, p);
    MixtureState(Gather(f2, p), Relabel(a1, p), o2, r.newweight(o2))
  }

  /** The state after the rounds, one after the other. */
  ghost function MixtureRounds(s: MixtureState, rounds: seq<MixtureRound>, Ncat: nat, Nsite: nat): (t: MixtureState)
    requires MixtureOk(s, Ncat, Nsite) && forall n :: 0 <= n < |rounds| ==> RoundOk(rounds[n])
    ensures MixtureOk(t, Ncat, Nsite)
    decreases |rounds|
  {
    if rounds == [] then s
    else MixtureRoundResult(MixtureRounds(s, rounds[..|rounds| - 1], Ncat, Nsite), rounds[|rounds| - 1], Ncat, Nsite)
  }

  class AAMutSelDSBDPOmegaModel {
    const Nsite: nat
    const Nbranch: nat
    const Ncat: nat
    const baseNcat: nat

    var blmode: int
    var nucmode: int
    var basemode: int
    var omegamode: int

    var lambda: real
    var branchlength: seq<real>
    var nucrelrate: seq<real>
    var nucstat: seq<real>

    var basekappa: real
    var baseweight: seq<real>
    /** Base component of each fitness component. */
    var componentalloc: seq<int>
    var basecenter: seq<seq<real>>
    var baseconc: seq<real>
    var basesuffstat: seq<seq<real>>
    var baseoccupancy: seq<int>

    var kappa: real
    var weight: seq<real>
    /** Fitness profile of each component. */
    var fitness: seq<seq<real>>
    /** Fitness component of each site. */
    var sitealloc: seq<int>
    var occupancy: seq<int>

    var omega: real

    /** occupancy is the histogram of sitealloc. */
    ghost predicate OccupancyValid()
      reads this
    {
      |sitealloc| == Nsite && InRange(sitealloc, Ncat) && occupancy == Histogram(sitealloc, Ncat)
    }

    /** baseoccupancy is the histogram of componentalloc. */
    ghost predicate BaseOccupancyValid()
      reads this
    {
      |componentalloc| == Ncat && InRange(componentalloc, baseNcat)
      && baseoccupancy == Histogram(componentalloc, baseNcat)
    }

    ghost predicate FitnessValid()
      reads this
    {
      |fitness| == Ncat && forall i :: 0 <= i < Ncat ==> IsFitness(fitness[i])
    }

    ghost predicate BaseShape()
      reads this
    {
      && |basecenter| == baseNcat && |baseconc| == baseNcat
      && |basesuffstat| == baseNcat && |baseweight| == baseNcat
    }

    /** The constructor fixes the modes and the component counts; the
     *  parameter arrays are only allocated later. */
    constructor (Nsite: nat, Nbranch: nat, inNcat: int, inbaseNcat: int)
      requires inNcat >= -1 && inbaseNcat >= -1
      ensures this.Nsite == Nsite && this.Nbranch == Nbranch
      ensures Ncat == ResolveNcat(inNcat, Nsite) && baseNcat == ResolveBaseNcat(inbaseNcat)
      ensures blmode == 0 && nucmode == 0 && basemode == 0 && omegamode == 2
    {
      this.Nsite := Nsite;
      this.Nbranch := Nbranch;
      Ncat := ResolveNcat(inNcat, Nsite);
      baseNcat := ResolveBaseNcat(inbaseNcat);
      blmode, nucmode, basemode, omegamode := 0, 0, 0, 2;
    }

    /** Clears the occupancy vector and counts every site into it. */
    method UpdateOccupancies()
      requires |sitealloc| == Nsite && InRange(sitealloc, Ncat)
      modifies this`occupancy
      ensures OccupancyValid()
      ensures Sum(occupancy) == Nsite
    {
      occupancy := seq(Ncat, k => 0);
      for i := 0 to Nsite
        invariant occupancy == Histogram(sitealloc[..i], Ncat)
      {
        assert sitealloc[..i + 1] == sitealloc[..i] + [sitealloc[i]];
        HistogramAppend(sitealloc[..i], sitealloc[i], Ncat);
        occupancy := occupancy[sitealloc[i] := occupancy[sitealloc[i]] + 1];
      }
      assert sitealloc[..Nsite] == sitealloc;
      HistogramSum(sitealloc, Ncat);
    }

    /** Clears the base occupancy vector and counts every component into it. */
    method UpdateBaseOccupancies()
      requires |componentalloc| == Ncat && InRange(componentalloc, baseNcat)
      modifies this`baseoccupancy
      ensures BaseOccupancyValid()
      ensures Sum(baseoccupancy) == Ncat
    {
      baseoccupancy := seq(baseNcat, k => 0);
      for i := 0 to Ncat
        invariant baseoccupancy == Histogram(componentalloc[..i], baseNcat)
      {
        assert componentalloc[..i + 1] == componentalloc[..i] + [componentalloc[i]];
        HistogramAppend(componentalloc[..i], componentalloc[i], baseNcat);
        baseoccupancy := baseoccupancy[componentalloc[i] := baseoccupancy[componentalloc[i]] + 1];
      }
      assert componentalloc[..Ncat] == componentalloc;
      HistogramSum(componentalloc, baseNcat);
    }

    /** Number of occupied fitness components. */
    method GetNcluster() returns (n: nat)
      requires |occupancy| == Ncat
      ensures n == NonZero(occupancy)
      ensures OccupancyValid() && Nsite >= 1 ==> 1 <= n <= Ncat
    {
      n := 0;
      for i := 0 to Ncat
        invariant n == NonZero(occupancy[..i])
      {
        NonZeroPrefix(occupancy, i);
        if occupancy[i] != 0 {
          n := n + 1;
        }
      }
      assert occupancy[..Ncat] == occupancy;
      if OccupancyValid() && Nsite >= 1 {
        ClusterCountBounds(sitealloc, Ncat);
      }
    }

    /** Number of occupied base components. */
    method GetBaseNcluster() returns (n: nat)
      requires |baseoccupancy| == baseNcat
      ensures n == NonZero(baseoccupancy)
      ensures BaseOccupancyValid() && Ncat >= 1 ==> 1 <= n <= baseNcat
    {
      n := 0;
      for i := 0 to baseNcat
        invariant n == NonZero(baseoccupancy[..i])
      {
        NonZeroPrefix(baseoccupancy, i);
        if baseoccupancy[i] != 0 {
          n := n + 1;
        }
      }
      assert baseoccupancy[..baseNcat] == baseoccupancy;
      if BaseOccupancyValid() && Ncat >= 1 {
        ClusterCountBounds(componentalloc, baseNcat);
      }
    }

    /** Metropolis moves on the fitness profiles: `nrep` proposals for every
     *  occupied component, each backed up before the proposal and copied
     *  back entry by entry on rejection. Returns the number of accepted and
     *  of attempted proposals, whose ratio is the acceptance rate. */
    method MoveAA(d: ProfileDraws, nrep: nat) returns (nacc: nat, ntot: nat)
      requires FitnessValid() && |occupancy| == Ncat && KeepsFitness(d)
      modifies this`fitness
      ensures FitnessValid()
      ensures fitness == MoveAAResult(old(fitness), occupancy, d, nrep)
      ensures ntot == nrep * NonZero(occupancy) && nacc <= ntot
    {
      ghost var fit0 := fitness;
      ghost var target := MoveAAResult(fit0, occupancy, d, nrep);
      nacc, ntot := 0, 0;
      var nocc := 0;
      var bk := new real[Naa];
      for i := 0 to Ncat
        invariant |fitness| == Ncat
        invariant forall j :: 0 <= j < i ==> fitness[j] == target[j]
        invariant forall j :: i <= j < Ncat ==> fitness[j] == fit0[j]
        invariant nocc == NonZero(occupancy[..i]) && ntot == nrep * nocc && nacc <= ntot
      {
        NonZeroPrefix(occupancy, i);
        if occupancy[i] != 0 {
          var acc := MoveComponent(i, d, nrep, bk);
          MulSucc(nrep, nocc);
          nacc, ntot, nocc := nacc + acc, ntot + nrep, nocc + 1;
        }
      }
      assert occupancy[..Ncat] == occupancy;
      MoveAAResultKeepsFitness(fit0, occupancy, d, nrep);
    }

    /** The `nrep` proposals of MoveAA on one component. */
    method MoveComponent(i: nat, d: ProfileDraws, nrep: nat, bk: array<real>) returns (nacc: nat)
      requires i < |fitness| && IsFitness(fitness[i]) && KeepsFitness(d) && bk.Length == Naa
      modifies this`fitness, bk
      ensures fitness == old(fitness)[i := ProfileChain(d, i, nrep, old(fitness)[i])]
      ensures nacc <= nrep
    {
      nacc := 0;
      for rep := 0 to nrep
        invariant fitness == old(fitness)[i := ProfileChain(d, i, rep, old(fitness)[i])]
        invariant nacc <= rep
      {
        ProfileChainKeepsFitness(d, i, rep, old(fitness)[i]);
        var accepted := ProposeProfile(i, d, rep, bk);
        if accepted {
          nacc := nacc + 1;
        }
      }
    }

    /** One proposal of MoveAA: back up the profile, install the proposal,
     *  and copy the backup back when it is rejected. */
    method ProposeProfile(i: nat, d: ProfileDraws, rep: int, bk: array<real>) returns (accepted: bool)
      requires i < |fitness| && IsFitness(fitness[i]) && KeepsFitness(d) && bk.Length == Naa
      modifies this`fitness, bk
      ensures var y := d.propose(i, rep, old(fitness)[i]);
        accepted == d.accept(i, rep, old(fitness)[i], y)
        && fitness == old(fitness)[i := if accepted then y else old(fitness)[i]]
    {
      var cur := fitness[i];
      for l := 0 to Naa
        modifies bk
        invariant forall m :: 0 <= m < l ==> bk[m] == cur[m]
      {
        bk[l] := cur[l];
      }
      assert bk[..] == cur;
      var y := d.propose(i, rep, cur);
      fitness := fitness[i := y];
      accepted := d.accept(i, rep, cur, y);
      if !accepted {
        RestoreProfile(i, bk);
      }
    }

    /** Multiplicative moves on the fitness profiles: for every occupied
     *  component the profile is lifted to gamma variables `x` of total `z`,
     *  each entry is scaled by a positive factor, the profile is
     *  renormalised with a floor of 1e-50, and a rejection restores the
     *  backed-up profile, `x` and `z`. */
    method MoveAAGamma(g: GammaDraws, nrep: nat) returns (nacc: nat, ntot: nat)
      requires FitnessValid() && |occupancy| == Ncat && PositiveDraws(g)
      modifies this`fitness
      ensures FitnessValid()
      ensures fitness == MoveAAGammaResult(old(fitness), occupancy, g, nrep)
      ensures ntot == nrep * NonZero(occupancy) && nacc <= ntot
    {
      ghost var fit0 := fitness;
      ghost var target := MoveAAGammaResult(fit0, occupancy, g, nrep);
      nacc, ntot := 0, 0;
      var nocc := 0;
      for i := 0 to Ncat
        invariant |fitness| == Ncat
        invariant forall j :: 0 <= j < i ==> fitness[j] == target[j]
        invariant forall j :: i <= j < Ncat ==> fitness[j] == fit0[j]
        invariant nocc == NonZero(occupancy[..i]) && ntot == nrep * nocc && nacc <= ntot
      {
        nacc, ntot, nocc := GammaIfOccupied(i, g, nrep, fit0, nacc, ntot, nocc);
      }
      assert occupancy[..Ncat] == occupancy;
      MoveAAGammaResultKeepsFitness(fit0, occupancy, g, nrep);
    }

    /** Component `i` of MoveAAGamma: moved when occupied, left alone
     *  otherwise. */
    method GammaIfOccupied(i: nat, g: GammaDraws, nrep: nat, ghost fit0: seq<seq<real>>, nacc: nat, ntot: nat, nocc: nat)
      returns (nacc': nat, ntot': nat, nocc': nat)
      requires |fit0| == |occupancy| == |fitness| && i < |fitness| && fitness[i] == fit0[i]
      requires (forall j :: 0 <= j < |fit0| ==> IsFitness(fit0[j])) && PositiveDraws(g)
      requires nocc == NonZero(occupancy[..i]) && ntot == nrep * nocc && nacc <= ntot
      modifies this`fitness
      ensures fitness == old(fitness)[i := MoveAAGammaResult(fit0, occupancy, g, nrep)[i]]
      ensures nocc' == NonZero(occupancy[..i + 1]) && ntot' == nrep * nocc' && nacc' <= ntot'
    {
      NonZeroPrefix(occupancy, i);
      nacc', ntot', nocc' := nacc, ntot, nocc;
      if occupancy[i] != 0 {
        var acc := MoveGammaComponent(i, g, nrep);
        MulSucc(nrep, nocc);
        nacc', ntot', nocc' := nacc + acc, ntot + nrep, nocc + 1;
      }
    }

    /** The `nrep` proposals of MoveAAGamma on one component. */
    method MoveGammaComponent(i: nat, g: GammaDraws, nrep: nat) returns (nacc: nat)
      requires i < |fitness| && IsFitness(fitness[i]) && PositiveDraws(g)
      modifies this`fitness
      ensures fitness == old(fitness)[i := GammaProfile(g, i, nrep, old(fitness)[i])]
      ensures nacc <= nrep
    {
      ghost var s0 := GammaStart(g, i, fitness[i]);
      var x, z := LiftGamma(i, g, fitness[i]);
      var bkz, bkx, bkaa := z, x, fitness[i];
      nacc := 0;
      for rep := 0 to nrep
        invariant GammaChain(g, i, rep, s0) == GammaState(bkaa, bkx, bkz)
        invariant fitness == old(fitness)[i := bkaa] && x == bkx && z == bkz
        invariant nacc <= rep
      {
        var accepted;
        accepted, x, z := ProposeGamma(i, g, rep, x, z);
        if accepted {
          nacc := nacc + 1;
          bkaa, bkx, bkz := fitness[i], x, z;
        } else {
          fitness := fitness[i := bkaa];
          x, z := bkx, bkz;
        }
      }
    }

    /** The gamma variables x[l] = z * aa[l] for a drawn total z. */
    static method LiftGamma(i: int, g: GammaDraws, aa: seq<real>) returns (x: seq<real>, z: real)
      requires IsFitness(aa) && PositiveDraws(g)
      ensures GammaState(aa, x, z) == GammaStart(g, i, aa)
    {
      ghost var s0 := GammaStart(g, i, aa);
      z := g.z(i);
      x := seq(Naa, l => 0.0);
      for l := 0 to Naa
        invariant |x| == Naa
        invariant forall m :: 0 <= m < l ==> x[m] == z * aa[m]
      {
        x := x[l := z * aa[l]];
      }
      assert |s0.x| == Naa && s0.z == z;
      forall m | 0 <= m < Naa ensures x[m] == s0.x[m] {
      }
      assert x == s0.x;
    }

    /** One proposal of MoveAAGamma: scale, renormalise into component `i`,
     *  and report the outcome of the test. */
    method ProposeGamma(i: nat, g: GammaDraws, rep: int, x0: seq<real>, z0: real)
      returns (accepted: bool, x: seq<real>, z: real)
      requires i < |fitness| && PositiveDraws(g) && GoodState(GammaState(fitness[i], x0, z0))
      modifies this`fitness
      ensures x == Scaled(g, i, rep, x0) && z == SumReal(x) && z > 0.0
      ensures fitness == old(fitness)[i := Normalised(x, z)]
      ensures accepted == g.accept(i, rep, old(fitness)[i], Normalised(x, z))
    {
      var cur := fitness[i];
      x, z := ScaleGamma(i, g, rep, x0);
      assert PositiveReals(x);
      SumRealPositive(x, 0);
      Renormalise(i, x, z);
      accepted := g.accept(i, rep, cur, fitness[i]);
    }

    /** Scales every gamma variable by its drawn factor and re-sums them. */
    static method ScaleGamma(i: int, g: GammaDraws, rep: int, x0: seq<real>) returns (x: seq<real>, z: real)
      requires |x0| == Naa
      ensures x == Scaled(g, i, rep, x0) && z == SumReal(x)
    {
      x, z := x0, 0.0;
      for l := 0 to Naa
        invariant |x| == Naa
        invariant forall m :: 0 <= m < l ==> x[m] == x0[m] * g.factor(i, rep, m)
        invariant forall m :: l <= m < Naa ==> x[m] == x0[m]
        invariant z == SumReal(x[..l])
      {
        SumRealPrefix(x[l := x[l] * g.factor(i, rep, l)], l);
        assert x[l := x[l] * g.factor(i, rep, l)][..l] == x[..l];
        x := x[l := x[l] * g.factor(i, rep, l)];
        z := z + x[l];
      }
      assert x[..Naa] == x;
      ghost var y := Scaled(g, i, rep, x0);
      forall m | 0 <= m < Naa ensures x[m] == y[m] {
      }
      assert x == y;
    }

    /** Writes the renormalised, floored profile into component `i`. */
    method Renormalise(i: nat, x: seq<real>, z: real)
      requires i < |fitness| && |fitness[i]| == Naa && |x| == Naa && z != 0.0
      modifies this`fitness
      ensures fitness == old(fitness)[i := Normalised(x, z)]
    {
      for l := 0 to Naa
        invariant |fitness| == |old(fitness)| && |fitness[i]| == Naa
        invariant forall m :: 0 <= m < l ==> fitness[i][m] == Clamp(x[m] / z)
        invariant forall j :: 0 <= j < |fitness| && j != i ==> fitness[j] == old(fitness)[j]
      {
        var v := x[l] / z;
        if v < MinFitness {
          v := MinFitness;
        }
        fitness := fitness[i := fitness[i][l := v]];
      }
      assert fitness[i] == Normalised(x, z);
    }

    /** Draws a new profile from the prior for every empty component. */
    method ResampleEmptyComponents(prior: int -> seq<real>)
      requires FitnessValid() && |occupancy| == Ncat
      requires forall i :: IsFitness(prior(i))
      modifies this`fitness
      ensures FitnessValid()
      ensures forall i :: 0 <= i < Ncat ==> fitness[i] == if occupancy[i] == 0 then prior(i) else old(fitness)[i]
    {
      for i := 0 to Ncat
        invariant |fitness| == Ncat
        invariant forall j :: 0 <= j < i ==> fitness[j] == if occupancy[j] == 0 then prior(j) else old(fitness)[j]
        invariant forall j :: i <= j < Ncat ==> fitness[j] == old(fitness)[j]
      {
        if occupancy[i] == 0 {
          fitness := fitness[i := prior(i)];
        }
      }
    }

    /** Allocation posterior of one site over the fitness components. */
    method GetAllocPostProb(logp: seq<real>, expf: real -> real) returns (postprob: seq<real>)
      requires |weight| == Ncat && |logp| == Ncat && Total(weight, logp, expf) != 0.0
      ensures postprob == PostProb(weight, logp, expf)
      ensures |postprob| == Ncat && SumReal(postprob) == 1.0
    {
      postprob := AllocPostProb(weight, logp, expf);
    }

    /** Allocation posterior of one fitness component over the base
     *  components. */
    method GetBaseAllocPostProb(logp: seq<real>, expf: real -> real) returns (postprob: seq<real>)
      requires |baseweight| == baseNcat && |logp| == baseNcat && Total(baseweight, logp, expf) != 0.0
      ensures postprob == PostProb(baseweight, logp, expf)
      ensures |postprob| == baseNcat && SumReal(postprob) == 1.0
    {
      postprob := AllocPostProb(baseweight, logp, expf);
    }

    /** Gibbs resampling of every site's component, then the occupancy
     *  histogram is recomputed. */
    method ResampleAlloc(loglik: (int, int) -> real, expf: real -> real, pick: (int, seq<real>) -> int)
      requires Ncat >= 1 && |weight| == Ncat && PositiveReals(weight) && ExpPositive(expf)
      requires forall i, p :: |p| > 0 ==> 0 <= pick(i, p) < |p|
      requires |sitealloc| == Nsite
      modifies this`sitealloc, this`occupancy
      ensures OccupancyValid()
      ensures forall i :: 0 <= i < Nsite ==> Drawn(sitealloc[i], i, weight, loglik, expf, pick)
    {
      for i := 0 to Nsite
        invariant |sitealloc| == Nsite
        invariant forall j :: 0 <= j < i ==> 0 <= sitealloc[j] < Ncat
        invariant forall j :: 0 <= j < i ==> Drawn(sitealloc[j], j, weight, loglik, expf, pick)
      {
        ResampleSite(i, loglik, expf, pick);
      }
      UpdateOccupancies();
    }

    /** Gibbs resampling of the component of site `i`. */
    method ResampleSite(i: nat, loglik: (int, int) -> real, expf: real -> real, pick: (int, seq<real>) -> int)
      requires Ncat >= 1 && |weight| == Ncat && PositiveReals(weight) && ExpPositive(expf)
      requires forall i, p :: |p| > 0 ==> 0 <= pick(i, p) < |p|
      requires i < |sitealloc|
      modifies this`sitealloc
      ensures |sitealloc| == |old(sitealloc)| && 0 <= sitealloc[i] < Ncat
      ensures forall j :: 0 <= j < |sitealloc| && j != i ==> sitealloc[j] == old(sitealloc)[j]
      ensures Drawn(sitealloc[i], i, weight, loglik, expf, pick)
    {
      var logp := SiteLogProbs(loglik, i, Ncat);
      TotalPositive(weight, logp, expf);
      var postprob := GetAllocPostProb(logp, expf);
      sitealloc := sitealloc[i := pick(i, postprob)];
    }

    /** Gibbs resampling of every fitness component's base component, then
     *  the base occupancy histogram is recomputed. */
    method ResampleBaseAlloc(loglik: (int, int) -> real, expf: real -> real, pick: (int, seq<real>) -> int)
      requires baseNcat >= 1 && |baseweight| == baseNcat && PositiveReals(baseweight) && ExpPositive(expf)
      requires forall i, p :: |p| > 0 ==> 0 <= pick(i, p) < |p|
      requires |componentalloc| == Ncat
      modifies this`componentalloc, this`baseoccupancy
      ensures BaseOccupancyValid()
      ensures forall i :: 0 <= i < Ncat ==> Drawn(componentalloc[i], i, baseweight, loglik, expf, pick)
    {
      for i := 0 to Ncat
        invariant |componentalloc| == Ncat
        invariant forall j :: 0 <= j < i ==> 0 <= componentalloc[j] < baseNcat
        invariant forall j :: 0 <= j < i ==> Drawn(componentalloc[j], j, baseweight, loglik, expf, pick)
      {
        ResampleComponent(i, loglik, expf, pick);
      }
      UpdateBaseOccupancies();
    }

    /** Gibbs resampling of the base component of fitness component `i`. */
    method ResampleComponent(i: nat, loglik: (int, int) -> real, expf: real -> real, pick: (int, seq<real>) -> int)
      requires baseNcat >= 1 && |baseweight| == baseNcat && PositiveReals(baseweight) && ExpPositive(expf)
      requires forall i, p :: |p| > 0 ==> 0 <= pick(i, p) < |p|
      requires i < |componentalloc|
      modifies this`componentalloc
      ensures |componentalloc| == |old(componentalloc)| && 0 <= componentalloc[i] < baseNcat
      ensures forall j :: 0 <= j < |componentalloc| && j != i ==> componentalloc[j] == old(componentalloc)[j]
      ensures Drawn(componentalloc[i], i, baseweight, loglik, expf, pick)
    {
      var logp := SiteLogProbs(loglik, i, baseNcat);
      TotalPositive(baseweight, logp, expf);
      var postprob := GetBaseAllocPostProb(logp, expf);
      componentalloc := componentalloc[i := pick(i, postprob)];
    }

    /** Relabels the fitness components by the permutation the stick-breaking
     *  move chose: weights, occupancies and profiles are gathered, site
     *  allocations are relabelled, so every site keeps its profile. */
    method LabelSwitchingMove(permut: seq<int>)
      requires OccupancyValid() && FitnessValid() && |weight| == Ncat
      requires IsPermutation(permut) && |permut| == Ncat
      modifies this`weight, this`occupancy, this`sitealloc, this`fitness
      ensures weight == Gather(old(weight), permut) && occupancy == Gather(old(occupancy), permut)
      ensures sitealloc == Relabel(old(sitealloc), permut) && fitness == Gather(old(fitness), permut)
      ensures OccupancyValid() && FitnessValid()
      ensures forall i :: 0 <= i < Nsite ==> fitness[sitealloc[i]] == old(fitness)[old(sitealloc)[i]]
    {
      var w, occ, alloc, fit := Gather(weight, permut), Gather(occupancy, permut),
        Relabel(sitealloc, permut), Gather(fitness, permut);
      LabelSwitchFacts(sitealloc, occupancy, fitness, permut);
      assert occ == Histogram(alloc, Ncat);
      weight, occupancy, sitealloc, fitness := w, occ, alloc, fit;
    }

    /** Relabels the base components: weights, occupancies, centers,
     *  concentrations and sufficient statistics are gathered and the
     *  component allocations relabelled. */
    method BaseLabelSwitchingMove(permut: seq<int>)
      requires BaseOccupancyValid() && BaseShape()
      requires IsPermutation(permut) && |permut| == baseNcat
      modifies this`baseweight, this`baseoccupancy, this`componentalloc
      modifies this`basecenter, this`baseconc, this`basesuffstat
      ensures baseweight == Gather(old(baseweight), permut)
      ensures baseoccupancy == Gather(old(baseoccupancy), permut)
      ensures componentalloc == Relabel(old(componentalloc), permut)
      ensures basecenter == Gather(old(basecenter), permut) && baseconc == Gather(old(baseconc), permut)
      ensures basesuffstat == Gather(old(basesuffstat), permut)
      ensures BaseOccupancyValid() && BaseShape()
      ensures forall i :: 0 <= i < Ncat ==>
        basecenter[componentalloc[i]] == old(basecenter)[old(componentalloc)[i]]
        && baseconc[componentalloc[i]] == old(baseconc)[old(componentalloc)[i]]
    {
      var w, occ, alloc := Gather(baseweight, permut), Gather(baseoccupancy, permut), Relabel(componentalloc, permut);
      var center, conc, suff := Gather(basecenter, permut), Gather(baseconc, permut), Gather(basesuffstat, permut);
      LabelSwitchFacts(componentalloc, baseoccupancy, basecenter, permut);
      LabelSwitchFacts(componentalloc, baseoccupancy, baseconc, permut);
      assert occ == Histogram(alloc, baseNcat);
      baseweight, baseoccupancy, componentalloc := w, occ, alloc;
      basecenter, baseconc, basesuffstat := center, conc, suff;
    }

    /** Gibbs resampling of the stick-breaking weights given the occupancy. */
    method ResampleWeights(newweight: seq<int> -> seq<real>)
      requires OccupancyValid()
      modifies this`weight
      ensures weight == newweight(occupancy)
    {
      weight := newweight(occupancy);
    }

    /** Two rounds of Metropolis profile moves and two of multiplicative
     *  moves, three proposals each. */
    method MoveAAProfiles(r: MixtureRound)
      requires FitnessValid() && |occupancy| == Ncat && RoundOk(r)
      modifies this`fitness
      ensures FitnessValid()
      ensures fitness == ProfilesResult(old(fitness), occupancy, r)
    {
      var a, t := MoveAA(r.comp1, 3);
      a, t := MoveAA(r.comp2, 3);
      a, t := MoveAAGamma(r.mul1, 3);
      a, t := MoveAAGamma(r.mul2, 3);
    }

    ghost function GetMixtureState(): MixtureState
      reads this
    {
      MixtureState(fitness, sitealloc, occupancy, weight)
    }

    /** One round of the fitness-mixture update. */
    method MixtureRoundStep(r: MixtureRound)
      requires MixtureOk(GetMixtureState(), Ncat, Nsite) && RoundOk(r)
      modifies this`fitness, this`sitealloc, this`occupancy, this`weight
      ensures GetMixtureState() == MixtureRoundResult(old(GetMixtureState()), r, Ncat, Nsite)
    {
      ghost var s := GetMixtureState();
      MoveAAProfiles(r);
      ghost var f1 := fitness;
      ResampleEmptyComponents(r.prior);
      assert fitness == Redrawn(f1, s.occupancy, r.prior);
      ResampleAlloc(r.loglik, r.expf, r.pick);
      assert sitealloc == AllocResult(s.weight, r, Nsite);
      LabelSwitchingMove(r.switch(occupancy, weight));
      ResampleWeights(r.newweight);
    }

    /** Rounds of the fitness-mixture update, in the order the model runs
     *  them: profile moves, prior draws for empty components, allocation
     *  resampling (which recomputes the occupancy), label switching, and
     *  weight resampling. The label switch and the weight update see an
     *  occupancy that is the histogram of the current allocation. */
    method MoveAAMixture(rounds: seq<MixtureRound>)
      requires Ncat >= 1 && OccupancyValid() && FitnessValid()
      requires |weight| == Ncat && PositiveReals(weight)
      requires forall n :: 0 <= n < |rounds| ==> RoundOk(rounds[n])
      modifies this`fitness, this`sitealloc, this`occupancy, this`weight
      ensures GetMixtureState() == MixtureRounds(old(GetMixtureState()), rounds, Ncat, Nsite)
      ensures OccupancyValid() && FitnessValid() && |weight| == Ncat && PositiveReals(weight)
    {
      ghost var s0 := GetMixtureState();
      for n := 0 to |rounds|
        invariant MixtureOk(GetMixtureState(), Ncat, Nsite)
        invariant GetMixtureState() == MixtureRounds(s0, rounds[..n], Ncat, Nsite)
      {
        assert rounds[..n + 1][..n] == rounds[..n];
        MixtureRoundStep(rounds[n]);
      }
      assert rounds[..|rounds|] == rounds;
    }

    /** The fields the checkpoint saves, as one value. */
    function GetParams(): Params
      reads this
    {
      Params(lambda, branchlength, nucrelrate, nucstat,
             basekappa, baseweight, componentalloc, basecenter, baseconc,
             kappa, weight, fitness, sitealloc, omega)
    }

    function GetModes(): Modes
      reads this
    {
      Modes(blmode, nucmode, basemode, omegamode)
    }

    /** Appends the saved fields to a buffer, group by group, each group
     *  behind its mode gate, and omega when `withOmega` holds. */
    method PutLayout(withOmega: bool) returns (buf: seq<Token>)
      ensures buf == Layout(GetParams(), GetModes(), withOmega)
    {
      var p, m := GetParams(), GetModes();
      buf := [];
      if m.blmode < 2 {
        buf := buf + [Real(p.lambda)] + RealTokens(p.branchlength);
      }
      assert buf == BranchValues(p, m);
      if m.nucmode < 2 {
        buf := buf + RealTokens(p.nucrelrate) + RealTokens(p.nucstat);
      }
      assert buf == BranchValues(p, m) + NucValues(p, m);
      if m.basemode < 2 {
        buf := buf + ([Real(p.basekappa)] + RealTokens(p.baseweight) + IntTokens(p.componentalloc)
                      + RowTokens(p.basecenter) + RealTokens(p.baseconc));
      }
      assert buf == BranchValues(p, m) + NucValues(p, m) + BaseValues(p, m);
      buf := buf + ([Real(p.kappa)] + RealTokens(p.weight) + RowTokens(p.fitness) + IntTokens(p.sitealloc));
      assert buf == CoreValues(p, m);
      if withOmega {
        buf := buf + [Real(p.omega)];
      }
    }

    /** MPIPut with omega gated on omegamode, as the reader expects. */
    method MPIPut() returns (buf: seq<Token>)
      ensures buf == PutValues(GetParams(), GetModes())
    {
      buf := PutLayout(omegamode < 2);
    }

    /** MPIPut as the source has it: omega is saved when its value is
     *  below 2. */
    method MPIPutAsWritten() returns (buf: seq<Token>)
      ensures buf == PutValuesAsWritten(GetParams(), GetModes())
    {
      buf := PutLayout(omega < 2.0);
    }

    /** Writes the text checkpoint field by field, and omega when
     *  `withOmega` holds. */
    method WriteLayout(withOmega: bool) returns (os: seq<Token>)
      ensures os == TextLayout(GetParams(), GetModes(), withOmega)
      ensures Strip(os) == Layout(GetParams(), GetModes(), withOmega)
    {
      var p, m := GetParams(), GetModes();
      var b := WriteBranchText(p, m);
      var n := WriteNucText(p, m);
      var c := WriteBaseText(p, m);
      var x := WriteMixtureText(p);
      os := b + n + c + x;
      if withOmega {
        os := WriteValues(os, [Real(p.omega)]);
      }
      TextLayoutStrip(p, m, withOmega);
    }

    /** The text checkpoint with omega gated on omegamode. */
    method ToStream() returns (os: seq<Token>)
      ensures os == StreamText(GetParams(), GetModes())
      ensures Strip(os) == PutValues(GetParams(), GetModes())
    {
      os := WriteLayout(omegamode < 2);
    }

    /** ToStream as the source has it: omega is written when its value is
     *  below 2. */
    method ToStreamAsWritten() returns (os: seq<Token>)
      ensures os == StreamTextAsWritten(GetParams(), GetModes())
      ensures Strip(os) == PutValuesAsWritten(GetParams(), GetModes())
    {
      os := WriteLayout(omega < 2.0);
    }

    /** Number of values PutLayout writes for the gate `withOmega`. */
    method SizeWith(withOmega: bool) returns (size: nat)
      requires Rectangular(basecenter, Naa) && Rectangular(fitness, Naa)
      ensures size == |Layout(GetParams(), GetModes(), withOmega)|
    {
      size := 0;
      if blmode < 2 {
        size := size + 1 + |branchlength|;
      }
      if nucmode < 2 {
        size := size + |nucrelrate| + |nucstat|;
      }
      if basemode < 2 {
        size := size + 1 + |baseweight| + |componentalloc| + |basecenter| * Naa + |baseconc|;
      }
      size := size + 1 + |weight| + |fitness| * Naa + |sitealloc|;
      if withOmega {
        size := size + 1;
      }
      SizeLayoutRoundTrip(GetParams(), GetModes(), withOmega);
    }

    /** Number of values MPIPut writes. */
    method GetMPISize() returns (size: nat)
      requires Rectangular(basecenter, Naa) && Rectangular(fitness, Naa)
      ensures size == |PutValues(GetParams(), GetModes())|
      ensures size == MPISize(GetParams(), GetModes())
    {
      size := SizeWith(omegamode < 2);
      MPISizeRoundTrip(GetParams(), GetModes());
    }

    /** GetMPISize as the source has it: omega counts when its value is
     *  below 2, so the size agrees with MPIPutAsWritten. */
    method GetMPISizeAsWritten() returns (size: nat)
      requires Rectangular(basecenter, Naa) && Rectangular(fitness, Naa)
      ensures size == |PutValuesAsWritten(GetParams(), GetModes())|
      ensures size == MPISizeAsWritten(GetParams(), GetModes())
    {
      size := SizeWith(omega < 2.0);
      MPISizeRoundTrip(GetParams(), GetModes());
    }

    /** Reads the saved fields back group by group, taking every vector
     *  size from the current fields. A buffer that runs short leaves the
     *  groups read so far in place and reports failure. */
    method MPIGet(buf: seq<Token>) returns (ok: bool)
      modifies this`lambda, this`branchlength, this`nucrelrate, this`nucstat
      modifies this`basekappa, this`baseweight, this`componentalloc, this`basecenter, this`baseconc
      modifies this`kappa, this`weight, this`fitness, this`sitealloc, this`omega
      ensures var r := GetValues(old(GetParams()), old(GetModes()), buf);
        ok == r.Some? && (ok ==> GetParams() == r.value.0)
    {
      var rest;
      ok, rest := GetCore(buf);
      if ok {
        ok, rest := GetOmega(rest);
      }
    }

    /** Everything before omega. */
    method GetCore(buf: seq<Token>) returns (ok: bool, rest: seq<Token>)
      modifies this`lambda, this`branchlength, this`nucrelrate, this`nucstat
      modifies this`basekappa, this`baseweight, this`componentalloc, this`basecenter, this`baseconc
      modifies this`kappa, this`weight, this`fitness, this`sitealloc
      ensures var r := ReadCore(old(GetParams()), GetModes(), buf);
        ok == r.Some? && (ok ==> GetParams() == r.value.0 && rest == r.value.1)
    {
      ok, rest := GetBranch(buf);
      if !ok { return; }
      ok, rest := GetNuc(rest);
      if !ok { return; }
      ok, rest := GetBase(rest);
      if !ok { return; }
      ok, rest := GetMixture(rest);
    }

    // One reader per group of saved fields; each reads its group behind
    // its mode gate and stores it.

    method GetBranch(buf: seq<Token>) returns (ok: bool, rest: seq<Token>)
      modifies this`lambda, this`branchlength
      ensures var r := ReadBranch(old(GetParams()), GetModes(), buf);
        ok == r.Some? && (ok ==> GetParams() == r.value.0 && rest == r.value.1)
    {
      var r := ReadBranch(GetParams(), GetModes(), buf);
      if r.None? { return false, []; }
      var t := r.value.0;
      lambda, branchlength := t.lambda, t.branchlength;
      ok, rest := true, r.value.1;
    }

    method GetNuc(buf: seq<Token>) returns (ok: bool, rest: seq<Token>)
      modifies this`nucrelrate, this`nucstat
      ensures var r := ReadNuc(old(GetParams()), GetModes(), buf);
        ok == r.Some? && (ok ==> GetParams() == r.value.0 && rest == r.value.1)
    {
      var r := ReadNuc(GetParams(), GetModes(), buf);
      if r.None? { return false, []; }
      var t := r.value.0;
      nucrelrate, nucstat := t.nucrelrate, t.nucstat;
      ok, rest := true, r.value.1;
    }

    method GetBase(buf: seq<Token>) returns (ok: bool, rest: seq<Token>)
      modifies this`basekappa, this`baseweight, this`componentalloc, this`basecenter, this`baseconc
      ensures var r := ReadBase(old(GetParams()), GetModes(), buf);
        ok == r.Some? && (ok ==> GetParams() == r.value.0 && rest == r.value.1)
    {
      var r := ReadBase(GetParams(), GetModes(), buf);
      if r.None? { return false, []; }
      var t := r.value.0;
      SetBaseWeights(t);
      basecenter, baseconc := t.basecenter, t.baseconc;
      ok, rest := true, r.value.1;
    }

    method SetBaseWeights(t: Params)
      modifies this`basekappa, this`baseweight, this`componentalloc
      ensures GetParams() == old(GetParams()).(basekappa := t.basekappa, baseweight := t.baseweight,
        componentalloc := t.componentalloc)
    {
      basekappa, baseweight, componentalloc := t.basekappa, t.baseweight, t.componentalloc;
    }

    method GetMixture(buf: seq<Token>) returns (ok: bool, rest: seq<Token>)
      modifies this`kappa, this`weight, this`fitness, this`sitealloc
      ensures var r := ReadMixture(old(GetParams()), buf);
        ok == r.Some? && (ok ==> GetParams() == r.value.0 && rest == r.value.1)
    {
      var r := ReadMixture(GetParams(), buf);
      if r.None? { return false, []; }
      var t := r.value.0;
      kappa, weight, fitness, sitealloc := t.kappa, t.weight, t.fitness, t.sitealloc;
      ok, rest := true, r.value.1;
    }

    method GetOmega(buf: seq<Token>) returns (ok: bool, rest: seq<Token>)
      modifies this`omega
      ensures var r := ReadOmega(old(GetParams()), GetModes(), buf);
        ok == r.Some? && (ok ==> GetParams() == r.value.0 && rest == r.value.1)
    {
      var r := ReadOmega(GetParams(), GetModes(), buf);
      if r.None? { return false, []; }
      var t := r.value.0;
      omega := t.omega;
      ok, rest := true, r.value.1;
    }

    /** The text reader skips the separators and reads values as MPIGet. */
    method FromStream(input: seq<Token>) returns (ok: bool)
      modifies this`lambda, this`branchlength, this`nucrelrate, this`nucstat
      modifies this`basekappa, this`baseweight, this`componentalloc, this`basecenter, this`baseconc
      modifies this`kappa, this`weight, this`fitness, this`sitealloc, this`omega

      ensures var r := GetValues(old(GetParams()), old(GetModes()), Strip(input));
        ok == r.Some? && (ok ==> GetParams() == r.value.0)
    {
      ok := MPIGet(Strip(input));
    }

    /** Copies a backed-up profile back into component `i`, entry by entry. */
    method RestoreProfile(i: nat, bk: array<real>)
      requires i < |fitness| && |fitness[i]| == Naa && bk.Length == Naa
      modifies this`fitness
      ensures fitness == old(fitness)[i := bk[..]]
    {
      for l := 0 to Naa
        invariant |fitness| == |old(fitness)| && |fitness[i]| == Naa
        invariant forall m :: 0 <= m < l ==> fitness[i][m] == bk[m]
        invariant forall j :: 0 <= j < |fitness| && j != i ==> fitness[j] == old(fitness)[j]
      {
        fitness := fitness[i := fitness[i][l := bk[l]]];
      }
      assert fitness[i] == bk[..];
    }
  }

  /** A label switch by `p` applied to an allocation, its histogram and
   *  the component values keeps the histogram invariant and every item's
   *  value. */
  lemma LabelSwitchFacts<T>(alloc: seq<int>, occ: seq<int>, vals: seq<T>, p: seq<int>)
    requires IsPermutation(p) && InRange(alloc, |p|) && occ == Histogram(alloc, |p|) && |vals| == |p|
    ensures InRange(Relabel(alloc, p), |p|)
    ensures Gather(occ, p) == Histogram(Relabel(alloc, p), |p|)
    ensures forall i :: 0 <= i < |alloc| ==> Gather(vals, p)[Relabel(alloc, p)[i]] == vals[alloc[i]]
  {
    RelabelHistogram(alloc, p);
    forall i | 0 <= i < |alloc| ensures Gather(vals, p)[Relabel(alloc, p)[i]] == vals[alloc[i]] {
      RelabelLookup(vals, alloc, p, i);
    }
  }

  lemma MoveAAGammaResultKeepsFitness(fit: seq<seq<real>>, occ: seq<int>, g: GammaDraws, nrep: nat)
    requires |occ| == |fit| && PositiveDraws(g)
    requires forall i :: 0 <= i < |fit| ==> IsFitness(fit[i])
    ensures forall i :: 0 <= i < |fit| ==> IsFitness(MoveAAGammaResult(fit, occ, g, nrep)[i])
  {
    forall i | 0 <= i < |fit| ensures IsFitness(MoveAAGammaResult(fit, occ, g, nrep)[i]) {
      if occ[i] != 0 {
        assert IsFitness(GammaProfile(g, i, nrep, fit[i]));
      }
    }
  }

  lemma MoveAAResultKeepsFitness(fit: seq<seq<real>>, occ: seq<int>, d: ProfileDraws, nrep: nat)
    requires |occ| == |fit| && KeepsFitness(d)
    requires forall i :: 0 <= i < |fit| ==> IsFitness(fit[i])
    ensures forall i :: 0 <= i < |fit| ==> IsFitness(MoveAAResult(fit, occ, d, nrep)[i])
  {
    forall i | 0 <= i < |fit| ensures IsFitness(MoveAAResult(fit, occ, d, nrep)[i]) {
      ProfileChainKeepsFitness(d, i, nrep, fit[i]);
    }
  }
}
