# bayescode bookkeeping, modelled and verified in Dafny

bayescode runs Markov chain Monte Carlo samplers for codon substitution
models. Its numbers are floating-point log-densities and random draws.
Underneath them sits a layer of exact, discrete bookkeeping. This project
models that layer and proves what the bookkeeping keeps true, whatever the
random outcome.

Random draws, `exp`, `log` and the log-densities enter the model as
parameters: an accept or reject outcome, a drawn uniform, a proposed value.
The contracts then hold for every such outcome.

Modules, one per source file, plus four shared helpers:

- `Wrappers`: `Option` and `Result`. `Fatal` models a call that prints an
  error and exits.
- `Counting`: counts, sums, occupancy histograms, cluster counts, truncation
  `(int)x`.
- `Permutations`: permutations, swaps, gathers, inverses and relabellings of
  allocation vectors.
- `Streams`: a text or MPI buffer as a sequence of value tokens with tab and
  newline separators. `Strip` drops the separators, as `operator>>` skips
  whitespace.
- `AAMutSelMixture` (class `AAMutSelDSBDPOmegaModel`): the two-level mixture
  of amino-acid fitness profiles.
  - Site and component allocations and their occupancy histograms.
  - Cluster counts and the allocation posterior with its running maximum.
  - The fitness moves that visit only occupied components and roll back on
    rejection, with the 1e-50 floor.
  - Label switching of the allocations and the parallel component arrays.
- `AAMutSelStream`: the mode-gated checkpoint of that model (`ToStream`,
  `FromStream`, `GetMPISize`, `MPIPut`, `MPIGet`).
- `MultiGeneMixture` (classes `Permutation` and
  `MultiGeneAAMutSelDSBDPOmegaModel`): the multi-gene base mixture.
  - The `Permutation` container and its buffer round trip.
  - The base cluster count.
  - The occupied and adjacent label-switching moves that swap five parallel
    arrays.
  - The sum of per-gene base occupancies.
- `SparseAASubSel` (class `SparseAASubSelModel`):
  - the epsilon and mode table;
  - the number of exchange rates;
  - site masks fitted from the alignment;
  - the mask move, which flips bits while keeping the running count `naa`
    and at least one active amino acid;
  - the gated checkpoint.
- `DiffSelSparse` (class `DiffSelSparseModel`): fitness shifts between
  conditions.
  - The shift-vector sizes and `GetNshift`.
  - The toggle move, which keeps the running `nshift`, and the resampling of
    the shift probabilities.
  - The compensatory move, which scales exactly the active entries.
  - The shifted-site guard of `MoveFitnessShifts`.
  - The checkpoint.
- `DSOmegaSuffStat`: dS/omega path sufficient statistics. Clear, add,
  normalise, the synonymous/nonsynonymous split, the guarded ratios, buffer
  and stream round trips, and the per-branch array.
- `BernoulliBeta`: the Bernoulli-beta sufficient statistic and the
  `IIDBernoulliBeta` counts, null set and positive mean.
- `BranchArrays`: branch selectors and arrays over a tree of `nbnodes`
  nodes: size, copy, element access and stream round trip.
- `BrownianTree` (classes `MultivariateBrownianTreeProcess` and
  `MVBranchExpoLengthArray`): a node × dimension array with a clamp mask.
  - Setting and clamping leaves from data.
  - `Shift`, local sampling and proposals that respect the clamp.
  - The sample covariance counter.
  - The positive-interval checks.
- `NHX`: the extended-Newick reader as functions over a parser state.
  - The lexer, written as token classes.
  - The mutually recursive procedures, with the tree invariants they keep.
  - `TreeOf` as the reference parse.
- `NHXReader` (class `NHXParser`): the same parser as an object whose
  methods advance the input position, the current token and the node
  counter. Its methods are proved equal to the `NHX` functions.

## Model

| member | source | states |
|---|---|---|
| Streams.StripField | src/lib/BranchArray.hpp:35-37 | a vector field written value by value with a tab after each, plus one tab, reads back as its values |
| Streams.StripScalar | sources/SparseAASubSelModel.hpp:1014-1014 | a scalar written with one tab reads back as that scalar |
| Streams.StripThen | sources/SparseAASubSelModel.hpp:1012-1032 | reading skips the separators of two consecutive pieces independently |
| Streams.WriteValues | src/lib/BranchArray.hpp:35-37 | appends each value followed by a tab |
| Streams.WriteField | sources/SparseAASubSelModel.hpp:1015-1015 | appends a vector field and the tab the writer puts after it |
| DSOmegaSuffStat.PlusMonoid | sources/dSOmegaPathSuffStat.hpp:131-136 | adding statistics field by field has the zero statistic as identity and is commutative and associative, so per-branch or per-gene totals do not depend on the order of the additions |
| DSOmegaSuffStat.ScalePlus | sources/dSOmegaPathSuffStat.hpp:204-209 | normalising a sum by a factor equals summing the normalised statistics |
| DSOmegaSuffStat.RateSplit | sources/dSOmegaPathSuffStat.hpp:33-52 | for a codon a, the synonymous and the nonsynonymous rate totals over b != a with nonzero rate add up to the total rate out of a |
| DSOmegaSuffStat.RateIgnoresDiagonal | sources/dSOmegaPathSuffStat.hpp:38-40 | the rate totals of codon a do not depend on the diagonal entry of the matrix |
| DSOmegaSuffStat.PairSplit | sources/dSOmegaPathSuffStat.hpp:58-65 | every pair count goes to exactly one of the synonymous and nonsynonymous counts, so together they receive the total pair count |
| DSOmegaSuffStat.WaitPrefix | sources/dSOmegaPathSuffStat.hpp:33-52 | each waiting-time entry adds its time multiplied by its state's synonymous (resp. nonsynonymous) rate total |
| DSOmegaSuffStat.PairPrefix | sources/dSOmegaPathSuffStat.hpp:58-65 | each pair count is added to nsyn when the pair is synonymous and to nnonsyn otherwise |
| DSOmegaSuffStat.DS | sources/dSOmegaPathSuffStat.hpp:190-195 | dS is 0 when bsyn is 0, and otherwise the value that multiplied by bsyn gives nsyn |
| DSOmegaSuffStat.DN | sources/dSOmegaPathSuffStat.hpp:197-202 | dN is 0 when bnonsyn is 0, and otherwise the value that multiplied by bnonsyn gives nnonsyn |
| DSOmegaSuffStat.DNDS | sources/dSOmegaPathSuffStat.hpp:183-188 | dN/dS is 0 when any of bsyn, bnonsyn or nsyn is 0 |
| DSOmegaSuffStat.DNDSRatio | sources/dSOmegaPathSuffStat.hpp:183-202 | when none of them is 0, dS is nonzero and dN/dS multiplied by dS is dN |
| DSOmegaSuffStat.ScaleKeepsRates | sources/dSOmegaPathSuffStat.hpp:190-209 | normalising by a nonzero factor leaves dS and dN unchanged |
| DSOmegaSuffStat.BetaPlus | sources/dSOmegaPathSuffStat.hpp:174-176 | GetBeta of a sum is the sum of the GetBeta values, and at omega 0 it is bsyn |
| DSOmegaSuffStat.Put | sources/dSOmegaPathSuffStat.hpp:211-215 | the buffer form is four value tokens |
| DSOmegaSuffStat.PutGet | sources/dSOmegaPathSuffStat.hpp:214-218 | reading a buffer written by MPIPut restores nsyn, nnonsyn, bsyn, bnonsyn in that order and leaves what follows in the buffer |
| DSOmegaSuffStat.TextStrip | sources/dSOmegaPathSuffStat.hpp:236 | the text form is the four fields in buffer order, separated by tabs |
| DSOmegaSuffStat.TextRoundTrip | sources/dSOmegaPathSuffStat.hpp:236-237 | FromStream reads back exactly what ToStream wrote |
| DSOmegaSuffStat.DSOmegaPathSuffStat.constructor | sources/dSOmegaPathSuffStat.hpp:14-16 | a new statistic is zero |
| DSOmegaSuffStat.DSOmegaPathSuffStat.Clear | sources/dSOmegaPathSuffStat.hpp:19-22 | all four fields become zero |
| DSOmegaSuffStat.DSOmegaPathSuffStat.CodonRates | sources/dSOmegaPathSuffStat.hpp:35-49 | the inner loop computes codon a's synonymous and nonsynonymous rate totals |
| DSOmegaSuffStat.DSOmegaPathSuffStat.WaitingTotals | sources/dSOmegaPathSuffStat.hpp:31-52 | the outer loop computes the waiting-time weighted rate totals |
| DSOmegaSuffStat.DSOmegaPathSuffStat.AddPairCounts | sources/dSOmegaPathSuffStat.hpp:58-65 | nsyn and nnonsyn grow by the synonymous and nonsynonymous pair totals, and together by the total pair count |
| DSOmegaSuffStat.DSOmegaPathSuffStat.AddSuffStat | sources/dSOmegaPathSuffStat.hpp:24-66 | the statistic grows by the path's counts, by its synonymous weight divided by the branch length and by its nonsynonymous weight divided by branch length times omega; nsyn+nnonsyn grows by the total pair count |
| DSOmegaSuffStat.DSOmegaPathSuffStat.AddRelativeSuffStat | sources/dSOmegaPathSuffStat.hpp:68-109 | the same in relative time: only the nonsynonymous weight is divided, by omega |
| DSOmegaSuffStat.DSOmegaPathSuffStat.Add | sources/dSOmegaPathSuffStat.hpp:131-136 | the statistic becomes its sum with the other one |
| DSOmegaSuffStat.DSOmegaPathSuffStat.Normalize | sources/dSOmegaPathSuffStat.hpp:204-209 | all four fields are multiplied by the factor |
| DSOmegaSuffStat.DSOmegaPathSuffStat.GetCount | sources/dSOmegaPathSuffStat.hpp:154-156 | the conversion of nsyn+nnonsyn to int: for a nonnegative total, the largest integer not above it |
| DSOmegaSuffStat.DSOmegaPathSuffStat.GetSynCount | sources/dSOmegaPathSuffStat.hpp:158-160 | the same for nsyn |
| DSOmegaSuffStat.DSOmegaPathSuffStat.GetNonSynCount | sources/dSOmegaPathSuffStat.hpp:162-164 | the same for nnonsyn |
| DSOmegaSuffStat.DSOmegaPathSuffStat.GetBeta | sources/dSOmegaPathSuffStat.hpp:174-176 | bsyn + omega*bnonsyn of the current fields |
| DSOmegaSuffStat.DSOmegaPathSuffStat.GetMPISize | sources/dSOmegaPathSuffStat.hpp:212 | the size is the length of what MPIPut writes |
| DSOmegaSuffStat.DSOmegaPathSuffStat.MPIPut | sources/dSOmegaPathSuffStat.hpp:215 | writes the buffer form of the current fields |
| DSOmegaSuffStat.DSOmegaPathSuffStat.MPIGet | sources/dSOmegaPathSuffStat.hpp:218 | reads four values into the fields and returns the rest; a short or ill-typed buffer is reported and changes nothing |
| DSOmegaSuffStat.DSOmegaPathSuffStat.AddBuffer | sources/dSOmegaPathSuffStat.hpp:221-234 | adds four values read in buffer order to the fields |
| DSOmegaSuffStat.DSOmegaPathSuffStat.ToStream | sources/dSOmegaPathSuffStat.hpp:236 | writes the text form; stripped of tabs it is the buffer form |
| DSOmegaSuffStat.DSOmegaPathSuffStat.FromStream | sources/dSOmegaPathSuffStat.hpp:237 | reads four values, separators skipped, into the fields |
| DSOmegaSuffStat.DSOmegaPathSuffStatBranchArray.constructor | sources/dSOmegaPathSuffStat.hpp:264-267 | one zero statistic per branch |
| DSOmegaSuffStat.DSOmegaPathSuffStatBranchArray.Clear | sources/dSOmegaPathSuffStat.hpp:278-282 | every branch's statistic becomes zero |
| DSOmegaSuffStat.DSOmegaPathSuffStatBranchArray.Add | sources/dSOmegaPathSuffStat.hpp:387-391 | each branch's statistic becomes its sum with the other array's statistic for that branch |
| DSOmegaSuffStat.DSOmegaPathSuffStatBranchArray.Normalize | sources/dSOmegaPathSuffStat.hpp:308-312 | each branch's statistic is multiplied by the factor |
| BernoulliBeta.PlusMonoid | src/lib/IIDBernoulliBeta.hpp:38-49 | Add is field-by-field addition with the zero statistic as identity, commutative and associative |
| BernoulliBeta.EntriesStatPrefix | src/lib/IIDBernoulliBeta.hpp:148-156 | the statistic of the first i+1 entries is that of the first i plus entry i's contribution |
| BernoulliBeta.ZerosPrefix | src/lib/IIDBernoulliBeta.hpp:120-126 | each entry adds one to the zero count when it is 0 and its value to the positive sum otherwise (also lines 159-171) |
| BernoulliBeta.EntriesStatCounts | src/lib/IIDBernoulliBeta.hpp:148-156 | the entries' statistic has n0 equal to the number of zero entries and n1 to the number of nonzero entries, so n0+n1 is the array size |
| BernoulliBeta.Alpha | src/lib/IIDBernoulliBeta.hpp:104 | alpha is the value that multiplied by invconc gives mean |
| BernoulliBeta.BetaParam | src/lib/IIDBernoulliBeta.hpp:106 | beta is the value that multiplied by invconc gives 1-mean |
| BernoulliBeta.ShapeSum | src/lib/IIDBernoulliBeta.hpp:104-106 | (alpha+beta) multiplied by invconc is 1 |
| BernoulliBeta.StatLogProbPlus | src/lib/IIDBernoulliBeta.hpp:53-61 | the statistic's log probability is additive over Add |
| BernoulliBeta.EntryLogProb | src/lib/IIDBernoulliBeta.hpp:136-145 | one entry's log probability equals the log probability of its one-entry statistic, with log x in sumlog0 and log(1-x) in sumlog1 (also lines 53-61) |
| BernoulliBeta.TotalLogProb | src/lib/IIDBernoulliBeta.hpp:129-133 | the sum over no entry is 0, and over one entry it is that entry's log probability |
| BernoulliBeta.TotalLogProbAppend | src/lib/IIDBernoulliBeta.hpp:129-133 | the summed log probability is additive over concatenating arrays |
| BernoulliBeta.StatLogProb | src/lib/IIDBernoulliBeta.hpp:53-61 | the zero statistic has log probability 0, and a statistic of zero entries only has n0 times log(1-pi) |
| BernoulliBeta.Sufficiency | src/lib/IIDBernoulliBeta.hpp:53-61 | the log probability of the entries' statistic equals the sum of the entries' log probabilities (also lines 129-156) |
| BernoulliBeta.PosMean | src/lib/IIDBernoulliBeta.hpp:159-171 | 0 when no entry is nonzero, and otherwise the value that multiplied by the number of nonzero entries gives their sum |
| BernoulliBeta.PosSumBounds | src/lib/IIDBernoulliBeta.hpp:159-171 | for entries in [0,1] the nonzero entries' sum lies between 0 and their number |
| BernoulliBeta.PosMeanBounds | src/lib/IIDBernoulliBeta.hpp:159-171 | for entries in [0,1] the positive mean lies in [0,1] |
| BernoulliBeta.Put | src/lib/IIDBernoulliBeta.hpp:72-75 | the serialised form is four value tokens |
| BernoulliBeta.PutGet | src/lib/IIDBernoulliBeta.hpp:72-75 | reading back the serialised form restores sumlog0, sumlog1, n0, n1 in that order |
| BernoulliBeta.BernoulliBetaSuffStat.Clear | src/lib/IIDBernoulliBeta.hpp:20-25 | all four fields become zero |
| BernoulliBeta.BernoulliBetaSuffStat.AddNullSuffStat | src/lib/IIDBernoulliBeta.hpp:28 | only n0 changes, by c |
| BernoulliBeta.BernoulliBetaSuffStat.AddPosSuffStat | src/lib/IIDBernoulliBeta.hpp:31-35 | only sumlog0, sumlog1 and n1 change, by log0, log1 and c |
| BernoulliBeta.BernoulliBetaSuffStat.Add | src/lib/IIDBernoulliBeta.hpp:38-43 | the statistic becomes its sum with the other one |
| BernoulliBeta.IIDBernoulliBeta.constructor | src/lib/IIDBernoulliBeta.hpp:96-99 | insize entries, each the draw Sample makes for it |
| BernoulliBeta.IIDBernoulliBeta.GetAlpha | src/lib/IIDBernoulliBeta.hpp:104 | GetAlpha multiplied by invconc is mean |
| BernoulliBeta.IIDBernoulliBeta.GetBeta | src/lib/IIDBernoulliBeta.hpp:106 | GetBeta multiplied by invconc is 1-mean |
| BernoulliBeta.IIDBernoulliBeta.Sample | src/lib/IIDBernoulliBeta.hpp:109-117 | every entry becomes a Beta draw when its uniform draw is below pi, and 0 otherwise; the size is kept |
| BernoulliBeta.IIDBernoulliBeta.GetNullSet | src/lib/IIDBernoulliBeta.hpp:120-126 | the number of zero entries |
| BernoulliBeta.IIDBernoulliBeta.GetLogProb | src/lib/IIDBernoulliBeta.hpp:129-145 | the sum of the entries' log probabilities |
| BernoulliBeta.IIDBernoulliBeta.AddSuffStat | src/lib/IIDBernoulliBeta.hpp:148-156 | the statistic grows by the entries' statistic: n0 by the number of zero entries, n0+n1 by the array size |
| BernoulliBeta.IIDBernoulliBeta.AddEntry | src/lib/IIDBernoulliBeta.hpp:150-154 | one entry's contribution: a null count for a zero entry, the two logarithms and a positive count otherwise |
| BernoulliBeta.IIDBernoulliBeta.GetPosMean | src/lib/IIDBernoulliBeta.hpp:159-171 | the positive mean of the entries |
| BranchArrays.RealCodecFaithful | src/lib/BranchArray.hpp:35-37 | a double written to a stream reads back as the same double (also lines 69-71) |
| BranchArrays.Decode | src/lib/BranchArray.hpp:69-71 | reading n elements, when it succeeds, gives exactly n elements |
| BranchArrays.DecodeEncode | src/lib/BranchArray.hpp:35-37 | reading as many elements as v has from the encoding of v followed by anything gives v back and leaves what follows (also lines 69-71) |
| BranchArrays.SelectorRoundTrip | src/lib/BranchArray.hpp:35-37 | reading GetNbranch elements from what ToStream wrote, tabs skipped, restores the values and consumes the whole text (also lines 69-71) |
| BranchArrays.ArrayRoundTrip | src/lib/BranchArray.hpp:35-37 | writing the first GetNbranch elements of an array and reading the text into an array over the same tree restores them (also lines 69-71) |
| BranchArrays.BranchHomogeneousSelector.constructor | src/lib/BranchArray.hpp:111-112 | keeps the tree's node count and a copy of the shared value, where the source keeps a reference to it |
| BranchArrays.BranchHomogeneousSelector.GetVal | src/lib/BranchArray.hpp:118 | every index, in range or not, gives the shared value |
| BranchArrays.BranchHomogeneousSelector.Values | src/lib/BranchArray.hpp:27 | the selector shows GetNbranch values, each the shared value (also line 118) |
| BranchArrays.BranchHomogeneousSelector.ToStream | src/lib/BranchArray.hpp:35-37 | writes each of the GetNbranch values followed by a tab |
| BranchArrays.SimpleBranchArray.constructor | src/lib/BranchArray.hpp:135-139 | creates nb_nodes - 1 elements, each the initial value |
| BranchArrays.SimpleBranchArray.FromValues | src/lib/BranchArray.hpp:140-143 | the vector is replaced by the given one, whatever its length |
| BranchArrays.SimpleBranchArray.GetNbranch | src/lib/BranchArray.hpp:27 | one branch fewer than the tree has nodes |
| BranchArrays.SimpleBranchArray.Set | src/lib/BranchArray.hpp:148-149 | a write through operator[] is seen by GetVal at that index, and every other element is unchanged |
| BranchArrays.SimpleBranchArray.Copy | src/lib/BranchArray.hpp:57-63 | fatal exactly when the branch counts differ, changing nothing; otherwise the first GetNbranch elements become the source's values and the rest is kept |
| BranchArrays.SimpleBranchArray.Assign | src/lib/BranchArray.hpp:153-156 | the vector becomes a copy of the other array's vector |
| BranchArrays.SimpleBranchArray.ToStream | src/lib/BranchArray.hpp:35-37 | writes the first GetNbranch elements in index order, each followed by a tab |
| BranchArrays.SimpleBranchArray.FromStream | src/lib/BranchArray.hpp:69-71 | reads GetNbranch elements into the first GetNbranch positions in index order; a stream that runs short is reported and changes nothing |
| BrownianTree.RootRow | sources/MultivariateBrownianTreeProcess.hpp:109-117 | the root's new row has the same dimension as before |
| BrownianTree.SampledRow | sources/MultivariateBrownianTreeProcess.hpp:124-139 | a sampled row has the same dimension as before |
| BrownianTree.SampleStep | sources/MultivariateBrownianTreeProcess.hpp:108-141 | one LocalSample keeps the number of nodes |
| BrownianTree.SampleChain | sources/MultivariateBrownianTreeProcess.hpp:97-106 | the recursive sample over the first n nodes keeps the number of nodes |
| BrownianTree.SampleChainKeeps | sources/MultivariateBrownianTreeProcess.hpp:113 | sampling keeps every row's dimension and never changes a clamped entry (also line 136) |
| BrownianTree.SampleChainLater | sources/MultivariateBrownianTreeProcess.hpp:101-106 | nodes not yet visited keep their values |
| BrownianTree.NodeSampledFrame | sources/MultivariateBrownianTreeProcess.hpp:126-139 | what was established for a node survives writes to nodes other than it and its parent |
| BrownianTree.SampleChainBrownian | sources/MultivariateBrownianTreeProcess.hpp:97-141 | when every branch has positive length, after the pass the root's unclamped entries are 0 and every other node's unclamped entry is its parent's final value plus sqrt(dt) times its contrast draw |
| BrownianTree.ShiftValues | sources/MultivariateBrownianTreeProcess.hpp:65-73 | shifting keeps the shape of the value matrix |
| BrownianTree.ShiftInverse | sources/MultivariateBrownianTreeProcess.hpp:65-73 | a shift by delta is undone by a shift by -delta, and it leaves the root, the other coordinates and the clamped entries unchanged |
| BrownianTree.ObservedAtMostLeaves | sources/MultivariateBrownianTreeProcess.hpp:40 | the number of clamped leaves k is at most the number of leaves n (also lines 45-53) |
| BrownianTree.HasLeaf | sources/MultivariateBrownianTreeProcess.hpp:45-46 | every tree has a leaf, so SetAndClamp counts n >= 1 |
| BrownianTree.AddOuter | sources/MultivariateBrownianTreeProcess.hpp:196-200 | the double loop adds c[a]*c[b] to every entry (a, b) of the matrix |
| BrownianTree.CovSumDiagonal | sources/MultivariateBrownianTreeProcess.hpp:192-206 | the accumulated diagonal is nonnegative, and positive once any branch's contrast coordinate is nonzero |
| BrownianTree.ContrastNonZero | sources/MultivariateBrownianTreeProcess.hpp:87-95 | a node whose value differs from its parent's has a nonzero contrast when sqrt(dt) is positive |
| BrownianTree.MultivariateBrownianTreeProcess.constructor | sources/MultivariateBrownianTreeProcess.hpp:14-21 | every node gets GetDim zero values and an all-false clamp row |
| BrownianTree.MultivariateBrownianTreeProcess.Assign | sources/MultivariateBrownianTreeProcess.hpp:23-28 | every node's vector becomes GetDim zeros |
| BrownianTree.MultivariateBrownianTreeProcess.LocalSample | sources/MultivariateBrownianTreeProcess.hpp:108-141 | fatal exactly when a non-root node's time interval is not positive; otherwise the values become one sample step |
| BrownianTree.MultivariateBrownianTreeProcess.Sample | sources/MultivariateBrownianTreeProcess.hpp:97-141 | fatal exactly when some branch has a nonpositive interval; clamped entries never change; on success the values follow the Brownian recurrence at every node |
| BrownianTree.MultivariateBrownianTreeProcess.Shift | sources/MultivariateBrownianTreeProcess.hpp:65-73 | the values become the shifted matrix |
| BrownianTree.MultivariateBrownianTreeProcess.LocalProposeMove | sources/MultivariateBrownianTreeProcess.hpp:229-234 | returns 0; a clamped entry is left alone and an unclamped one moves by tuning*(u-0.5), nothing else changing |
| BrownianTree.MultivariateBrownianTreeProcess.SetAndClamp | sources/MultivariateBrownianTreeProcess.hpp:36-63 | n is the number of leaves and k the number of observed leaves (0 <= k <= n, n >= 1); observed leaves get log(value) - rootval[index] in coordinate index and are clamped, every other entry is unchanged |
| BrownianTree.MultivariateBrownianTreeProcess.GetSampleCovarianceMatrixAsWritten | sources/MultivariateBrownianTreeProcess.hpp:188-206 | as written the matrix is unchanged (each contrast stays all zero) while n grows by the number of branches |
| BrownianTree.MultivariateBrownianTreeProcess.GetContrast | sources/MultivariateBrownianTreeProcess.hpp:87-95 | coordinate a is the difference between the node and its parent divided by sqrt(dt) |
| BrownianTree.MultivariateBrownianTreeProcess.GetSampleCovarianceMatrix | sources/MultivariateBrownianTreeProcess.hpp:188-206 | with the contrast filled in, entry (a, b) grows by the sum over branches of contrast a times contrast b, and n by the number of branches (also lines 212-227) |
| BrownianTree.CovarianceFinding | sources/MultivariateBrownianTreeProcess.hpp:192-206 | once one node differs from its parent, the filled-in matrix's diagonal entry is positive, whereas as written it stays unchanged |
| BrownianTree.MVBranchExpoLengthArray.constructor | sources/MultivariateBrownianTreeProcess.hpp:247-251 | one length per branch, with the tree and chronogram kept; the Update call of line 252 is in Create |
| BrownianTree.MVBranchExpoLengthArray.Create | sources/MultivariateBrownianTreeProcess.hpp:247-254 | the source's constructor: a fresh array of one length per branch, then Update; fatal exactly when some non-root node has a non-positive chronogram interval, otherwise every branch holds the length of the node below it |
| BrownianTree.MVBranchExpoLengthArray.Update | sources/MultivariateBrownianTreeProcess.hpp:273-282 | LocalUpdate of every node in parent-before-child order; fatal exactly when some non-root interval is not positive, otherwise the lengths are UpdatedLengths and the branch above every non-root node holds that node's log-mean times dt |
| BrownianTree.MVBranchExpoLengthArray.UpdatedLengthsAt | sources/MultivariateBrownianTreeProcess.hpp:284-296 | after the first n nodes, the branch above each non-root one holds its length and every other branch is unchanged |
| BrownianTree.MVBranchExpoLengthArray.LocalUpdate | sources/MultivariateBrownianTreeProcess.hpp:284-296 | fatal exactly when a non-root node's chronogram interval is not positive; otherwise the branch's length becomes the log-mean of exp times dt, other branches unchanged |
| NHX.SkipSpace | sources/nhx-parser.hpp:144-146 | the position after the whitespace run: every skipped character is a space and the next one is not, or the input has ended |
| NHX.IdentEnd | sources/nhx-parser.hpp:105 | the end of the identifier run: every character before it is an identifier character and the run stops at a non-identifier character or at the search window's limit (also line 150) |
| NHX.FindClose | sources/nhx-parser.hpp:152-155 | the position of the first `]` at or after p, or none when there is no `]` left |
| NHX.Punctuation | sources/nhx-parser.hpp:96-104 | a single-character class is never Invalid nor Identifier |
| NHX.Lex | sources/nhx-parser.hpp:143-167 | find_token never moves backwards nor past the end, and moves forward whenever it finds a token |
| NHX.LexAt | sources/nhx-parser.hpp:147-166 | the token at a non-space position: the position stays inside the input and advances for every valid token |
| NHX.LexSkipsSpace | sources/nhx-parser.hpp:144-146 | leading whitespace does not change the token read |
| NHX.LexSkipsComment | sources/nhx-parser.hpp:151-157 | a `[` that does not open an NHX block is skipped through the first `]`, and the token after it is the one read |
| NHX.LexNHXOpen | sources/nhx-parser.hpp:96 | `[&&NHX:` is read as the NHX opener rather than as a comment, since the opener comes first in the map (also lines 102-103, 150) |
| NHX.LexIdentifier | sources/nhx-parser.hpp:105 | an identifier token is a nonempty run of identifier characters copied from the input, as long as possible within the 64-character window (also lines 150, 159-160) |
| NHX.Children | sources/nhx-parser.hpp:58 | children(node) is defined exactly for nodes in range; `at` throws otherwise |
| NHX.Parent | sources/nhx-parser.hpp:60 | parent(node) is defined exactly for nodes in range |
| NHX.Tag | sources/nhx-parser.hpp:66-72 | tag(node, name) is defined exactly for nodes in range |
| NHX.TagSetGet | sources/nhx-parser.hpp:66-72 | a tag just set reads back, and every other (node, tag) pair reads as before (also line 181) |
| NHX.TagAbsent | sources/nhx-parser.hpp:69-71 | a tag a node does not carry reads as the empty string |
| NHX.ChildIff | sources/nhx-parser.hpp:50-52 | in a consistent tree j is among i's children exactly when i is j's parent |
| NHX.RootOf | sources/nhx-parser.hpp:47-48 | following parents from any node ends at a node whose parent is -1 |
| NHX.RunFindToken | sources/nhx-parser.hpp:143-167 | find_token changes only the position and the token, and moves forward on every valid token |
| NHX.RunExpect | sources/nhx-parser.hpp:132-140 | expect reads one token and throws exactly when its class is not the wanted one, reporting both classes, the token text and the position |
| NHX.NewNodeShaped | sources/nhx-parser.hpp:170-176 | adding the counter's node under an existing or no parent keeps the vectors of equal length, the parents numbered before their children and the children lists consistent with the parents and ascending, and records the parent |
| NHX.SetTagShaped | sources/nhx-parser.hpp:181 | setting a tag keeps the tree's shape and parents (also lines 214, 253) |
| NHX.RunNodeNothing | sources/nhx-parser.hpp:170-197 | node_nothing from a consistent state keeps the tree consistent, never fails a bounds check and records the new node's parent; a normal return stops on `;` or a top-level `)` |
| NHX.RunNodeStart | sources/nhx-parser.hpp:179-196 | the switch of node_nothing keeps the tree consistent and stops on `;` or `)` |
| NHX.RunNodeName | sources/nhx-parser.hpp:199-211 | node_name keeps the tree consistent and stops on `;` or `)` |
| NHX.RunNodeLength | sources/nhx-parser.hpp:213-224 | node_length keeps the tree consistent and stops on `;` or `)` |
| NHX.RunNodeEnd | sources/nhx-parser.hpp:226-243 | node_end keeps the tree consistent and stops on `;` or `)`; any other token throws |
| NHX.RunData | sources/nhx-parser.hpp:245-261 | data keeps the tree consistent and stops on `;` or `)` |
| NHX.RunTagValue | sources/nhx-parser.hpp:250-254 | the tag=value branch keeps the tree consistent and stops on `;` or `)` |
| NHX.RunParse | sources/nhx-parser.hpp:264-271 | a parse from a fresh tree stops on `;` or `)`, keeps the tree consistent, and creates node 0 as a root |
| NHX.ParseShaped | sources/nhx-parser.hpp:45-55 | a parsed tree has at least one node, root 0 with parent -1, one tag map, parent and children list per node, parents numbered before children, and children lists ascending and consistent with the parents; a failed parse threw an NHXException, never a bounds error (also lines 264-271) |
| NHX.ChildDepth | sources/nhx-parser.hpp:191-192 | the depth of a child is 0 exactly when its parent is -1, the top level |
| NHX.ChildDepthGrows | sources/nhx-parser.hpp:45-47 | adding nodes does not change the depth of an existing node |
| NHX.NothingOneRoot | sources/nhx-parser.hpp:170-197 | node_nothing at a depth with no top-level comma ahead adds no root but its own node, and that one only under parent -1 |
| NHX.StartOneRoot | sources/nhx-parser.hpp:179-196 | the switch of node_nothing adds no root when no top-level comma is ahead |
| NHX.NamedOneRoot | sources/nhx-parser.hpp:180-182 | the name branch of node_nothing adds no root when no top-level comma is ahead |
| NHX.ChildOneRoot | sources/nhx-parser.hpp:190-192 | the first-child branch of node_nothing adds no root: the child's parent is the current node |
| NHX.NameOneRoot | sources/nhx-parser.hpp:199-211 | node_name adds no root when no top-level comma is ahead |
| NHX.LengthOneRoot | sources/nhx-parser.hpp:213-224 | node_length adds no root when no top-level comma is ahead |
| NHX.EndOneRoot | sources/nhx-parser.hpp:226-243 | node_end adds no root: a comma below the top level adds a sibling under the same non-root parent, and `)` climbs one level |
| NHX.DataOneRoot | sources/nhx-parser.hpp:245-261 | data adds no root when no top-level comma is ahead |
| NHX.TagValueOneRoot | sources/nhx-parser.hpp:250-254 | the tag=value branch adds no root when no top-level comma is ahead |
| NHX.ParseSingleRoot | sources/nhx-parser.hpp:45-47 | the tree's invariant that only one node has parent -1: for an input with no comma outside every parenthesis, a parsed tree's node 0 is a root and no other node is (also lines 264-271) |
| NHX.TwoRoots | sources/nhx-parser.hpp:46 | "A,B;" parses to two nodes both with parent -1, so a top-level comma makes a second root, and that input is not single-topped (also lines 228-230) |
| NHX.StartIgnoresToken | sources/nhx-parser.hpp:114 | the token left over from before a parse does not change its result (also line 178) |
| NHX.StaleTreeNotShaped | sources/nhx-parser.hpp:50-52 | the tree with children [[2],[]] over two nodes is not consistent |
| NHX.StaleReparse | sources/nhx-parser.hpp:116 | as written, "();" parsed after "A,B;" lists node 2 as the root's child while the child is node 1 (also lines 191-192, 264-271) |
| NHX.FreshReparse | sources/nhx-parser.hpp:191-192 | "();" parsed with the counter at 0 gives the root one child, node 1 (also lines 264-271) |
| NHX.StaleCounter | sources/nhx-parser.hpp:116 | as written, reparsing "();" after "A,B;" yields an inconsistent tree, whereas resetting the counter gives the consistent one (also lines 264-271) |
| NHXReader.Match | sources/nhx-parser.hpp:96-105 | a class that matches at q matches a nonempty piece of the input starting exactly at q (also line 150) |
| NHXReader.MatchFirst | sources/nhx-parser.hpp:148-162 | when the first class in map order that matches is not the comment opener, the token read is that class with the matched text, and the position moves past it |
| NHXReader.MatchComment | sources/nhx-parser.hpp:151 | when the comment opener is the first class that matches, the input has a `[` there which does not start `[&&NHX:` |
| NHXReader.MatchNone | sources/nhx-parser.hpp:166 | when no class matches, the token is Invalid with up to ten characters of the input followed by "...", and the position stays |
| NHXReader.NHXParser.constructor | sources/nhx-parser.hpp:109-116 | a new parser has an empty tree, an Invalid token, an empty input and the node counter at 0 |
| NHXReader.NHXParser.FindToken | sources/nhx-parser.hpp:143-167 | the position and token become what the lexer function gives, nothing else changing |
| NHXReader.NHXParser.ReadToken | sources/nhx-parser.hpp:147-166 | the loop over the token classes, including the comment skip and its recursive call, reads the token at the current position |
| NHXReader.NHXParser.FirstMatch | sources/nhx-parser.hpp:148-165 | the index of the first class in map order that matches, or the number of classes when none do |
| NHXReader.NHXParser.SearchClose | sources/nhx-parser.hpp:153-155 | the position of the first `]` from p on, or none |
| NHXReader.NHXParser.Expect | sources/nhx-parser.hpp:132-140 | the parser's new state and what it throws are those of expect's specification |
| NHXReader.NHXParser.NodeNothing | sources/nhx-parser.hpp:170-197 | the parser's new state and what it throws are those of node_nothing's specification |
| NHXReader.NHXParser.NodeName | sources/nhx-parser.hpp:199-211 | the same for node_name |
| NHXReader.NHXParser.NodeLength | sources/nhx-parser.hpp:213-224 | the same for node_length |
| NHXReader.NHXParser.NodeEnd | sources/nhx-parser.hpp:226-243 | the same for node_end |
| NHXReader.NHXParser.Data | sources/nhx-parser.hpp:245-261 | the same for data, including its tag=value branch |
| NHXReader.NHXParser.Parse | sources/nhx-parser.hpp:264-271 | with the node counter reset, parse returns the tree of its input, which is consistent with at most the documented invariants |
| NHXReader.NHXParser.ParseAsWritten | sources/nhx-parser.hpp:116 | as written, parse returns the tree read with the counter left by the previous parse (also lines 264-271) |
| AAMutSelStream.ReadBranch | sources/AAMutSelDSBDPOmegaModel.hpp:1044-1047 | reading the branch group changes only lambda and the branch lengths (also lines 1128-1131) |
| AAMutSelStream.ReadNuc | sources/AAMutSelDSBDPOmegaModel.hpp:1048-1051 | reading the nucleotide group changes only the relative rates and stationary frequencies (also lines 1132-1135) |
| AAMutSelStream.ReadBase | sources/AAMutSelDSBDPOmegaModel.hpp:1052-1059 | reading the base-mixture group changes only basekappa, the base weights, the component allocation, the base centers and the base concentrations (also lines 1136-1142) |
| AAMutSelStream.ReadMixture | sources/AAMutSelDSBDPOmegaModel.hpp:1060-1064 | reading the mixture group changes only kappa, the weights, the fitness profiles and the site allocation (also lines 1143-1146) |
| AAMutSelStream.ReadOmega | sources/AAMutSelDSBDPOmegaModel.hpp:1065-1067 | reading the omega group changes only omega (also lines 1147-1149) |
| AAMutSelStream.ReadBranchRoundTrip | sources/AAMutSelDSBDPOmegaModel.hpp:1044-1047 | with blmode < 2 the branch group written is read back into the reader; otherwise nothing is written and nothing is read (also lines 1154-1157) |
| AAMutSelStream.ReadNucRoundTrip | sources/AAMutSelDSBDPOmegaModel.hpp:1048-1051 | the same for the nucleotide group under nucmode (also lines 1158-1161) |
| AAMutSelStream.ReadBaseRoundTrip | sources/AAMutSelDSBDPOmegaModel.hpp:1052-1059 | the same for the base-mixture group under basemode (also lines 1162-1168) |
| AAMutSelStream.ReadMixtureRoundTrip | sources/AAMutSelDSBDPOmegaModel.hpp:1060-1064 | the mixture group, always written, is read back (also lines 1169-1172) |
| AAMutSelStream.ReadCoreRoundTrip | sources/AAMutSelDSBDPOmegaModel.hpp:1127-1146 | every group before omega reads back in order, and what follows is left in the buffer (also lines 1153-1172) |
| AAMutSelStream.RoundTrip | sources/AAMutSelDSBDPOmegaModel.hpp:1127-1176 | with the reader's gate on both sides, MPIGet after MPIPut restores every saved field and leaves what follows |
| AAMutSelStream.PutValuesAreValues | sources/AAMutSelDSBDPOmegaModel.hpp:1153-1176 | the buffer form holds only value tokens |
| AAMutSelStream.StreamRoundTrip | sources/AAMutSelDSBDPOmegaModel.hpp:1042-1096 | FromStream reads back what ToStream wrote, separators skipped |
| AAMutSelStream.TextLayoutStrip | sources/AAMutSelDSBDPOmegaModel.hpp:1070-1096 | the text written under either omega gate, stripped of tabs, is the buffer written under the same gate |
| AAMutSelStream.StripBranchText | sources/AAMutSelDSBDPOmegaModel.hpp:1072-1075 | lambda and the branch lengths, stripped of tabs, are the branch group of the buffer |
| AAMutSelStream.StripNucText | sources/AAMutSelDSBDPOmegaModel.hpp:1076-1079 | the nucleotide rates and frequencies, stripped of tabs, are the nucleotide group |
| AAMutSelStream.StripBaseText | sources/AAMutSelDSBDPOmegaModel.hpp:1080-1087 | the base-distribution fields, stripped of tabs, are the base group |
| AAMutSelStream.StripMixtureText | sources/AAMutSelDSBDPOmegaModel.hpp:1088-1092 | kappa, weights, fitness profiles and allocations, stripped of tabs, are the mixture group |
| AAMutSelStream.WriteBranchText | sources/AAMutSelDSBDPOmegaModel.hpp:1072-1075 | writes exactly the branch group of the text |
| AAMutSelStream.WriteNucText | sources/AAMutSelDSBDPOmegaModel.hpp:1076-1079 | writes exactly the nucleotide group of the text |
| AAMutSelStream.WriteBaseText | sources/AAMutSelDSBDPOmegaModel.hpp:1080-1087 | writes exactly the base group of the text |
| AAMutSelStream.WriteMixtureText | sources/AAMutSelDSBDPOmegaModel.hpp:1088-1092 | writes exactly the mixture group of the text |
| AAMutSelStream.SizeLayoutRoundTrip | sources/AAMutSelDSBDPOmegaModel.hpp:1099-1124 | the field-by-field size under either omega gate is the length of the buffer under that gate |
| AAMutSelStream.MPISizeRoundTrip | sources/AAMutSelDSBDPOmegaModel.hpp:1099-1124 | GetMPISize counts exactly the values MPIPut writes, both as written and with the corrected gate (also lines 1153-1176) |
| AAMutSelStream.AsWrittenRoundTripIff | sources/AAMutSelDSBDPOmegaModel.hpp:1093 | as written, the round trip holds exactly when the test omega < 2 agrees with omegamode < 2 (also lines 1147, 1173) |
| AAMutSelStream.OmegaGateMismatch | sources/AAMutSelDSBDPOmegaModel.hpp:1120-1122 | as written, with omegamode 2 and omega 1 an extra omega value is written and left unread, and GetMPISize counts one more value than the corrected writer (also lines 1147-1149, 1173-1175) |
| AAMutSelMixture.ResolveNcat | sources/AAMutSelDSBDPOmegaModel.hpp:129-135 | -1 resolves to Nsite capped at 100; any other value is kept |
| AAMutSelMixture.ResolveBaseNcat | sources/AAMutSelDSBDPOmegaModel.hpp:137-140 | -1 resolves to 100; any other value is kept |
| AAMutSelMixture.ProfileChainKeepsFitness | sources/AAMutSelDSBDPOmegaModel.hpp:647-668 | a Metropolis chain whose proposals are profiles ends on a profile |
| AAMutSelMixture.ProfileChainAllRejected | sources/AAMutSelDSBDPOmegaModel.hpp:661-666 | when every proposal is rejected the profile is restored exactly |
| AAMutSelMixture.MoveAAResult | sources/AAMutSelDSBDPOmegaModel.hpp:645-670 | the fitness array keeps its size and components with zero occupancy are untouched |
| AAMutSelMixture.GammaStart | sources/AAMutSelDSBDPOmegaModel.hpp:692-701 | the gamma move starts from a valid working state holding the current profile |
| AAMutSelMixture.Clamp | sources/AAMutSelDSBDPOmegaModel.hpp:718-720 | the clamped entry is at least 1e-50 and is either the value or 1e-50 |
| AAMutSelMixture.Scaled | sources/AAMutSelDSBDPOmegaModel.hpp:709-715 | the scaled gamma variables keep their number |
| AAMutSelMixture.Normalised | sources/AAMutSelDSBDPOmegaModel.hpp:716-721 | the renormalised profile has every entry at least 1e-50 |
| AAMutSelMixture.GammaNext | sources/AAMutSelDSBDPOmegaModel.hpp:703-743 | one gamma proposal keeps the working state valid and either rolls back or leaves every entry at least 1e-50 |
| AAMutSelMixture.GammaChain | sources/AAMutSelDSBDPOmegaModel.hpp:703-743 | after any number of proposals the state is valid and the profile is the starting one or has every entry at least 1e-50 |
| AAMutSelMixture.MoveAAGammaResult | sources/AAMutSelDSBDPOmegaModel.hpp:686-745 | the fitness array keeps its size and components with zero occupancy are untouched |
| AAMutSelMixture.GammaProfile | sources/AAMutSelDSBDPOmegaModel.hpp:692-743 | the profile at the end of the move is a profile, the starting one or one with every entry at least 1e-50 |
| AAMutSelMixture.MaxOfIsMaximum | sources/AAMutSelDSBDPOmegaModel.hpp:765-774 | the running maximum, initialised by the first value, is one of the values and is at least every value |
| AAMutSelMixture.Unnormalised | sources/AAMutSelDSBDPOmegaModel.hpp:776-780 | entry k is w[k] * exp(logp[k] - max) |
| AAMutSelMixture.Divided | sources/AAMutSelDSBDPOmegaModel.hpp:782-784 | every entry is divided by the total |
| AAMutSelMixture.PostProb | sources/AAMutSelDSBDPOmegaModel.hpp:763-785 | the posterior has one probability per component |
| AAMutSelMixture.PostProbSumsToOne | sources/AAMutSelDSBDPOmegaModel.hpp:776-784 | the normalised posterior sums to 1 |
| AAMutSelMixture.TotalPositive | sources/AAMutSelDSBDPOmegaModel.hpp:776-780 | with positive weights and a positive exp the total is positive, so the division is defined |
| AAMutSelMixture.ProfilesResult | sources/AAMutSelDSBDPOmegaModel.hpp:612-639 | the two Metropolis and two gamma passes keep every component a profile |
| AAMutSelMixture.SiteLogProbs | sources/AAMutSelDSBDPOmegaModel.hpp:768-770 | entry k is site i's log-likelihood under component k |
| AAMutSelMixture.LabelSwitchFacts | sources/AAMutSelDSBDPOmegaModel.hpp:787-792 | applying one permutation to the allocation and the component arrays keeps the allocation in range, makes the permuted occupancy the histogram of the relabelled allocation, and keeps the value seen by every item (also lines 926-933) |
| AAMutSelMixture.MoveAAGammaResultKeepsFitness | sources/AAMutSelDSBDPOmegaModel.hpp:686-745 | every component is still a profile after the gamma move |
| AAMutSelMixture.MoveAAResultKeepsFitness | sources/AAMutSelDSBDPOmegaModel.hpp:645-670 | every component is still a profile after the Metropolis move |
| AAMutSelMixture.AAMutSelDSBDPOmegaModel.constructor | sources/AAMutSelDSBDPOmegaModel.hpp:116-140 | Ncat and baseNcat are resolved from the arguments and the modes start at 0, 0, 0 and 2 |
| AAMutSelMixture.AAMutSelDSBDPOmegaModel.UpdateOccupancies | sources/AAMutSelDSBDPOmegaModel.hpp:758-761 | occupancy becomes the histogram of sitealloc over Ncat components, summing to Nsite |
| AAMutSelMixture.AAMutSelDSBDPOmegaModel.UpdateBaseOccupancies | sources/AAMutSelDSBDPOmegaModel.hpp:898-901 | baseoccupancy becomes the histogram of componentalloc over baseNcat components, summing to Ncat |
| AAMutSelMixture.AAMutSelDSBDPOmegaModel.GetNcluster | sources/AAMutSelDSBDPOmegaModel.hpp:949-958 | the number of occupied components, between 1 and Ncat when occupancy is the histogram and Nsite >= 1 |
| AAMutSelMixture.AAMutSelDSBDPOmegaModel.GetBaseNcluster | sources/AAMutSelDSBDPOmegaModel.hpp:960-969 | the number of occupied base components, between 1 and baseNcat when Ncat >= 1 |
| AAMutSelMixture.AAMutSelDSBDPOmegaModel.MoveAA | sources/AAMutSelDSBDPOmegaModel.hpp:641-672 | only occupied components run their chain, every component stays a profile, nrep proposals are counted per occupied component and at most that many accepted |
| AAMutSelMixture.AAMutSelDSBDPOmegaModel.MoveComponent | sources/AAMutSelDSBDPOmegaModel.hpp:647-668 | component i becomes the end of its chain, nothing else changes, and at most nrep proposals are accepted |
| AAMutSelMixture.AAMutSelDSBDPOmegaModel.ProposeProfile | sources/AAMutSelDSBDPOmegaModel.hpp:649-666 | an accepted proposal is kept and a rejected one is rolled back exactly from the backup |
| AAMutSelMixture.AAMutSelDSBDPOmegaModel.MoveAAGamma | sources/AAMutSelDSBDPOmegaModel.hpp:682-747 | only occupied components move, every component stays a profile, and the counts are as in MoveAA |
| AAMutSelMixture.AAMutSelDSBDPOmegaModel.GammaIfOccupied | sources/AAMutSelDSBDPOmegaModel.hpp:687-744 | one component of the outer loop: it moves only when occupied, and the counters stay nrep per occupied component so far |
| AAMutSelMixture.AAMutSelDSBDPOmegaModel.MoveGammaComponent | sources/AAMutSelDSBDPOmegaModel.hpp:689-743 | component i becomes the end of its gamma chain and nothing else changes |
| AAMutSelMixture.AAMutSelDSBDPOmegaModel.LiftGamma | sources/AAMutSelDSBDPOmegaModel.hpp:693-701 | x is the profile scaled by the gamma draw and z that draw, the chain's starting state |
| AAMutSelMixture.AAMutSelDSBDPOmegaModel.ProposeGamma | sources/AAMutSelDSBDPOmegaModel.hpp:705-729 | x is scaled entry by entry, z is its positive total, and the profile becomes the floored normalisation |
| AAMutSelMixture.AAMutSelDSBDPOmegaModel.ScaleGamma | sources/AAMutSelDSBDPOmegaModel.hpp:708-715 | x is the scaled vector and z its sum |
| AAMutSelMixture.AAMutSelDSBDPOmegaModel.Renormalise | sources/AAMutSelDSBDPOmegaModel.hpp:716-721 | component i becomes x divided by z with the floor applied |
| AAMutSelMixture.AAMutSelDSBDPOmegaModel.ResampleEmptyComponents | sources/AAMutSelDSBDPOmegaModel.hpp:607-610 | exactly the unoccupied components get a prior draw |
| AAMutSelMixture.AAMutSelDSBDPOmegaModel.GetAllocPostProb | sources/AAMutSelDSBDPOmegaModel.hpp:763-785 | the allocation posterior of a site, summing to 1 |
| AAMutSelMixture.AAMutSelDSBDPOmegaModel.GetBaseAllocPostProb | sources/AAMutSelDSBDPOmegaModel.hpp:903-924 | the base-allocation posterior of a component, summing to 1 |
| AAMutSelMixture.AAMutSelDSBDPOmegaModel.RunningMax | sources/AAMutSelDSBDPOmegaModel.hpp:765-774 | the first loop stores the values and ends with their maximum |
| AAMutSelMixture.AAMutSelDSBDPOmegaModel.Exponentiate | sources/AAMutSelDSBDPOmegaModel.hpp:776-780 | the second loop gives the unnormalised weights and their total |
| AAMutSelMixture.AAMutSelDSBDPOmegaModel.DivideBy | sources/AAMutSelDSBDPOmegaModel.hpp:782-784 | the third loop divides every entry by the total |
| AAMutSelMixture.AAMutSelDSBDPOmegaModel.ResampleAlloc | sources/AAMutSelDSBDPOmegaModel.hpp:749-756 | every site gets the draw from its posterior, and the occupancy is the histogram of the new allocation |
| AAMutSelMixture.AAMutSelDSBDPOmegaModel.ResampleSite | sources/AAMutSelDSBDPOmegaModel.hpp:752-753 | site i gets the draw from its posterior and no other site changes |
| AAMutSelMixture.AAMutSelDSBDPOmegaModel.ResampleBaseAlloc | sources/AAMutSelDSBDPOmegaModel.hpp:889-896 | every component gets the draw from its base posterior, and the base occupancy is the histogram of the new base allocation |
| AAMutSelMixture.AAMutSelDSBDPOmegaModel.ResampleComponent | sources/AAMutSelDSBDPOmegaModel.hpp:892-893 | component i gets the draw and no other component changes |
| AAMutSelMixture.AAMutSelDSBDPOmegaModel.LabelSwitchingMove | sources/AAMutSelDSBDPOmegaModel.hpp:787-792 | one permutation is applied to weights, occupancy, allocation and profiles; occupancy stays the histogram and every site sees the same profile |
| AAMutSelMixture.AAMutSelDSBDPOmegaModel.BaseLabelSwitchingMove | sources/AAMutSelDSBDPOmegaModel.hpp:926-933 | one permutation is applied to the base weights, occupancy, allocation, centers, concentrations and statistics; every component sees the same center and concentration |
| AAMutSelMixture.AAMutSelDSBDPOmegaModel.ResampleWeights | sources/AAMutSelDSBDPOmegaModel.hpp:794-796 | the weights are redrawn from the current occupancy |
| AAMutSelMixture.AAMutSelDSBDPOmegaModel.MoveAAProfiles | sources/AAMutSelDSBDPOmegaModel.hpp:612-639 | two Metropolis passes then two gamma passes, three proposals each |
| AAMutSelMixture.AAMutSelDSBDPOmegaModel.MoveAAMixture | sources/AAMutSelDSBDPOmegaModel.hpp:594-605 | the new profiles, allocation, occupancy and weights are those of MixtureRounds applied to the old ones; every round keeps occupancy the histogram of the allocation, the profiles valid and the weights positive |
| AAMutSelMixture.AAMutSelDSBDPOmegaModel.MixtureRoundStep | sources/AAMutSelDSBDPOmegaModel.hpp:596-600 | one round moves the four fields exactly as MixtureRoundResult says |
| AAMutSelMixture.MixtureRoundResult | sources/AAMutSelDSBDPOmegaModel.hpp:596-600 | one round, in the source's order: profile moves on the current occupancy, prior draws for its empty components, the new allocation drawn from the posteriors and its histogram, the label switch drawn on that histogram, and weights drawn given the switched occupancy; the result again has occupancy equal to the histogram of the allocation, valid profiles and positive weights |
| AAMutSelMixture.MixtureRounds | sources/AAMutSelDSBDPOmegaModel.hpp:595-604 | the rounds applied one after the other keep the same shape invariant |
| AAMutSelMixture.Redrawn | sources/AAMutSelDSBDPOmegaModel.hpp:607-610 | an empty component gets its prior draw, an occupied one keeps its profile |
| AAMutSelMixture.DrawAlloc | sources/AAMutSelDSBDPOmegaModel.hpp:749-756 | the draw for one site is its posterior draw and a component index |
| AAMutSelMixture.AllocResult | sources/AAMutSelDSBDPOmegaModel.hpp:749-756 | every site is allocated its posterior draw, within the component range |
| AAMutSelMixture.AAMutSelDSBDPOmegaModel.MPIPut | sources/AAMutSelDSBDPOmegaModel.hpp:1153-1176 | writes the buffer form of the saved fields, omega gated on omegamode |
| AAMutSelMixture.AAMutSelDSBDPOmegaModel.ToStream | sources/AAMutSelDSBDPOmegaModel.hpp:1070-1096 | writes the text form field by field, omega gated on omegamode; stripped of tabs it is the buffer form of MPIPut |
| AAMutSelMixture.AAMutSelDSBDPOmegaModel.ToStreamAsWritten | sources/AAMutSelDSBDPOmegaModel.hpp:1070-1096 | writes the text form with omega gated on its value (line 1093); stripped of tabs it is the as-written buffer |
| AAMutSelMixture.AAMutSelDSBDPOmegaModel.WriteLayout | sources/AAMutSelDSBDPOmegaModel.hpp:1070-1096 | writes scalars with one tab, vector fields value by value with one more tab after each, the stick-breaking weights with no extra tab, and omega when the gate holds |
| AAMutSelMixture.AAMutSelDSBDPOmegaModel.PutLayout | sources/AAMutSelDSBDPOmegaModel.hpp:1153-1176 | appends exactly the mode-gated groups in the reader's order, and omega when the gate holds |
| AAMutSelMixture.AAMutSelDSBDPOmegaModel.MPIPutAsWritten | sources/AAMutSelDSBDPOmegaModel.hpp:1153-1176 | the buffer as the source writes it, omega gated on its value (line 1173) |
| AAMutSelMixture.AAMutSelDSBDPOmegaModel.SizeWith | sources/AAMutSelDSBDPOmegaModel.hpp:1099-1124 | the number of values PutLayout writes for the same gate |
| AAMutSelMixture.AAMutSelDSBDPOmegaModel.GetMPISizeAsWritten | sources/AAMutSelDSBDPOmegaModel.hpp:1099-1124 | the size as the source counts it, omega counted when its value is below 2 (line 1120); equal to the length of the as-written buffer |
| AAMutSelMixture.AAMutSelDSBDPOmegaModel.GetMPISize | sources/AAMutSelDSBDPOmegaModel.hpp:1099-1124 | the length of what MPIPut writes, with omega counted under omegamode |
| AAMutSelMixture.AAMutSelDSBDPOmegaModel.MPIGet | sources/AAMutSelDSBDPOmegaModel.hpp:1127-1150 | the saved fields become what the buffer holds, reported when it is short or ill-typed |
| AAMutSelMixture.AAMutSelDSBDPOmegaModel.GetCore | sources/AAMutSelDSBDPOmegaModel.hpp:1128-1146 | reads every group before omega |
| AAMutSelMixture.AAMutSelDSBDPOmegaModel.GetBranch | sources/AAMutSelDSBDPOmegaModel.hpp:1128-1131 | reads the branch group |
| AAMutSelMixture.AAMutSelDSBDPOmegaModel.GetNuc | sources/AAMutSelDSBDPOmegaModel.hpp:1132-1135 | reads the nucleotide group |
| AAMutSelMixture.AAMutSelDSBDPOmegaModel.GetBase | sources/AAMutSelDSBDPOmegaModel.hpp:1136-1142 | reads the base-mixture group |
| AAMutSelMixture.AAMutSelDSBDPOmegaModel.SetBaseWeights | sources/AAMutSelDSBDPOmegaModel.hpp:1137-1139 | stores basekappa, the base weights and the component allocation, nothing else |
| AAMutSelMixture.AAMutSelDSBDPOmegaModel.GetMixture | sources/AAMutSelDSBDPOmegaModel.hpp:1143-1146 | reads the mixture group |
| AAMutSelMixture.AAMutSelDSBDPOmegaModel.GetOmega | sources/AAMutSelDSBDPOmegaModel.hpp:1147-1149 | reads omega when omegamode < 2 |
| AAMutSelMixture.AAMutSelDSBDPOmegaModel.FromStream | sources/AAMutSelDSBDPOmegaModel.hpp:1042-1068 | reads the text form, separators skipped, as MPIGet |
| AAMutSelMixture.AAMutSelDSBDPOmegaModel.RestoreProfile | sources/AAMutSelDSBDPOmegaModel.hpp:662-664 | component i becomes the backup, entry by entry |
| MultiGeneMixture.Permutation.constructor | sources/MultiGeneAAMutSelDSBDPOmegaModel.hpp:10 | a new permutation of the given size holds zeros, the vector's default values |
| MultiGeneMixture.Permutation.Reset | sources/MultiGeneAAMutSelDSBDPOmegaModel.hpp:13-17 | the values become the identity, a permutation |
| MultiGeneMixture.Permutation.MPIPut | sources/MultiGeneAAMutSelDSBDPOmegaModel.hpp:19-25 | writes every value in index order, as many as GetMPISize says |
| MultiGeneMixture.Permutation.MPIGet | sources/MultiGeneAAMutSelDSBDPOmegaModel.hpp:27-31 | reads GetSize integers in index order, keeping the size; a short or ill-typed buffer is reported |
| MultiGeneMixture.Permutation.Swap | sources/MultiGeneAAMutSelDSBDPOmegaModel.hpp:593 | exchanges two entries (also line 622) |
| MultiGeneMixture.ReadIntsStep | sources/MultiGeneAAMutSelDSBDPOmegaModel.hpp:27-31 | reading n integers reads the first one and then n-1 more |
| MultiGeneMixture.PrefixedAssoc | sources/MultiGeneAAMutSelDSBDPOmegaModel.hpp:27-31 | reading in two steps gives the same result as reading at once |
| MultiGeneMixture.GatherPermutation | sources/MultiGeneAAMutSelDSBDPOmegaModel.hpp:589-593 | a permutation rearranged by a permutation is a permutation (also lines 617-622) |
| MultiGeneMixture.LabelSwitchInvariants | sources/MultiGeneAAMutSelDSBDPOmegaModel.hpp:589-593 | rearranging occupancy by a permutation keeps its multiset and its cluster count, and keeps permutocc a permutation (also lines 617-622) |
| MultiGeneMixture.UnresetPermutation | sources/MultiGeneAAMutSelDSBDPOmegaModel.hpp:10 | as written, permutocc is never reset: it starts as all zeros, which is not a permutation, and stays all zeros under any swaps (also lines 151, 593, 622) |
| MultiGeneMixture.AdjacentInRange | sources/MultiGeneAAMutSelDSBDPOmegaModel.hpp:611-612 | for a uniform draw in [0,1) and baseNcat >= 2 both adjacent indices are in range, and with baseNcat >= 3 the last component is never touched |
| MultiGeneMixture.AcceptanceRate | sources/MultiGeneAAMutSelDSBDPOmegaModel.hpp:596 | the returned fraction is undefined exactly when there were no attempts, and otherwise lies in [0,1] (also line 626) |
| MultiGeneMixture.Zeros | sources/MultiGeneAAMutSelDSBDPOmegaModel.hpp:736-737 | a cleared occupancy array: K nonnegative entries |
| MultiGeneMixture.SumZeros | sources/MultiGeneAAMutSelDSBDPOmegaModel.hpp:736-737 | a cleared occupancy array sums to 0 |
| MultiGeneMixture.TotalOccupancy | sources/MultiGeneAAMutSelDSBDPOmegaModel.hpp:738-743 | the aggregated occupancy has one entry per base component |
| MultiGeneMixture.TotalOccupancySum | sources/MultiGeneAAMutSelDSBDPOmegaModel.hpp:735-746 | the aggregated occupancy sums to the total number of components over all genes |
| MultiGeneMixture.TotalOccupancyCovers | sources/MultiGeneAAMutSelDSBDPOmegaModel.hpp:738-743 | the aggregated occupancy is at least each gene's own count and never negative |
| MultiGeneMixture.TotalOccupancyNonNegative | sources/MultiGeneAAMutSelDSBDPOmegaModel.hpp:738-743 | the aggregated occupancy is never negative |
| MultiGeneMixture.AddRows | sources/MultiGeneAAMutSelDSBDPOmegaModel.hpp:740 | adding a gene's statistics adds entry by entry |
| MultiGeneMixture.ZeroRows | sources/MultiGeneAAMutSelDSBDPOmegaModel.hpp:736 | a cleared statistics array has one row of Naa entries per base component |
| MultiGeneMixture.TotalSuffStat | sources/MultiGeneAAMutSelDSBDPOmegaModel.hpp:736-740 | the aggregated statistics keep the array's shape |
| MultiGeneMixture.IdentityUnmoved | sources/MultiGeneAAMutSelDSBDPOmegaModel.hpp:559-599 | before any swap, no base component has been moved |
| MultiGeneMixture.SwapKeepsUnmoved | sources/MultiGeneAAMutSelDSBDPOmegaModel.hpp:583-593 | a swap of two occupied components moves no unoccupied one |
| MultiGeneMixture.GatherIdentity | sources/MultiGeneAAMutSelDSBDPOmegaModel.hpp:559-599 | rearranging by the identity changes nothing |
| MultiGeneMixture.NonZeroPositive | sources/MultiGeneAAMutSelDSBDPOmegaModel.hpp:227-235 | one occupied component makes the cluster count at least 1 |
| MultiGeneMixture.BaseNclusterPositive | sources/MultiGeneAAMutSelDSBDPOmegaModel.hpp:227-235 | with at least one component in a gene the aggregated cluster count lies in [1, baseNcat] (also lines 738-743) |
| MultiGeneMixture.SwapStep | sources/MultiGeneAAMutSelDSBDPOmegaModel.hpp:589-593 | swapping the same two entries of arrays rearranged by q rearranges them by q with those entries swapped, which is again a permutation (also lines 617-622) |
| MultiGeneMixture.MultiGeneAAMutSelDSBDPOmegaModel.constructor | sources/MultiGeneAAMutSelDSBDPOmegaModel.hpp:148-170 | basekappa is 1, centers uniform, concentrations 20, occupancy and statistics zero, and permutocc reset to the identity |
| MultiGeneMixture.MultiGeneAAMutSelDSBDPOmegaModel.AsWritten | sources/MultiGeneAAMutSelDSBDPOmegaModel.hpp:148-170 | the construction as the source has it: the same fields, with permutocc all zeros, which is not a permutation once there are two base components |
| MultiGeneMixture.MultiGeneAAMutSelDSBDPOmegaModel.GetBaseNcluster | sources/MultiGeneAAMutSelDSBDPOmegaModel.hpp:227-235 | the number of occupied base components |
| MultiGeneMixture.MultiGeneAAMutSelDSBDPOmegaModel.OccupiedIndices | sources/MultiGeneAAMutSelDSBDPOmegaModel.hpp:569-580 | exactly the occupied indices, Nocc of them, in ascending order |
| MultiGeneMixture.MultiGeneAAMutSelDSBDPOmegaModel.ResampleBaseWeights | sources/MultiGeneAAMutSelDSBDPOmegaModel.hpp:629-631 | the weights and variates are redrawn from the occupancy |
| MultiGeneMixture.MultiGeneAAMutSelDSBDPOmegaModel.SwapBase | sources/MultiGeneAAMutSelDSBDPOmegaModel.hpp:589-593 | exchanges the two components in centers, concentrations, occupancy, statistics and permutocc together |
| MultiGeneMixture.MultiGeneAAMutSelDSBDPOmegaModel.SwapWeights | sources/MultiGeneAAMutSelDSBDPOmegaModel.hpp:620 | exchanges the two stick-breaking components |
| MultiGeneMixture.MultiGeneAAMutSelDSBDPOmegaModel.OccupiedAttempt | sources/MultiGeneAAMutSelDSBDPOmegaModel.hpp:569-594 | one attempt keeps the arrays the starting ones rearranged by a permutation that moves no unoccupied component, and keeps the cluster count |
| MultiGeneMixture.MultiGeneAAMutSelDSBDPOmegaModel.OccupiedLoop | sources/MultiGeneAAMutSelDSBDPOmegaModel.hpp:568-595 | the attempts keep that invariant and accept at most nrep swaps |
| MultiGeneMixture.MultiGeneAAMutSelDSBDPOmegaModel.IdentityStart | sources/MultiGeneAAMutSelDSBDPOmegaModel.hpp:559-567 | the invariant holds at the start with the identity |
| MultiGeneMixture.MultiGeneAAMutSelDSBDPOmegaModel.MoveBaseOccupiedCompAlloc | sources/MultiGeneAAMutSelDSBDPOmegaModel.hpp:559-599 | the weights are resampled from the starting occupancy; the arrays end rearranged by one permutation that moves no unoccupied component; with one occupied component nothing moves and 0 is returned; otherwise the rate is undefined exactly when floor(k0*basekappa) is 0, and lies in [0,1] |
| MultiGeneMixture.MultiGeneAAMutSelDSBDPOmegaModel.AdjacentAttempt | sources/MultiGeneAAMutSelDSBDPOmegaModel.hpp:611-623 | one adjacent attempt keeps the arrays, weights included, rearranged by one permutation |
| MultiGeneMixture.MultiGeneAAMutSelDSBDPOmegaModel.AdjacentLoop | sources/MultiGeneAAMutSelDSBDPOmegaModel.hpp:610-624 | the attempts keep that invariant and accept at most nrep swaps |
| MultiGeneMixture.MultiGeneAAMutSelDSBDPOmegaModel.MoveBaseAdjacentCompAlloc | sources/MultiGeneAAMutSelDSBDPOmegaModel.hpp:601-627 | the arrays and the resampled weights end rearranged by one permutation, the last component stays in place when baseNcat >= 3, and the rate is undefined exactly when there are no attempts, and lies in [0,1] |
| MultiGeneMixture.MultiGeneAAMutSelDSBDPOmegaModel.BaseLabelSwitchingMove | sources/MultiGeneAAMutSelDSBDPOmegaModel.hpp:554-557 | the two moves rearrange the arrays by one permutation, the first move's followed by the second's, so the occupancy multiset and the cluster count are kept and permutocc stays a permutation; the weights and beta variates end as the second resampling of the occupancy the first move leaves, gathered by the second move's permutation |
| MultiGeneMixture.MultiGeneAAMutSelDSBDPOmegaModel.SlaveSendBaseSuffStat | sources/MultiGeneAAMutSelDSBDPOmegaModel.hpp:735-746 | from cleared arrays, the occupancy and statistics are the sums over genes, and the occupancy sums to the number of components over all genes |
| SparseAASubSel.PairsClosedForm | sources/SparseAASubSelModel.hpp:226-228 | twice the number of unordered pairs of n amino acids is n*(n-1) |
| SparseAASubSel.Nrr | sources/SparseAASubSelModel.hpp:226-228 | GetNrr is the number of unordered pairs of the 20 amino acids, 190 |
| SparseAASubSel.EpsilonConfig | sources/SparseAASubSelModel.hpp:99-113 | inepsilon 1 fixes the masks and the epsilon (maskmode 3, epsilon mode 3, epsilon 1); another nonnegative value frees the masks and fixes epsilon at that value; a negative one frees both and starts epsilon at 0.01 |
| SparseAASubSel.MaskTarget | sources/SparseAASubSelModel.hpp:854-857 | the amino acid proposed is in range; it is the repetition's own index when nrep is 20 |
| SparseAASubSel.Redraw | sources/SparseAASubSelModel.hpp:865-868 | a redrawn pre-profile entry is the gamma draw, or 1e-8 when that draw is 0, so it is positive |
| SparseAASubSel.MaskStep | sources/SparseAASubSelModel.hpp:859-883 | one attempt keeps a row of 20 entries |
| SparseAASubSel.MaskChain | sources/SparseAASubSelModel.hpp:853-884 | the attempts keep a row of 20 entries |
| SparseAASubSel.SiteResult | sources/SparseAASubSelModel.hpp:848-884 | a site's move keeps its row sizes and accepts at most as many flips as it tries, at most nrep |
| SparseAASubSel.MaskStepKeeps | sources/SparseAASubSelModel.hpp:859-883 | one attempt keeps the row a bit vector, keeps naa equal to its number of set bits, and never switches off the last active amino acid |
| SparseAASubSel.MaskStepLocal | sources/SparseAASubSelModel.hpp:859-881 | an attempt changes only the bit it targets, and a rejected attempt restores the row and naa exactly |
| SparseAASubSel.MaskChainKeeps | sources/SparseAASubSelModel.hpp:849-884 | over all repetitions the row stays a bit vector with naa its number of set bits, and a row with an active amino acid keeps one |
| SparseAASubSel.MaskChainCounts | sources/SparseAASubSelModel.hpp:873-882 | accepted flips never outnumber tried ones, and tries never exceed repetitions |
| SparseAASubSel.MaskChainAllRejected | sources/SparseAASubSelModel.hpp:876-881 | when every attempt is rejected the row and naa are as they started |
| SparseAASubSel.MaskChainPositive | sources/SparseAASubSelModel.hpp:864-869 | pre-profile entries stay positive |
| SparseAASubSel.SweepTargets | sources/SparseAASubSelModel.hpp:855-857 | with nrep 20, repetition rep targets amino acid rep, so every amino acid is tried once |
| SparseAASubSel.SiteResults | sources/SparseAASubSelModel.hpp:847-885 | site i's result is that of its own move, from its own starting row |
| SparseAASubSel.Trials | sources/SparseAASubSelModel.hpp:845-846 | total accepted flips never exceed total tries (also lines 873-882) |
| SparseAASubSel.TrialsPrefix | sources/SparseAASubSelModel.hpp:847-885 | the totals grow site by site |
| SparseAASubSel.TrialsBound | sources/SparseAASubSelModel.hpp:847-885 | with at most b tries per site the total is at most b per site |
| SparseAASubSel.MoveMasksBound | sources/SparseAASubSelModel.hpp:844-886 | accepted flips are at most the tries, which are at most nrep per site |
| SparseAASubSel.ReadBranch | sources/SparseAASubSelModel.hpp:1061-1064 | reading the branch group changes only lambda and the branch lengths |
| SparseAASubSel.ReadRelRate | sources/SparseAASubSelModel.hpp:1065-1067 | reading the rate group changes only the relative rates |
| SparseAASubSel.ReadProfile | sources/SparseAASubSelModel.hpp:1068-1070 | reading the profile group changes only the pre-profiles |
| SparseAASubSel.ReadPi | sources/SparseAASubSelModel.hpp:1071-1073 | reading pi changes only pi |
| SparseAASubSel.ReadMask | sources/SparseAASubSelModel.hpp:1074-1076 | reading the masks changes only the masks |
| SparseAASubSel.ReadEpsilon | sources/SparseAASubSelModel.hpp:1077-1079 | reading the epsilon changes only the epsilon |
| SparseAASubSel.ReadBranchRoundTrip | sources/SparseAASubSelModel.hpp:1061-1064 | with blmode < 2 the branch group is read back; otherwise nothing is written or read (also lines 1084-1087) |
| SparseAASubSel.ReadRelRateRoundTrip | sources/SparseAASubSelModel.hpp:1065-1067 | the same for the rates under rrmode (also lines 1088-1090) |
| SparseAASubSel.ReadProfileRoundTrip | sources/SparseAASubSelModel.hpp:1068-1070 | the same for the pre-profiles under profilemode (also lines 1091-1093) |
| SparseAASubSel.ReadPiRoundTrip | sources/SparseAASubSelModel.hpp:1071-1073 | the same for pi under maskmode < 2 (also lines 1094-1096) |
| SparseAASubSel.ReadMaskRoundTrip | sources/SparseAASubSelModel.hpp:1074-1076 | the same for the masks under maskmode < 3 (also lines 1097-1099) |
| SparseAASubSel.ReadEpsilonRoundTrip | sources/SparseAASubSelModel.hpp:1077-1079 | the same for epsilon under maskepsilonmode (also lines 1100-1102) |
| SparseAASubSel.RoundTrip | sources/SparseAASubSelModel.hpp:1060-1103 | MPIGet after MPIPut restores every saved field under the same gates and leaves what follows |
| SparseAASubSel.MaskRoundTrip | sources/SparseAASubSelModel.hpp:1071-1079 | the mask groups read back in order (also lines 1094-1102) |
| SparseAASubSel.StripStep | sources/SparseAASubSelModel.hpp:1013-1031 | stripping proceeds group by group |
| SparseAASubSel.StreamTextStrip | sources/SparseAASubSelModel.hpp:1012-1032 | the text form stripped of tabs is the buffer form |
| SparseAASubSel.StreamRoundTrip | sources/SparseAASubSelModel.hpp:989-1032 | FromStream reads back what ToStream wrote |
| SparseAASubSel.MPISizeRoundTrip | sources/SparseAASubSelModel.hpp:1035-1057 | GetMPISize counts exactly the values MPIPut writes (also lines 1083-1103) |
| SparseAASubSel.AppendScalar | sources/SparseAASubSelModel.hpp:1014-1014 | a gated scalar is appended with its tab exactly when its gate is open (also lines 1021, 1030) |
| SparseAASubSel.AppendField | sources/SparseAASubSelModel.hpp:1015-1015 | a gated vector field is appended, each value followed by a tab and one more tab after the field, exactly when its gate is open (also lines 1018, 1024, 1027) |
| SparseAASubSel.SparseAASubSelModel.constructor | sources/SparseAASubSelModel.hpp:92-116 | sets the modes as given, the epsilon table, lambda 10 and pi 0.1; the masks start cleared and FitSiteMaskArray fills them from the data (also lines 159, 178-191) |
| SparseAASubSel.SparseAASubSelModel.FitSiteMaskArray | sources/SparseAASubSelModel.hpp:237-249 | every mask becomes a bit vector whose bit k is set exactly when some taxon shows amino acid k at that site |
| SparseAASubSel.SparseAASubSelModel.FitSite | sources/SparseAASubSelModel.hpp:239-247 | the same for one site |
| SparseAASubSel.SparseAASubSelModel.CountActive | sources/SparseAASubSelModel.hpp:849-852 | naa starts as the number of set bits |
| SparseAASubSel.SparseAASubSelModel.MaskAttempt | sources/SparseAASubSelModel.hpp:854-883 | one attempt as specified |
| SparseAASubSel.SparseAASubSelModel.MoveSiteMask | sources/SparseAASubSelModel.hpp:848-884 | site i's row and pre-profile become its move's result, no other site changing |
| SparseAASubSel.SparseAASubSelModel.MoveMasks | sources/SparseAASubSelModel.hpp:844-886 | every site's result is its own move's; the rate is undefined exactly when nothing was tried and otherwise is accepted over tried, in [0,1] |
| SparseAASubSel.SparseAASubSelModel.MPIPut | sources/SparseAASubSelModel.hpp:1083-1103 | writes the buffer form |
| SparseAASubSel.SparseAASubSelModel.ToStream | sources/SparseAASubSelModel.hpp:1012-1032 | writes the text form, whose stripped form is the buffer form |
| SparseAASubSel.SparseAASubSelModel.GetMPISize | sources/SparseAASubSelModel.hpp:1035-1057 | the length of what MPIPut writes |
| SparseAASubSel.SparseAASubSelModel.MPIGet | sources/SparseAASubSelModel.hpp:1060-1080 | the saved fields become what the buffer holds, reported when it is short or ill-typed |
| SparseAASubSel.SparseAASubSelModel.GetBranch | sources/SparseAASubSelModel.hpp:1061-1064 | reads the branch group |
| SparseAASubSel.SparseAASubSelModel.GetRelRate | sources/SparseAASubSelModel.hpp:1065-1067 | reads the rate group |
| SparseAASubSel.SparseAASubSelModel.GetProfile | sources/SparseAASubSelModel.hpp:1068-1070 | reads the pre-profiles |
| SparseAASubSel.SparseAASubSelModel.GetPi | sources/SparseAASubSelModel.hpp:1071-1073 | reads pi |
| SparseAASubSel.SparseAASubSelModel.GetMask | sources/SparseAASubSelModel.hpp:1074-1076 | reads the masks |
| SparseAASubSel.SparseAASubSelModel.GetEpsilon | sources/SparseAASubSelModel.hpp:1077-1079 | reads epsilon |
| SparseAASubSel.SparseAASubSelModel.FromStream | sources/SparseAASubSelModel.hpp:989-1009 | reads the text form, separators skipped, as MPIGet |
| SparseAASubSel.FittedSitesStayActive | sources/SparseAASubSelModel.hpp:237-249 | a site where some taxon is observed is fitted with an active amino acid and keeps one through the moves (also line 859) |
| SparseAASubSel.SumOneBit | sources/SparseAASubSelModel.hpp:849-852 | a set bit makes the count at least 1 |
| DiffSelSparse.ShiftsBounds | sources/DiffSelSparseModel.hpp:712-717 | for bit rows of 20 entries, the number of set toggles is between 0 and 20 per site (also lines 732-737) |
| DiffSelSparse.ShiftsUpdate | sources/DiffSelSparseModel.hpp:748-783 | rewriting one site changes the count by the difference of that site's sums |
| DiffSelSparse.ShiftsPrefix | sources/DiffSelSparseModel.hpp:712-717 | the count grows site by site |
| DiffSelSparse.ToggleTarget | sources/DiffSelSparseModel.hpp:746 | the amino acid (int)(Naa * U) is in range for U in [0,1) |
| DiffSelSparse.ToggleStep | sources/DiffSelSparseModel.hpp:746-783 | one proposal keeps the shape and counts one attempt |
| DiffSelSparse.ToggleSweep | sources/DiffSelSparseModel.hpp:745-784 | a sweep over n sites counts n attempts |
| DiffSelSparse.ToggleChain | sources/DiffSelSparseModel.hpp:744-785 | the replicates keep the shape |
| DiffSelSparse.ToggleStepCounted | sources/DiffSelSparseModel.hpp:748-783 | a proposal keeps the toggles bits, keeps the running nshift equal to the number of set toggles, and accepts at most what it tries |
| DiffSelSparse.ToggleStepFlips | sources/DiffSelSparseModel.hpp:748-783 | an accepted proposal flips exactly the targeted toggle, and a rejected one leaves every toggle as it was |
| DiffSelSparse.ToggleSweepCounted | sources/DiffSelSparseModel.hpp:745-784 | a sweep keeps the count exact |
| DiffSelSparse.ToggleChainCounted | sources/DiffSelSparseModel.hpp:744-785 | the whole move keeps nshift equal to the set toggles, so the final Beta draw uses the true count |
| DiffSelSparse.ToggleChainAttempts | sources/DiffSelSparseModel.hpp:744-785 | the move tries exactly Nsite proposals per replicate |
| DiffSelSparse.ScaleRow | sources/DiffSelSparseModel.hpp:566-573 | an entry is multiplied by e exactly when it is active (baseline or toggled) |
| DiffSelSparse.DivideRow | sources/DiffSelSparseModel.hpp:592-598 | an entry is divided by e exactly when it is active |
| DiffSelSparse.DivideScaleRow | sources/DiffSelSparseModel.hpp:566-598 | dividing back the scaled entries restores the row |
| DiffSelSparse.ScaleSite | sources/DiffSelSparseModel.hpp:566-573 | scaling keeps the number of conditions |
| DiffSelSparse.DivideSite | sources/DiffSelSparseModel.hpp:592-598 | dividing keeps the number of conditions |
| DiffSelSparse.ActiveCountShifts | sources/DiffSelSparseModel.hpp:566-575 | the number n of scaled entries at a site is 20 baseline entries plus the site's shifts over the other conditions |
| DiffSelSparse.BaselineActive | sources/DiffSelSparseModel.hpp:555 | every baseline entry is active |
| DiffSelSparse.ActiveInShifts | sources/DiffSelSparseModel.hpp:555 | in condition k the active entries are the set toggles of row k-1 |
| DiffSelSparse.CompStep | sources/DiffSelSparseModel.hpp:551-600 | one proposal counts one attempt and at most one acceptance |
| DiffSelSparse.CompSweep | sources/DiffSelSparseModel.hpp:549-601 | a sweep over n sites counts n attempts |
| DiffSelSparse.CompStepRejected | sources/DiffSelSparseModel.hpp:589-599 | a rejected proposal leaves the fitness unchanged |
| DiffSelSparse.CompStepInactive | sources/DiffSelSparseModel.hpp:555 | an inactive entry is never touched (also lines 568, 594) |
| DiffSelSparse.CompSweepInactive | sources/DiffSelSparseModel.hpp:549-601 | an inactive entry is never touched in a sweep |
| DiffSelSparse.CompChainInactive | sources/DiffSelSparseModel.hpp:548-602 | an inactive entry is never touched by the move |
| DiffSelSparse.CompStepOtherSites | sources/DiffSelSparseModel.hpp:551-600 | a proposal at site i leaves every other site alone |
| DiffSelSparse.CompChainShape | sources/DiffSelSparseModel.hpp:548-602 | the move keeps the fitness array's shape |
| DiffSelSparse.CompSweepShape | sources/DiffSelSparseModel.hpp:549-601 | a sweep keeps the shape |
| DiffSelSparse.CompChainAttempts | sources/DiffSelSparseModel.hpp:548-602 | the move tries Nsite proposals per replicate and accepts at most those |
| DiffSelSparse.CompSweepAccepts | sources/DiffSelSparseModel.hpp:549-601 | a sweep accepts at most one proposal per site |
| DiffSelSparse.ShiftStep | sources/DiffSelSparseModel.hpp:656-679 | a site visit keeps the shape of the condition's fitness |
| DiffSelSparse.ShiftSweep | sources/DiffSelSparseModel.hpp:655-680 | a sweep keeps the shape |
| DiffSelSparse.ShiftChain | sources/DiffSelSparseModel.hpp:654-681 | the move keeps the shape |
| DiffSelSparse.ShiftSweepSkips | sources/DiffSelSparseModel.hpp:656 | a site without a shift keeps its fitness through a sweep |
| DiffSelSparse.ShiftChainSkips | sources/DiffSelSparseModel.hpp:654-681 | a site without a shift keeps its fitness through the move |
| DiffSelSparse.ShiftSweepCounts | sources/DiffSelSparseModel.hpp:655-680 | a sweep tries exactly the shifted sites and accepts at most those |
| DiffSelSparse.ShiftChainCounts | sources/DiffSelSparseModel.hpp:654-681 | the move tries the shifted sites once per replicate |
| DiffSelSparse.ShiftStepRejected | sources/DiffSelSparseModel.hpp:672-677 | a rejected proposal restores the site's fitness |
| DiffSelSparse.Rate | sources/DiffSelSparseModel.hpp:603 | nacc / ntot is undefined exactly when nothing was tried; otherwise it times ntot is nacc, and it lies in [0,1] (also lines 682, 788) |
| DiffSelSparse.StripLine | sources/DiffSelSparseModel.hpp:841-846 | a vector written on its own line strips to its values |
| DiffSelSparse.StreamTextStrip | sources/DiffSelSparseModel.hpp:841-846 | the written text, separators removed, is lambda, branch lengths, rates and frequencies in order |
| DiffSelSparse.StreamRoundTrip | sources/DiffSelSparseModel.hpp:834-846 | FromStream after ToStream restores the four parameters with nothing left over |
| DiffSelSparse.DiffSelSparseModel.constructor | sources/DiffSelSparseModel.hpp:197-227 | lambda 10, pi 1, hypermean 0.5, hyperinvconc 0.5 and shift probability 0.1 for each of the Ncond-1 conditions, with fitness and toggles of the right shape |
| DiffSelSparse.DiffSelSparseModel.GetNshift | sources/DiffSelSparseModel.hpp:428-434 | fatal for the baseline; otherwise the number of set toggles of the condition, between 0 and 20 per site |
| DiffSelSparse.DiffSelSparseModel.GetSiteNshift | sources/DiffSelSparseModel.hpp:436-442 | fatal for the baseline; otherwise the site's set toggles, between 0 and 20 |
| DiffSelSparse.DiffSelSparseModel.CountShifts | sources/DiffSelSparseModel.hpp:712-717 | the loop's sum is the number of set toggles |
| DiffSelSparse.DiffSelSparseModel.ResampleShiftProb | sources/DiffSelSparseModel.hpp:704-721 | each condition's shift probability is the Beta draw for its hyperparameters, its set toggles and Nsite*Naa |
| DiffSelSparse.DiffSelSparseModel.ToggleAttempt | sources/DiffSelSparseModel.hpp:746-783 | one proposal as specified |
| DiffSelSparse.DiffSelSparseModel.MoveShiftToggles | sources/DiffSelSparseModel.hpp:729-789 | only condition k's toggles and fitness change, as the chain says; the shift probability is redrawn from the final count; the rate is undefined exactly when nothing was tried |
| DiffSelSparse.DiffSelSparseModel.ToggleRun | sources/DiffSelSparseModel.hpp:744-785 | the replicates as specified |
| DiffSelSparse.DiffSelSparseModel.ScaleActive | sources/DiffSelSparseModel.hpp:566-575 | scales the active entries of one site and counts them |
| DiffSelSparse.DiffSelSparseModel.DivideActive | sources/DiffSelSparseModel.hpp:592-598 | divides the active entries of one site back |
| DiffSelSparse.DiffSelSparseModel.CompSite | sources/DiffSelSparseModel.hpp:551-600 | one proposal as specified |
| DiffSelSparse.DiffSelSparseModel.CompRun | sources/DiffSelSparseModel.hpp:548-602 | the replicates as specified |
| DiffSelSparse.DiffSelSparseModel.CompMoveFitness | sources/DiffSelSparseModel.hpp:539-604 | the fitness becomes the chain's; inactive entries never change; the rate is accepted over tried and undefined exactly when nothing was tried |
| DiffSelSparse.DiffSelSparseModel.MoveFitnessShifts | sources/DiffSelSparseModel.hpp:648-683 | only condition k's fitness changes, and never at a site without a shift; the rate is undefined exactly when no site has a shift or there are no replicates |
| DiffSelSparse.DiffSelSparseModel.ShiftSite | sources/DiffSelSparseModel.hpp:656-679 | one site visit as specified, other conditions unchanged |
| DiffSelSparse.DiffSelSparseModel.ToStream | sources/DiffSelSparseModel.hpp:841-846 | writes the four parameters on four lines, and the text strips to the values in order |
| DiffSelSparse.DiffSelSparseModel.FromStream | sources/DiffSelSparseModel.hpp:834-839 | the parameters become what the stream holds, left unchanged when it runs short or holds a wrong token |

## Left out

- Floating-point arithmetic. `double` is modelled as `real`, so rounding, overflow, infinities and NaN do not arise. A division the source would do by zero is guarded by a `requires`, or yields `None` where the source returns a ratio of counts.
- Random draws, `exp`, `log`, `sqrt` and `Random::logGamma` are parameters of the members that use them. No distributional or detailed-balance claim is made.
- Log-densities are not modelled outside `src/lib/IIDBernoulliBeta.hpp`: every other `GetLogProb`, `GetLogPrior` and suffstat log-probability, and `GetSumOfContrasts` (sources/MultivariateBrownianTreeProcess.hpp:212-227). Metropolis outcomes are given as booleans instead. In `IIDBernoulliBeta.hpp` the log densities are modelled with `log` and `logGamma` as parameters.
- BernoulliBeta.IIDBernoulliBeta: keeps pi, mean and invconc as values fixed at construction, where the source holds `const double&` references to variables of its owner (src/lib/IIDBernoulliBeta.hpp lines 97-98 and 174-176), so a change the owner makes to them later is not seen by the model.
- The matrix caches are not modelled: codon and nucleotide matrices, `UpdateCodonMatrix`, `CorruptMatrices`, `UpdateSite` and the PhyloProcess. They hold no bookkeeping of their own.
- The stick-breaking weights and the `OccupancySuffStat`, `MultinomialAllocationVector` and `Array` collaborators are not part of this model. Weights are parameters. Array permutation is taken as a gather, `a'[k] = a[p[k]]`.
- MPI message passing, the chain drivers, `argv` handling and run loops are left out, as are the multi-gene master/slave protocols beyond the base-occupancy sum.
- The `.param` `Save`/`Open` of sources/MultiGeneCodonM2a.cpp:142, 194 skip `purommode`. That driver is not part of this model.
- `std::ostream` decimal precision is not modelled: a value read back is the value written. `operator<<` for `std::vector` and for the site and branch arrays, and the stick-breaking `ToStreamSB`, are in headers that are not part of this model; they are taken to write each value followed by a tab, as the branch arrays do (`src/lib/BranchArray.hpp` lines 35-37, reached through `operator<<` at line 81). The models then add their own tab after each field, so a vector field ends with two tabs in a row.
- A failed `operator>>` or a short MPI buffer puts the reader in a failed state. The model reports the failure as `ok == false`. A member whose contract says so keeps the object as it was; otherwise the values left after a failed read are not specified.
- `Nnuc` (4) and `Nrr` (6) come from headers that are not part of this model and are taken as constants.
- `Tree` and `Link` are not part of this model. The Brownian process takes the tree as a parent vector with parents numbered before their children. Each recursive traversal is modelled as a pass in node-index order, which visits every parent before its children as the recursion does.
- BranchArrays.BranchHomogeneousSelector.constructor: keeps a copy of the shared value, where the source holds a `const T&` reference to a variable of its owner (src/lib/BranchArray.hpp lines 111-112 and 122), so a change the owner makes after construction is not seen by `GetVal`, `Values` or `ToStream`.
- BrownianTree.MultivariateBrownianTreeProcess.constructor: the source constructor ends by calling `Sample()` (sources/MultivariateBrownianTreeProcess.hpp:20). The model's constructor stops after `Assign`, because the draws are parameters; `Sample` is a separate method that a caller runs next.
- BrownianTree.MVBranchExpoLengthArray.Create: the source ends the process with `exit(1)` on a non-positive interval; the model returns `Fatal` instead, and then says nothing of the lengths written before the failing node.
- DiffSelSparse.DiffSelSparseModel.MoveFitnessShifts: the proposal `PosRealVectorProposeMove(x, Naa, tuning, s)` (sources/DiffSelSparseModel.hpp:664) is in code outside this model, and the draws only fix its length. The model therefore says nothing about which entries of a shifted site's fitness vector move; it states only that unshifted sites and other conditions stay unchanged.
- MVBranchExpoMeanArray and the dS/dN getter branch arrays of dSOmegaPathSuffStat.hpp are thin wrappers over code that is not part of this model.
- NHX lexing past the end of the buffer is not modelled. The source matches each pattern against the next 64 characters (`it + 64`), searches for `]` to the end of a comment, and builds an excerpt of 10 characters; each of these can step past the end of the input. The model reads the available characters, and an unclosed comment or the end of input gives an `Invalid` token, so no precondition that the input ends in `;` is needed.
- The `std::regex` engine is replaced by the token classes it is given. The text of an `NHXException` message is not modelled; the reason for the throw is.
- `nodes_[number][tag] = value` with an out-of-range node is undefined behaviour in the source. The model leaves the tree unchanged there. The parser with its counter reset never reaches it; the as-written parser can, after a previous parse left the counter stale.
- NHX.ParseSingleRoot: the comment at sources/nhx-parser.hpp:46 says the tree has only one root. The lemma proves it only for inputs with a single top-level node (`SingleTop`), because a top-level comma breaks it: NHX.TwoRoots shows "A,B;" parsing to a tree whose nodes 0 and 1 both have parent -1.
- AAMutSelMixture.AAMutSelDSBDPOmegaModel.MoveAA: returns the accepted and attempted counts rather than their quotient `nacc/ntot` (sources/AAMutSelDSBDPOmegaModel.hpp:671), which the source divides even when no component is occupied and ntot is 0.
- AAMutSelMixture.AAMutSelDSBDPOmegaModel.MoveAAGamma: returns the accepted and attempted counts rather than their quotient (sources/AAMutSelDSBDPOmegaModel.hpp:746), which the source divides even when ntot is 0.
- AAMutSelMixture.AAMutSelDSBDPOmegaModel.MoveAAMixture: leaves out the `MoveKappa` step of each round (sources/AAMutSelDSBDPOmegaModel.hpp:600), which moves the concentration of the stick-breaking weights, and the matrix and path-statistic refreshes that follow it; the stick-breaking process is not part of this model.
- AAMutSelMixture.AAMutSelDSBDPOmegaModel.constructor: requires both counts to be at least -1. The source takes any `int`, and a count below -1 only fails later, when the arrays of that size are allocated (sources/AAMutSelDSBDPOmegaModel.hpp:196-229); that failure is not modelled.
- AAMutSelMixture.AAMutSelDSBDPOmegaModel.MPIPut: implements the corrected gate, omega saved when `omegamode < 2`; the source's gate on the value of omega (sources/AAMutSelDSBDPOmegaModel.hpp:1173) is MPIPutAsWritten.
- AAMutSelMixture.AAMutSelDSBDPOmegaModel.ToStream: implements the corrected gate, omega written when `omegamode < 2`; the source's gate on the value of omega (sources/AAMutSelDSBDPOmegaModel.hpp:1093) is ToStreamAsWritten.
- AAMutSelMixture.AAMutSelDSBDPOmegaModel.GetMPISize: implements the corrected gate, omega counted when `omegamode < 2`; the source's count (sources/AAMutSelDSBDPOmegaModel.hpp:1120) is GetMPISizeAsWritten.
- MultiGeneMixture.MultiGeneAAMutSelDSBDPOmegaModel.MoveBaseOccupiedCompAlloc: requires at least one occupied base component. With none, the source would draw from an empty urn (sources/MultiGeneAAMutSelDSBDPOmegaModel.hpp:582); the occupancy the master aggregates from genes with at least one component always has an occupied component, as MultiGeneMixture.BaseNclusterPositive shows. BaseLabelSwitchingMove carries the same requirement.
- MultiGeneMixture.MultiGeneAAMutSelDSBDPOmegaModel.constructor: implements the corrected construction, with permutocc reset to the identity; the source only allocates it (sources/MultiGeneAAMutSelDSBDPOmegaModel.hpp:151), which is the AsWritten constructor.

## Findings

| source | as written | input that shows it | evidently intended | confidence | as-written member | corrected member |
|---|---|---|---|---|---|---|
| sources/AAMutSelDSBDPOmegaModel.hpp:1093 | `ToStream` (line 1093), `GetMPISize` (1120) and `MPIPut` (1173) write omega when `omega < 2`, a test on the parameter's value, while `FromStream` and `MPIGet` (1065, 1147) read it when `omegamode < 2` | omegamode 2 with omega 1.0: omega is written and counted but not read, so every later value is read one place early | both sides gated on `omegamode < 2` | high, not executed | AAMutSelStream.OmegaGateMismatch | AAMutSelStream.RoundTrip |
| sources/MultiGeneAAMutSelDSBDPOmegaModel.hpp:151 | `permutocc` is created with `baseNcat` zero entries and never given the identity by `Reset` (lines 13-17), and the label-switching moves swap its entries | baseNcat 2: permutocc is [0, 0], which is not a permutation, and a swap keeps it so | permutocc starts as the identity and remains a permutation | high, not executed | MultiGeneMixture.UnresetPermutation | MultiGeneMixture.MultiGeneAAMutSelDSBDPOmegaModel.BaseLabelSwitchingMove |
| sources/MultivariateBrownianTreeProcess.hpp:195-200 | `RecursiveGetSampleCovarianceMatrix` allocates `contrast` with zeros and adds its products to the matrix without ever filling it | any tree with a node whose value differs from its parent's: the matrix is left unchanged, only `n` grows | the contrast of each branch, the scaled difference between node and parent, is added | medium, not executed | BrownianTree.MultivariateBrownianTreeProcess.GetSampleCovarianceMatrixAsWritten | BrownianTree.CovarianceFinding |
| sources/nhx-parser.hpp:264-271 | `parse` clears the tree but not the node counter `next_node`, which starts at 0 only in the constructor (line 116) | parse "A,B;" and then "();" on the same parser: the second tree has children lists [[2], []] naming a node that does not exist | the counter is reset with the tree | high, not executed | NHX.StaleCounter | NHXReader.NHXParser.Parse |
