# Contributivity engine: a Dafny model

This project models the bookkeeping and combinatorics of a federated-learning simulator's
contributivity engine. The engine estimates each data partner's Shapley value from a
characteristic function, which trains a model on a coalition of partners and scores it.

The model covers these parts of the system:

- **Cache** (`contributivity.py`, `not_twice_characteristic`). The memo of characteristic
  values is keyed by the sorted coalition and pre-seeded with `() -> 0`. A call counter
  rises on a miss only. Each player has a ledger of increments `v(S ∪ {i}) - v(S)`, filled
  whenever both ends are cached. `Valid` is the invariant: every cached value is true, and
  every ledger holds exactly the known increments. Every query preserves it.
- **Combinatorics**. The `itertools.combinations` order, size by size. This is the
  coalition list of `compute_SV` and of every importance-sampling loop.
- **ExactShapley** (`compute_SV`). Enumerates the coalitions through the memo, including
  the extra counter bump. The Shapley solver is a parameter.
- **PermutationMC** (`truncated_MC`). The truncated permutation walk and its contributions
  matrix. **Matrix** holds the column means and variances it reports.
- **InterpolatedMC** (`interpol_trunc_MC`). The interpolated walk as the source writes it,
  plus a corrected variant (see Findings).
- **ImportanceSampling** and **IsLinEstimator** (`IS_lin`). The Shapley density `prob`, the
  linear surrogate `approx_increment`, the renormalised importance density, the
  inverse-CDF draw with its de-biasing weight, and the estimator.
- **AdaptiveIS** (`AIS_Kriging`). The warm-up queries, `make_coordinate`, the kriging
  datasets, the refit schedule, and the loop that writes row `t - 1`.
- **Stratified** (`Stratified_MC` and `support`). The uniform draw within a stratum, the
  per-cell lists and support's de-duplicating tables, the `continuer` flags, and the
  scores.
- **Scenario** (`scenario.py`, `Scenario.__init__`). Parameter defaults, method-list
  validation and the quick demo.
- **Split** (`split_data`). Prefix-sum split indices and `np.split` chunking.
- **AdvancedSplit** (`split_data_advanced`). Label-cluster assignment, the resize factors
  and the per-cluster sample windows.
- **Nodes** (`node.py`). `get_x_train_len` and `corrupt_labels`.
- **Seqs** and **Wrappers**. Shared helpers: sorting, sums, ranges, `Result` and `Option`.

All randomness is passed in as arguments: permutations, uniform draws `u`, chosen strata,
shuffled index orders and `random.sample` draws. The characteristic function is a
parameter `f: seq<nat> -> real`. Values are `real`.

## Model

| member | source | states |
|---|---|---|
| Cache.Query | contributivity.py:97-139 | The value returned is the memo's entry for the sorted coalition. A hit leaves the state unchanged. A miss adds exactly that key and raises the counter by exactly 1. |
| Cache.QueryKeeps | contributivity.py:101-117 | A query never drops or changes a value already cached. |
| Cache.InitValid | contributivity.py:73-77 | A new object has counter 0, caches only `()`, and is valid with empty ledgers. |
| Cache.StoreSound | contributivity.py:118-137 | Every ledger entry a miss adds is the true increment of a player absent from the coalition, and both of its ends are cached. |
| Cache.StoreComplete | contributivity.py:118-137 | After a miss, every increment whose two ends are cached is in the ledger. |
| Cache.QueryKeepsValid | contributivity.py:97-139 | From a valid memo, a query of a repeat-free list returns the true value of its sorted coalition and keeps the memo valid. |
| Cache.QueryKeepsSound | contributivity.py:97-139 | For any list of players, a query returns the true value of the sorted form and keeps every cached value true. |
| Cache.QueryCounts | contributivity.py:101-104 | The counter rises by 1 exactly on a miss, in step with the number of cached coalitions. |
| Cache.KnownIncrement | contributivity.py:118-137 | Once `S` and `S ∪ {i}` are both cached, player i's ledger holds `v(S ∪ {i}) - v(S)` at `S`. |
| Cache.BumpValid | contributivity.py:147 | Bumping the counter by hand leaves the memo and ledgers valid. |
| Cache.QueryAll | contributivity.py:165-169 | Querying a list caches every sorted coalition in it and keeps every earlier entry. |
| Cache.QueryAllValid | contributivity.py:165-169 | From a valid memo the returned values are the true ones, the memo stays valid, and there is one evaluation per coalition not cached before. |
| Cache.StrictlySortedNoDup | contributivity.py:101-104 | A strictly ascending key has no repeated player, so sorted keys are coalitions. |
| Combinatorics.Combinations | contributivity.py:154-158 | `combinations(xs, k)` yields `C(|xs|, k)` entries. |
| Combinatorics.CombinationsSound | contributivity.py:154-158 | Each combination of an ascending list is an ascending selection of exactly k of its members. |
| Combinatorics.CombinationsComplete | contributivity.py:154-158 | Every ascending selection of k members is enumerated. |
| Combinatorics.CombinationsOrdered | contributivity.py:154-158 | The combinations come out in strictly increasing lexicographic order. |
| Combinatorics.CombinationsSized | contributivity.py:154-158 | Every combination has exactly k members, whatever the input order. |
| Combinatorics.BySizeMembers | contributivity.py:443-445 | The size-by-size loop yields exactly the sorted sub-coalitions whose size lies in lo..hi. |
| Combinatorics.BySizeOrdered | contributivity.py:443-445 | That loop is ordered by size, then lexicographically. |
| Combinatorics.BySizeCount | contributivity.py:443-445 | It yields the sum of `C(m, s)` over the sizes. |
| Combinatorics.BinomSumPow2 | contributivity.py:154-158 | The binomial coefficients of m sum to `2^m`. |
| Combinatorics.NonEmptyCoalitionsEnumerated | contributivity.py:154-158 | `compute_SV` lists each of the `2^n - 1` non-empty coalitions exactly once, sorted, by size then lexicographically. |
| Combinatorics.BinomFactorial | contributivity.py:400-402 | `C(m, k) k! (m - k)! = m!`, which links `prob` to the binomial counts. |
| ExactShapley.CoalitionsCanonical | contributivity.py:154-158 | Every listed coalition is non-empty, repeat-free and already sorted. |
| ExactShapley.ComputeSV | contributivity.py:143-175 | The solver receives `2^n - 1` values, and the scores are its answer on them. |
| ExactShapley.ComputeSVValid | contributivity.py:143-169 | `compute_SV` keeps the memo valid. |
| ExactShapley.ComputeSVValues | contributivity.py:165-175 | The solver receives the true value of every non-empty coalition, in enumeration order. |
| ExactShapley.ComputeSVCounts | contributivity.py:147-169 | The counter rises by the manual bump plus one per coalition newly cached. |
| ExactShapley.ComputeSVKeys | contributivity.py:154-169 | Afterwards the memo holds `()` and every non-empty coalition, and nothing but coalitions. |
| ExactShapley.ComputeSVCalls | contributivity.py:143-169 | From a new object, the memo ends with all `2^n` coalitions and the counter ends at `2^n`. |
| ExactShapley.FreshRun | contributivity.py:143-169 | The same holds from any valid memo that holds only `()` and has counter 0. |
| PermutationMC.WalkFrom | contributivity.py:280-290 | The walk fills `char_nodelists[0..n]` and one contribution per position, keeping the entries already computed. |
| PermutationMC.WalkTelescopes | contributivity.py:280-290 | Each player is credited once, with the increment at its position in the permutation. |
| PermutationMC.StuckWalk | contributivity.py:282-283 | Once the truncation test fires, every later value repeats and the memo is not touched. |
| PermutationMC.WalkSticks | contributivity.py:282-283 | After the truncation test fires it fires at every later position. |
| PermutationMC.WalkFaithful | contributivity.py:284-287 | Until it truncates, the walk holds the true values of the permutation's prefixes. |
| PermutationMC.TruncatedWalkRow | contributivity.py:276-290 | One permutation starts at 0 and never resumes after truncating. Each player gets its increment, and the row sums to the walk's last value. |
| PermutationMC.TruncatedWalkEfficient | contributivity.py:276-290 | The row sums to `v(N)`, or to a value within `truncation` of it. |
| PermutationMC.WalkEnds | contributivity.py:279-290 | A complete walk ends on `v(N)`, or within `truncation` of it. |
| PermutationMC.WalkAllEfficient | contributivity.py:265-291 | Every row of the contributions matrix sums to `v(N)`, or to within `truncation` of it. |
| PermutationMC.TruncatedMC | contributivity.py:242-300 | One score and one non-negative spread per player. |
| PermutationMC.TruncatedMCKeepsValid | contributivity.py:242-300 | `truncated_MC` keeps the memo valid. |
| PermutationMC.TruncatedMCEfficient | contributivity.py:276-292 | The scores sum to `v(N)` exactly when the threshold is not positive, and to within it otherwise. |
| PermutationMC.TruncatedMCSingle | contributivity.py:250-256 | A single player gets `v(N)` with spread 0. |
| PermutationMC.ScoresEfficient | contributivity.py:292 | The column means of the walks sum to `v(N)`, up to truncation. |
| PermutationMC.TruncatedWalkKeepsValid | contributivity.py:276-290 | One permutation keeps the memo valid. |
| PermutationMC.WalkAllKeepsValid | contributivity.py:265-291 | All the permutations together keep the memo valid. |
| PermutationMC.TruncatedMCMany | contributivity.py:242-300 | From a sound memo, with two or more players and at least 100 permutations, the scores sum to within `truncation` of `v(N)`. |
| PermutationMC.MeansEfficient | contributivity.py:292 | Rows that each sum to `v(N)`, up to truncation, have column means that do too. |
| Matrix.StdSquared | contributivity.py:295 | The squared `std / sqrt(t - 1)` is non-negative for every player. |
| Matrix.ColumnVariances | contributivity.py:295 | One variance per player, each non-negative. |
| Matrix.ColumnMeansTotal | contributivity.py:292 | The column means add up to the mean of the row sums. |
| InterpolatedMC.WrittenFrom | contributivity.py:344-365 | The loop as written fills `char_nodelists` and the row, keeping entries already computed. It fails only on a division by zero. |
| InterpolatedMC.WrittenTelescopes | contributivity.py:363-365 | Each step credits the player it reaches with exactly the increment it adds, whether queried or interpolated. |
| InterpolatedMC.WrittenUntruncated | contributivity.py:347-362 | With a threshold that is not positive, the loop as written is the walk of `truncated_MC`. |
| InterpolatedMC.Untruncated | contributivity.py:344-365 | With a threshold that is not positive, both versions query every prefix and equal the `truncated_MC` walk. |
| InterpolatedMC.WrittenOvershoots | contributivity.py:354-357 | The loop as written adds a share of `v(N)` rather than of the gap. With sizes [1, 1], `v({0}) = 0.99` and `v(N) = 1`, the row sums to 1.99. |
| InterpolatedMC.WrittenReadsPositions | contributivity.py:350-353 | The loop as written reads sizes by position in `node_list`. Permutation [1, 0] with sizes [5, 0] divides by zero, and the corrected walk does not. |
| InterpolatedMC.WrittenSucceeds | contributivity.py:348-357 | When every partner holds a sample, the loop as written never divides by zero. |
| InterpolatedMC.WrittenWalkSums | contributivity.py:339-365 | A row of the loop as written sums to the walk's last value, which need not be `v(N)`, and the memo stays sound. |
| InterpolatedMC.WrittenAll | contributivity.py:329-366 | One row of `n` contributions per permutation. The first division by zero aborts. |
| InterpolatedMC.WrittenAllSucceeds | contributivity.py:329-366 | When every partner holds a sample, no permutation divides by zero. |
| InterpolatedMC.InterpolTruncMC | contributivity.py:304-375 | The estimate as written has one score and one non-negative spread per player. |
| InterpolatedMC.InterpolTruncMCAgrees | contributivity.py:304-375 | It is computed whenever every partner holds a sample. With a threshold that is not positive it equals `truncated_MC`. |
| InterpolatedMC.InterpolTruncMCKeepsSound | contributivity.py:304-375 | `interpol_trunc_MC` keeps every cached value true. |
| InterpolatedMC.InterpolTruncMCCache | contributivity.py:311-366 | The memo returned is the one left by the loop that follows the `v(N)` query. |
| InterpolatedMC.InterpolatedWalk | contributivity.py:344-365 | The corrected walk queries exactly what the truncated walk queries, and fills n + 1 values and n contributions. |
| InterpolatedMC.InterpolatedWalkEfficient | contributivity.py:347-357 | Whenever the corrected walk succeeds, its row sums to `v(N)` exactly, and the memo stays sound. |
| InterpolatedMC.InterpolatedAllEfficient | contributivity.py:329-366 | Every row of the corrected matrix sums to `v(N)`. |
| InterpolatedMC.CorrectedOnOvershoot | contributivity.py:354-357 | On the inputs of WrittenOvershoots, the corrected row sums to `v(N) = 1`. |
| InterpolatedMC.InterpolTruncMCCorrected | contributivity.py:304-375 | The corrected estimate has one score and one non-negative spread per player. |
| InterpolatedMC.CorrectedEfficient | contributivity.py:304-375 | Whenever the corrected estimate succeeds, its scores sum to `v(N)`, whatever the threshold. |
| InterpolatedMC.CorrectedAgrees | contributivity.py:304-375 | The corrected estimate is computed when every partner holds a sample. With a threshold that is not positive it equals `truncated_MC`. |
| InterpolatedMC.WrittenKeepsSound | contributivity.py:344-365 | The loop as written queries only through the memo and keeps every cached value true. |
| InterpolatedMC.WrittenAllKeepsSound | contributivity.py:329-366 | The matrix as written keeps the memo sound. |
| InterpolatedMC.WrittenAllUntruncated | contributivity.py:329-366 | With a threshold that is not positive, the matrix as written is the `truncated_MC` matrix. |
| InterpolatedMC.InterpolTruncMCSucceeds | contributivity.py:304-375 | When every partner holds a sample, the estimate as written is computed. |
| InterpolatedMC.InterpolTruncMCUntruncated | contributivity.py:304-375 | With a threshold that is not positive, the estimate as written is `truncated_MC`. |
| InterpolatedMC.InterpolatedWalkSums | contributivity.py:344-365 | From a sound memo, a successful corrected row sums to `v(N)`. |
| InterpolatedMC.InterpolatedWalkSucceeds | contributivity.py:350-357 | When every partner holds a sample, the corrected walk never divides by zero. |
| InterpolatedMC.InterpolatedAllSucceeds | contributivity.py:329-366 | When every partner holds a sample, no permutation of the corrected matrix divides by zero. |
| InterpolatedMC.InterpolatedAllUntruncated | contributivity.py:329-366 | With a threshold that is not positive, the corrected matrix is the `truncated_MC` matrix. |
| InterpolatedMC.CorrectedMany | contributivity.py:304-375 | From a sound memo, with two or more players and at least 100 permutations, the corrected scores sum to `v(N)` exactly. |
| InterpolatedMC.CorrectedSucceeds | contributivity.py:304-375 | When every partner holds a sample, the corrected estimate is computed. |
| InterpolatedMC.CorrectedUntruncated | contributivity.py:304-375 | With a threshold that is not positive, the corrected estimate is `truncated_MC`. |
| ImportanceSampling.Prob | contributivity.py:400-402 | `prob(S)` is positive. |
| ImportanceSampling.ProbSum | contributivity.py:400-402 | `prob` sums to 1 over the coalitions a player can join. |
| ImportanceSampling.BySizeProb | contributivity.py:400-402 | The sizes lo..hi together carry weight `(hi + 1 - lo) / n`. |
| ImportanceSampling.CandidatesFacts | contributivity.py:441-445 | Each candidate of player k is a coalition without k. |
| ImportanceSampling.ShareBounds | contributivity.py:422-433 | `beta = size(S) / size(I)` lies in [0, 1]. |
| ImportanceSampling.ApproxBetween | contributivity.py:426-434 | `approx_increment(S, k)` lies between k's first and last increments. |
| ImportanceSampling.ApproxEmpty | contributivity.py:426-434 | On the empty coalition, the surrogate is the first increment. |
| ImportanceSampling.Weights | contributivity.py:447-449 | `prob(S) |approx_increment(S, k)|` is non-negative, with one weight per candidate. |
| ImportanceSampling.RenormNonNegative | contributivity.py:439-450 | The renormalisation constant is non-negative. |
| ImportanceSampling.Draw | contributivity.py:474-487 | The draw stops at a candidate from the current position on. |
| ImportanceSampling.DrawFirst | contributivity.py:474-487 | The draw selects the first candidate whose cumulative weight over `renorm` exceeds `u`, and none if there is none. |
| ImportanceSampling.DrawInverse | contributivity.py:474-487 | For `renorm > 0`, the draw selects entry i exactly when `u` lies in the i-th slice of the cumulative distribution. |
| ImportanceSampling.DrawFound | contributivity.py:474-496 | For `0 <= u < 1` the draw succeeds and selects a weight above 0, so the de-biasing division is defined. |
| ImportanceSampling.ExpectedTerm | contributivity.py:492-496 | Each term of an observation's mean under the importance density is that coalition's Shapley term. |
| ImportanceSampling.Unbiased | contributivity.py:453-496 | When the surrogate vanishes nowhere, an observation's mean under the importance density is the Shapley value. |
| IsLinEstimator.BoundaryList | contributivity.py:409-419 | Two boundary queries per player. |
| IsLinEstimator.BoundaryListFacts | contributivity.py:409-419 | Each boundary query names distinct players below n. |
| IsLinEstimator.DensityConsistent | contributivity.py:439-450 | The tabulated weights are non-negative and zero exactly where the surrogate is zero, and `renorm` is their sum. |
| IsLinEstimator.ZeroWeight | contributivity.py:447-449 | A candidate where the surrogate is zero has weight 0. |
| IsLinEstimator.Pick | contributivity.py:474-496 | A successful pick names a candidate whose surrogate is non-zero. |
| IsLinEstimator.PickFound | contributivity.py:474-487 | For a consistent density of positive total and `0 <= u < 1`, the pick succeeds and is the inverse-CDF draw. |
| IsLinEstimator.Observe | contributivity.py:488-496 | An observation keeps the memo's player count. |
| IsLinEstimator.ObserveValue | contributivity.py:488-496 | From a sound memo, the observation is the de-biased true increment at the drawn coalition. |
| IsLinEstimator.ObserveIncrement | contributivity.py:488-496 | Once the two queries return `v(S ∪ {k})` and `v(S)`, the observation is the corrected true increment. |
| IsLinEstimator.ObserveKeepsValid | contributivity.py:488-491 | An observation keeps the memo valid. |
| IsLinEstimator.SampleRow | contributivity.py:472-496 | One contribution per player, and the memo stays valid. |
| IsLinEstimator.SampleAll | contributivity.py:464-497 | One row of n contributions per iteration, and the memo stays valid. |
| IsLinEstimator.Boundaries | contributivity.py:385-419 | The first queries give `v(N)` and 2n boundary values. |
| IsLinEstimator.BoundariesValid | contributivity.py:385-419 | From a valid memo the boundary values are true, and the memo stays valid. |
| IsLinEstimator.BoundariesTrue | contributivity.py:406-434 | The surrogate `IS_lin` assembles is the one the true characteristic function determines. |
| IsLinEstimator.IsLinRows | contributivity.py:397-497 | One row of n contributions per row of draws. |
| IsLinEstimator.IsLin | contributivity.py:379-506 | One score and one spread per player. |
| IsLinEstimator.IsLinObserves | contributivity.py:460-497 | When every draw picks a coalition, each row is the observations of the true surrogate's densities. |
| IsLinEstimator.IsLinSingle | contributivity.py:388-396 | A single player gets `v(N)` with spread 0. |
| IsLinEstimator.IsLinNoData | contributivity.py:422-433 | With two or more players and no training data, `beta` is 0 / 0 and the estimator fails. |
| IsLinEstimator.IsLinKeepsValid | contributivity.py:379-506 | `IS_lin` keeps the memo valid. |
| IsLinEstimator.DensitiesTables | contributivity.py:439-450 | Every player's density is a well-formed table over that player's candidates. |
| IsLinEstimator.ObserveSound | contributivity.py:474-496 | From a sound memo, once the draw picks a coalition, the observation is its de-biased true increment and the memo stays sound. |
| IsLinEstimator.SampleRowSound | contributivity.py:472-496 | When every draw picks, a row from a sound memo is complete and holds the observations. The memo stays sound. |
| IsLinEstimator.SampleAllSound | contributivity.py:464-497 | When every draw picks, all rows are recorded and are the observations. The memo stays sound. |
| AdaptiveIS.PairListed | contributivity.py:680-690 | Every query of every pair `(k1, k2)` is in the warm-up list. |
| AdaptiveIS.WarmUp | contributivity.py:678-690 | The warm-up keeps the player count. |
| AdaptiveIS.WarmUpValid | contributivity.py:678-690 | The warm-up keeps the memo valid. |
| AdaptiveIS.WarmUpCached | contributivity.py:678-690 | Every coalition the warm-up queries is cached afterwards. |
| AdaptiveIS.WarmUpBoundaries | contributivity.py:678-690 | Afterwards, each ledger holds the true increments at `{}` and at `N \ {k}`. |
| AdaptiveIS.WarmUpPairs | contributivity.py:680-690 | Afterwards, each ledger holds the true increments at `{j}` and at `N \ {j, k}`. |
| AdaptiveIS.WarmUpSingle | contributivity.py:682-688 | The increment of k at `{j}` is recorded. |
| AdaptiveIS.WarmUpAllBut | contributivity.py:684-690 | The increment of k at `N \ {j, k}` is recorded. |
| AdaptiveIS.Coordinate | contributivity.py:694-702 | `make_coordinate` has n - 1 entries. |
| AdaptiveIS.CoordinateEntry | contributivity.py:694-702 | Each other player's entry is its size when it is in S, and 0 otherwise. |
| AdaptiveIS.CoordinateInjective | contributivity.py:694-702 | When every partner holds data, two coalitions without k share a coordinate exactly when they are equal. |
| AdaptiveIS.CoordinateCollides | contributivity.py:694-702 | A partner without data makes `{}` and `{p}` share a coordinate. |
| AdaptiveIS.DatasetSound | contributivity.py:718-730 | Every point of the dataset is a coordinate paired with k's true increment there. |
| AdaptiveIS.DatasetComplete | contributivity.py:718-730 | Every ledger entry is a point of the dataset. |
| AdaptiveIS.DatasetDistinct | contributivity.py:726-728 | When every partner holds data, distinct ledger entries give distinct coordinates. |
| AdaptiveIS.KrigingDensity | contributivity.py:762-773 | The kriging density is well formed over player k's candidates. |
| AdaptiveIS.KrigingWeights | contributivity.py:762-787 | It lists k's candidates, weighs each by `prob |approx|`, and its `renorm` is the sum. |
| AdaptiveIS.DensityUnbiased | contributivity.py:777-800 | Any such density that vanishes nowhere gives observations whose mean is the Shapley value. |
| AdaptiveIS.KrigingUnbiased | contributivity.py:777-800 | At every refit, whatever the fit returns, the sampling is unbiased provided the model vanishes on no candidate. |
| AdaptiveIS.Refit | contributivity.py:758-774 | After a refit, each player's density is the kriging density of the model fitted to its ledger. |
| AdaptiveIS.InForce | contributivity.py:758-774 | Iteration t samples from tabulated densities for every player. |
| AdaptiveIS.InForceRefit | contributivity.py:758-774 | The densities are refitted exactly when `t % update == 0`, and kept otherwise. |
| AdaptiveIS.Step | contributivity.py:753-805 | An iteration grows the matrix by one row of n entries. |
| AdaptiveIS.StepObserves | contributivity.py:776-800 | From a sound memo, when every draw picks, the iteration records the observations of the densities in force. |
| AdaptiveIS.Loop | contributivity.py:750-805 | The loop leaves one row per iteration. |
| AdaptiveIS.Run | contributivity.py:678-805 | The warm-up and the loop leave one row per iteration. |
| AdaptiveIS.AisKriging | contributivity.py:665-814 | One score and one spread per player. |
| AdaptiveIS.GenerationsCeil | contributivity.py:758-760 | After t iterations there have been `ceil(t / update)` fits. |
| AdaptiveIS.LoopGenerations | contributivity.py:758-774 | The loop fits once per generation. |
| AdaptiveIS.LoopPlaced | contributivity.py:753-800 | The matrix is always the drawn rows placed at `t - 1`. |
| AdaptiveIS.PlacedMeans | contributivity.py:802-806 | Each column mean of the placed matrix is the sum of the rows drawn after the first, divided by T. |
| AdaptiveIS.RunKeepsValid | contributivity.py:678-805 | `AIS_Kriging` keeps the memo valid. |
| AdaptiveIS.RunRecord | contributivity.py:750-805 | A run fits `ceil(T / update)` times, draws T rows and places them. It fails when `update` is 0. |
| AdaptiveIS.StartLooping | contributivity.py:744-749 | Before the first iteration nothing is drawn or fitted. |
| AdaptiveIS.RunIsLoop | contributivity.py:678-805 | A run is the warm-up followed by the loop from t = 0. |
| AdaptiveIS.AisScores | contributivity.py:798-806 | Each score is the sum of the rows drawn at iterations 1..T-1, divided by T: row 0 is overwritten. |
| AdaptiveIS.WarmUpQueryable | contributivity.py:680-690 | Every warm-up query names valid players, none twice. |
| AdaptiveIS.StepFacts | contributivity.py:753-805 | A successful iteration appends its row of draws and writes it to `contributions[t - 1]`. It counts a fit exactly when `t % update == 0`. |
| AdaptiveIS.StepKeepsValid | contributivity.py:753-805 | An iteration keeps the memo valid. |
| AdaptiveIS.LoopKeepsValid | contributivity.py:750-805 | The loop keeps the memo valid. |
| Stratified.StratumWeight | contributivity.py:882-886 | The within-stratum weight is positive. |
| Stratified.StratumWeightInverse | contributivity.py:882-886 | The weight is `1 / C(N - 1, s)`. |
| Stratified.StratumFacts | contributivity.py:881 | Stratum s holds `C(N - 1, s)` coalitions of size s without k. |
| Stratified.Walk | contributivity.py:880-889 | The weight walk stops inside the stratum. |
| Stratified.WalkFound | contributivity.py:880-889 | The walk stops when the total weight exceeds u. |
| Stratified.StratumDraw | contributivity.py:879-889 | A draw is a coalition of size s without k. |
| Stratified.StratumDrawMember | contributivity.py:879-889 | A draw is a member of its stratum. |
| Stratified.StratumDrawUniform | contributivity.py:879-889 | For `0 <= u < 1` the draw selects coalition i exactly when `i <= u C(N - 1, s) < i + 1`. |
| Stratified.StratumDrawAt | contributivity.py:879-889 | The draw is coalition i exactly when the walk stops at i. |
| Stratified.StratumDrawFound | contributivity.py:879-889 | For `u < 1` the walk stops. |
| Stratified.StratumDistinct | contributivity.py:881 | Distinct positions of a stratum hold distinct coalitions. |
| Stratified.Contribute | contributivity.py:879-893 | A contribution comes from the drawn coalition of the chosen stratum. |
| Stratified.ContributeSound | contributivity.py:879-893 | From a sound memo and `0 <= u < 1`, the contribution is the true increment at the drawn coalition. |
| Stratified.ContributeValid | contributivity.py:890-893 | A contribution keeps the memo valid. |
| Stratified.RunningMean | contributivity.py:1002-1005 | `(mu (L - 1) + x) / L` is the mean of L values. |
| Stratified.RecordRepeat | contributivity.py:997-998 | A repeated coalition only has its count raised: the keys, `mu` and the other entries stay the same. |
| Stratified.RecordNew | contributivity.py:999-1005 | A new coalition is appended with its increment and count 1. |
| Stratified.RecordKept | contributivity.py:997-1005 | Recording keeps the table's invariant (distinct keys, positive counts, `mu` is the mean of the distinct increments) and adds one to its total count. |
| Stratified.NewMean | contributivity.py:999-1005 | After a new coalition, `mu` is the mean of the distinct increments. |
| Stratified.MeanStep | contributivity.py:897 | Folding a value into a list's mean gives the mean of the longer list. |
| Stratified.Start | contributivity.py:848-856 | Empty cells and every flag set. |
| Stratified.Draws | contributivity.py:866-894 | One sample per player. |
| Stratified.PlaceCount | contributivity.py:894 | A sample adds one draw to its own cell and none elsewhere. |
| Stratified.Round | contributivity.py:866-897 | An iteration keeps the N x N grid. |
| Stratified.RoundCount | contributivity.py:877-894 | In an iteration, player p's draw lands in its chosen stratum only. |
| Stratified.UpdateFlags | contributivity.py:900-908 | A flag is cleared once its cell holds more than 20 draws, and is never set again. |
| Stratified.Iteration | contributivity.py:857-910 | An iteration keeps the grid shapes. |
| Stratified.Iterate | contributivity.py:857-910 | The loop keeps the grid shapes. |
| Stratified.IterateCount | contributivity.py:857-908 | Cell (p, q) gets one draw per iteration that routed p to q. Its flag ends set exactly when it was set and the cell holds at most 20 draws. |
| Stratified.IterateKept | contributivity.py:960-1015 | The loop keeps every table consistent with its list. |
| Stratified.IterateValid | contributivity.py:857-910 | The loop keeps the memo valid. |
| Stratified.IterateSound | contributivity.py:857-910 | With every `u` in [0, 1) the loop completes and keeps the memo sound. |
| Stratified.FromStart | contributivity.py:960-1028 | From the start, support's table counts every draw routed to the cell, and its flag is set exactly while there are at most 20. |
| Stratified.DrawsTrue | contributivity.py:879-893 | From a sound memo, each draw is a true increment of its stratum. |
| Stratified.IterateTrue | contributivity.py:857-897 | From a sound memo, the loop records only true increments. |
| Stratified.WrittenScores | contributivity.py:898 | `np.mean(mu, axis=0)` has one entry per stratum. |
| Stratified.StrataScores | contributivity.py:898 | The row means have one entry per player. |
| Stratified.ExactStrataShapley | contributivity.py:898 | A player's exact stratum means average to its Shapley value. |
| Stratified.RoutedAll | contributivity.py:866-877 | Each iteration routes each player to exactly one stratum. |
| Stratified.LoopLength | contributivity.py:857-908 | The flags force at least `21 N` iterations. |
| Stratified.Finish | contributivity.py:898-913 | The end of a run keeps the memo and reads one score per player from the N x N means grid. |
| Stratified.Run | contributivity.py:818-918 | One score per player. |
| Stratified.RunReports | contributivity.py:898 | A run reports `np.mean(mu, axis=0)`. Its total equals that of the row means. |
| Stratified.WrittenScoresTotal | contributivity.py:898 | The axis slip moves credit between players but leaves the total unchanged. |
| Stratified.RunSingle | contributivity.py:829-837 | A single player gets `v(N)`. |
| Stratified.RunSound | contributivity.py:818-918 | With every `u` in [0, 1), a run completes and keeps the memo sound. |
| Stratified.RunKeepsValid | contributivity.py:818-918 | A run keeps the memo valid. |
| Stratified.SampleFaithful | contributivity.py:857-908 | After the loop every cell holds more than 20 true increments of its stratum, and its flag is cleared. |
| Stratified.ScoresConsistent | contributivity.py:896-898 | With exact cell means, the row means are the Shapley values. |
| Stratified.FillCount | contributivity.py:877-894 | Recording an iteration adds one draw to cell (p, q) exactly when player p chose stratum q. |
| Stratified.DrawsSound | contributivity.py:879-893 | From a sound memo with every `u` in [0, 1), all draws succeed and keep the memo sound. |
| Stratified.RoundSound | contributivity.py:866-897 | From a sound memo with every `u` in [0, 1), an iteration completes and keeps the memo sound. |
| Stratified.RoundValid | contributivity.py:866-897 | An iteration keeps the memo valid. |
| Stratified.RoundKept | contributivity.py:960-1015 | An iteration keeps every cell's table consistent with its list. |
| Stratified.RoundTrue | contributivity.py:866-897 | From a sound memo, an iteration adds only true increments of each stratum. |
| Stratified.WrittenAxisMixesPlayers | contributivity.py:898 | For `OnlyFirst` with N = 2, the axis-0 mean gives [0.5, 0.5], while the row means and Shapley values are [1, 0]. |
| Stratified.OnlyFirstWritten | contributivity.py:898 | With exact means, the axis-0 mean credits each of two players with 0.5. |
| Scenario.CheckMethods | scenario.py:132-139 | An accepted list keeps its length. |
| Scenario.CheckMethodsAccepts | scenario.py:132-139 | A list is accepted exactly when every entry is known, and it is then kept as given. |
| Scenario.CheckMethodsRejects | scenario.py:135-139 | A rejection names the first unknown entry. |
| Scenario.CheckMethodsNames | scenario.py:135-139 | Whatever a rejection names is an unknown entry of the list. |
| Scenario.ResolveMethods | scenario.py:117-142 | A missing or empty list gives the three default methods. |
| Scenario.ResolvedMethodsKnown | scenario.py:117-142 | Every resolved method is known, and a non-empty list is kept as given. |
| Scenario.DemoLengths | scenario.py:152-157 | The quick demo keeps at most 1000/500/500 samples, and the original length when it is shorter. |
| Scenario.Configure | scenario.py:61-159 | Accepted counts are positive, and the partner count and amounts are kept. |
| Scenario.ConfigureAccepts | scenario.py:93-142 | A configuration is accepted exactly when the supplied counts are positive and the methods are absent, empty or known. |
| Scenario.ConfigureErrorOrder | scenario.py:93-139 | The epoch count is checked first, then the mini-batch count, then the methods. |
| Scenario.ConfigureDefaults | scenario.py:61-142 | Absent keys default to "random", n x "not_corrupted", "global", "uniform", 40 epochs, 20 mini-batches, early stopping on and the default methods. |
| Scenario.ConfigureKeeps | scenario.py:61-142 | Supplied keys are kept as given, except where the quick demo overrides them. |
| Scenario.QuickDemoOverrides | scenario.py:149-159 | The quick demo gives 3 epochs, 2 mini-batches and at most 1000/500/500 samples. |
| Split.TruncBounds | scenario.py:377-378 | `astype(int)` drops the fraction and keeps the sign. |
| Split.Clip | scenario.py:410-411 | A slice bound is clamped to 0..n and kept when in range. |
| Split.PySlice | scenario.py:410-411 | An in-range Python slice is the subsequence. |
| Split.NpSplit | scenario.py:410-411 | `np.split` yields one more piece than it has cut points. |
| Split.SplitAtPieces | scenario.py:410-411 | With monotone cut points, piece i runs between boundaries i and i + 1. |
| Split.NpSplitPieces | scenario.py:410-411 | With monotone cut points, the pieces concatenate back to the input. |
| Split.RunningSums | scenario.py:371-376 | There are `partners_count - 1` splitting indices. |
| Split.RunningSumsPrefix | scenario.py:371-376 | Index i is the sum of the first i + 1 amounts. |
| Split.Cuts | scenario.py:377-378 | One cut point per splitting index. |
| Split.CutsAt | scenario.py:377-378 | Cut point i is `int(index_i * L)`. |
| Split.CutsMonotone | scenario.py:371-378 | Non-negative amounts summing to 1 give cut points that never go back and stay within 0..L. |
| Split.SmallestIsLeast | scenario.py:439 | `min(amounts)` is an amount and is at most every amount. |
| Split.Chunks | scenario.py:371-411 | One training chunk and one test chunk per partner. |
| Split.ChunksPartition | scenario.py:377-411 | With non-negative amounts summing to 1, the chunks concatenate to the ordered training indices and to the test indices. |
| Split.ChunksRun | scenario.py:371-411 | Partner i's chunk runs from `int(L·sum(amounts[..i]))` to `int(L·sum(amounts[..i+1]))`. |
| Split.Bounds | scenario.py:410-411 | The piece boundaries are the start, then the cut points, then the length. |
| Split.BoundsRise | scenario.py:410-411 | With monotone cut points, the boundaries rise from the start to the length. |
| Split.SplitAtFlatten | scenario.py:410-411 | With monotone cut points, the pieces laid end to end give back the sequence. |
| Split.ChunkBetween | scenario.py:377-411 | With non-negative amounts summing to 1, partner i's chunk is the ordered indices between boundaries i and i + 1. |
| Split.SplitData | scenario.py:352-441 | A successful split gives every partner a chunk. |
| Split.SplitDataErrors | scenario.py:366-405 | The failures come in source order: count mismatch, sum not 1, one partner, unknown option. |
| Split.SplitDataAccepts | scenario.py:366-439 | The split succeeds exactly when there are at least two partners, one amount each, amounts summing to 1, a known option, and enough samples for the mini-batches. |
| Split.SinglePartnerFails | scenario.py:371-372 | A single partner cannot be split, even with amount 1. |
| Split.SplitDataPartitions | scenario.py:384-411 | A successful split partitions the chosen training order and the test indices among the partners. |
| Nodes.PartnersOf | scenario.py:413-436 | One partner per chunk. |
| Nodes.PartnerTrainLength | node.py:25-26 | A partner's `get_x_train_len` is the size of its chunk: the gap between its two truncated, scaled running totals. |
| Nodes.ArgMax | node.py:38 | `np.argmax` is the first position of the largest score. |
| Nodes.CorruptRowShape | node.py:38-40 | The position before the argmax (the last when h = 0) holds 1. The argmax holds 0 unless the row has length 1. Every other position is unchanged. |
| Nodes.CorruptOneHot | node.py:38-40 | A one-hot row of two or more classes stays one-hot, moved one class back. |
| Nodes.CorruptSingleClass | node.py:39-40 | A one-class row becomes [1]. |
| Nodes.CorruptLabels | node.py:36-40 | Corruption changes only the training labels. |
| Nodes.CorruptLabelsRows | node.py:36-40 | The row count and lengths are kept, and each row is corrupted. It fails exactly on an empty row. |
| Nodes.CorruptTimesOneHot | node.py:36-40 | m corruptions move a one-hot label m classes back. |
| Nodes.CorruptFullCircle | node.py:36-40 | n corruptions of an n-class one-hot label give it back. |
| Nodes.CorruptTimes | node.py:36-40 | Repeated corruption keeps the row length. |
| AdvancedSplit.WithOption | scenario.py:242-243 | The filtered list is no longer than the partners. |
| AdvancedSplit.WithOptionExact | scenario.py:242-243 | A partner is selected exactly when its option matches, together with its count. |
| AdvancedSplit.SortDesc | scenario.py:244-245 | The sort keeps the length. |
| AdvancedSplit.SortDescFacts | scenario.py:244-245 | The sort is descending by count and is a permutation of its input. |
| AdvancedSplit.SortDescStable | scenario.py:244-245 | The sort is stable: entries with equal counts keep their input order. |
| AdvancedSplit.RankedExact | scenario.py:242-245 | An option's ranking holds exactly that option's partners, largest count first. |
| AdvancedSplit.MaxCount | scenario.py:255-258 | `shared_clusters_count` bounds every shared count, and is 0 for none. |
| AdvancedSplit.MaxCountAttained | scenario.py:255-258 | It is some partner's count: the first one in a ranking. |
| AdvancedSplit.Sample | scenario.py:277 | `random.sample` returns k clusters. |
| AdvancedSplit.SampleFacts | scenario.py:277 | A sample from a repeat-free pool is repeat-free and comes from the pool. |
| AdvancedSplit.Assign | scenario.py:253-277 | Every ranked partner gets clusters. |
| AdvancedSplit.AssignSpecific | scenario.py:253-277 | The assignment fails exactly when the specific counts plus the largest shared count exceed the labels. Otherwise specific partner j gets the consecutive slice after those before it, and the pool is the next labels. |
| AdvancedSplit.AssignDisjoint | scenario.py:270-275 | With repeat-free labels, the specific slices are pairwise disjoint and disjoint from the pool. |
| AdvancedSplit.AssignShared | scenario.py:275-277 | With repeat-free labels, each shared partner's clusters are repeat-free, number its count and come from the pool. |
| AdvancedSplit.SpecificClustersApart | scenario.py:270-277 | With repeat-free labels, a specific partner's clusters belong to no other partner. |
| AdvancedSplit.ClusterOfExact | scenario.py:263-267 | A cluster holds exactly the indices of its label's samples. |
| AdvancedSplit.ClusterOfSize | scenario.py:263-267 | A cluster is as large as its label's count. |
| AdvancedSplit.SpecificRatios | scenario.py:286-291 | One ratio per specific partner. |
| AdvancedSplit.SpecificRatiosAt | scenario.py:286-291 | The ratios exist exactly when every configured size is non-zero. Ratio i is available samples over configured samples. |
| AdvancedSplit.SharedPers | scenario.py:299-303 | One per-cluster need per shared partner. |
| AdvancedSplit.SharedRatios | scenario.py:304-305 | One ratio per pool cluster. |
| AdvancedSplit.SharedRatiosAt | scenario.py:304-305 | The ratios exist exactly when every pool cluster's need is non-zero. Ratio i is the cluster's count over its need. |
| AdvancedSplit.ResizeSpecificLeast | scenario.py:286-291 | The specific factor is at most 1 and at most every specific ratio. |
| AdvancedSplit.ResizeSharedLeast | scenario.py:297-305 | The shared factor is at most 1 and at most every cluster ratio. |
| AdvancedSplit.ResizeUnit | scenario.py:286-308 | With non-negative amounts, both factors lie in [0, 1]. |
| AdvancedSplit.Sizes | scenario.py:311-313 | One size per partner. |
| AdvancedSplit.SizesAccept | scenario.py:311-313 | Sizing succeeds exactly when every partner has an amount and at least one cluster. |
| AdvancedSplit.SizesBounds | scenario.py:311-313 | With a factor in [0, 1], each total lies between 0 and the configured size. |
| AdvancedSplit.SharedWindows | scenario.py:321-326 | One window per cluster. |
| AdvancedSplit.SharedWindowsAt | scenario.py:321-326 | Window j starts at cluster j's running index and is `final_nb_samples_p_cluster` long. |
| AdvancedSplit.Fewest | scenario.py:337 | The smallest partner holds no more than any partner. |
| AdvancedSplit.Handout | scenario.py:314-337 | Every partner gets windows and samples, and the sizes are kept. |
| AdvancedSplit.Distribute | scenario.py:286-337 | Every partner gets a size, windows and samples. |
| AdvancedSplit.AdvancedSplit | scenario.py:227-350 | A successful split sizes every partner and hands out its windows and samples. |
| AdvancedSplit.AdvancedMinibatches | scenario.py:331-337 | Each partner has a window and at least as many samples as there are mini-batches. |
| AdvancedSplit.AdvancedStages | scenario.py:227-337 | A successful split succeeded at the assignment and then distributed. |
| AdvancedSplit.DistributeShrinks | scenario.py:286-313 | Both factors lie in [0, 1], and each partner ends with at most its configured size. |
| AdvancedSplit.AdvancedShrinks | scenario.py:286-313 | The same holds for the whole advanced split. |
| AdvancedSplit.FoundMember | scenario.py:321-330 | A partner's clusters are those of its entry in its option's list. |
| AdvancedSplit.WindowsApart | scenario.py:318-326 | Two shared partners' windows in one cluster never overlap: the earlier one ends before the later one starts. |
| AdvancedSplit.AdvancedWindowsApart | scenario.py:318-326 | The same holds for the whole advanced split. |
| AdvancedSplit.AdvancedWindowsTile | scenario.py:318-326 | Each shared window starts where the earlier partners' windows of that cluster end. |
| AdvancedSplit.AdvancedSamplesLabels | scenario.py:319-332 | A partner receives only samples whose labels are among its clusters. |
| AdvancedSplit.AdvancedSpecificApart | scenario.py:327-330 | With repeat-free labels, a specific partner's samples are held by no other partner. |
| AdvancedSplit.AssignPool | scenario.py:253-277 | The assignment succeeds exactly when the specific counts plus the largest shared count fit in the labels. The pool is then the labels right after the specific slices. |
| AdvancedSplit.AssignSlices | scenario.py:270-273 | Specific partner j receives the labels after those of the partners before it, as many as its count. |
| AdvancedSplit.SharedListsNoDup | scenario.py:275-277 | With repeat-free labels, every shared partner's cluster list is repeat-free and drawn from the pool. |
| AdvancedSplit.ResizedBounds | scenario.py:311-313 | A non-negative amount shrunk by a factor in [0, 1] gives a size between 0 and the configured size. |
| AdvancedSplit.DistributeWindowsApart | scenario.py:318-326 | Two shared partners' windows in one cluster do not overlap. |
| AdvancedSplit.DistributeWindowsTile | scenario.py:318-326 | A shared partner's window in a cluster starts at the per-cluster amounts of the earlier shared partners of that cluster, and is its own amount long. |
| AdvancedSplit.WindowsClusters | scenario.py:321-330 | Every window of a partner is in one of its clusters. |
| AdvancedSplit.DistributeSamplesLabels | scenario.py:319-332 | A partner receives only indices whose labels are among its clusters. |

## Left out

- The characteristic function `fl_training.compute_test_score` is the parameter `f`. Model training, Keras preprocessing and data loading are outside the model.
- The Shapley solver `sv.main` is the parameter `Solver`.
- The kriging linear algebra is the parameter `Fit`, and so are the covariance functions and `phi`. The fit takes the dataset as a set. Permuting the rows of x and y together leaves the fitted predictor unchanged. When every partner holds a sample, no two ledger entries share a coordinate (AdaptiveIS.DatasetDistinct), so no point is merged.
- Randomness (`np.random.permutation`, `uniform`, `choice`, `random.shuffle`, `random.sample`, `shuffle_labels`) is passed in as arguments.
- The stopping rules are not modelled: `norm.ppf`, the variance thresholds, the exploration weight `e(t)` and the stratum probabilities `p`. The number of iterations is the number of supplied draws. The first 100 iterations are kept as a precondition, and so is the requirement that every stratum flag be cleared.
- `np.std` and `np.var` for Stratified_MC and support, and the `sigma2` and `var` arrays, are not modelled. The reported spreads of the other estimators are modelled as squared values, so no square root is needed.
- `normalized_scores`, `computation_time`, `__str__`, printing and the rounded `final_relative_nb_samples` are not modelled.
- `IS_reg`, `compute_independent_scores` and the plotting and export helpers are not modelled. They call trained models and a regression library.
- IsLinEstimator.Pick: the model fails with NoDraw or DivisionByZero when `renorm` is 0 or no cumulative weight exceeds `u`. With floats, the source would compare nan, keep a stale `S` from the previous player, or raise on an unbound `S`. Floats are modelled as exact reals, and that path is not followed.
- IsLinEstimator.IsLin: the same failure on a zero `renorm` or a missing crossing replaces the source's nan/inf or stale `S`.
- AdaptiveIS.AisKriging: the same applies through SampleRow.
- Stratified.Contribute: a draw with no crossing (`u >= 1`) fails instead of reusing the previous `S`.
- Split.SplitData: `np.sum(amounts) == 1` is an exact test on reals. Amounts whose floating-point sum misses 1.0 are rejected by the source but accepted here.
- Split.Scaled: `index * len(y)` is exact, so with floats a cut can land one index away.
- Split.Trunc: truncates an exact real.
- AdvancedSplit.Configured: `int(amount * len(y_train))` is computed on exact reals.
- AdvancedSplit.Resized: `int(amount * len(y_train) * factor)` is computed on exact reals.
- The advanced split models indices and labels. It does not copy sample arrays, and it does not check that each partner's `x_train` matches its `y_train`.

## Findings

| source | as written | input that shows it | evidently intended | confidence | as-written member | corrected member |
|---|---|---|---|---|---|---|
| contributivity.py:354-357 | An interpolated step adds `size_of_S / size_of_rest * characteristic_all_node`, a share of `v(N)` itself. | Permutation [0, 1], sizes [1, 1], `v({0}) = 0.99`, `v(N) = 1`, truncation 0.05: the row sums to 1.99. | Add a share of the remaining gap `v(N) - char_nodelists[j]`, so every row sums to `v(N)`. | not executed | InterpolatedMC.WrittenOvershoots | InterpolatedMC.CorrectedEfficient |
| contributivity.py:350-353 | `size_of_rest` and `size_of_S` read `node_list[i]` and `node_list[j]` by position, not the players the permutation adds. | Permutation [1, 0], sizes [5, 0], `v({1}) = 1`, `v(N) = 1`: `size_of_rest` is 0 and the division fails. | Read `node_list[permutation[i]]` and `node_list[permutation[j]]`. | not executed | InterpolatedMC.WrittenReadsPositions | InterpolatedMC.InterpolatedWalkEfficient |
| contributivity.py:898 | `shap = np.mean(mu, axis=0)` averages each stratum over players. mu's rows are players. The same line appears at contributivity.py:1016. | Two players with `v({0}) = v({0, 1}) = 1`, `v({1}) = 0`, and exact stratum means: the scores are [0.5, 0.5], while the Shapley values are [1, 0]. | `np.mean(mu, axis=1)`: each player's average over its strata. | not executed | Stratified.WrittenAxisMixesPlayers | Stratified.ExactStrataShapley |

The estimators InterpolatedMC.InterpolTruncMC and Stratified.Run compute what the source computes: the walk as written and `np.mean(mu, axis=0)`. The corrected definitions sit beside them:

- InterpolatedMC.InterpolTruncMCCorrected and InterpolatedMC.InterpolatedWalk. Their efficiency is proved in InterpolatedMC.CorrectedEfficient.
- Stratified.StrataScores. Run carries it as `intended`. Its consistency is proved in Stratified.ScoresConsistent and Stratified.ExactStrataShapley.
