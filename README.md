# Distributed Lloyd clustering, modelled in Dafny

This project models the clustering engine in `distribuitedClustering.py`. The engine splits a
data matrix X (N rows of M reals) into P equal shards, one per GPU. Each GPU computes a
per-cluster partial aggregate for its shard against the shared center matrix (K rows). A
global reducer adds the partials and divides, then overwrites the center variable. This
repeats `n_max_iters` times. Around the engine, `main` turns the run's result or exception
into an exit status and one comma-separated log row.

The modules follow that structure:

- `Linalg`: vectors and matrices of reals, and column sums.
- `Wrappers`: `Option` and `Result`.
- `Partitioner`: the `np.split` of `X[N % P:]` into P shards.
- `KMeans`: the per-shard hard aggregator of both K-means drivers.
  - The older `old_distribuited_k_means` gives an empty cluster a zero mean.
  - The live `distribuited_k_means`, which `main` calls, computes a `reduce_mean` over gathered rows.
- `Reducer`: a partial is a (mass vector, weighted K×M matrix) pair. The reducer is written once, for all three drivers: `add_n` of the partials, then a per-cluster division.
- `Rounds`: one round of each K-means driver, and its relation to one sequential Lloyd update.
- `Controller`: the graph-building loops over the GPUs, the session-run loop as a class (`Engine`) whose one mutable field is the center variable, and the whole driver call.
- `Fuzzy`: the fuzzy C-means driver's per-unit sums (`reduce_sum(MU, 1)`, `matmul(MU, X)`) for given weights, and its round.
- `Orchestrator`: the method-name and GPU-count validators, the initial centers `X[0:K, :]`, and `main`'s result, exit-status and log-row policy.
- `Findings`: a concrete input on which the live driver loses its centers.

Floats are modelled as reals. A not-a-number is modelled as `None` for the whole center
matrix. Once a division by zero would put a not-a-number into the centers, the state is
`None`, and it stays `None` (`Controller.Iterate`).

Points where the code behaves in a way worth stating outright:

- Only the older driver replaces an empty cluster's 0/0 mean by zero (`distribuitedClustering.py:224-227`). The live driver that `main` runs has no such substitution (`:338-344`). See "## Findings".
- The reported iteration count is `i + 1` after `for i in range(n_max_iters)`, which is `n_max_iters` only when `n_max_iters > 0`. With `n_max_iters <= 0` the loop never binds `result` (nor `i`), and the result dictionary reads `result` for `end_center` before `i + 1`, so the driver raises `UnboundLocalError`. `main` then logs a failure row with status 0.
- In `main`, a method name that selects no driver leaves `run_result` unbound, so the `finally` block itself raises `UnboundLocalError` and no row is written (`Orchestrator.MainPolicy`). The command-line validator rules such names out before `main` runs (`Orchestrator.MakeValidMethod`).

## Model

| member | source | states |
|---|---|---|
| Partitioner.Partition | distribuitedClustering.py:286 | exactly P shards, each of N div P rows, whose in-order concatenation is `X[N mod P:]` (the first N mod P rows are dropped) |
| Partitioner.SplitEqual | distribuitedClustering.py:170 | `np.split` into p equal parts: p parts of n rows each that concatenate back to the input |
| Partitioner.ShardRows | distribuitedClustering.py:76 | row i of shard s is row `N mod P + s·(N div P) + i` of X |
| KMeans.SqDist | distribuitedClustering.py:207-208 | the squared distance used for assignment is never negative |
| KMeans.Nearest | distribuitedClustering.py:210-212 | the chosen index is below K, no center is strictly closer, and every lower index is strictly farther (lowest index wins a tie) |
| KMeans.Assign | distribuitedClustering.py:332-336 | one label per row, each below K, and each row's label attains the minimum squared distance over all K centers |
| KMeans.NearestMinimizesDistance | distribuitedClustering.py:203-206 | argmin over the distances equals argmin over the squared distances: the assigned index minimizes the (non-negative) distance, every lower index is strictly farther, and a center minimizes the distance iff it minimizes the squared distance |
| KMeans.DistanceOrder | distribuitedClustering.py:203-206 | for non-negative distances whose squares are the squared distances, comparing two distances (strictly or not) agrees with comparing the squared distances |
| KMeans.SegmentSum | distribuitedClustering.py:216 | `unsorted_segment_sum` yields a K×M matrix |
| KMeans.BinCount | distribuitedClustering.py:234 | `bincount` with `minlength = maxlength = K` has exactly K entries |
| KMeans.BinCountTotal | distribuitedClustering.py:234-235 | the K counts add up to the number of labels |
| KMeans.ShardCountsAddUp | distribuitedClustering.py:347-348 | a shard's count vector has length K and its entries sum to the shard's row count |
| KMeans.GatherCount | distribuitedClustering.py:342 | the rows gathered for cluster c are as many as the count of label c |
| KMeans.Gather | distribuitedClustering.py:342 | `tf.gather` of the rows labelled c keeps M columns, takes no more rows than X has, and takes only rows of X; `KMeans.GatherCount` and `KMeans.SegmentSumGathered` give its size and its column sum |
| KMeans.GatherNonempty | distribuitedClustering.py:342 | the rows gathered for cluster c are nonempty iff c is one of the labels |
| KMeans.SegmentSumGathered | distribuitedClustering.py:216 | the segment sum of cluster c is the column sum of the rows labelled c |
| KMeans.ReduceMean | distribuitedClustering.py:341-342 | `reduce_mean` over the gathered rows is defined iff there is at least one row; the mean times the row count is the column sum |
| KMeans.ReduceMeanSingle | distribuitedClustering.py:341-342 | the mean of a single row is that row |
| KMeans.ClusterMeans | distribuitedClustering.py:338-344 | one entry per cluster, each the `reduce_mean` of that cluster's gathered rows, and defined iff the cluster received a label |
| KMeans.ZeroedMeansRestoreSums | distribuitedClustering.py:224-236 | where empty clusters have zero sums, scaling the zeroed means by the counts gives the sums back exactly |
| KMeans.OldPartial | distribuitedClustering.py:196-239 | the older driver's partial is a well-formed (K-vector, K×M) pair; `KMeans.OldPartialIsExact` states that it is the counts and the per-cluster row sums |
| KMeans.OldPartialIsExact | distribuitedClustering.py:216-236 | the older driver's partial has the per-cluster counts as mass and the exact per-cluster row sums as weighted rows, empty clusters included |
| KMeans.LivePartial | distribuitedClustering.py:321-353 | the live partial is well-formed when defined, and defined iff every cluster has a row in the shard; `KMeans.LivePartialAgrees` states that it then equals the older partial |
| KMeans.LiveMeansRestoreSums | distribuitedClustering.py:338-350 | when every cluster's mean is defined, each mean has M entries and scaling the means by the counts gives the per-cluster row sums |
| KMeans.LivePartialDefined | distribuitedClustering.py:338-350 | the live driver's partial is free of 0/0 iff every cluster has a row in the shard |
| KMeans.LivePartialAgrees | distribuitedClustering.py:338-350 | where the live partial is defined it equals the older driver's partial |
| KMeans.AssignConcat | distribuitedClustering.py:336 | labelling two blocks of rows labels each block independently |
| KMeans.OldPartialConcat | distribuitedClustering.py:216-236 | the partial of two blocks of rows is the sum of the blocks' partials |
| Reducer.Total | distribuitedClustering.py:243-244 | `add_n` of well-formed partials is a well-formed partial |
| Reducer.AddPartial | distribuitedClustering.py:131 | the sum of two well-formed partials is well-formed; `Reducer.AddPartialComm` and `Reducer.AddPartialAssoc` state that the addition is commutative and associative |
| Reducer.TotalConcat | distribuitedClustering.py:357-358 | merging a concatenation of partial lists is the sum of the two merges |
| Reducer.AddPartialComm | distribuitedClustering.py:131 | adding two partials is commutative |
| Reducer.AddPartialAssoc | distribuitedClustering.py:131-132 | adding partials is associative |
| Reducer.TotalPermutation | distribuitedClustering.py:131-132 | the merged partial is the same for any order of the partials (any permutation) |
| Reducer.Divide | distribuitedClustering.py:247-248 | the division is defined iff every cluster's total mass is nonzero; then center[c][d] × mass[c] = weighted[c][d] |
| Reducer.DivideSolves | distribuitedClustering.py:360-361 | a matrix that solves center × mass = weighted is the division's result (it is unique) |
| Reducer.Reduce | distribuitedClustering.py:357-361 | merge then divide: defined iff every merged mass is nonzero, and then it solves the per-cluster equation |
| Reducer.ReduceOrderFree | distribuitedClustering.py:243-248 | the new centers do not depend on the order of the partials |
| Reducer.Reversed | distribuitedClustering.py:184 | the pop order: element i is element P-1-i of the input |
| Reducer.ReversedMultiset | distribuitedClustering.py:184 | reversing the list is a permutation |
| Rounds.OldRound | distribuitedClustering.py:241-250 | one round of the older driver yields a K×M matrix when defined |
| Rounds.LiveRound | distribuitedClustering.py:355-363 | one round of the live driver yields a K×M matrix when defined |
| Rounds.LloydStep | distribuitedClustering.py:336-344 | the sequential reference update, the mean of each cluster's rows, is a K×M matrix when defined |
| Rounds.MergeEqualsWhole | distribuitedClustering.py:243-244 | the sum of the shards' partials is the partial of all the kept rows at once |
| Rounds.OldRoundOrderFree | distribuitedClustering.py:184 | taking the shards in pop (reversed) order leaves the round's result unchanged |
| Rounds.WholeMassMatchesLloyd | distribuitedClustering.py:247-248 | the whole data's mass is nonzero for every cluster iff every cluster's Lloyd mean is defined |
| Rounds.OldRoundIsWholeDivide | distribuitedClustering.py:241-248 | a round over any shards divides the partial of all their rows together |
| Rounds.WholeDivideIsLloyd | distribuitedClustering.py:247-248 | dividing the whole data's partial is exactly one sequential Lloyd update |
| Rounds.DistributedRoundIsLloyd | distribuitedClustering.py:241-250 | a round over P shards equals one Lloyd update on `X[N mod P:]`, empty clusters and undefined results included |
| Rounds.SingleUnitIsLloyd | distribuitedClustering.py:170 | with one GPU the round is one Lloyd update on all of X |
| Rounds.LiveRoundAgrees | distribuitedClustering.py:355-363 | where the live round is defined it equals the older driver's round |
| Rounds.LiveRoundNeedsEveryCluster | distribuitedClustering.py:338-350 | a single shard with an empty cluster makes the live round undefined |
| Rounds.LiveRoundDefined | distribuitedClustering.py:338-363 | the live round is defined iff there is at least one shard and every cluster has a row in every shard |
| Rounds.ClusterCountConcat | distribuitedClustering.py:347-348 | the count of cluster c over two blocks of rows is the sum of the blocks' counts |
| Rounds.ShardClusterInWhole | distribuitedClustering.py:347-357 | a cluster's count in any one shard is at most its count in all kept rows |
| Rounds.LiveSingleUnitIsLloyd | distribuitedClustering.py:338-363 | with one GPU the live round is exactly one Lloyd update of all of X, undefined exactly when some cluster is empty |
| Controller.Round | distribuitedClustering.py:269 | one session run maps a state of K×M centers (or not-a-number) to another such state |
| Controller.Iterate | distribuitedClustering.py:267-270 | once a not-a-number has entered the center variable, no number of further session runs removes it; `Controller.IterateKeepsShape` states the shape it keeps |
| Controller.IterateKeepsShape | distribuitedClustering.py:267-270 | after n runs the state still has the center shape, and run n updates the state after run n-1 |
| Controller.FixedPointStays | distribuitedClustering.py:267-270 | centers a round leaves unchanged stay unchanged for any number of rounds |
| Controller.OldIterateIsLloyd | distribuitedClustering.py:267-270 | n rounds of the older driver are n Lloyd updates of `X[N mod P:]` |
| Controller.LiveIterateAgrees | distribuitedClustering.py:368-371 | where the live driver's centers are defined after n rounds they equal the older driver's |
| Controller.CollectOldPartials | distribuitedClustering.py:181-239 | the pop loop appends, in position i, the partial of shard P-1-i, i.e. the partials of the reversed shard list |
| Controller.CollectLivePartials | distribuitedClustering.py:305-353 | the indexed loop appends each shard's partial in shard order |
| Controller.OldUpdate | distribuitedClustering.py:241-250 | evaluating the older graph once gives the older round's result, whatever the pop order |
| Controller.LiveUpdate | distribuitedClustering.py:355-363 | evaluating the live graph once gives the live round's result |
| Controller.RoundUpdate | distribuitedClustering.py:269 | one evaluation of either driver's graph gives that driver's round, and a not-a-number state stays |
| Controller.Engine.constructor | distribuitedClustering.py:167-179 | setup splits the data into P shards and sets the center variable to the initial centers |
| Controller.Engine.Step | distribuitedClustering.py:269 | the center variable becomes one round applied to its old value, and the invariant linking it to the initial centers is kept |
| Controller.Engine.Run | distribuitedClustering.py:266-278 | for n_max_iters > 0: exactly n_max_iters rounds, n_iter = n_max_iters, computation time = the sum of the per-run durations; otherwise `UnboundLocalError` with the centers untouched |
| Controller.DistributedKMeans | distribuitedClustering.py:282-381 | the whole driver call returns the centers after n_max_iters rounds over the partition with the initial centers and timings, or raises `UnboundLocalError` when n_max_iters <= 0 |
| Fuzzy.FuzzyPartial | distribuitedClustering.py:119-124 | the per-unit sums `(reduce_sum(MU, 1), matmul(MU, X))` form a well-formed (K-vector, K×M) pair; `Fuzzy.FuzzyPartialEntries` states their entries |
| Fuzzy.FuzzyPartialEntries | distribuitedClustering.py:123-124 | `Mu_sum[c]` is the sum of the rows' weights for c, and `Mu_X_sum[c]` is the weight-scaled sum of the rows |
| Fuzzy.FuzzyPartialConcat | distribuitedClustering.py:129-132 | the fuzzy partial of two blocks of rows is the sum of the blocks' partials |
| Fuzzy.CrispIsHard | distribuitedClustering.py:123-124 | with 0/1 weights from labels, the fuzzy sums are the counts and the segment sums |
| Fuzzy.CrispFuzzyIsOldKMeans | distribuitedClustering.py:119-124 | with 0/1 weights from the nearest centers, the fuzzy partial is the older K-means partial |
| Fuzzy.FuzzyRound | distribuitedClustering.py:129-136 | the fuzzy round is the shared reducer applied to the units' partials: a K×M matrix when defined |
| Fuzzy.FuzzyMergeEqualsWhole | distribuitedClustering.py:129-134 | `add_n` of the units' fuzzy partials is the fuzzy partial of all rows with all weights |
| Orchestrator.MakeValidMethod | distribuitedClustering.py:46-56 | accepted iff the name is `distributedKMeans` or `distributedFuzzyCMeans`; otherwise the error "Invalid Method Name" |
| Orchestrator.CheckGpuCount | distribuitedClustering.py:58-68 | accepted iff 0 < requested <= available; the "More Then Available" error takes precedence over "Non Positive" |
| Orchestrator.InitialCenters | distribuitedClustering.py:399 | `X[0:K, :]` is a prefix of X |
| Orchestrator.InitialCentersShape | distribuitedClustering.py:399 | with 1 <= K <= N it is the first K rows, a K larger than N yields all of X, K = 0 yields no rows, and a negative K yields N + K rows (none when N + K < 0), as Python slicing does |
| Orchestrator.NatToString | distribuitedClustering.py:448-456 | `str` of a natural: digits only, no leading zero |
| Orchestrator.IntToString | distribuitedClustering.py:448-456 | `str` of an integer: an optional sign and digits, never a comma |
| Orchestrator.IntRoundTrip | distribuitedClustering.py:448-456 | reading back the text of an integer field gives the integer |
| Orchestrator.SplitJoin | distribuitedClustering.py:447 | splitting a comma-joined row of comma-free fields gives the fields back |
| Orchestrator.JoinSeparators | distribuitedClustering.py:447 | `','.join` of n >= 1 comma-free fields puts exactly n - 1 commas into the row |
| Orchestrator.RowOfFields | distribuitedClustering.py:447-458 | a row built as the joined fields plus a newline ends in the newline and splits back into the fields |
| Orchestrator.HeaderColumns | distribuitedClustering.py:33-35 | the header line ends in a newline and splits into the ten column names in order |
| Orchestrator.ExitStatus | distribuitedClustering.py:431 | the status is 0 or 1, and 1 exactly when the run raised `ValueError` |
| Orchestrator.LogFields | distribuitedClustering.py:435-456 | the row has exactly as many fields as the header |
| Orchestrator.Settle | distribuitedClustering.py:402-444 | after an exception all five result entries are that exception's name and `n_iter` is `n_max_iters`; after a completed run every entry, `n_iter` included, is the run's own value; an entry holds an exception name iff the run raised |
| Orchestrator.MainPolicy | distribuitedClustering.py:402-464 | `main` logs a row iff the method name is one of the two drivers (otherwise `UnboundLocalError` escapes the `finally`); the logged result is the settled run, the status is the exit status, and the row ends in a newline |
| Orchestrator.RowMatchesHeader | distribuitedClustering.py:435-458 | the row ends in a newline and splits into exactly the ten logged values, in header order |
| Orchestrator.FailureRow | distribuitedClustering.py:417-458 | after an exception the three time columns hold its name, the last column holds the text of `n_max_iters`, and the status is 1 iff it is `ValueError` |
| Orchestrator.RunMain | distribuitedClustering.py:394-415 | `main` with `distributedKMeans` runs the live driver from the first K rows and logs its result with status 0 (or `UnboundLocalError` for n_max_iters <= 0); with the fuzzy name the given outcome is logged |
| Findings.LiveRoundLosesCenters | distribuitedClustering.py:338-350 | on X = [[0], [10]] with 2 GPUs and centers X, the live round is undefined |
| Findings.OldRoundKeepsCenters | distribuitedClustering.py:224-236 | on the same input the older round returns the centers unchanged |
| Findings.SampleGathers | distribuitedClustering.py:342 | on the sample labelled [0, 1], each cluster gathers exactly its own row |
| Findings.LloydKeepsSample | distribuitedClustering.py:336-344 | on that input a sequential Lloyd update keeps the centers |
| Findings.EmptyClusterCounterexample | distribuitedClustering.py:338-350 | on that input the live round is undefined while the older round is defined |

## Left out

- TensorFlow sessions, graphs, device placement, `ConfigProto` and `global_variables_initializer` are left out. They are foreign runtime calls. The model keeps the dataflow they express.
- The per-GPU computations run in parallel in the source. Here they are a sequential loop over shards. This is sound because the merge is a sum (`Reducer.TotalPermutation`).
- The source fetches `global_centroids` in the same `sess.run` as the assign, and TensorFlow does not order the two. Whether that fetch returns the value before or after the update is not modelled. The model reports the centers after n rounds.
- Floating point is modelled as reals: no rounding, no overflow, no infinities.
- Not-a-number is tracked for the whole center matrix, not per entry or per cluster.
- The fuzzy membership computation (`distribuitedClustering.py:104-119`) is not modelled: square roots, the fractional power and the zero-distance NaN replacement. The fuzzy partial takes the weights MU as a parameter. The fuzziness parameter `M` is also overwritten at `:89` by the shard's column count, so `:113` and `:119` use the data dimension as the exponent. With one dimension, `-2 / (M - 1)` divides by zero. This is recorded here and not modelled.
- Fuzzy C-means iteration: the `Engine` runs the two K-means drivers only. The fuzzy driver's round is `Fuzzy.FuzzyRound`, given each unit's weights.
- KMeans.Nearest: TensorFlow's `argmin` does not promise which index wins a tie. The model picks the lowest index, which is one permitted choice.
- Wall-clock times are modelled as the `Clock` parameter. It gives the setup and initialization durations and one duration per session run.
- The file I/O is left out: `np.load`, creating the log header file, appending the row, `check_file_exists`, and `make_data`. The row `main` would append is returned as a value.
- GPU discovery (`device_lib`) and the random choice of GPU names are left out. The model keeps only the count the validator accepts.
- `make_valid_int` and the argparse wiring are left out.
- Python's `str` of a float is left out. It is the `render` parameter.
- Orchestrator.RunMain requires 1 <= K <= N and at least one GPU. Outside that range the driver raises an exception: a TensorFlow shape error for K outside 1..N, or Python's `ZeroDivisionError` from `X.shape[0] % number_of_gpus` at `:286` for no GPU, which the validator at `:66-68` rules out. These exceptions are not modelled; their outcome reaches `main` only as an exception name (`Orchestrator.FailureRow`).
- Orchestrator.RunMain takes the fuzzy driver's outcome as a parameter, because the fuzzy membership is not modelled.
- Controller.Engine.Run requires a clock with at least n_max_iters per-run durations.
- The commented-out cost function (`:229-231`, `:245`) has no effect and is not modelled.

## Findings

| source | as written | input that shows it | evidently intended | confidence | as-written member | corrected member |
|---|---|---|---|---|---|---|
| distribuitedClustering.py:338-350 | the live driver takes `reduce_mean` over the rows gathered for each cluster, with no substitution for an empty cluster, so 0/0 enters column c of `partial_mu` (`:350`) and, through `add_n` and the division, the new center of that cluster (`:357-361`); on the sample each shard lacks a different cluster, so both new centers are lost | X = [[0], [10]], 2 GPUs, K = 2, initial centers X: each GPU holds one row, so each has an empty cluster | the zero mean for an empty cluster of the older driver (`:224-227`), which makes the partial the exact per-cluster sums and the round one Lloyd update | not executed | Findings.LiveRoundLosesCenters | KMeans.OldPartialIsExact |

The corrected behaviour is the `OldKMeans` variant of `Controller.Engine`. On the same input
its round keeps both centers (`Findings.OldRoundKeepsCenters`). Any number of its rounds equals
sequential Lloyd updates (`Controller.OldIterateIsLloyd`). `Orchestrator.RunMain` still runs the
live driver, because that is what `main` calls.
