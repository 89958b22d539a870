# DynamicPD: verified model

DynamicPD runs prefill work of a disaggregated LLM service inside decode instances when the
prefill side is busy. This project models the parts of the repository that carry real
invariants, and proves what they promise, for all inputs and all runs.

- **Time-to-first-token fitting** (`Vectors`, `LinearSolver`, `LeastSquares`, `TtftModels`,
  `LineFitExistence`, `KinkFitExistence`). Gauss-Jordan elimination in place, normal equations,
  and the search for a kink. Floats are exact reals; the 1e-12 pivot test is kept.
- **Asynchronous offload** (`BatchViews`, `HoldRestore`, `OffloadState`, `OffloadScheduler`,
  `ModelRunner`, `RunnerRanks`, `OutputMerge`, `LogprobAlignment`, `OffloadProtocol`,
  `OffloadLink`). The decode-side scheduler as a class proved against functions on its fields, the runner's two
  lanes likewise, and the whole loop of add, schedule, execute, update and finish as a state
  machine. `OffloadLink` shows that the runner's calls and the merge are the state machine's
  execute step.
- **Sequence-parallel collectives** (`Collectives`, `DpPacking`). Each rank's tensor is a list
  of rows; the collectives are functions on all ranks' lists.
- **Rank groups** (`MixedRadix`, `RankGroups`, `RankLayout`, `GroupLoops`). Mixed-radix
  coordinates in any number of dimensions, and the nested loops that append groups.
- **Load reports** (`LoadView`, `LoadProtocol`). Reporters, coordinator and client over
  channels that keep order and may lose messages.
- **The proxy's priority index** (`Heapq`, `ProxyPool`, `ProxyState`, `ProxyReleases`,
  `HeapPaths`, `HeapLights`, `ProxyRuns`, `ProxyMisselection`). Python's `heappush` and `heappop`
  in full, because they are applied to lists out of heap order. `HeapPaths` and `HeapLights` say
  where entries go when one is pushed, popped or renewed in such a list.

`Picking` says once what it means to keep some entries of a list in order; the laws of all filters
are stated with it.

## Assumptions about code that is not modelled

- The base scheduler schedules only requests that are running (and not held) or waiting, each
  with a positive number of tokens and a start count; every scheduled request ends up running;
  ids are not reused; a running request starts where it was left and keeps its counts while it is
  not scheduled; a preempted one goes back to waiting. What it does to waiting requests that it
  does not schedule is open, but for the length of their prompt. The base update moves nobody to
  waiting and takes back no prompt token. `BaseContract` and `UpdateContract` in
  `OffloadProtocol` say this.
- `DeliveryInOrder` and `OffloadBatchIsExecute` assume that a prefill lane with tokens leaves a
  state to sample from and returns nothing at once. Without this the first of them is false;
  `BatchKeepsOrderExactly` says for which batches.
- Whether a rank's own copy of an output is ready is an arbitrary answer per collective; all
  ranks act on the minimum. The base runner's results, clocks, message arrival and losses are
  arbitrary too.
- Logprobs handed to the merge have parallel rows and, with start offsets, a single offset for
  every request (`LogprobsFit`).
- The head-replica sizes divide as the reshapes need (`HeadReplicaFits`); the code raises an
  error otherwise.
- In the load protocol an instance's timestamps do not decrease.
- Proxy releases give back the score of one earlier select, at most once each for tokens and for
  cache, and scores are positive (`ProxyRuns`).

## What turned out not to hold

- Moving requests out and back does not give the output back: rows are doubled, and without an
  offload the common prefix blocks are overwritten (`RoundTripExactly` has the condition).
- The 1e-12 test loses fits that exist (`ThresholdLosesALine`, `FarSearchFindsNothing`).
  `RejectedExactly` and `RejectionExplained` say when and why for any system,
  `LineFitsIffSpread` for lines and `BreakpointFitsExactly` for kinks;
  `LineFitsForDifferentLengths` and `SearchSucceeds` give the lengths for which nothing is lost.
- A prefill lane that answers at once can have its output overtake an older one, or be queued
  twice (`OutputsOvertake`, `OutputIsDoubled`, `BatchKeepsOrderExactly`).
- Logprobs of merged outputs misalign when only some outputs have them
  (`MixedLogprobsMisalign`, `LogprobsFoundExactly`).
- Fine-grained tensor-parallel groups are cut from a (pp, dp, tp) grid while all other groups
  use (dp, pp, tp): with pipeline stages they cross data-parallel groups (`FineInsideDpExactly`).
- Selection after releases is least-loaded for at most four servers only: from five on, idle
  servers and properly paired releases can end in a busier server being selected
  (`LeastLoadedUpToFour`, `MisselectedByTwoScores`).
- A client's view can be stale when it is used (`FreshAfterPollExactly`, `StaleViewReached`).

## Model

| member | source | states |
|---|---|---|
| LinearSolver.SolveLinearSystem | profiling/profile_ttft.py:174-200 | The elimination in place on the augmented rows; whenever it answers, a vector solves the system exactly when it is the answer. |
| LinearSolver.NormalizeRow | profiling/profile_ttft.py:187-189 | The pivot row is divided from the pivot column on; nothing to its left and no other row changes. |
| LinearSolver.EliminateRow | profiling/profile_ttft.py:191-198 | One row loses a multiple of the pivot row from the pivot column on, also when the loop is skipped for a zero factor. |
| LinearSolver.EliminateColumn | profiling/profile_ttft.py:180-198 | One pass of the outer loop: it fails exactly when the largest candidate pivot is below 1e-12, and otherwise is one swap, scale and clear step. |
| LinearSolver.PivotRow | profiling/profile_ttft.py:181 | The pivot row has the largest absolute entry among the candidates and is the first of them. |
| LinearSolver.ReduceKeepsNull | profiling/profile_ttft.py:180-198 | The swap, scale and clear loops end in unit columns and keep exactly the solutions and kernel vectors they started with, although columns left of the pivot are skipped. |
| LinearSolver.SolutionIsUnique | profiling/profile_ttft.py:174-200 | For every vector z: z solves the system exactly when z is the answer. |
| LinearSolver.SingularIsRejected | profiling/profile_ttft.py:181-183 | A matrix with a non-trivial kernel is never answered. |
| LinearSolver.RejectedExactly | profiling/profile_ttft.py:180-183 | The solver answers nothing exactly when there is a column before which every step found an acceptable pivot, and in whose reduced matrix none is. |
| LinearSolver.RejectionExplained | profiling/profile_ttft.py:181-183 | At that column of the matrix elimination has reached every candidate is below the threshold, and if the matrix is not singular one of them is not zero: a regular system is lost to the threshold alone. |
| LeastSquares.AddSample | profiling/profile_ttft.py:210-214 | One sample adds its outer product to the matrix and its multiple to the right-hand side. |
| LeastSquares.NormalEquations | profiling/profile_ttft.py:208-214 | The accumulation loops give the inner products of all pairs of columns, and of each column with the targets. |
| LeastSquares.FitLeastSquares | profiling/profile_ttft.py:203-236 | A returned model has the unique least sum of squared residuals of all coefficient vectors of its width, and reports that sum; none is returned exactly on empty or unequal input or when the solver gives up. |
| LeastSquares.ErrorDecomposition | profiling/profile_ttft.py:216-222 | Around a solution of the normal equations the error of any other coefficients is larger by the squared length of the difference of the fitted values. |
| LeastSquares.CoefficientsAreUniqueMinimum | profiling/profile_ttft.py:216-222 | No coefficient vector has a smaller error, and one with the same error is the same vector. |
| LeastSquares.GramKernel | profiling/profile_ttft.py:208-214 | The normal matrix sends a vector to zero exactly when the columns combined with it vanish on every sample. |
| LeastSquares.ErrorIsTotal | profiling/profile_ttft.py:218-220 | The error is the total of the squared distances of the targets from the estimates. |
| LeastSquares.SpreadIsLeastFromMean | profiling/profile_ttft.py:223-225 | Squared distances from any constant add up to the spread plus the count times the squared distance of the constant from the mean: the spread is measured from the true mean. |
| LeastSquares.ReportMeans | profiling/profile_ttft.py:218-236 | Mean squared error times the count is the error, mean absolute error times the count is the total distance, and the share of the spread that R2 leaves over is the error; R2 is 1 without spread. |
| TtftModels.FitLinearModel | profiling/profile_ttft.py:239-260 | The samples are the prompt lengths and times of the successful rows and of no others, in order; None for fewer than two of them or when the fit fails; otherwise the line with the unique least error, with R2 in [0, 1]. |
| TtftModels.PointsAreSamples | profiling/profile_ttft.py:240-244 | The fitted rows are exactly the successful ones, in order. |
| TtftModels.PointsCount | profiling/profile_ttft.py:264-268 | A successful row is fitted as often as it occurs, a failed one never. |
| TtftModels.FailedRowIsIgnored | profiling/profile_ttft.py:240-244 | Adding a failed row anywhere changes nothing that is fitted. |
| TtftModels.CandidatesExactly | profiling/profile_ttft.py:269-277 | A length is a candidate exactly when there are four different ones and it lies between two others; candidates ascend. |
| TtftModels.KinkIsTwoLines | profiling/profile_ttft.py:278 | The fitted features describe one straight line up to the breakpoint and another from there, joined at it. |
| TtftModels.FitBeatsMean | profiling/profile_ttft.py:224-227 | With an intercept column the error is at most the spread around the mean, so R2 lies in [0, 1]. |
| TtftModels.FitPiecewiseLinearModel | profiling/profile_ttft.py:263-297 | On the successful rows: None exactly when there are fewer than four distinct lengths or no interior breakpoint can be fitted; otherwise the least error over every fitted interior breakpoint and every coefficient triple, with the earliest such breakpoint. |
| TtftModels.PiecewiseBeatsLine | profiling/profile_ttft.py:277-295 | The kinked model's error is at most that of every straight line over the same rows, so at most the linear model's. |
| TtftModels.KinkColumnsIndependent | profiling/profile_ttft.py:277-279 | At an interior breakpoint the three feature columns are linearly independent. |
| LineFitExistence.SpreadSign | profiling/profile_ttft.py:245-250 | n times the sum of squared lengths minus the squared sum is never negative, and zero exactly when all lengths are equal. |
| LineFitExistence.LineFitsIffSpread | profiling/profile_ttft.py:182-183 | For two points or more the line fit fails exactly when that spread is below 1e-12 times the larger of the sample count and the absolute sum of the lengths. |
| LineFitExistence.LineFitsForDifferentLengths | profiling/profile_ttft.py:245-252 | Equal lengths are always rejected; different ones are always fitted up to a scale of 10^12. |
| LineFitExistence.ThresholdLosesALine | profiling/profile_ttft.py:182-183 | Two rows of lengths 10^13 and 10^13 + 1 and any times: the columns are independent, so there is a unique line, and the fit returns none. |
| KinkFitExistence.ThreeEquations | profiling/profile_ttft.py:180-183 | Elimination of any three equations gives up at the second or third column exactly when a 2x2 minor, or the determinant, is below 1e-12 times the pivot size before it. |
| KinkFitExistence.BreakpointFitsExactly | profiling/profile_ttft.py:280-281 | A breakpoint is fitted exactly when two quotients of integers, the largest minor over the first pivot and the determinant over that minor, reach 1e-12. |
| KinkFitExistence.SmallBreakpointFits | profiling/profile_ttft.py:280-281 | Every interior breakpoint whose first pivot and largest minor are at most 10^12 is fitted. |
| KinkFitExistence.InteriorBreakpointsFit | profiling/profile_ttft.py:277-281 | For n lengths from 0 to L with (n L^2)(n L) at most 10^12 every interior breakpoint is fitted. |
| KinkFitExistence.SearchSucceeds | profiling/profile_ttft.py:270-297 | So with four distinct lengths in that range the search never returns None. |
| KinkFitExistence.FarSearchFindsNothing | profiling/profile_ttft.py:277-281 | Four distinct lengths from 10^13 on, and any times: every breakpoint is passed over and the search returns None. |
| BatchViews.SplitByAppending | dynamicPD/vllm/vllm/v1/core/sched/scheduler.py:61-129 | The scheduler's one-pass split of the parallel lists gives the two parts by request id, copying tables and sets rightly. |
| BatchViews.SplitByIndex | dynamicPD/vllm_ascend/vllm_ascend/worker/model_runner_v1.py:290-325 | The runner's index-list split gives the same two parts. |
| BatchViews.SplitsAgree | dynamicPD/vllm_ascend/vllm_ascend/worker/model_runner_v1.py:290-325 | The two splits return the same halves on all inputs. |
| BatchViews.PartKeepsRows | dynamicPD/vllm/vllm/v1/core/sched/scheduler.py:61-129 | A part holds exactly the rows whose request is in, or is not in, the ids: all of them, in order, every field unchanged. |
| BatchViews.SplitMapping | dynamicPD/vllm/vllm/v1/core/sched/scheduler.py:48-58 | A request-keyed map is cut into the entries outside and inside the moved ids. |
| BatchViews.SplitMappingRoundTrip | dynamicPD/vllm/vllm/v1/core/sched/scheduler.py:399-402 | Updating the kept half with the moved one gives the map back. |
| BatchViews.SplitKeepsTotal | dynamicPD/vllm/vllm/v1/core/sched/scheduler.py:372-376 | The token totals of the two halves add up to the total. |
| HoldRestore.RestoreAfterAppend | dynamicPD/vllm/vllm/v1/core/sched/scheduler.py:276-308 | When the base scheduler only appends and all held requests are still known, hold and restore give the original list with the appended suffix behind it. |
| HoldRestore.RestoreKeepsOrder | dynamicPD/vllm/vllm/v1/core/sched/scheduler.py:299-308 | Restoring into any list without held requests keeps the others' order and adds the known held ones in theirs. |
| HoldRestore.RestoredMembers | dynamicPD/vllm/vllm/v1/core/sched/scheduler.py:299-308 | After restoring the members are the list's and the known held ones, each once. |
| HoldRestore.HoldThenRestore | dynamicPD/vllm/vllm/v1/core/sched/scheduler.py:276-308 | Over hold, any base scheduler that lists no held request, and restore: the others are exactly the base list in order, the held ones those still known in order, nobody twice. |
| OffloadState.MovedBackMaps | dynamicPD/vllm/vllm/v1/core/sched/scheduler.py:394-404 | Moving requests out and back restores the three request-keyed maps, the prefix blocks and the total; the moved rows, new and cached, are there twice afterwards, behind all others. |
| OffloadState.RoundTripExactly | dynamicPD/vllm/vllm/v1/core/sched/scheduler.py:359-404 | The base scheduler gets its own output back exactly when nothing was offloaded and there were no common prefix blocks. |
| OffloadState.LanesPartitionBatch | dynamicPD/vllm_ascend/vllm_ascend/worker/model_runner_v1.py:550-604 | Each lane holds exactly the new and cached rows of its own requests, in order and unchanged; new rows of the two together are the batch's; every map entry is in the lane of its request, and token totals are those of the lanes and add up. |
| OffloadState.NoOffloadKeepsBatch | dynamicPD/vllm_ascend/vllm_ascend/worker/model_runner_v1.py:550-604 | Without an offloaded part the decode lane runs the batch as the base scheduler made it. |
| OffloadState.NewReqsArePicked | dynamicPD/vllm/vllm/v1/core/sched/scheduler.py:368-371 | The filter keeps exactly the new requests inside the ids, in order. |
| OffloadState.StartTokensExactly | dynamicPD/vllm/vllm/v1/core/sched/scheduler.py:321-330 | A start count is known exactly for requests with a row, and is the one in the request's own row, the cached one if there is one. |
| OffloadState.SelectedExactly | dynamicPD/vllm/vllm/v1/core/sched/scheduler.py:332-357 | A request is selected exactly when it is known, has tokens in this step, its own row puts it before the end of its prompt, and it is in flight, continuing, or has at least the threshold left. |
| OffloadScheduler.SchedulerOutput.EmptyPrefillFields | dynamicPD/vllm/vllm/v1/core/sched/scheduler.py:33-45 | The prefill fields are emptied and the main ones kept. |
| OffloadScheduler.SumOfTokens | dynamicPD/vllm/vllm/v1/core/sched/scheduler.py:421 | The loop over the token table gives its sum in any order. |
| OffloadScheduler.Scheduler.HoldInflight | dynamicPD/vllm/vllm/v1/core/sched/scheduler.py:276-288 | The running list keeps those not in flight; the others are returned with their positions. |
| OffloadScheduler.Scheduler.RestoreInflight | dynamicPD/vllm/vllm/v1/core/sched/scheduler.py:290-308 | Held requests still known and not listed are put back at their positions. |
| OffloadScheduler.Scheduler.SelectAsyncOffloadRequests | dynamicPD/vllm/vllm/v1/core/sched/scheduler.py:316-357 | Selected are the scheduled requests with prompt tokens in this step that are in flight, continuing, or have at least the threshold left. |
| OffloadScheduler.Scheduler.MoveRequestsToPrefillOutput | dynamicPD/vllm/vllm/v1/core/sched/scheduler.py:359-392 | The prefill fields get the requests' rows and entries, the main maps lose them, the main rows stay, and the requests are recorded in all four tables. |
| OffloadScheduler.Scheduler.MovePrefillOutputBack | dynamicPD/vllm/vllm/v1/core/sched/scheduler.py:394-404 | Rows and map entries are joined to the main fields; the prefix blocks are overwritten. |
| OffloadScheduler.Scheduler.RefreshAsyncOffloadPressure | dynamicPD/vllm/vllm/v1/core/sched/scheduler.py:406-421 | Finished and unknown requests leave the tables and the pressure is the sum of what is left. |
| OffloadScheduler.Scheduler.MarkAsyncPrefillFinished | dynamicPD/vllm/vllm/v1/core/sched/scheduler.py:423-442 | Reported requests leave the tables; they stay continuing exactly while part of their prompt is left. |
| OffloadScheduler.Scheduler.Schedule | dynamicPD/vllm/vllm/v1/core/sched/scheduler.py:228-264 | The new fields and the output after hold, base scheduling, restore, selection, move and refresh. |
| OffloadScheduler.Scheduler.UpdateFromOutput | dynamicPD/vllm/vllm/v1/core/sched/scheduler.py:266-274 | The new fields and the output after releasing finished chunks and moving the prefill part back. |
| OffloadProtocol.StepKeepsInv | dynamicPD/vllm/vllm/v1/core/sched/scheduler.py:228-442 | Every add, schedule, execute, update and finish step keeps the invariant: the scheduler's tables agree, outstanding chunks are disjoint, in-flight requests are exactly the live ones with an outstanding chunk, prompts are committed to lanes. |
| OffloadProtocol.RunKeepsInv | dynamicPD/vllm/vllm/v1/core/sched/scheduler.py:228-442 | The invariant holds after every run. |
| OffloadProtocol.NeverScheduledWhileInFlight | dynamicPD/vllm/vllm/v1/core/sched/scheduler.py:276-288 | In every reachable state nothing the base scheduler schedules has a chunk outstanding. |
| OffloadProtocol.AlreadyOffloadedNeverFires | dynamicPD/vllm/vllm/v1/core/sched/scheduler.py:332-357 | In every reachable state leaving out the test for requests already offloaded would select the same requests. |
| OffloadProtocol.TablesAfterSchedule | dynamicPD/vllm/vllm/v1/core/sched/scheduler.py:382-421 | After a schedule step the in-flight set, its token table and the batch set have the same ids, all of them continuing, and the pressure is the sum of the table. |
| OffloadProtocol.InFlightIsOutstanding | dynamicPD/vllm/vllm/v1/core/sched/scheduler.py:228-274 | In every run in which no request ends while in flight, the in-flight set is the disjoint union of views not executed, outputs pending in the runner and outputs not yet passed to the update. |
| OffloadProtocol.PromptStaysInOneLane | dynamicPD/vllm/vllm/v1/core/sched/scheduler.py:316-357 | Without preemption a request whose row puts it before the end of its prompt goes where its last prompt chunk went. |
| OffloadProtocol.FirstChunkDecides | dynamicPD/vllm/vllm/v1/core/sched/scheduler.py:344-356 | A prompt chunk goes to the offload lane exactly when the request is continuing there or has at least the threshold left. |
| OffloadProtocol.UpdateReleases | dynamicPD/vllm/vllm/v1/core/sched/scheduler.py:423-442 | An update takes reported requests out of the in-flight tables, ends continuing exactly for those of them whose prompt is done, and changes nobody else's entry. |
| OutputMerge.MergeLogprobs | dynamicPD/vllm_ascend/vllm_ascend/worker/model_runner_v1.py:115-146 | The loop over the present logprobs joins rows and start offsets, shifting each item's by the rows before it. |
| OutputMerge.MergeOutputs | dynamicPD/vllm_ascend/vllm_ascend/worker/model_runner_v1.py:194-244 | The merge of the non-empty outputs, decode first, including the one-output case. |
| OutputMerge.MergedIds | dynamicPD/vllm_ascend/vllm_ascend/worker/model_runner_v1.py:203-216 | The merged request ids are those of all sources one behind the other, also for a single source. |
| OutputMerge.EveryRequestServed | dynamicPD/vllm_ascend/vllm_ascend/worker/model_runner_v1.py:194-232 | Whatever decode and prefill outputs are merged, every request of every one of them finds its own sampled tokens. |
| OutputMerge.MergedPrompts | dynamicPD/vllm_ascend/vllm_ascend/worker/model_runner_v1.py:219 | A request's prompt logprobs are those of the last source that has some for it. |
| OutputMerge.MergedHasLogprobs | dynamicPD/vllm_ascend/vllm_ascend/worker/model_runner_v1.py:115-119 | There are merged logprobs exactly when some source has logprobs. |
| OutputMerge.MergedTokens | dynamicPD/vllm_ascend/vllm_ascend/worker/model_runner_v1.py:211-232 | For one source or many: looking up any request of any source gives exactly its own sampled tokens. |
| OutputMerge.MergedRows | dynamicPD/vllm_ascend/vllm_ascend/worker/model_runner_v1.py:115-146 | With logprobs in all outputs, one or many, any request's slice of the merged logprobs is its own slice. |
| OutputMerge.JoinedStart | dynamicPD/vllm_ascend/vllm_ascend/worker/model_runner_v1.py:126-138 | A request's start row in the joined logprobs is its own start row moved by the rows before its output. |
| LogprobAlignment.MixedLogprobsMisalign | dynamicPD/vllm_ascend/vllm_ascend/worker/model_runner_v1.py:115-125 | Behind any decode output without logprobs, some request of the prefill outputs that have them does not find its own. |
| LogprobAlignment.MixedLogprobsOccur | dynamicPD/vllm_ascend/vllm_ascend/worker/model_runner_v1.py:115-125 | A decode output without and a prefill output with logprobs that the previous row speaks of. |
| LogprobAlignment.LogprobsFoundExactly | dynamicPD/vllm_ascend/vllm_ascend/worker/model_runner_v1.py:115-146 | With logprobs in some outputs only, every request that has some finds them at its merged index exactly when no output without logprobs precedes one with. |
| OffloadLink.MergedReleases | dynamicPD/vllm_ascend/vllm_ascend/worker/model_runner_v1.py:194-244 | The merged output reports finished exactly the ids of the prefill outputs, whichever of them are empty. |
| ModelRunner.Runner.TakeReadyPrefillOutputs | dynamicPD/vllm_ascend/vllm_ascend/worker/model_runner_v1.py:768-782 | A blocking take pops one output; the other pops while the collective says ready, asking once per output. |
| ModelRunner.Runner.PollPending | dynamicPD/vllm_ascend/vllm_ascend/worker/model_runner_v1.py:819-820 | Asking all pending outputs stops at the first that is not ready and leaves the queue alone. |
| ModelRunner.Runner.ExecuteDecodeOnly | dynamicPD/vllm_ascend/vllm_ascend/worker/model_runner_v1.py:613-633 | A batch without offloaded part: polls, the decode lane, and the outputs ready by then. |
| ModelRunner.Runner.ExecuteBothLanes | dynamicPD/vllm_ascend/vllm_ascend/worker/model_runner_v1.py:635-703 | A batch with offloaded part: both lanes, immediate results remembered, merged at once only when neither lane keeps a state. |
| ModelRunner.Runner.SampleTokens | dynamicPD/vllm_ascend/vllm_ascend/worker/model_runner_v1.py:705-766 | A sample call: states sampled, the prefill output queued, then a take and the merge. |
| ModelRunner.Runner.MergeDynamicPdOutputs | dynamicPD/vllm_ascend/vllm_ascend/worker/model_runner_v1.py:784-814 | The prefill outputs given and taken are joined to the decode output, or nothing is returned. |
| ModelRunner.TakesMaximalReadyPrefix | dynamicPD/vllm_ascend/vllm_ascend/worker/model_runner_v1.py:768-782 | A take that does not wait removes the longest ready prefix. |
| ModelRunner.SampleDelivers | dynamicPD/vllm_ascend/vllm_ascend/worker/model_runner_v1.py:752-766 | A sample call hands back a prefix of the extended queue; without a decode output it hands back at least one if any is pending. |
| ModelRunner.SampleCounts | dynamicPD/vllm_ascend/vllm_ascend/worker/model_runner_v1.py:757-766 | Without a decode output a sample call hands back the two oldest outputs; with one it hands back the ready ones and those ready when asked again. |
| ModelRunner.MergeHandsBackDecode | dynamicPD/vllm_ascend/vllm_ascend/worker/model_runner_v1.py:784-814 | The merge hands back the decode output it was given, with or without prefill outputs, and nothing only for want of both. |
| ModelRunner.DecodeOnlyHandsBack | dynamicPD/vllm_ascend/vllm_ascend/worker/model_runner_v1.py:613-633 | An execute call without offloaded part hands back the decode lane's immediate output. |
| ModelRunner.BothHandsBack | dynamicPD/vllm_ascend/vllm_ascend/worker/model_runner_v1.py:635-703 | An execute call with offloaded part hands it back when no lane left a state, and remembers it otherwise. |
| ModelRunner.SampleHandsBack | dynamicPD/vllm_ascend/vllm_ascend/worker/model_runner_v1.py:705-766 | A sample call hands back what it sampled from the decode lane's state, or else the remembered output. |
| ModelRunner.DecodesInOrder | dynamicPD/vllm_ascend/vllm_ascend/worker/model_runner_v1.py:606-814 | Over any run of batches whose decode lane answers or leaves a state, the decode outputs handed back are those of the batches, each once and in order. |
| ModelRunner.DeliveryInOrder | dynamicPD/vllm_ascend/vllm_ascend/worker/model_runner_v1.py:606-814 | Over every run whose prefill lane saves its state, what was delivered followed by what is pending is what was produced, in order. |
| ModelRunner.BatchKeepsOrderExactly | dynamicPD/vllm_ascend/vllm_ascend/worker/model_runner_v1.py:606-814 | For one batch and any lane results: delivered followed by pending stays equal to produced exactly when a decode batch that must be sampled finds no remembered output, an immediate prefill output leaves no state, and one handed back at once finds nothing different pending. |
| ModelRunner.OutputsOvertake | dynamicPD/vllm_ascend/vllm_ascend/worker/model_runner_v1.py:690-703 | A run of three calls from the empty runner that hands back the second prefill output while the first is still pending. |
| ModelRunner.OutputIsDoubled | dynamicPD/vllm_ascend/vllm_ascend/worker/model_runner_v1.py:709-753 | A run of four calls from the empty runner that queues one prefill output twice. |
| ModelRunner.RememberedOutputIsQueuedAgain | dynamicPD/vllm_ascend/vllm_ascend/worker/model_runner_v1.py:709-752 | Outside that contract a sample call after a decode-only step queues an output again exactly when an immediate prefill output is still remembered. |
| ModelRunner.ImmediateOutputOvertakes | dynamicPD/vllm_ascend/vllm_ascend/worker/model_runner_v1.py:690-703 | When both lanes answer at once the new prefill output is handed back ahead of the pending ones, and the order is kept exactly when none of them differs from it. |
| RunnerRanks.RanksStayInStep | dynamicPD/vllm_ascend/vllm_ascend/worker/model_runner_v1.py:101-112 | Any number of ranks making the same calls, readiness being the MIN over their own copies: over the whole run equally long queues, equally many outputs handed back, and the same number of collectives, the q-th asking about the same queue position on every rank. |
| RunnerRanks.TakenIsReadyEverywhere | dynamicPD/vllm_ascend/vllm_ascend/worker/model_runner_v1.py:101-112 | What a take hands back without waiting is ready on every rank, and the output it stops at is not ready on some rank. |
| RunnerRanks.LocalReadinessDiverges | dynamicPD/vllm_ascend/vllm_ascend/worker/model_runner_v1.py:101-112 | Without the reduction two ranks part company on the first output only one has ready. |
| OffloadLink.OffloadBatchIsExecute | dynamicPD/vllm_ascend/vllm_ascend/worker/model_runner_v1.py:635-766 | Executing both lanes and sampling is the protocol's execute step: the queues correspond before and after, and the delivered ids are those handed back. |
| OffloadLink.DecodeBatchIsExecute | dynamicPD/vllm_ascend/vllm_ascend/worker/model_runner_v1.py:613-633 | So is a batch without offloaded part that is answered at once, on the queue as it is. |
| OffloadLink.SampledDecodeBatchIsExecute | dynamicPD/vllm_ascend/vllm_ascend/worker/model_runner_v1.py:613-766 | A batch without offloaded part that answers nothing, followed by its sample call, is one execute step that counts what both calls hand back. |
| Collectives.ScatterGather | dynamicPD/vllm_ascend/vllm_ascend/ops/register_cuntom_ops.py:102-105 | A reduce-scatter followed by an all-gather is an all-reduce. |
| Collectives.AllReduceAddsUp | dynamicPD/vllm_ascend/vllm_ascend/ops/register_cuntom_ops.py:102-105 | Every entry after an all-reduce is the total of that entry over the ranks. |
| Collectives.TpBranchIsAllReduce | dynamicPD/vllm_ascend/vllm_ascend/ops/register_cuntom_ops.py:55-59 | Pad, reduce-scatter, all-gather and unpad give the all-reduce of the unpadded rows on every rank, for every padding to a multiple of the group size. |
| Collectives.ChunksRejoin | dynamicPD/vllm_ascend/vllm_ascend/ops/register_cuntom_ops.py:36 | The chunks of any rows into any number of pieces, one behind the other, are those rows, also when they do not divide evenly and the last chunks are short or empty. |
| Collectives.ChunkIsShare | dynamicPD/vllm_ascend/vllm_ascend/ops/register_cuntom_ops.py:36 | torch.chunk of evenly divisible rows gives the same shares as the reduce-scatter. |
| Collectives.ResidualCommutes | dynamicPD/vllm_ascend/vllm_ascend/ops/register_cuntom_ops.py:21-38 | Adding the chunked residual on the shards is adding the residual after the all-reduce, also in the branch where a shard is as long as the whole residual. |
| Collectives.ResidualAddedOnce | dynamicPD/vllm_ascend/vllm_ascend/ops/register_cuntom_ops.py:21-59 | Every entry after the branch is the total over the ranks with the residual's entry added once. |
| DpPacking.Pack | dynamicPD/vllm_ascend/vllm_ascend/ops/register_cuntom_ops.py:108-124 | The packing loop puts each batch at the head of its block and leaves what was in the memory behind it. |
| DpPacking.Unpack | dynamicPD/vllm_ascend/vllm_ascend/ops/register_cuntom_ops.py:64-78 | The unpacking loop puts the batches one behind the other. |
| DpPacking.UnpackPacked | dynamicPD/vllm_ascend/vllm_ascend/ops/register_cuntom_ops.py:64-124 | Unpacking undoes packing, whatever stood in the padding. |
| DpPacking.DpBranchIsAllReduce | dynamicPD/vllm_ascend/vllm_ascend/ops/register_cuntom_ops.py:61-124 | Packing, reduce-scatter over the expert group, all-gather and unpacking give the all-reduce, for any batch sizes and any padding on each rank. |
| DpPacking.SetPadding | dynamicPD/vllm_ascend/vllm_ascend/ascend_forward_context.py:134-174 | The padding set for a pass makes the rows divide evenly by tp, and is the least that does; with several data-parallel ranks it fills up to the common padded length. |
| DpPacking.RoundedUpUnique | dynamicPD/vllm_ascend/vllm_ascend/ascend_forward_context.py:160 | The padded length is the only multiple of tp from the longest batch up to less than tp more. |
| DpPacking.PaddedLengthServes | dynamicPD/vllm_ascend/vllm_ascend/ascend_forward_context.py:158-163 | The padded length divides evenly over dp * tp ranks and holds every batch. |
| MixedRadix.EncodeDecode | dynamicPD/vllm/vllm/distributed/parallel_state.py:170-176 | The coordinates of a rank lie in the grid and give the rank back. |
| MixedRadix.DecodeEncode | dynamicPD/vllm/vllm/distributed/parallel_state.py:170-176 | A rank made from coordinates has those coordinates. |
| RankGroups.ListsPartition | dynamicPD/vllm/vllm/distributed/parallel_state.py:215-218 | Exchanging any two dimensions and cutting into lists of any length that divides the world lists every rank exactly once. |
| RankGroups.ListsFixPrefix | dynamicPD/vllm/vllm/distributed/parallel_state.py:262-268 | With lists as long as the trailing dimensions together, two ranks share one exactly when their leading coordinates after the exchange agree. |
| RankLayout.SingleDimension | dynamicPD/vllm/vllm/distributed/parallel_state.py:229-245 | For all sizes the TP, PCP, PP and DP lists partition the ranks, and two ranks share one exactly when they differ in that coordinate only. |
| RankLayout.PositionIsCoordinate | dynamicPD/vllm/vllm/distributed/parallel_state.py:243-245 | A rank's position in its list is its coordinate. |
| RankLayout.DimensionsMeetOnce | dynamicPD/vllm/vllm/distributed/parallel_state.py:178-245 | Lists along two different dimensions share at most one rank. |
| RankLayout.ExpertGroups | dynamicPD/vllm/vllm/distributed/parallel_state.py:261-268 | The EP lists partition the ranks, and two ranks share one exactly when they agree in outer replica and pipeline stage. |
| RankLayout.ExpertGroupsContain | dynamicPD/vllm_ascend/vllm_ascend/distributed/parallel_state.py:138-146 | Ranks of one DP, PCP or TP list are in one EP or MC2 list. |
| RankLayout.DcpInsideTpExactly | dynamicPD/vllm/vllm/distributed/parallel_state.py:196-198 | DCP groups lie inside TP groups exactly when dcp divides tp. |
| RankLayout.HeadReplicaGroups | dynamicPD/vllm_ascend/vllm_ascend/distributed/parallel_state.py:113-127 | The head-replica all-to-all groups partition the ranks; two ranks share one exactly when cell and replica agree and their places fall in the same group-sized run. |
| RankLayout.HeadReplicaOfConfig | dynamicPD/vllm_ascend/vllm_ascend/distributed/parallel_state.py:109-127 | With the group size computed from the configured sizes the groups partition the world; each cell and replica has at least one group for every remote tensor rank, and exactly one when the remote size divides its span. |
| GroupLoops.FlashComm2Groups | dynamicPD/vllm_ascend/vllm_ascend/distributed/parallel_state.py:210-230 | The four nested loops fill both lists of groups rank by rank as the stride formula says. |
| GroupLoops.OtpGroupsAreLists | dynamicPD/vllm_ascend/vllm_ascend/distributed/parallel_state.py:222-230 | When the output-parallel size divides tp, its groups are the lists along the stride dimension of the grid (cells, size, tp / size). |
| GroupLoops.OdpGroupsAreLists | dynamicPD/vllm_ascend/vllm_ascend/distributed/parallel_state.py:228-229 | Likewise the data-parallel side's groups are its lists along the last dimension. |
| GroupLoops.GroupsMeetOnce | dynamicPD/vllm_ascend/vllm_ascend/distributed/parallel_state.py:222-229 | Within a cell any output-parallel and any data-parallel group share exactly one rank, the one given by the formula. |
| GroupLoops.OtpPartitionExactly | dynamicPD/vllm_ascend/vllm_ascend/distributed/parallel_state.py:210-230 | The output-parallel groups partition the world exactly when it has dp * pp * tp ranks and the group size divides tp. |
| GroupLoops.OdpPartitionExactly | dynamicPD/vllm_ascend/vllm_ascend/distributed/parallel_state.py:213-229 | The data-parallel side partitions the world under exactly the same condition. |
| GroupLoops.CreateGroup | dynamicPD/vllm_ascend/vllm_ascend/distributed/parallel_state.py:169-183 | The three loops give, stage by stage, chunk by chunk and rank by rank, the slices of the (pp, dp, tp) grid. |
| GroupLoops.FinePartitionExactly | dynamicPD/vllm_ascend/vllm_ascend/distributed/parallel_state.py:169-183 | The fine-grained groups partition the ranks exactly when their size divides dp. |
| GroupLoops.FineInsideDpExactly | dynamicPD/vllm_ascend/vllm_ascend/distributed/parallel_state.py:173-180 | Any two members of a group are in one DP list of the main (dp, pp, tp) layout exactly when there is one pipeline stage, the size is one, or there is no group at all. |
| LoadView.PDLoadView.Update | dynamicPD/vllm/vllm/v1/engine/pd_coordinator.py:34-40 | The view becomes the dictionary of the loads not stale at that time. |
| LoadView.CollectedAre | dynamicPD/vllm/vllm/v1/engine/pd_coordinator.py:36-40 | That dictionary holds one of the loads for every instance among them, and nothing else. |
| LoadView.CollectedAreLast | dynamicPD/vllm/vllm/v1/engine/pd_coordinator.py:36-40 | Of each instance the dictionary holds the last load. |
| LoadView.FreshArePicked | dynamicPD/vllm/vllm/v1/engine/pd_coordinator.py:39 | Exactly the loads within the limit are kept, in order. |
| LoadView.CollectedDistinct | dynamicPD/vllm/vllm/v1/engine/pd_coordinator.py:36-40 | Loads naming each instance once come back as they were. |
| LoadView.PDLoadView.BestDecode | dynamicPD/vllm/vllm/v1/engine/pd_coordinator.py:42-67 | None exactly when no engine of the group takes decode work below the watermark and the limit; otherwise one that can, and no other that can has fewer offloaded tokens, then fewer tokens, then a smaller weighted request count, then less cache in use; the first of those alike. |
| LoadProtocol.PDLoadClient.Poll | dynamicPD/vllm/vllm/v1/engine/pd_coordinator.py:120-130 | The waiting messages are drained, and the last one, if any, makes the view. |
| LoadProtocol.PollTakesNewest | dynamicPD/vllm/vllm/v1/engine/pd_coordinator.py:120-130 | After a poll the view holds, of each instance, the last load of the newest message that is not stale; without a message it is unchanged. |
| LoadProtocol.PDCoordinator.Tick | dynamicPD/vllm/vllm/v1/engine/pd_coordinator.py:189-206 | One pass of the loop: at most one report in, a publication exactly when the interval has passed. |
| LoadProtocol.TickPublishes | dynamicPD/vllm/vllm/v1/engine/pd_coordinator.py:189-206 | A report replaces its instance's load and no other; a publication goes out exactly when the interval has passed, with every load that is fresh then. |
| LoadProtocol.StepKeepsInv | dynamicPD/vllm/vllm/v1/engine/pd_coordinator.py:90-206 | Every report, loss, coordinator pass and poll keeps per-instance timestamps ordered all along the way from the engines to the client's views. |
| LoadProtocol.ViewsAreSound | dynamicPD/vllm/vllm/v1/engine/pd_coordinator.py:34-206 | Over every run with losses: each load in each view was reported and was within the limit when the view was made, an instance's timestamp never goes back from one view to any later one, publications keep the minimum interval. |
| LoadProtocol.FreshAfterPollExactly | dynamicPD/vllm/vllm/v1/engine/pd_coordinator.py:127-130 | After a poll the view is free of stale loads exactly when a message had arrived, the view was empty, or its earliest timestamp is within the limit. |
| LoadProtocol.StaleViewReached | dynamicPD/vllm/vllm/v1/engine/pd_coordinator.py:127-130 | A run of four steps after which the view holds a stale load. |
| Heapq.PushKeepsHeap | examples/load_balance_proxy_server_example.py:196-197 | A push keeps heap order. |
| Heapq.PopKeepsHeap | examples/load_balance_proxy_server_example.py:238 | A pop keeps heap order. |
| Heapq.RootIsLeast | examples/load_balance_proxy_server_example.py:238 | The root of a heap is least by priority and server. |
| ProxyState.ProxyState.constructor | examples/load_balance_proxy_server_example.py:143-162 | All servers idle and both heaps in server order, which is heap order. |
| ProxyState.ProxyState.UpdatePrefillerPriority | examples/load_balance_proxy_server_example.py:188-197 | The server's entry is dropped and pushed with tokens plus 0.3 times cache. |
| ProxyState.ProxyState.UpdateDecoderPriority | examples/load_balance_proxy_server_example.py:199-207 | The server's entry is dropped and pushed with its tokens. |
| ProxyState.ProxyState.SelectPrefiller | examples/load_balance_proxy_server_example.py:233-247 | None without servers; otherwise the root is chosen, its two loads grow, its entry is renewed; both heaps still mirror the loads. |
| ProxyState.ProxyState.ReleasePrefiller | examples/load_balance_proxy_server_example.py:249-253 | The server's tokens shrink and its entry is renewed. |
| ProxyState.ProxyState.ReleasePrefillerKv | examples/load_balance_proxy_server_example.py:255-260 | The server's cache shrinks if positive; its entry is renewed either way. |
| ProxyState.ProxyState.SelectDecoder | examples/load_balance_proxy_server_example.py:262-275 | None without servers; otherwise the root is chosen, its tokens grow, its entry is renewed. |
| ProxyState.ProxyState.ReleaseDecoder | examples/load_balance_proxy_server_example.py:277-281 | The server's tokens shrink and its entry is renewed. |
| ProxyPool.RootDecidesSelection | examples/load_balance_proxy_server_example.py:238 | A select takes the first of the least-loaded servers exactly when no entry is below the root. |
| ProxyPool.SelectsStayBalanced | examples/load_balance_proxy_server_example.py:262-275 | In runs of selects alone the heap stays in order and mirrors the loads, the next select takes a least-loaded server, and decoder loads never differ by more than the largest token count seen. |
| ProxyReleases.RunKeepsMirror | examples/load_balance_proxy_server_example.py:188-281 | After any run of selects and releases each heap holds exactly one entry per server, with its present priority. |
| ProxyReleases.ReleaseKeepsRootLeast | examples/load_balance_proxy_server_example.py:249-281 | Although it can break heap order, a release never moves the least entry away from the root. |
| ProxyReleases.FewServersSelectLeast | examples/load_balance_proxy_server_example.py:188-281 | With at most four servers every select in every run takes a least-loaded one. |
| ProxyRuns.FewServersSelectLeastLoaded | examples/load_balance_proxy_server_example.py:188-281 | From idle servers, with releases that give back earlier selects: with at most four servers every select takes a least-loaded one. |
| ProxyRuns.LoadsAreOwed | examples/load_balance_proxy_server_example.py:233-281 | After every run from idle servers each server's tokens, and a prefiller's cache, are the total of the scores selected onto it and not yet given back. |
| ProxyMisselection.NineTurns | examples/load_balance_proxy_server_example.py:262-275 | After the large selects, nine small ones leave the three light servers, in order, at the root and next to it on the path of the last heap position, for every number of servers. |
| ProxyMisselection.MisselectedByTwoScores | examples/load_balance_proxy_server_example.py:188-281 | For every five servers or more, either side and any two scores of which one is over three times the other, there is such a run, using these two scores only, after which the next select takes a server that is not least-loaded. |
| ProxyMisselection.LeastLoadedUpToFour | examples/load_balance_proxy_server_example.py:188-281 | Over all runs from idle servers with matching releases, selection is always least-loaded exactly for pools of at most four servers. |

## Left out

- LeastSquares.FitLeastSquares: keeps the mean squared error instead of its square root, because square roots are not in the reals of the model; floating-point rounding is not modelled anywhere.
- OffloadProtocol.StepKeepsInv: treats one schedule call as one step; the batch queue is first in, first out, and executions and updates are not interleaved within a step.
- OutputMerge.MergeOutputs: does not carry pooler outputs, NaN counts, graph statistics, or KV and encoder notifications; notifications of outputs without request ids are dropped by the code and nothing is claimed about them.
- ModelRunner.Runner.SampleTokens: hands back the parts that the merged or asynchronous output object is made from, not that object; streams, events, buffers and graph modes are not modelled, and of the two fences before a decode step only the readiness questions are.
- OffloadScheduler.Scheduler.Schedule: the base scheduler's result is a parameter, and its exceptions, which still restore the held requests, are not modelled.
- HoldRestore.RestoreAfterAppend: requests stand for their ids; two request objects with one id are not told apart.
- ProxyState.ProxyState.SelectPrefiller: a server record is a value in the list of servers; the reference that a heap entry also holds is never read by the code and is left out, as is heapify, which is applied to a list already in heap order.
- ProxyState.ProxyState.ReleasePrefiller: server numbers out of range raise an error in the code and are excluded.
- Collectives.TpBranchIsAllReduce: with sequence parallelism switched off, or without a forward context, the code all-reduces directly; the bypass mode is not modelled.
- LoadView.PDLoadView.Update: the dictionary is the list of its values in insertion order; a NaN cache usage is not modelled.
- `fit_concurrency_model` and `percentile`: the first is one more call of the least-squares fit.
- Copy-stream rotation of lane contexts, lane construction and buffer cloning.
- The proxy's request lifecycle, retries and HTTP streaming; abort sets; timestamps and logs.
- Elastic expert parallelism, MoE method selection, model patches and the patching machinery.
- Process start-up, sockets and message encoding of the load coordinator.
