# Wardx: verified models

Wardx is a metrics and remote-configuration system. Clients count, observe and record events, cut them into
frames and sync them to a server, which aggregates them per minute, keeps an evidence ledger for experiments,
decides experiments, and publishes configurations through a journal of mutations. This project models the
parts of it whose correctness is not visible in any single function, and proves what each promises.

- `Delivery`, `FlushProtocol`, `FlushSafety`, `FlushPromise`, `FlushOutcome`, `FlushLiveness`: the Node client
  from `event()` to the acknowledgement. The protocol is a transition system with one step per stretch of code
  between two awaits; the network, the timers, the scheduler and a tracer that throws choose the step and its
  outcome. The main theorems are the promise of `flush()`, exactly when it answers ok, and that every `flush()`
  resolves on every fair run. An event counts as acknowledged when its post came back with a successful HTTP
  status and the response was taken without an error; the client does not ask whether the body says that it was
  accepted.
- `FrameSplitter`, `EnvelopePacking`: splitting a logical frame into physical frames by an incremental byte
  account, and packing frames into envelopes.
- `ControlChange`, `ControlReplay`, `ControlPaths`, `ControlDifference`, `MutationJournal`: the structural diff of
  control states, its application, and the bounded journal with rollback of any retained entry.
- `ExperimentLedger`, `EvidenceHistory`, `LedgerAnswers`, `EvidenceDecision`, `EvidenceMoments`: the evidence ledger
  with its batch pre-check, totals, expiry and terminal decision, what its answers and totals say of the history, and
  the evidence that the decision is taken on.
- `HolmCorrection`, `Intervals`: the multiple-comparison correction and the confidence intervals of rates, in
  exact arithmetic.
- `StableSort`, `RankOutcomes`: the bounded heap behind the ranking queries.
- `MetricWindows`, `WindowMerge`, `MinuteWindow`, `HashRank`: client windows, their merge on the server, and
  the HyperLogLog rank in two implementations.
- `JsonText`, `JsonParser`, `JsonGrammar`: the hand-written JSON printer and parser of the C# client, and the grammar
  that the parser accepts.
- `RetainedMetrics`, `RetainedDelivery`: the Swift client's counters and distincts that survive restarts.
- `AssignmentState`, `ExperimentResolver`, `SwiftResolver`, `ExposureReports`, `GoalAmbiguity`, `VariantBuckets`:
  experiment assignment and its reports on two clients, goal attribution, and the weighted split of hashes.
- `Wrappers`, `Sequences` (in `Prelude.dfy`) and `RealArithmetic` hold shared vocabulary.

Objects whose methods update fields are classes here; their methods are proved against functions of the old
state, and the theorems about runs are lemmas about those functions.

Three findings. Counters may be given negative amounts, and then the retained counters can break their
promise: every negative amount does in the run of `RetainedDelivery.NegativeAmountsBreakThePromise`, and runs
without one, in which no row is dropped, never do, by `NothingSavedIsForgotten`. Rolling back an older change
overwrites later changes to related paths: `MutationJournal.RelatedRollbackOverwrites` is a run,
`RollbackApplies` and `RollbackWrites` say what a rollback does in every case, and `RollbackExact` when it gives
what the later changes alone would have given; for a mutation under unrelated changes it always does
(`RollbackRestores`), for a rollback exactly when `RollbackUnderUnrelated` says so. The clipping of the Wilson
interval to [0, 1] never has an effect in exact arithmetic, so it only guards against rounding.

`dafny verify dfyconfig.toml` checks the whole project.

## Model

| member | source | states |
|---|---|---|
| `FlushPromise.FlushVouches` | packages/node/src/WardxNode.js:110-126 | over every interleaving of events, ticks, snapshots, posts and overlapping flushes: when a flush() made before shutdown() has resolved with ok, every event recorded between the previous flush() call and this one was acknowledged |
| `FlushPromise.LateFlushVouches` | packages/node/src/WardxNode.js:110-140 | when a flush() made after shutdown() has resolved with ok, every event recorded between the previous flush() call and the shutdown() call was acknowledged |
| `FlushPromise.LateWindowOf` | packages/node/src/WardxNode.js:110-140 | a call after shutdown() vouches for the events between the previous flush() call and the shutdown() call, for as long as the run goes on |
| `FlushOutcome.FlushAnswers` | packages/node/src/WardxNode.js:110-140 | a flush() call has an outcome exactly once it has resolved; the outcome says that the sync it waits for, its own or that of an earlier shutdown(), was delivered and that the losses are those of the previous flush() call, whatever was lost before |
| `FlushOutcome.LossesStand` | packages/core/src/WardxCore.js:96-391 | the loss counter never falls, and it stands still exactly while no event meets a full buffer, no snapshot or split fails or drops an event, no frame exceeds the limit and no post or hook fails on unsent frames |
| `FlushOutcome.FlushSucceedsExactly` | packages/node/src/WardxNode.js:110-140 | flush() answers ok exactly when no step since the previous flush() call counted a loss and every envelope of its sync was taken with the clock aligned |
| `FlushOutcome.FlushSucceeds` | packages/node/src/WardxNode.js:193-200 | when nothing is dropped and nothing fails from the previous flush() call on, flush() answers ok; failures before that call do not count, and a clock that has to be aligned first costs a second pass only |
| `FlushLiveness.FlushResolves` | packages/node/src/WardxNode.js:110-249 | no flush() hangs: from every reachable state steps that only finish work already begun, without another call, tick or event, lead to a state in which it has its outcome |
| `FlushLiveness.FairRunResolves` | packages/node/src/WardxNode.js:110-249 | on every endless run in which the work a flush() waits for is never left undone for ever, whatever else is called, recorded or fails, that flush() gets its outcome |
| `FlushLiveness.ServingLowers` | packages/node/src/WardxNode.js:151-249 | every outcome of the post or snapshot a flush() waits for, success included, and every step its sync waits for lowers what is left before it can resolve |
| `FlushLiveness.FlushAdvances` | packages/node/src/WardxNode.js:151-249 | in every reachable state with an unresolved flush() such a step is enabled |
| `FlushLiveness.RankNeverGrows` | packages/node/src/WardxNode.js:151-249 | no step at all, calls, ticks, failures and new events included, puts a flush() further from its outcome |
| `FlushPromise.EventConservation` | packages/core/src/WardxCore.js:96-103 | in every reachable state each recorded event is in exactly one of buffered, being split, pending, in flight, acknowledged, lost; every loss moved the counter that flush() compares |
| `FlushPromise.FrameConservation` | packages/core/src/WardxCore.js:282-316 | in every reachable state each accepted frame 1..seq is exactly one of acknowledged, pending, in flight and counted as lost, and these are all; pending ones are the newest and within the limit, nothing is posted twice, and the out-of-sequence error does not occur |
| `FlushPromise.InvStep` | packages/node/src/WardxNode.js:151-234 | every step of the protocol keeps the whole invariant: ledgers, queue order, coverage of the running sync, soundness of every promise |
| `FlushPromise.RunInv` | packages/node/src/WardxNode.js:151-278 | the invariant holds in every state of every run |
| `FlushPromise.WindowOf` | packages/node/src/WardxNode.js:110-126 | the events a flush() call vouches for are exactly those between the previous call and itself, for as long as the run goes on |
| `FlushSafety.EventsStep` | packages/node/src/WardxNode.js:183-278 | every step keeps each event in one place, in order, with no uncounted loss |
| `FlushSafety.FramesStep` | packages/core/src/WardxCore.js:282-316 | every step keeps the accounts of frame numbers |
| `FlushSafety.PostedStep` | packages/node/src/WardxNode.js:202-234 | no step puts a frame number on the wire a second time |
| `FlushSafety.FinishLedger` | packages/core/src/WardxCore.js:282-295 | what a finished split loses: the events that fit no frame and those of the oldest frames that overflow, all counted |
| `Delivery.WardxCore.RecordEvent` | packages/core/src/WardxCore.js:96-103 | a full buffer drops the event and counts a loss, otherwise it is appended |
| `Delivery.WardxCore.CaptureFrame` | packages/core/src/WardxCore.js:259-280 | the captured frame takes the whole buffer and the next sequence number |
| `Delivery.WardxCore.Accept` | packages/core/src/WardxCore.js:282-298 | a batch in sequence is appended and exactly as many of the oldest frames go as exceed the limit, each counted; a batch out of sequence changes nothing |
| `Delivery.WardxCore.TakePendingFrames` | packages/core/src/WardxCore.js:345-349 | hands over all pending frames and leaves none |
| `Delivery.WardxCore.RecordResult` | packages/core/src/WardxCore.js:376-386 | a failed post counts its unsent frames as losses, an accepted one none |
| `Delivery.WardxCore.RecordError` | packages/core/src/WardxCore.js:388-391 | an internal error counts one loss |
| `FrameSplitter.SplitToMaxBytes` | packages/core/src/frame/FrameBuilder.js:97-195 | fails only for limits below 1024 bytes or 1 row; otherwise every frame is within both limits, numbered in order and printed as its JSON, no frame is closed while it has room for the next row, the rows of each kind keep their order, and only rows too long for any frame are dropped and counted; neither internal error can happen for numbers of at most 25 characters |
| `FrameSplitter.Splitter.AddRow` | packages/core/src/frame/FrameBuilder.js:151-161 | a row is appended to its kind in the current frame, or in a new one when there is no room, and is refused only if it is too long for a frame of its own |
| `FrameSplitter.Splitter.TryAddRow` | packages/core/src/frame/FrameBuilder.js:137-149 | adds exactly when the printed frame would stay within the byte limit and the row count within the row limit |
| `FrameSplitter.Splitter.FinishCurrent` | packages/core/src/frame/FrameBuilder.js:125-135 | the finished frame is within the limits, numbered next, and printed as its JSON; it is never oversized |
| `FrameSplitter.Splitter.AddRows` | packages/core/src/frame/FrameBuilder.js:163-173 | the rows of a kind are kept in order, kept plus dropped is the input, other kinds are untouched |
| `FrameSplitter.AddKinds` | packages/core/src/frame/FrameBuilder.js:163-173 | the kinds are split one after the other without disturbing each other |
| `FrameSplitter.Close` | packages/core/src/frame/FrameBuilder.js:175-182 | the drop metric always fits, and every row ends up in a finished frame |
| `FrameSplitter.PushLength` | packages/core/src/frame/FrameBuilder.js:137-149 | the incremental byte account is the true change of the serialized size |
| `FrameSplitter.DropRowFits` | packages/core/src/frame/FrameBuilder.js:175-181 | the drop metric fits an empty frame |
| `FrameSplitter.SplitDelivers` | packages/core/src/frame/FrameBuilder.js:97-195 | every split is one that the delivery model accepts: consecutive numbers, the kept events in order, the dropped ones counted |
| `EnvelopePacking.GzipEnvelope` | packages/node/src/compression/gzip.js:5-34 | before compression the text is the JSON of the envelope with its frames, and the byte count is its length |
| `EnvelopePacking.PredictedBytes` | packages/core/src/WardxCore.js:328-343 | the size predicted while packing is the size of the text that is sent |
| `EnvelopePacking.EnvelopeEnd` | packages/core/src/WardxCore.js:328-343 | takes at least one frame, stays within both limits unless it takes a single frame, and leaves none that would still fit |
| `EnvelopePacking.SendPending` | packages/node/src/WardxNode.js:225-233 | posts runs of frames one after the other, each within the limits and full; a failed post ends the loop and counts its frames and all later ones as lost |
| `EnvelopePacking.SentOnceInOrder` | packages/node/src/WardxNode.js:225-233 | a successful send posts every pending frame exactly once, in order |
| `EnvelopePacking.FewestEnvelopes` | packages/core/src/WardxCore.js:328-343 | with unchanging metadata no other packing has fewer envelopes |
| `ControlChange.DiffControlState` | packages/server/src/control/ControlStateChange.js:44-70 | computes the structural difference that DiffIsStructural describes, refusing equal states and unsafe paths |
| `ControlChange.CollectInto` | packages/server/src/control/ControlStateChange.js:44-60 | pushes the operations of that difference, one for each path at which the values part, in order of the paths |
| `ControlChange.ApplyControlStateChange` | packages/server/src/control/ControlStateChange.js:72-92 | applies the operations in order, with the same error at the same operation |
| `ControlDifference.DiffIsStructural` | packages/server/src/control/ControlStateChange.js:44-60 | a diff has an operation at exactly those paths at which the two states part: both hold objects all the way above it, and there different values that are not both objects; the paths are in sorted order, and each operation writes what the second state holds |
| `ControlDifference.DiffExists` | packages/server/src/control/ControlStateChange.js:62-70 | two states have a diff exactly when they are different objects that part on safe paths only |
| `ControlDifference.UnrelatedExactly` | packages/server/src/control/ControlStateChange.js:44-60 | two changes have no related paths exactly when there is no member that both of them replace, add or remove, alone or with one it is in |
| `ControlReplay.DiffRoundTrip` | packages/server/src/control/ControlStateChange.js:62-92 | applying the difference of two states to the first gives the second; differencing fails only for equal states when keys are safe |
| `ControlReplay.DiffApplies` | packages/server/src/control/ControlStateChange.js:44-92 | applying the collected operations turns the left state into the right one |
| `ControlReplay.SamePaths` | packages/server/src/control/ControlStateChange.js:44-60 | forward and inverse differences touch the same paths in the same order |
| `ControlReplay.Commute` | packages/server/src/control/ControlStateChange.js:72-92 | changes on pairwise prefix-incomparable paths can be applied in either order, errors included |
| `ControlReplay.UndoUnderLater` | packages/server/src/control/MutationJournal.js:256-294 | undoing a change under later unrelated ones gives what the later ones make of the state before it |
| `MutationJournal.JournalReplays` | packages/server/src/control/MutationJournal.js:98-102 | in every reachable journal: exactly the newest capacity entries are retained, all of them while there are fewer, with distinct ids and consecutive versions, and from each retained entry on, replaying the changes from the state the run had at its previous version gives the current state |
| `MutationJournal.LatestAreRetained` | packages/server/src/control/MutationJournal.js:98-102 | every change of the last capacity versions is still found by its id, with its operations both ways |
| `MutationJournal.MutateExactly` | packages/server/src/control/ControlService.js:730-766 | a mutation succeeds exactly when the version is current, the state valid, within the reserve and different on safe paths, its operations have no prohibited field and the id is new; then the state is the one asked for |
| `MutationJournal.MutationStates` | packages/server/src/control/ControlService.js:751-766 | a retained mutation is the difference of the states the run had just before and just after it |
| `MutationJournal.StateAtIsReached` | packages/server/src/control/MutationJournal.js:217-294 | whenever the journal had a version it had one and the same state, the one the other theorems name for it |
| `MutationJournal.RollbackRestores` | packages/server/src/control/MutationJournal.js:256-294 | rolling back any retained mutation after unrelated later changes gives exactly what those make of the state the run had before it; the newest one gives that state itself; the only failures are the validators and the id |
| `MutationJournal.UnrelatedMutations` | packages/server/src/control/MutationJournal.js:256-294 | two retained mutations are unrelated exactly when no member was touched by both |
| `MutationJournal.RollbackOfUntouched` | packages/server/src/control/MutationJournal.js:256-294 | rolling back a mutation takes back that mutation and nothing else while no later mutation has touched a member that it touched |
| `MutationJournal.RollbackApplies` | packages/server/src/control/MutationJournal.js:256-294 | whatever was changed since, rolling back a retained entry applies exactly when each of its paths still ends below an object; then only the validators and the id can refuse it |
| `MutationJournal.RollbackWrites` | packages/server/src/control/MutationJournal.js:256-294 | whatever was changed since, a successful rollback leaves at each path of the entry what its inverse writes, for a mutation the value before it, and every path beside them as it is |
| `MutationJournal.RollbackExact` | packages/server/src/control/MutationJournal.js:256-294 | a successful rollback of an entry gives what the later changes make of the state before it exactly when they apply to that state and leave along each path of the entry what its inverse writes; for a mutation that is what the state before it held there |
| `MutationJournal.RollbackUnderUnrelated` | packages/server/src/control/MutationJournal.js:256-294 | rolling back any entry, a rollback included, after unrelated changes always applies, and is exact if and only if the state before the entry held what the inverse writes |
| `MutationJournal.RelatedRollbackOverwrites` | packages/server/src/control/MutationJournal.js:256-294 | a run of two mutations of one member and a rollback of the first, after which the second is lost too |
| `MutationJournal.StaleRequest` | packages/server/src/control/MutationJournal.js:217-264 | a stale rollback is refused with the current version; a stale mutation is refused, with the current version when nothing else stands in its way |
| `ControlPaths.AppliesExactly` | packages/server/src/control/ControlStateChange.js:72-92 | operations on safe paths that lie apart apply exactly when each path ends below an object; the only error is the unresolved path |
| `ControlPaths.WrittenAfter` | packages/server/src/control/ControlStateChange.js:72-92 | after such operations each path holds what its operation wrote |
| `ControlPaths.AfterAll` | packages/server/src/control/ControlStateChange.js:72-92 | such operations change nothing along paths beside theirs |
| `ControlPaths.CollectApart` | packages/server/src/control/ControlStateChange.js:44-60 | no path of a difference leads through another |
| `ControlPaths.UndoMeets` | packages/server/src/control/ControlStateChange.js:72-92 | for two states that differ only at and below some paths, operations on these paths turn the one into the other exactly when they apply and write what the other holds there |
| `MutationJournal.Journal.CommitChange` | packages/server/src/control/MutationJournal.js:217-254 | commits the new snapshot or leaves the stored one as it was |
| `MutationJournal.Journal.RollbackChange` | packages/server/src/control/MutationJournal.js:256-294 | applies the inverse of a retained entry as a new entry or leaves the store as it was |
| `MutationJournal.Journal.MutateState` | packages/server/src/control/ControlService.js:730-766 | records forward and inverse differences of a validated state, or leaves the store as it was |
| `ExperimentLedger.EvidenceLedger.CheckBatch` | packages/server/src/storage/ExperimentLedger.js:162-222 | the pre-check is an exact dry run of ingesting the events one after the other: same first rejected event and status, else the exact number of new assignments; what these statuses mean is said by StatusMeansHistory |
| `ExperimentLedger.EvidenceLedger.IngestEvent` | packages/server/src/storage/ExperimentLedger.js:224-303 | the new assignment and totals rows, and the status, which StatusMeansHistory gives a meaning of its own |
| `ExperimentLedger.EvidenceLedger.IngestBatch` | packages/server/src/storage/ExperimentLedger.js:130-160 | an oversized or invalid batch and one over the row limit change nothing, a rejected batch changes no assignment row, any other is ingested without a rejection |
| `ExperimentLedger.EvidenceLedger.PruneExpired` | packages/server/src/storage/ExperimentLedger.js:356-361 | deletes the expired rows and nothing else |
| `ExperimentLedger.EvidenceLedger.ScheduleExpiry` | packages/server/src/storage/ExperimentLedger.js:338-348 | puts an expiry on the rows of the experiment and nothing else |
| `ExperimentLedger.EvidenceLedger.ClearExpiry` | packages/server/src/storage/ExperimentLedger.js:350-354 | takes the expiry off the rows of the experiment and nothing else |
| `ExperimentLedger.EvidenceLedger.PersistTerminalDecision` | packages/server/src/storage/ExperimentLedger.js:370-385 | the first valid decision is stored, every later call is answered with it |
| `EvidenceHistory.TotalsMeanHistory` | packages/server/src/storage/ExperimentLedger.js:122-128 | in every reachable ledger, after any expiry and pruning, each totals row counts and sums exactly the rows ever accepted under its key, and goals never exceed exposures |
| `LedgerAnswers.StatusMeansHistory` | packages/server/src/storage/ExperimentLedger.js:224-303 | in every reachable ledger an event is answered by what happened, and in no other way: late_row when the experiment was decided or the assignment is expiring; otherwise against the one exposure accepted for the assignment and not pruned since: variant_conflict for another variant, accepted_exposure when there is none, missing_exposure for a goal without one from the same source, accepted_goal for the first goal, duplicate_goal or conflicting_goal by the value of the first |
| `LedgerAnswers.RepliesMeanHistory` | packages/server/src/storage/ExperimentLedger.js:130-222 | every batch of a run is answered so, event by event up to the first rejection; the capacity error comes exactly when the assignments that stand and the new ones exceed the limit |
| `LedgerAnswers.CountersMeanAnswers` | packages/server/src/storage/ExperimentLedger.js:224-303 | exposures, goals, duplicates, conflicting goals and late rows count the events that were ever answered so under their variant and source |
| `LedgerAnswers.RejectTotals` | packages/server/src/storage/ExperimentLedger.js:144-157 | a rejected batch counts the rejection once, where it happened, and each of its events when its source is not trusted |
| `EvidenceHistory.RowsBounded` | packages/server/src/storage/ExperimentLedger.js:130-160 | the ledger never holds more rows than its limit |
| `EvidenceHistory.DecisionIsFinal` | packages/server/src/storage/ExperimentLedger.js:363-385 | the first terminal decision stays for ever and freezes the evidence it was taken on |
| `EvidenceDecision.AggregateEvidence` | packages/server/src/control/ControlService.js:56-75 | the aggregate of each variant is the sum of its totals rows, trusted ones only where asked |
| `EvidenceDecision.InvalidBranchesUnreachable` | packages/server/src/control/experimentDecision.js:448-470 | for the evidence of any reachable ledger the two branches that call statistics impossible or inconsistent are never taken |
| `EvidenceDecision.CauchySchwarz` | packages/server/src/control/experimentDecision.js:194-200 | the squared sum of goal values is at most their number times the sum of their squares |
| `EvidenceDecision.VarianceExists` | packages/server/src/control/experimentDecision.js:194-200 | consistent evidence with two goals has a non-negative sample variance |
| `EvidenceMoments.EvidenceMeansHistory` | packages/server/src/control/ControlService.js:56-75 | in every reachable ledger the evidence of a variant counts the exposures and counts and sums the goals that were ever accepted for it from the sources that count, whichever rows have expired since, and its variance is the mean squared distance of those goals from their mean |
| `EvidenceMoments.VarianceOfValues` | packages/server/src/control/experimentDecision.js:194-200 | the variance computed from count, sum and sum of squares is that of the values |
| `HolmCorrection.HolmAdjust` | packages/server/src/control/experimentDecision.js:277-293 | in ascending order of p-value each comparison is significant exactly when it and all smaller ones pass their own threshold, and its adjusted p-value is the smallest level at which it would be, or 1 |
| `HolmCorrection.ClosureOfBonferroni` | packages/server/src/control/experimentDecision.js:277-293 | a comparison passes the step-down test exactly when Bonferroni rejects every family of comparisons that contains it |
| `HolmCorrection.InputOrderIrrelevant` | packages/server/src/control/experimentDecision.js:277-293 | comparisons with distinct keys are corrected alike in whatever order they come |
| `Intervals.WilsonContainsRate` | packages/server/src/control/experimentDecision.js:202-211 | the Wilson interval contains the observed rate and lies in [0, 1]; the clipping never moves a bound |
| `Intervals.WilsonInvertsScoreTest` | packages/server/src/control/experimentDecision.js:202-211 | a rate is in the interval exactly when the score test at the same critical value does not reject it |
| `Intervals.NewcombeContainsEffect` | packages/server/src/control/experimentDecision.js:213-226 | the Newcombe interval contains the observed difference and lies in [-1, 1] |
| `Intervals.NewcombeMirrors` | packages/server/src/control/experimentDecision.js:213-226 | swapping the samples mirrors the interval around zero |
| `Intervals.NewcombeBoundsEllipse` | packages/server/src/control/experimentDecision.js:213-226 | the Newcombe interval bounds the differences of all rates within the ellipse whose half-widths are those of the two Wilson intervals |
| `Intervals.NewcombeReachesEllipse` | packages/server/src/control/experimentDecision.js:213-226 | and such rates reach both bounds |
| `RankOutcomes.RankOutcomes` | packages/server/src/aggregation/FrameAggregator.js:303-337 | for every limit and every comparator that is a total preorder, the bounded heap returns the first rows of the stable sort |
| `RankOutcomes.FirstEntries` | packages/server/src/aggregation/FrameAggregator.js:309-336 | after all rows the heap holds exactly the first entries of the order |
| `RankOutcomes.OutcomeOrdersRank` | packages/server/src/aggregation/FrameAggregator.js:296-301 | each outcome order is a total preorder |
| `RankOutcomes.LargestFirst` | packages/server/src/aggregation/FrameAggregator.js:296-301 | an overview lists the largest first: counters by value, events by count, histograms by maximum and then count, logs by count and then name |
| `StableSort.SortSplits` | packages/server/src/aggregation/FrameAggregator.js:303-337 | sorting what comes before and what comes after separately is sorting all |
| `MetricWindows.SummarizeConcat` | packages/server/src/aggregation/FrameAggregator.js:140-168 | merging the windows of two streams gives the window of both, for counters, histograms and distincts |
| `MetricWindows.SummarizePermutes` | packages/server/src/aggregation/FrameAggregator.js:474-529 | a window does not depend on the order of its observations |
| `MetricWindows.BucketsCountRanges` | packages/core/src/metrics/Histogram.js:18-38 | each bucket counts the samples above the previous bound and at most its own |
| `MetricWindows.ExtremesAreSamples` | packages/core/src/metrics/Histogram.js:18-31 | minimum and maximum are samples that bound all samples |
| `MetricWindows.RegistersAreMaxima` | packages/core/src/metrics/HyperLogLog.js:79-88 | a register is the largest rank that was hashed to it |
| `MetricWindows.SummarizeSums` | packages/core/src/metrics/Histogram.js:18-38 | a counter is the sum of the amounts, the sum of a histogram that of the samples |
| `MetricWindows.ReportsExactly` | packages/server/src/aggregation/FrameAggregator.js:140-168 | a window holds exactly what its observations amount to: the sum of the amounts; the number, sum, extremes and bucket counts of the samples; the largest rank per register |
| `WindowMerge.ClientHistogram.Observe` | packages/core/src/metrics/Histogram.js:18-38 | a sample turns the body of the window into that of the window with one more sample, the body that ReportsExactly describes |
| `WindowMerge.ClientDistinct.Add` | packages/core/src/metrics/HyperLogLog.js:79-88 | an identifier turns the registers of the window into those of the window with one more identifier |
| `WindowMerge.MergeHistogram` | packages/server/src/aggregation/FrameAggregator.js:140-168 | for equal bounds the map of bounds and its sort give the bucket-wise sums, and count, sum and extremes are merged |
| `WindowMerge.MergeHllBodies` | packages/server/src/aggregation/HyperLogLog.js:33-40 | the register-wise maximum |
| `MinuteWindow.MetricsRegistry.Record` | packages/core/src/metrics/MetricsRegistry.js:61-94 | an observation joins the window exactly when its series is known, or is new and its metric is not full, and was not rejected before; a rejected series stays rejected |
| `MinuteWindow.MetricsRegistry.SnapshotAndReset` | packages/core/src/metrics/MetricsRegistry.js:139-177 | the frame says of every series exactly what happened in the window, and the window is empty again |
| `MinuteWindow.ServerWindow.AdmitSeries` | packages/server/src/aggregation/FrameAggregator.js:288-294 | a new series is admitted while its metric is below the cap, and the counts per metric stay those of the rows |
| `MinuteWindow.ServerWindow.IngestFrame` | packages/server/src/aggregation/FrameAggregator.js:474-529 | the admitted rows are merged into what each series read before and no other row changes; each other row is counted and met a full metric; none is dropped exactly when there is room for all |
| `MinuteWindow.Client` | packages/core/src/metrics/MetricsRegistry.js:61-177 | each frame says exactly what was recorded in its window, and the client refuses nothing exactly when no metric has more series asked for or observed than its cap |
| `MinuteWindow.Serve` | packages/server/src/aggregation/FrameAggregator.js:440-529 | without a drop the minute reads as the frames' windows in one, and nothing is dropped exactly when no metric has more series in the frames than the cap |
| `MinuteWindow.Minute` | packages/server/src/aggregation/FrameAggregator.js:440-529 | any split of a stream into windows, any arrival order of their frames: when nothing is dropped, every series of the minute reports the observations of the whole stream, counters their sum, histograms number, sum, extremes and buckets, distincts the largest rank per register, as a single unsplit series would; nothing is dropped exactly when the client has room for every series asked for or observed and the server for every series sent |
| `HashRank.HalvesAgree` | packages/core/src/metrics/HyperLogLog.js:17-21 | the rank from two 32-bit halves is one more than the zeros that the 55 bits behind the index start with, before a one bit unless there is none |
| `HashRank.RankBitByBit` | clients/swift/Sources/Wardx/Metrics.swift:198-205 | the bit-by-bit loop computes the same rank |
| `JsonText.RoundTrip` | clients/csharp/Runtime/Core/Json.cs:23-31 | parsing the printed text of any tree of null, booleans, integers up to 2^53, strings, arrays and distinct-key objects gives it back and consumes the whole text |
| `JsonText.ValueReads` | clients/csharp/Runtime/Core/Json.cs:226-239 | wherever a printed value stands before a comma, a closing sign or the end, it is read back and the cursor stops behind it |
| `JsonText.StringReads` | clients/csharp/Runtime/Core/Json.cs:283-321 | an escaped string of any UTF-16 code units is read back |
| `JsonText.NumberReads` | clients/csharp/Runtime/Core/Json.cs:323-353 | a printed integer is read back exactly |
| `JsonText.PrintIsInjective` | clients/csharp/Runtime/Core/Json.cs:11-16 | different values print differently |
| `JsonGrammar.ParsesExactly` | clients/csharp/Runtime/Core/Json.cs:23-368 | the parser accepts exactly the texts of the grammar of RFC 8259, with control characters in strings and a sign or prefix in an escaped code besides, each with the value that the grammar gives it |
| `JsonGrammar.ValueRead` | clients/csharp/Runtime/Core/Json.cs:226-239 | a value of the grammar before a space, a comma, a closing sign or the end is read with its value, and the cursor stops behind it |
| `JsonGrammar.ValueFound` | clients/csharp/Runtime/Core/Json.cs:226-239 | whatever the parser reads as a value, behind spaces, is one of the grammar |
| `JsonGrammar.CodeRead` | clients/csharp/Runtime/Core/Json.cs:283-321 | an escaped code is read as the number of its hexadecimal digits behind an optional plus sign and 0x |
| `JsonGrammar.DictionaryMeans` | clients/csharp/Runtime/Core/Json.cs:241-263 | an object has each key once, with the value written last |
| `JsonParser.Parser.ParseValue` | clients/csharp/Runtime/Core/Json.cs:226-239 | the cursor parser terminates and agrees with the grammar functions on every text, errors included |
| `JsonParser.Parser.ParseString` | clients/csharp/Runtime/Core/Json.cs:283-321 | agrees with the grammar of strings and escapes, the sign and prefix that the hex conversion also takes included |
| `JsonParser.Parser.ParseNumber` | clients/csharp/Runtime/Core/Json.cs:323-353 | agrees with the grammar of numbers |
| `JsonParser.Parser.ParseArray` | clients/csharp/Runtime/Core/Json.cs:265-281 | agrees with the grammar of arrays |
| `JsonParser.Parser.ParseObject` | clients/csharp/Runtime/Core/Json.cs:241-263 | agrees with the grammar of objects; a repeated key keeps its place and takes the last value |
| `JsonParser.Printer.Write` | clients/csharp/Runtime/Core/Json.cs:33-71 | appends exactly the text of the value |
| `JsonParser.Printer.WriteString` | clients/csharp/Runtime/Core/Json.cs:126-152 | appends the quoted and escaped string |
| `JsonParser.PrintThenParse` | clients/csharp/Runtime/Core/Json.cs:11-31 | printing and then parsing returns the value |
| `RetainedDelivery.Execute` | clients/swift/Sources/Wardx/RetainedMetrics.swift:44-125 | the object, run through any possible list of actions, crashes included, ends in the state of the model's run |
| `RetainedDelivery.Perform` | clients/swift/Sources/Wardx/RetainedMetrics.swift:44-125 | every operation of the object does what the step of the model does: recording, admission under the cap, saving, beginning, committing, aborting and restarting |
| `RetainedDelivery.NothingSavedIsForgotten` | clients/swift/Sources/Wardx/RetainedMetrics.swift:64-125 | in every run of recordings, writes that may fail, flights, lost acknowledgements and crashes, acknowledged and on disk together cover what was last saved |
| `RetainedDelivery.StepBalances` | clients/swift/Sources/Wardx/RetainedMetrics.swift:55-125 | every action keeps, for every series, what was settled and what is held equal to what was recorded plus what counts twice, in memory and in the file |
| `RetainedDelivery.RunFits` | clients/swift/Sources/Wardx/RetainedMetrics.swift:44-53 | in every run all series, and those of the file, stay within the cap, so a restore drops none |
| `RetainedDelivery.SavedIsAccountedFor` | clients/swift/Sources/Wardx/RetainedMetrics.swift:64-125 | acknowledged, lost and on disk add up to saved plus what the file holds although it was settled, in every run |
| `RetainedDelivery.SavedIsAckedOrInFile` | clients/swift/Sources/Wardx/RetainedMetrics.swift:64-125 | without lost rows distincts are always covered, counters exactly when what is doubled is not negative, and nothing is doubled gives equality |
| `RetainedDelivery.NegativeAmountsBreakThePromise` | clients/swift/Sources/Wardx/RetainedMetrics.swift:71-75 | for every negative amount a run that records nothing else and loses no row, in which acknowledged and on disk fall below saved |
| `RetainedDelivery.RedeliveryChangesNoRegister` | clients/swift/Sources/Wardx/Metrics.swift:180-191 | merging a delivered sketch again changes no register |
| `RetainedMetrics.Retained.Begin` | clients/swift/Sources/Wardx/RetainedMetrics.swift:64-69 | moves the active pending values into the flight, unless one is open or nothing is pending |
| `RetainedMetrics.Retained.Commit` | clients/swift/Sources/Wardx/RetainedMetrics.swift:71-75 | the flight is gone, and the file is rewritten or still to be written |
| `RetainedMetrics.Retained.Abort` | clients/swift/Sources/Wardx/RetainedMetrics.swift:77-82 | the flight is pending again, row by row merged |
| `RetainedMetrics.Retained.RestoreRows` | clients/swift/Sources/Wardx/RetainedMetrics.swift:84-91 | restoring merges every row and drops none while all series are within the cap |
| `RetainedMetrics.Retained.SaveState` | clients/swift/Sources/Wardx/RetainedMetrics.swift:93-107 | a failed write leaves the file and the dirty flag |
| `RetainedMetrics.Retained.Load` | clients/swift/Sources/Wardx/RetainedMetrics.swift:109-125 | a restart has pending what the file had pending and in flight |
| `RetainedMetrics.Retained.Admit` | clients/swift/Sources/Wardx/RetainedMetrics.swift:44-53 | admits known series and new ones below the cap |
| `SwiftResolver.RunBoth` | clients/swift/Sources/Wardx/Config.swift:137-217 | over any run of lookups and configurations the Swift and the JavaScript resolver each give the answers and exposures, and keep the subjects in order with their assignments, that folding the operations on the insertion-ordered map gives, within the bound |
| `SwiftResolver.Resolver.EvictOldest` | clients/swift/Sources/Wardx/Config.swift:203-216 | skips stale entries and evicts the oldest live subject, also when the queue is compacted |
| `SwiftResolver.Resolver.RecordAssignment` | clients/swift/Sources/Wardx/Config.swift:137-154 | has the effect of recording on the insertion-ordered map; the eviction loop terminates |
| `SwiftResolver.Resolver.ResolveKey` | clients/swift/Sources/Wardx/Config.swift:160-170 | answers, exposes and changes the state as the insertion-ordered map does |
| `SwiftResolver.Resolver.ApplyExperiments` | clients/swift/Sources/Wardx/Config.swift:181-190 | keeps exactly the assignments whose definition is still active, and the order of the subjects |
| `SwiftResolver.CoherentIsWellFormed` | clients/swift/Sources/Wardx/Config.swift:137-147 | each live subject has exactly one live entry at or after the head |
| `ExperimentResolver.Resolver.RecordAssignment` | packages/core/src/config/ExperimentResolver.js:77-98 | evicts the oldest subjects until there is room and records unless already recorded |
| `ExperimentResolver.Resolver.ResolveKey` | packages/core/src/config/ExperimentResolver.js:105-118 | the first experiment of the key with a variant that sets it decides, and is exposed once |
| `ExperimentResolver.Resolver.ApplyExperiments` | packages/core/src/config/ExperimentResolver.js:141-155 | deletes the assignments whose fingerprint is not active and the subjects left without any |
| `AssignmentState.RecordStaysBounded` | packages/core/src/config/ExperimentResolver.js:77-98 | recording keeps the number of subjects within the bound |
| `AssignmentState.NewestSubjectsStay` | packages/core/src/config/ExperimentResolver.js:77-87 | recording a new subject evicts no more of the oldest subjects than it must and leaves the others as they are |
| `AssignmentState.DecidingIsFirst` | packages/core/src/config/ExperimentResolver.js:105-118 | the experiment that answers a lookup is the first that fails or whose variant has a value for the key |
| `AssignmentState.SnapshotKeepsActive` | packages/core/src/config/ExperimentResolver.js:141-155 | a configuration keeps exactly the assignments whose definition is that of the last enabled experiment of its id, and the order of their subjects |
| `ExposureReports.StepReports` | packages/core/src/config/ExperimentResolver.js:105-129 | a step of any run reports an assignment exactly when it records it, with the variant it is remembered with |
| `ExposureReports.ReportedOnce` | packages/core/src/config/ExperimentResolver.js:120-129 | over any run an assignment is reported exactly once for as long as it is remembered, however often it is looked up |
| `GoalAmbiguity.GoalsAreUnambiguous` | packages/core/src/WardxCore.js:208-216 | in every run of a client of one role on validated configurations a goal matches at most one exposed experiment, so the error cannot occur |
| `GoalAmbiguity.AssertUnambiguousGoalMetrics` | packages/server/src/control/validateExperiment.js:198-217 | finds no pair exactly when no two enabled experiments share a goal metric and a role |
| `GoalAmbiguity.ExposedAssignmentForGoal` | packages/core/src/config/ExperimentResolver.js:131-139 | reports ambiguity exactly when two exposed assignments have the goal metric |
| `GoalAmbiguity.SeenByRole` | packages/server/src/roles.js:60-62 | the experiments of a role are exactly those whose roles include it or the wildcard |
| `GoalAmbiguity.ClashMisleads` | packages/server/src/control/validateExperiment.js:203-217 | the validation is needed: a client that sees two such experiments can expose both |
| `VariantBuckets.AssignVariant` | packages/core/src/config/ExperimentResolver.js:17-43 | nobody at or above the allocation, the three errors in their order, else the variant whose range holds the hash; the final return is unreachable |
| `VariantBuckets.RangesTile` | packages/core/src/config/ExperimentResolver.js:37-42 | the ranges of the variants are neighbours and cover exactly the hashes below the allocation |
| `VariantBuckets.RangeSize` | packages/core/src/config/ExperimentResolver.js:37-42 | each range differs from its exact share by less than one hash |

## Left out

- FlushVouches: only for `flush()` calls made before `shutdown()`; `LateFlushVouches` says what a later call still vouches for. Dropped logs and metric rows are not losses in the sense of the counter, in the code and here.
- FlushProtocol: WardxNode is a transition system, not a class, because its methods interleave at awaits; HTTP, gzip and timers are outcomes. A throwing tracer is modelled in its sync and frame hooks; after a throwing frame hook the extra error is a step of its own, where the code counts it together with the snapshot. Nothing else in a sync outside a post can throw.
- FrameSplitter: sizes count characters that stand for bytes of UTF-8; the cooperative yields and the work counter that paces them are left out, since they change nothing.
- SplitToMaxBytes: assumes that a printed number has at most 25 characters, which every double satisfies.
- EnvelopePacking: compression itself.
- ControlChange: an object is a map, so key order is no part of a state; arrays and scalars are compared and stored as their JSON text.
- MutationJournal: timestamps, audit text and affected names of entries, and the normal form in which SQLite stores a state, which is taken as the identity; the reserved-row limit across rollbacks is not promised by the code.
- ExperimentLedger: SQL tables are maps; details stored beside totals and decision timestamps are left out.
- EvidenceDecision: the p-values, Student's t and the normal quantile are numerical approximations without a closed specification; the decision above them is not modelled.
- HolmCorrection, Intervals, VariantBuckets: reals instead of doubles; a square root is a given non-negative number whose square is the argument.
- HolmAdjust: the family-wise alpha is strictly between 0 and 1, as experiments are validated; string comparison of keys is any total preorder.
- RankOutcomes: the rows' limit is an integer or absent; NaN values, for which the comparators are no preorder, are left out.
- Minute: histogram bounds of a series are equal in all windows; exemplars are left out because client and server treat ties differently; gauges are left out as last-write-wins; a frame lists its rows in any order.
- MetricsRegistry: holds values instead of series objects, so an observation through a handle is one that asks for the series first; name and dimension checks are left out, and series are keyed by role, name and dimensions instead of a joined string.
- HashRank: hashing itself (xxHash64, FNV-1a) and the cardinality estimate.
- JsonText: numbers with a fraction or an exponent, and integers beyond 2^53, parse to their text, since their value depends on rounding; recursion depth is unbounded.
- RetainedMetrics: a file is written whole or not at all, so a corrupt file does not occur; the cap per metric is not modelled, only the cap on all retained series.
- RetainedDelivery: an acknowledged flight is one that was committed; frames of a flight that reached the server without an acknowledgement count as redelivered later.
- AssignmentState: a fingerprint is the client-visible definition itself, so equal fingerprints mean equal definitions; a hashed subject is the value of a given function.
- GoalAmbiguity: experiment ids are unique within a configuration.
- Storage and retention of aggregated history, overview and annotation queries, credentials, the command line, setup and benchmarks.
