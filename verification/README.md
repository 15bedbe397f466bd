# LagRadar verification

A Dafny model of LagRadar, a monitor of Kafka consumer lag, with machine-checked properties of it. The model follows
the pipeline from samples to events, and beside it the state store of the distributed mode:

- a bounded window of offset samples for each group, topic and partition, and the evaluator that turns a window into
  rates, a trend, a status and a health (`Evaluator`, `VerdictTheorems`, `TrendTheorems`,
  `SlidingWindow`, `MotionTheorems`, `MotionLimits`);
- the collector: probing the partitions of a group, rolling the verdicts up, the periodic loop and its clean-ups
  (`Keys`, `Collection`, `Collector`, `PeriodicRuns`);
- a collection round with its goroutines, semaphore, wait group and result channel as a transition system
  (`ConcurrentRound`, `RoundControl`, `RoundAgreement`), and the evaluation hook on the loop and on such a round
  (`HookRuns`, `RoundHooks`);
- the event analyzer with its cooldown (`Analyzer`, `AnalyzerRuns`, `EventRuns`), the publisher that deduplicates over
  an expiring key and appends to a Redis stream (`Publishing`), the consumer group that drains the stream
  (`StreamConsumer`), and any number of publishers and consumers interleaved (`Delivery`);
- the state store: the registry of instances (`Registry`, `RegistryRuns`) and the group assignments (`Assignments`).

Code that updates state in place is a class whose methods are proved against functions of the old state; the theorems
are about those functions, over every input, every history of samples, every run or every interleaving. What comes
from outside (Kafka's replies, clock readings, whether a Redis call fails and whether a failed one was applied, the
order of threads) is a parameter, so the theorems hold for every choice of it. Times are integers counting
nanoseconds; rates are real numbers.

`dafny verify dfyconfig.toml` checks the whole project.

## What the proofs bring out

- A flat, nonzero lag is STABLE exactly when the trend threshold is positive; with a threshold of 0 it is DECREASING.
- `GetActiveInstances` documents "heartbeat within timeout", but a heartbeat on a live key renews only the key's time
  to live. `FreshnessFollowsHeartbeatIff` gives the exact condition under which the documented rule holds; with the
  default times an instance that heartbeats on time drops out of the active list two minutes after it registered
  (`DefaultTimesDropPunctualInstance`).
- A heartbeat looks for the key and then renews it. If the key lapses in between, the heartbeat reports a success and
  leaves no key (`HeartbeatLeavesAliveIff`).
- An instance marked offline that goes on heartbeating before its key lapses stays offline for ever, its key alive
  (`HeartbeatsKeepOffline`).
- A clean-up follows group membership exactly when the group name has no colon (`CleanupIsRightIffColonFree`).
- The deduplication key is taken before the append and kept when every append fails, so the event is lost and a retry
  within the window is reported as a success (`FailedPublishSwallowsRetry`).
- A status-change event whose publish fails is lost: it is not attempted again until the consumer has been looked at
  with another status (`FailedChangeIsLost`).
- A recovery and a rapid lag increase can be attempted together in some run exactly when the configured rate is
  negative and the window holds two samples and the required minimum (`RecoveryMixesIff`).
- A consumer can go from moving straight to STOPPED, with sample gaps of at most g, exactly when min(4, WindowSize - 1)
  gaps outlast the inactivity timeout, the window can hold the required minimum, and time passes between samples or a
  rate of 0 counts as moving (`DirectStopIff`); an unsuppressed `consumer_stopped` is possible exactly then
  (`UnskippedStopIff`).
- The analyzer's theorems hold of the wired loop: under each key its hook is shown the sliding window over exactly the
  samples of that key (`LoopObserves`), and a concurrent round shows each key the same as a sequential one
  (`FinishedRoundLooksSequential`).
- The hypotheses of the delivery theorems are exact: any other publish or append, added to the tame ones, lets some
  incident into the stream twice (`TameIffNeverRepeats`), and so do tame ones when the deduplication window is shorter
  than a second (`AtMostOnceIff`).
- Accepted assignments are always fresh exactly when no store is overtaken: stamped early but executed after a store
  with a later stamp (`FreshIffNeverOvertaken`). After twice the timeout the stamp is gone and any age is accepted.
- With a concurrency limit of 0 and at least one group, a round blocks for ever (`StuckMeansReturned`).

## Model

| member | source | states |
|---|---|---|
| Evaluation.RunLengthIsLongest | internal/collector/evaluator.go:167-184 | the backward scan finds the longest suffix sharing one offset: the last k records share it exactly when k is at most the run length |
| Evaluation.ActivityScansAgree | internal/collector/evaluator.go:150-184 | a window is active (two distinct offsets among the last five) exactly when its trailing constant-offset run is shorter than min(5, n) |
| Evaluation.StoppedExactly | internal/collector/evaluator.go:22-113 | STOPPED holds exactly when there are enough records, the run fills the recent view, the latest lag is not 0 and the run is older than the inactivity timeout |
| Evaluation.VerdictIsConsistent | internal/collector/evaluator.go:74-147 | stopped or stalled is always critical, GOOD only for ACTIVE or EMPTY, STOPPED only with lag, EMPTY only without, and the lag rate separates ACTIVE from LAGGING |
| VerdictTheorems.StatusExactly | internal/collector/evaluator.go:74-113 | each of the six statuses if and only if, in terms of the records alone: enough of them, the trailing run, the offset gained and the lag grown from the first record to the last over the seconds between, the newest lag and the age of the run |
| VerdictTheorems.HealthExactly | internal/collector/evaluator.go:128-147 | each health if and only if: critical for stopped, stalled, or lagging with a rising trend; a warning for unknown, otherwise lagging, or a rising trend with a lag above 1000; good in the rest |
| VerdictTheorems.VerdictReportsNewest | internal/collector/evaluator.go:33-43 | the verdict names its group, topic and partition and reports the newest record's offset, watermark, lag and time |
| VerdictTheorems.VerdictMeasures | internal/collector/evaluator.go:45-71 | with enough records the verdict reports activity, time since the last move, rates and trend of the window, and with fewer it measures nothing |
| VerdictTheorems.RatesMeasure | internal/collector/evaluator.go:187-232 | each rate times the seconds from the first record to the last is what was gained between them, and both are 0 when no time passed |
| VerdictTheorems.TrendUnknownIff | internal/collector/evaluator.go:116-125 | the trend is unknown if and only if there are fewer than three records |
| VerdictTheorems.NothingToJudge | internal/collector/evaluator.go:21-31 | without records the verdict is unknown, with a warning, and zero throughout |
| Evaluation.LagEvaluator.IsConsumerActive | internal/collector/evaluator.go:150-164 | the set-building loop answers whether the trailing run is shorter than min(5, n) |
| Evaluation.LagEvaluator.TimeSinceLastOffsetChange | internal/collector/evaluator.go:167-184 | the backward loop returns the duration of the longest constant-offset suffix |
| Evaluation.LagEvaluator.AverageLagOf | internal/collector/evaluator.go:274-285 | the summing loop returns the exact mean of the lags, 0 for no records |
| Evaluation.LagEvaluator.CalculateLagTrend | internal/collector/evaluator.go:235-271 | the trend of the window as the trend theorems describe it |
| Evaluation.LagEvaluator.EvaluatePartitionConsumer | internal/collector/evaluator.go:20-61 | the verdict assembled step by step in a mutable record is the one the theorems are about, early returns included |
| TrendTheorems.TrendIsDecidedBySums | internal/collector/evaluator.go:235-285 | for nonnegative lags the trend is a function of the two integer sums over the outer thirds |
| TrendTheorems.ThirdsAreDisjoint | internal/collector/evaluator.go:240-243 | the two thirds are equally long, nonempty and do not overlap |
| TrendTheorems.TrendIsScaleInvariant | internal/collector/evaluator.go:235-285 | multiplying all lags by a positive constant does not change the trend |
| TrendTheorems.TrendFollowsMonotoneLags | internal/collector/evaluator.go:235-285 | nondecreasing lags are never DECREASING and nonincreasing lags never INCREASING, for a positive threshold |
| TrendTheorems.FlatLagTrend | internal/collector/evaluator.go:250-264 | a flat nonzero lag is STABLE if and only if the threshold is positive, and DECREASING otherwise |
| TrendTheorems.ReversedDecreaseIsIncrease | internal/collector/evaluator.go:235-285 | a DECREASING window read backwards is INCREASING, for a positive threshold |
| TrendTheorems.TrendIsSoundIff | internal/collector/evaluator.go:235-285 | nondecreasing windows are never DECREASING, and DECREASING windows reverse to INCREASING, each for all windows if and only if the threshold is positive |
| SlidingWindow.WindowSlides | internal/collector/collector.go:386-392 | appending and dropping the oldest keeps the window equal to the most recent records of the history |
| SlidingWindow.AdditionsKeepTheMostRecent | internal/collector/collector.go:374-393 | any number of additions to an empty window leaves exactly the last min(count, size) records in order |
| SlidingWindow.PartitionWindow.Append | internal/collector/collector.go:386-392 | over the backing array, in place or into a larger one, the contents become the old ones with the record pushed |
| SlidingWindow.PartitionWindow.Records | internal/collector/collector.go:405-410 | the answer is a fresh array holding the window's records |
| SlidingWindow.PartitionWindow.CopySurvivesAdditions | internal/collector/collector.go:396-411 | a copy taken from the window is unaffected by any later additions, while the window takes them all in |
| MotionTheorems.StopIsDetected | internal/collector/evaluator.go:74-90 | after any history, k samples at one offset with lag left and gaps of at least h spanning the timeout give STOPPED |
| MotionTheorems.StopIsUnreachable | internal/collector/evaluator.go:74-90 | if the window cannot span the timeout at gaps of at most g, no history gives STOPPED |
| MotionLimits.StopIsReachableIff | internal/collector/evaluator.go:74-90 | for every configuration, some history with gaps of at most g gives STOPPED if and only if the window holds a sample and the required minimum and (WindowSize - 1)g exceeds the timeout |
| MotionTheorems.NoDirectStop | internal/collector/evaluator.go:74-90 | with gaps of at most g and min(4, WindowSize - 1) of them within the timeout, the sample after ACTIVE or LAGGING never gives STOPPED |
| MotionLimits.DirectStopIff | internal/collector/evaluator.go:74-113 | for every configuration, one sample can take ACTIVE or LAGGING straight to STOPPED with gaps of at most g if and only if min(4, WindowSize - 1)g exceeds the timeout, the window holds two samples and the required minimum, and g is positive or a rate of 0 is not stalled |
| MotionTheorems.ProgressIsSound | internal/collector/evaluator.go:74-113 | a consumer that keeps a rate of at least the stalled rate between all samples is EMPTY, LAGGING or ACTIVE |
| MotionTheorems.SlownessIsSound | internal/collector/evaluator.go:92-113 | a consumer below the stalled rate between all samples is never ACTIVE or LAGGING |
| Keys.KeyIsInjective | internal/collector/collector.go:357 | with colon-free topics, window keys of different group, topic, partition triples differ |
| Keys.KeyIsOwnIffColonFree | internal/collector/collector.go:357 | a key is shared with no other triple of colon-free topic if and only if its own topic has no colon; with one, every key of that topic is shared |
| Keys.GroupPartOfKey | internal/collector/collector.go:543-553 | the prefix the clean-up compares is the group exactly when the group has no colon |
| Collection.RollUpIsSound | internal/collector/collector.go:266-316 | the three lists hold each evaluated partition once by its health, the total lag is the sum of theirs, stopped and stalled partitions are among the critical, overall health is that of the worst list that is not empty, and GOOD means no stopped or stalled partition and all active and healthy |
| Collection.RollUpSortsVerdicts | internal/collector/collector.go:276-304 | each list is the verdicts of its health in order, and each counter counts its statuses |
| Collection.UncommittedVerdict | internal/collector/collector.go:331-341 | a partition without a commit is unknown with a warning, and leaves no sample and no hook call |
| Collection.UnreadVerdict | internal/collector/collector.go:325-328 | without a watermark there is no verdict, no sample and no hook call |
| Collection.SampledVerdict | internal/collector/collector.go:343-370 | a committed partition's reply becomes the newest sample, with lag max(0, highWatermark - offset), and the verdict on the window goes to the roll-up and the hook alike |
| Collection.LatestStatusIsStored | internal/collector/collector.go:237-243 | after a round a group's stored status is the one its last successful collection came to, replacing any earlier one |
| Collection.UncollectedStatusStays | internal/collector/collector.go:232-239 | a group that was not collected with success keeps the status it had, if any |
| Collection.ProbesAreLocal | internal/collector/collector.go:276-411 | collecting a group reads and writes only windows of that group |
| Collector.Collector.AddToWindow | internal/collector/collector.go:374-393 | the window of the key, new or old, takes the record and stays within the size; no other window changes |
| Collector.Collector.EvaluatePartition | internal/collector/collector.go:322-371 | a missing watermark or commit leaves the windows alone and calls no hook; otherwise one sample is stored, the verdict is that of the updated window, and the hook is called with both |
| Collector.Collector.CollectGroupMetrics | internal/collector/collector.go:259-319 | the loop over partitions leaves the windows, the rolled-up status and the hook calls that the theorems are about; failed offsets change nothing |
| Collector.Collector.CollectMetrics | internal/collector/collector.go:176-250 | a round taken one group at a time; a failed listing changes nothing, and a failed group keeps its old status |
| Collector.Collector.CleanupOldWindows | internal/collector/collector.go:543-553 | exactly the windows with an active group part stay, with their records |
| Collector.Collector.StartPeriodicCollection | internal/collector/collector.go:509-535 | for any sequence of ticks the loop's state and its calls of the hook are those the run theorems are about, and every window belongs to a group with a stored status |
| PeriodicRuns.CleanupKeepsActive | internal/collector/collector.go:543-553 | with colon-free groups a clean-up keeps exactly the windows made for active groups |
| PeriodicRuns.CleanupIsRightIffColonFree | internal/collector/collector.go:543-553 | it follows membership for every set of active groups if and only if the group name has no colon |
| PeriodicRuns.CleanupsAreNoOps | internal/collector/collector.go:519-525 | over any run with colon-free group names the wired clean-up never drops a window: the run equals the run without clean-ups |
| PeriodicRuns.TickStoresLatest | internal/collector/collector.go:509-535 | in the loop, a tick gives a group the status of its last successful collection in the tick, and leaves every other status alone |
| PeriodicRuns.RoundKeepsTracking | internal/collector/collector.go:237-247 | a round keeps every window's group among the stored statuses, and stores no status of a group that was not collected |
| PeriodicRuns.EveryRunRemembers | internal/collector/collector.go:343-393 | in every reachable state each window is the most recent samples of its key in order, each with lag max(0, highWatermark - offset) |
| RoundControl.EveryRunIsSafe | internal/collector/collector.go:204-234 | in every interleaving at most MaxConcurrency workers are in flight, nothing is sent on a closed channel, no send blocks, and the wait group never goes negative |
| RoundControl.StuckMeansReturned | internal/collector/collector.go:204-247 | a state where no thread can step is the returned one if and only if MaxConcurrency is at least 1 or there are no groups |
| RoundControl.ReturnedMeansFinished | internal/collector/collector.go:231-249 | once the round returns, the channel is closed and drained and every goroutine has ended |
| RoundControl.RunsAreBounded | internal/collector/collector.go:204-247 | no interleaving is longer than a bound fixed by the replies, so every round ends |
| RoundAgreement.FinishedRoundIsSequential | internal/collector/collector.go:204-247 | for distinct groups and colon-free topics every finished interleaving leaves the windows and status store of collecting one group at a time |
| RoundHooks.FinishedRoundLooksSequential | internal/collector/collector.go:204-366 | whatever the interleaving, a finished round calls the evaluation hook under each key as the sequential round does, in the same order |
| Analyzer.EvaluatorWithRCA.DetectAndPublishEvents | internal/publisher/analyzer.go:47-73 | one evaluation moves the two maps as the run theorems assume, the two outcomes that stamp the cooldown are those of the publisher on the server's state, and the attempted events reach the server in order |
| Analyzer.EvaluatorWithRCA.PublishStatusChangeEvent | internal/publisher/analyzer.go:75-110 | publishes the event the status change calls for, if any; reports success exactly when there is one and the publisher succeeds on the server's state, and stamps the cooldown exactly then |
| Analyzer.EvaluatorWithRCA.DetectCriticalConditions | internal/publisher/analyzer.go:112-152 | publishes a rapid increase and then a cleared lag as they apply; stamps the cooldown exactly when the rapid increase is published with success |
| Analyzer.EvaluatorWithRCA.EvaluatePartitionConsumerWithRCA | internal/publisher/analyzer.go:31-45 | evaluates the window and, when there is a publisher, takes that verdict through one analyzer step, maps, outcomes and server included |
| AnalyzerRuns.LookUpIsOwnRun | internal/publisher/analyzer.go:47-73 | after any run over the two maps, what they hold under a key is the state reached by the evaluations under that key alone, in order |
| AnalyzerRuns.PartitionsAreIndependent | internal/publisher/analyzer.go:47-73 | with colon-free topics, what the maps hold for a group, topic and partition depends only on the evaluations of that very triple |
| AnalyzerRuns.PreviousIsLastUnsuppressed | internal/publisher/analyzer.go:54-72 | the remembered status is always that of the last evaluation no cooldown suppressed |
| AnalyzerRuns.SuppressedExactly | internal/publisher/analyzer.go:54-59 | with a clock that never runs backwards, an evaluation is skipped if and only if less than five minutes before it an earlier evaluation of the key got an event other than a cleared lag out |
| AnalyzerRuns.StampsAreApart | internal/publisher/analyzer.go:54-58 | stamps of different evaluations of a key are at least five minutes apart |
| AnalyzerRuns.SuccessesAreApart | internal/publisher/analyzer.go:54-134 | so are publishes of different evaluations that succeed on the server, other than cleared lags, whatever others did to the server in between |
| AnalyzerRuns.RecoveryIsNoticed | internal/publisher/analyzer.go:54-98 | a consumer last looked at as STOPPED or STALLED gets a recovery attempt at the first unsuppressed evaluation that finds it ACTIVE or EMPTY, whatever was skipped between |
| AnalyzerRuns.ChangesExactly | internal/publisher/analyzer.go:75-98 | over any run each of the three status-change events is attempted if and only if the evaluation is not skipped and its status and that of the last one not skipped are those the event stands for |
| AnalyzerRuns.SameChangeNeedsAnotherStatus | internal/publisher/analyzer.go:64-98 | between two attempts at the same status-change event an unsuppressed evaluation found another status |
| AnalyzerRuns.FailedChangeIsLost | internal/publisher/analyzer.go:64-110 | a status-change event whose publish fails leaves nothing in the stream and is never attempted again while no unsuppressed evaluation finds another status |
| AnalyzerRuns.AttemptsCombine | internal/publisher/analyzer.go:75-152 | one evaluation attempts at most two events; a cleared lag never goes with a rapid increase or a stop, nor a rapid increase with a recovery when the rate is not negative |
| AnalyzerRuns.AttemptsComeInTurn | internal/publisher/analyzer.go:62-72 | the event of the change is attempted first, then the rapid increase, then the cleared lag, each at most once |
| EventRuns.RecoveryMixesIff | internal/publisher/analyzer.go:83-118 | for every configuration and enabled publisher, some run of the two over a natural history attempts a recovery and a rapid increase in one evaluation if and only if the configured rate is negative and the window holds two samples and the required minimum |
| EventRuns.LagClearedExactly | internal/publisher/analyzer.go:138-151 | over a sample history, a cleared lag is attempted exactly when nothing suppresses it, three samples are held, the newest lag is 0 and the one before exceeds 1000 |
| EventRuns.RapidIncreaseExactly | internal/publisher/analyzer.go:117-136 | over a sample history, a rapid increase is attempted if and only if nothing suppresses it, the newest lag exceeds 1000 and from the first sample of the window to the newest the lag grew by more than twice the configured rate |
| EventRuns.LagRisesBetweenClears | internal/publisher/analyzer.go:138-151 | two such attempts for a key are never consecutive, and a lag above 1000 lies between them |
| EventRuns.StoppedOnlyAfterSkip | internal/publisher/analyzer.go:54-88 | with gaps of at most g and min(4, WindowSize - 1) of them within the timeout, a stop is attempted only when a cooldown skipped the evaluation before and froze the status at ACTIVE or LAGGING |
| EventRuns.UnskippedStopIff | internal/publisher/analyzer.go:54-88 | for every configuration and enabled publisher, some run of the two over a natural history with gaps of at most g attempts a stop right after an unsuppressed evaluation if and only if a jump straight to STOPPED is possible |
| HookRuns.LoopIsSeen | internal/collector/collector.go:343-366 | over any run of the loop with colon-free names, the n-th hook call under a key shows the window over that key's first n samples and the verdict on it |
| HookRuns.LoopObserves | internal/collector/collector.go:357-366 | the analyzer on the loop's hook evaluates, under each key, the history of that key, as the theorems over histories suppose |
| HookRuns.LoopStopsOnlyAfterSkip | internal/publisher/analyzer.go:54-88 | in the loop itself, with sample gaps bounded as before, a stop is attempted for a partition only if a cooldown skipped its evaluation before, the remembered status being frozen at ACTIVE or LAGGING |
| Publishing.RedisServer.SetNX | internal/publisher/publisher.go:112-119 | the key is set with its expiry exactly when it is missing or lapsed |
| Expiring.LapsesWhenPassed | internal/publisher/publisher.go:112 | what is set with a time to live is gone if and only if that has passed, and stays for ever without one |
| Publishing.EventPublisher.PublishPartitionEvent | internal/publisher/publisher.go:63-154 | the server state and the reported success for every pattern of failures; one wait after each failed try but the last allowed |
| Publishing.PublishExactly | internal/publisher/publisher.go:111-153 | a live key makes a publish a success without effect; any other claims the key unless the check was lost, appends one copy of the event for each applied try up to the confirmed one, and succeeds if and only if a try is confirmed |
| Publishing.PublishedAtOnce | internal/publisher/publisher.go:72-143 | a publish confirmed at once adds exactly the event with the given type, the cluster, and the group, topic and partition of the verdict |
| Publishing.WaitsAreTriangular | internal/publisher/publisher.go:147-150 | the waits of a publish together take a triangular number of retry intervals |
| Publishing.KeysIdentifyIncidents | internal/publisher/publisher.go:156-168 | with colon-free topics two events share a deduplication key if and only if type, group, topic, partition and time bucket agree; the cluster plays no part |
| Publishing.BucketIsUnixSecond | internal/publisher/publisher.go:158 | the bucket of an event is the Unix second at which its slot starts, slots being counted from the first instant of year 1 |
| Publishing.BucketsTellSlotsIff | internal/publisher/publisher.go:158 | buckets are exactly the time slots of the window, for all stamps, if and only if the window is at least a second |
| Publishing.SecondPublishIsSuppressed | internal/publisher/publisher.go:111-119 | a second publish of one incident appends nothing if and only if it checks before the first claim expires |
| Publishing.FailedPublishSwallowsRetry | internal/publisher/publisher.go:111-153 | when every append is lost the key stays taken: a retry within the window is reported as a success and appends nothing |
| Publishing.FailedPublishAppendsNothing | internal/publisher/publisher.go:121-153 | a publish reported as failed has appended nothing, unless an append was applied but reported as failed |
| StreamConsumer.Consumer.ProcessMessage | internal/rca/consumer/consumer.go:114-135 | every handler is called once, in order, for an entry that parses, and none for one that does not |
| StreamConsumer.Consumer.ConsumeBatch | internal/rca/consumer/consumer.go:79-112 | as many entries as fit the batch, never read before, end up rejected when they do not parse, acknowledged when the server agrees and pending otherwise; a failed read changes nothing |
| StreamConsumer.ReadTakesTheNext | internal/rca/consumer/consumer.go:80-86 | a read takes the next entries in order, as many as asked for or all that are left, and touches nothing else |
| StreamConsumer.ProcessedExactly | internal/rca/consumer/consumer.go:95-109 | exactly the entries of a range are dealt with, each rejected, acknowledged or left pending as it parses and as the server answers |
| StreamConsumer.CallsComeInOrder | internal/rca/consumer/consumer.go:95-135 | handlers are called entry by entry in stream order, and for each entry in the order they were registered |
| Delivery.OneEntryPerIncident | internal/publisher/publisher.go:111-168 | in every run of tame actions, over any number of publishers, no bucket of one incident has two stream entries |
| Delivery.ThreeEntriesSpanTheWindow | internal/publisher/publisher.go:156-168 | three entries of one type, group, topic and partition have stamps at least the window apart, so a shorter span holds at most two |
| Delivery.HandlersSeeIncidentsOnce | internal/rca/consumer/consumer.go:79-135 | end to end, over any number of publishers and consumers, a handler is never called for two entries of one incident, nor twice for one entry |
| Delivery.SettledMeansHandledOnce | internal/rca/consumer/consumer.go:79-135 | once every entry has been delivered and dealt with, each handler has been called exactly once for each event in the stream |
| Delivery.SettledTellsOfIncidentsOnce | internal/rca/consumer/consumer.go:79-135 | in a settled tame run each handler has been called about each incident in the stream exactly once |
| Delivery.CanSettle | internal/rca/consumer/consumer.go:79-112 | from any state, reading what is left and handling what waits settles the group |
| Delivery.PublishIsRun | internal/publisher/publisher.go:63-154 | the publisher's own loop is a run of the interleaved system with the same server state, reported as a success exactly when the key was live or the last try is confirmed |
| Delivery.BatchIsRun | internal/rca/consumer/consumer.go:79-112 | the consumer's batch is a run of the interleaved system with the same outcome |
| Delivery.TameIffNeverRepeats | internal/publisher/publisher.go:111-168 | an action is tame if and only if no run of tame actions and that one puts two entries of one incident in the stream, for every takeable action and every window of at least a second |
| Delivery.AtMostOnceIff | internal/publisher/publisher.go:111-168 | runs of tame actions deliver at most one entry of each incident if and only if the window is at least a second |
| Delivery.UncheckedPublishDuplicates | internal/publisher/publisher.go:112-119 | any publish with a try whose check comes after the slot, or fails, applied or not, lets its incident in a second time, however it is stamped |
| Delivery.UnconfirmedAppendDuplicates | internal/publisher/publisher.go:121-151 | an append that is applied but reported as failed is tried again and gives the event twice, for every event and publisher |
| Registry.StateStore.RegisterInstance | distributed/state/state_store.go:71-88 | the key holds an active record of the instance stamped now, with a fresh time to live, unless the write is lost |
| Registry.StateStore.UpdateHeartbeat | distributed/state/state_store.go:92-104 | with others acting between its two calls, a key found alive at the first has only its time to live renewed if it is still there, and one not found is registered |
| Registry.StateStore.MarkInstanceOffline | distributed/state/state_store.go:260-285 | with others acting between its two calls, a missing key is left alone with success, a record that was read is written back offline for thirty seconds, and an unreadable one is an error |
| Registry.StateStore.GetActiveInstances | distributed/state/state_store.go:108-157 | the scan loop, each page read from the keys as they are then, returns the reported ids of all pages in order, a partial list with an error at the page limit, or nothing when a call fails |
| RegistryRuns.RecordsAreWellKeyed | distributed/state/state_store.go:71-88 | after any run every key holds a record of its own instance |
| RegistryRuns.ReportedExactly | distributed/state/state_store.go:108-157 | after any run an id is reported active if and only if its key is alive, it is marked active and its last registration (direct, or by a heartbeat on a lapsed key) is younger than the timeout |
| RegistryRuns.WalkCompletesIff | distributed/state/state_store.go:114-155 | the scan finishes after n pages if and only if they are within the limit, none fails and only the last has cursor 0 |
| RegistryRuns.CutAfterHundredPages | distributed/state/state_store.go:16-18 | a hundred usable pages without an end give an error together with exactly the ids that those pages show active |
| RegistryRuns.ListedAsOftenAsScanned | distributed/state/state_store.go:118-150 | each reported id of a page is listed as often as the page shows its key, duplicates included, and no other id is listed |
| RegistryRuns.ListingIsExact | distributed/state/state_store.go:108-157 | a finished listing holds exactly the ids that some page shows while alive, active and young enough by their last registration, whatever others do between the pages |
| RegistryRuns.QuietListingIsExact | distributed/state/state_store.go:108-157 | if nothing happens between the pages and each live key is shown, the listing is exactly the ids that ReportedExactly describes |
| RegistryRuns.SteadyHeartbeatIsAtomic | distributed/state/state_store.go:92-104 | a heartbeat whose key is in the same state at both calls acts as one of a single instant |
| RegistryRuns.SteadyMarkIsAtomic | distributed/state/state_store.go:260-285 | an offline mark whose key holds the same record at both calls acts as one of a single instant |
| RegistryRuns.FailedReadChangesNothing | distributed/state/state_store.go:95-98 | an operation whose first call fails changes nothing, nor does a mark that finds no record |
| RegistryRuns.HeartbeatLeavesAliveIff | distributed/state/state_store.go:92-104 | a successful heartbeat leaves the key alive if and only if its first call found none, or found one that is still alive at the second and the time to live is positive |
| RegistryRuns.LoneHeartbeatLeavesAliveIff | distributed/state/state_store.go:92-104 | with nothing else going on, a heartbeat that found its key leaves it alive if and only if the key does not lapse before the second call |
| RegistryRuns.MarkOverwrites | distributed/state/state_store.go:260-285 | an offline mark that read a record wins over whatever happened since, a new registration or the lapse of the key included |
| RegistryRuns.MarkLastsThirtySeconds | distributed/state/state_store.go:276-284 | a mark leaves the record it read, offline and stamped now, alive for exactly thirty seconds, and no other key changed |
| RegistryRuns.OfflineSticks | distributed/state/state_store.go:260-285 | once marked offline an id is never reported, after any operations, until it is registered again directly or by a heartbeat on a lapsed key |
| RegistryRuns.HeartbeatsKeepOffline | distributed/state/state_store.go:92-104 | heartbeats on time after an offline mark keep the key alive and the instance offline for ever |
| RegistryRuns.RevivedExactlyAfterLapse | distributed/state/state_store.go:92-104 | the first heartbeat after an offline mark makes the instance active if and only if thirty seconds have passed |
| RegistryRuns.FreshnessFollowsHeartbeatIff | distributed/state/state_store.go:106-156 | the documented rule, active while the last heartbeat is younger than the timeout, holds if and only if that heartbeat was the registration, or the timeout is not positive, or it outlasts the key |
| RegistryRuns.DefaultTimesDropPunctualInstance | distributed/state/state_store.go:36-47 | with the default times, a heartbeat a minute after the registration already breaks the documented rule |
| Assignments.AssignmentServer.Transact | distributed/state/state_store.go:173-180 | all queued commands take effect in order at one instant, or none does |
| Assignments.AssignmentStore.StoreAssignments | distributed/state/state_store.go:162-188 | in whatever order the map is gone through, the queued transaction replaces hash and stamp as a whole, or not at all |
| Assignments.TransactionReplaces | distributed/state/state_store.go:173-180 | executing the queued commands on any state, in any order of the instances, leaves exactly the stored map and its stamp |
| Assignments.AssignmentStore.GetAssignments | distributed/state/state_store.go:193-219 | the answer when the stamp is read first and the hash later, with other stores taking effect in between |
| Assignments.ReadsNeverMix | distributed/state/state_store.go:193-219 | for any number of interleaved stores a read fails or returns exactly one committed map |
| Assignments.QuietRead | distributed/state/state_store.go:193-219 | uninterrupted, the last map is readable until the timeout, refused until its stamp lapses at twice the timeout, and readable at any age afterwards or when the stamp cannot be fetched |
| Assignments.ReplyExactly | distributed/state/state_store.go:193-219 | a read is refused if and only if it finds a stamp past the epoch and older than the timeout; otherwise it fails if and only if the hash cannot be read; otherwise it returns exactly the instances whose field parses |
| Assignments.AcceptedAge | distributed/state/state_store.go:193-203 | when a read that found the stamp is not refused, the store that left the stamp is no older than the timeout |
| Assignments.AcceptedIsFresh | distributed/state/state_store.go:193-219 | when stamps follow the order of the transactions, a read that finds the stamp fails or returns one committed map no older than the timeout |
| Assignments.FreshIffNeverOvertaken | distributed/state/state_store.go:173-203 | for any stores, all accepted reads that found a stamp are fresh if and only if no store is overtaken by an earlier one that can still be accepted |

## Left out

- Integer width and float rounding: offsets, lags and times are unbounded integers and rates are exact reals, so int64 wrap-around and float64 rounding are not modelled.
- Collector.Collector.AddToWindow: the collector keeps each window as a value in its map; what that does not capture, the array behind a window and its sharing with slices handed out, is modelled by SlidingWindow.PartitionWindow for one window at a time.
- Evaluation.LagEvaluator.EvaluatePartitionConsumer: the message and the window completeness are not part of the verdict.
- Collector.Collector.CollectMetrics: takes the groups one at a time; that every interleaving of the goroutines ends in the same state is RoundAgreement.FinishedRoundIsSequential.
- Publishing.EventPublisher.PublishPartitionEvent: the event carries what the deduplication key is made of; severity, message, title and the other descriptive fields are left out, and encoding is taken to be exact.
- Publishing.KeysIdentifyIncidents: the MD5 digest of the fingerprint text is taken to be injective, and negative deduplication windows are not modelled.
- Delivery.OneEntryPerIncident: one clock is shared by all publishers and the server, and the stream is not trimmed at its maximum length.
- Delivery.HandlersSeeIncidentsOnce: pending entries are never claimed again, as in the code, so nothing is said about entries whose consumer died.
- RegistryRuns.ReportedExactly: each operation of its runs makes its calls at one instant; RegistryRuns.SteadyHeartbeatIsAtomic says when a heartbeat of two calls does the same.
- RegistryRuns.QuietListingIsExact: that a scan shows every key present throughout is the server's promise and a hypothesis here.
- HookRuns.LoopObserves: group names and topics are taken to be without a colon, as otherwise a clean-up restarts windows in mid-history, and the loop to start with no windows.
- Assignments.AssignmentStore.StoreAssignments: encoding group lists cannot fail, and the stored list decodes to itself.
- Times to live below a millisecond, negative ones, and the rounding of times to live by the Redis client.
- Member-count failures, readiness, Prometheus metrics and logging: output only.
- Partition windows stored in Redis, sharding, leader election, the HTTP interface, the Kafka client and configuration loading: no state machine of their own, or foreign code.
