/** The event analyzer over runs whose windows slide along a history of samples. */
module EventRuns {
  import opened Wrappers
  import opened LagTypes
  import opened Evaluation
  import opened SlidingWindow
  import opened MotionTheorems
  import opened MotionLimits
  import opened VerdictTheorems
  import opened Expiring
  import opened Arithmetic
  import opened Publishing
  import opened Analyzer
  import opened AnalyzerRuns

  // ----- histories -----

  /** The evaluation looks at the window after the samples of the history. */
  ghost predicate Looks(config: Config, e: Observation, history: seq<OffsetRecord>, group: string, topic: string,
      partition: int)
  {
    && e.records == WindowOf(history, config.windowSize)
    && e.status == Evaluate(config, e.records, group, topic, partition)
  }

  /** Evaluation n of the run looks at the window after the first n + 1 samples. */
  ghost predicate Observes(config: Config, run: seq<Observation>, history: seq<OffsetRecord>, group: string,
      topic: string, partition: int)
  {
    && |history| == |run|
    && forall n :: 0 <= n < |run| ==> Looks(config, run[n], history[..n + 1], group, topic, partition)
  }

  lemma StatusSeen(config: Config, e: Observation, history: seq<OffsetRecord>, group: string, topic: string,
      partition: int)
    requires Looks(config, e, history, group, topic, partition)
    ensures e.status.status == StatusAt(config, history)
  {
    VerdictIsConsistent(config, e.records, group, topic, partition);
  }

  lemma WindowEnds(history: seq<OffsetRecord>, n: nat, size: nat)
    requires n < |history|
    ensures var w := WindowOf(history[..n + 1], size);
            && |w| == Min(n + 1, size)
            && (size >= 1 ==> w[|w| - 1] == history[n])
            && (|w| >= 2 ==> w[|w| - 2] == history[n - 1])
  {
  }

  lemma ClearedSeen(config: Config, e: Observation, history: seq<OffsetRecord>, n: nat, group: string, topic: string,
      partition: int)
    requires n < |history| && Looks(config, e, history[..n + 1], group, topic, partition) && config.windowSize >= 3
    ensures Cleared(e.status, e.records) <==> n >= 2 && history[n].lag == 0 && history[n - 1].lag > 1000
  {
    WindowEnds(history, n, config.windowSize);
  }

  lemma LagClearedComesLast(config: Config, k: KeyState, e: Observation)
    ensures LagCleared in Attempts(config, k, e) <==> !Suppressed(k, e.now) && Cleared(e.status, e.records)
  {
    var change := Just(ChangeEvent(k.previous, e.status.status));
    var rapid := if RapidIncrease(config, e.status) then [RapidLagIncrease] else [];
    assert LagCleared !in change && LagCleared !in rapid;
    if Cleared(e.status, e.records) {
      assert Conditions(config, e.status, e.records) == rapid + [LagCleared];
      assert LagCleared in [LagCleared];
    }
  }

  /**
   An evaluation attempts lag_cleared exactly when no cooldown suppresses it, three samples are held, the newest lag
   is 0 and the one before exceeded 1000.
   */
  lemma LagClearedExactly(config: Config, run: seq<Observation>, history: seq<OffsetRecord>, group: string,
      topic: string, partition: int, n: nat)
    requires Observes(config, run, history, group, topic, partition) && n < |run| && config.windowSize >= 3
    ensures LagCleared in AttemptsAt(config, run, n) <==>
            !SuppressedAt(config, run, n) && n >= 2 && history[n].lag == 0 && history[n - 1].lag > 1000
  {
    LagClearedComesLast(config, Before(config, run, n), run[n]);
    assert Looks(config, run[n], history[..n + 1], group, topic, partition);
    ClearedSeen(config, run[n], history, n, group, topic, partition);
  }

  /** The growth of the lag that the evaluator sees is more than the rate: none while it has too few records. */
  predicate SeesGrowth(config: Config, w: seq<OffsetRecord>, rate: real)
    requires w != []
  {
    if |w| < config.minWindowSize then rate < 0.0 else LagGrowsBy(w, rate)
  }

  lemma RapidSeen(config: Config, e: Observation, history: seq<OffsetRecord>, group: string, topic: string,
      partition: int)
    requires Looks(config, e, history, group, topic, partition) && e.records != []
    requires Chronological(history)
    ensures RapidIncrease(config, e.status) <==>
            && e.records[|e.records| - 1].lag > 1000
            && SeesGrowth(config, e.records, config.rapidLagIncreaseRate * 2.0)
  {
    VerdictReportsNewest(config, e.records, group, topic, partition);
    VerdictMeasures(config, e.records, group, topic, partition);
    assert e.records[0].at <= e.records[|e.records| - 1].at;
    GrowthIsRate(e.records, config.rapidLagIncreaseRate * 2.0);
  }

  /**
   An evaluation attempts rapid_lag_increase exactly when no cooldown suppresses it, the newest lag exceeds 1000 and
   from the first sample in the window to the newest the lag grew by more than twice the configured rate.
   */
  lemma RapidIncreaseExactly(config: Config, run: seq<Observation>, history: seq<OffsetRecord>, group: string,
      topic: string, partition: int, n: nat)
    requires Observes(config, run, history, group, topic, partition) && Chronological(history)
    requires n < |run| && config.windowSize >= 1
    ensures var w := WindowOf(history[..n + 1], config.windowSize);
            && w != []
            && (RapidLagIncrease in AttemptsAt(config, run, n) <==>
                  && !SuppressedAt(config, run, n) && history[n].lag > 1000
                  && SeesGrowth(config, w, config.rapidLagIncreaseRate * 2.0))
  {
    assert Looks(config, run[n], history[..n + 1], group, topic, partition);
    WindowEnds(history, n, config.windowSize);
    RapidSeen(config, run[n], history[..n + 1], group, topic, partition);
    RapidIsAttempted(config, Before(config, run, n), run[n]);
  }

  /** Between two lag_cleared attempts of a key lies a lag above 1000: the last one before the later attempt. */
  lemma LagRisesBetweenClears(config: Config, run: seq<Observation>, history: seq<OffsetRecord>, group: string,
      topic: string, partition: int, i: nat, j: nat)
    requires Observes(config, run, history, group, topic, partition) && i < j < |run| && config.windowSize >= 3
    requires LagCleared in AttemptsAt(config, run, i) && LagCleared in AttemptsAt(config, run, j)
    ensures i < j - 1 && history[j - 1].lag > 1000
  {
    assert history[i].lag == 0 by { LagClearedExactly(config, run, history, group, topic, partition, i); }
    assert history[j - 1].lag > 1000 by { LagClearedExactly(config, run, history, group, topic, partition, j); }
  }

  lemma PrefixGaps(history: seq<OffsetRecord>, n: nat, g: nat)
    requires GapsAtMost(history, g) && n <= |history|
    ensures GapsAtMost(history[..n], g)
  {
  }

  lemma StatusesDoNotJump(config: Config, d: Observation, e: Observation, history: seq<OffsetRecord>,
      record: OffsetRecord, group: string, topic: string, partition: int, g: nat)
    requires Looks(config, d, history, group, topic, partition)
    requires Looks(config, e, history + [record], group, topic, partition)
    requires GapsAtMost(history + [record], g)
    requires config.windowSize >= 2 ==> Min(4, config.windowSize - 1) * g <= config.inactivityTimeout
    ensures !(d.status.status in {Active, Lagging} && e.status.status == Stopped)
  {
    StatusSeen(config, d, history, group, topic, partition);
    StatusSeen(config, e, history + [record], group, topic, partition);
    if d.status.status in {Active, Lagging} {
      NoDirectStop(config, history, record, g);
    }
  }

  lemma NeighboursDoNotJump(config: Config, run: seq<Observation>, history: seq<OffsetRecord>, group: string,
      topic: string, partition: int, g: nat, n: nat)
    requires Observes(config, run, history, group, topic, partition) && 1 <= n < |run|
    requires GapsAtMost(history, g)
    requires config.windowSize >= 2 ==> Min(4, config.windowSize - 1) * g <= config.inactivityTimeout
    ensures !(run[n - 1].status.status in {Active, Lagging} && run[n].status.status == Stopped)
  {
    assert Looks(config, run[n - 1], history[..n], group, topic, partition);
    assert history[..n + 1] == history[..n] + [history[n]];
    PrefixGaps(history, n + 1, g);
    StatusesDoNotJump(config, run[n - 1], run[n], history[..n], history[n], group, topic, partition, g);
  }

  /** An attempt at consumer_stopped shows the statuses on both sides of the change. */
  lemma StopFollowsMotion(config: Config, run: seq<Observation>, n: nat)
    requires n < |run| && ConsumerStopped in AttemptsAt(config, run, n)
    ensures Before(config, run, n).previous in {Some(Active), Some(Lagging)}
    ensures run[n].status.status == Stopped
    ensures n >= 1 && (!SuppressedAt(config, run, n - 1) ==> run[n - 1].status.status in {Active, Lagging})
  {
    ChangeComesFirst(config, Before(config, run, n), run[n], ConsumerStopped);
    PreviousAfterOne(config, run, n);
  }

  /**
   When four sample gaps, or as many as the window spans, fit in the inactivity timeout, consumer_stopped is attempted
   only after a cooldown has skipped the evaluation just before, with the remembered status frozen at ACTIVE or LAGGING.
   */
  lemma StoppedOnlyAfterSkip(config: Config, run: seq<Observation>, history: seq<OffsetRecord>, group: string,
      topic: string, partition: int, g: nat, n: nat)
    requires Observes(config, run, history, group, topic, partition) && n < |run|
    requires GapsAtMost(history, g)
    requires config.windowSize >= 2 ==> Min(4, config.windowSize - 1) * g <= config.inactivityTimeout
    requires ConsumerStopped in AttemptsAt(config, run, n)
    ensures n >= 1 && SuppressedAt(config, run, n - 1)
    ensures Before(config, run, n).previous in {Some(Active), Some(Lagging)}
  {
    StopFollowsMotion(config, run, n);
    NeighboursDoNotJump(config, run, history, group, topic, partition, g, n);
  }

  // ----- runs of the publisher -----

  /** Samples as a partition yields them: neither time nor watermark falls back, and the lag is what is left to read. */
  ghost predicate Natural(history: seq<OffsetRecord>) {
    && Chronological(history)
    && (forall i, j :: 0 <= i <= j < |history| ==> history[i].highWatermark <= history[j].highWatermark)
    && (forall i :: 0 <= i < |history| ==> 0 <= history[i].lag == history[i].highWatermark - history[i].offset)
  }

  /** A run of the analyzer over a history, with the surroundings of each evaluation's publishes. */
  datatype Trace = Trace(history: seq<OffsetRecord>, run: seq<Observation>, ios: seq<EventType -> PublishIO>)

  /** The server before evaluation n, when the run's own publishes are all that reach it. */
  function ServerAt(config: Config, p: EventPublisher, r: RedisState, trace: Trace, n: nat): RedisState
    requires n <= |trace.run| == |trace.ios|
  {
    if n == 0 then r
    else
      PublishEach(p, ServerAt(config, p, r, trace, n - 1), trace.run[n - 1].status,
        AttemptsAt(config, trace.run, n - 1), trace.ios[n - 1])
  }

  /** The run evaluates the samples of the history, and each publish goes as the publisher makes it go. */
  ghost predicate IsTrace(config: Config, p: EventPublisher, r: RedisState, trace: Trace, group: string, topic: string,
      partition: int)
  {
    && Natural(trace.history) && Monotone(trace.run) && |trace.run| == |trace.ios|
    && Observes(config, trace.run, trace.history, group, topic, partition)
    && forall n :: 0 <= n < |trace.run| ==>
         Wired(config, p, Before(config, trace.run, n), trace.run[n], ServerAt(config, p, r, trace, n), trace.ios[n])
  }

  // ----- runs whose publishes all fail -----

  /** The server cannot be reached. */
  function Down(at: int): EventType -> PublishIO {
    (t: EventType) => PublishIO(at, at, Failed(false), (i: nat) => Lost)
  }

  lemma DownFails(p: EventPublisher, r: RedisState, s: PartitionStatus, t: EventType, at: int)
    requires p.enabled
    ensures !Succeeds(p, r, s, t, Down(at))
  {
    AllTriesLost(p.config, r.stream, p.EventOf(t, s, at), Down(at)(t).xadd, 0);
  }

  lemma DownIsWired(config: Config, p: EventPublisher, k: KeyState, e: Observation, r: RedisState, at: int)
    requires p.enabled && !e.changeOk && !e.rapidOk
    ensures Wired(config, p, k, e, r, Down(at))
  {
    var change := ChangeEvent(k.previous, e.status.status);
    DownFails(p, PublishEach(p, r, e.status, Just(change), Down(at)), e.status, RapidLagIncrease, at);
    if change.Some? {
      DownFails(p, r, e.status, change.value, at);
    }
  }

  /** The run over a history that evaluates each sample as it is taken and never gets an event out. */
  function FailingRun(config: Config, history: seq<OffsetRecord>, group: string, topic: string, partition: int)
    : seq<Observation>
  {
    seq(|history|, i requires 0 <= i < |history| =>
      var w := WindowOf(history[..i + 1], config.windowSize);
      var at := history[i].at;
      Observation(Evaluate(config, w, group, topic, partition), w, at, false, at, false, at))
  }

  function FailingTrace(config: Config, history: seq<OffsetRecord>, group: string, topic: string, partition: int)
    : Trace
  {
    Trace(history, FailingRun(config, history, group, topic, partition),
      seq(|history|, i requires 0 <= i < |history| => Down(history[i].at)))
  }

  lemma FailingRunObserves(config: Config, history: seq<OffsetRecord>, group: string, topic: string, partition: int)
    requires Chronological(history)
    ensures var run := FailingRun(config, history, group, topic, partition);
            Observes(config, run, history, group, topic, partition) && Monotone(run)
  {
  }

  lemma FailingTraceIsTrace(config: Config, p: EventPublisher, r: RedisState, history: seq<OffsetRecord>, group: string,
      topic: string, partition: int)
    requires Natural(history) && p.enabled
    ensures IsTrace(config, p, r, FailingTrace(config, history, group, topic, partition), group, topic, partition)
  {
    var trace := FailingTrace(config, history, group, topic, partition);
    FailingRunObserves(config, history, group, topic, partition);
    forall n | 0 <= n < |trace.run|
      ensures Wired(config, p, Before(config, trace.run, n), trace.run[n], ServerAt(config, p, r, trace, n),
                trace.ios[n])
    {
      DownIsWired(config, p, Before(config, trace.run, n), trace.run[n], ServerAt(config, p, r, trace, n),
        history[n].at);
    }
  }

  lemma {:induction false} FailuresSuppressNothing(config: Config, run: seq<Observation>, n: nat)
    requires n <= |run| && forall i :: 0 <= i < |run| ==> !run[i].changeOk && !run[i].rapidOk
    ensures Before(config, run, n).lastEvent == None
  {
    if n > 0 {
      FailuresSuppressNothing(config, run, n - 1);
      OneStep(config, run, n - 1);
    }
  }

  /** In such a run every change of status is acted on. */
  lemma FailingRunAttempts(config: Config, history: seq<OffsetRecord>, group: string, topic: string, partition: int,
      n: nat)
    requires 1 <= n < |history|
    ensures var run := FailingRun(config, history, group, topic, partition);
            && !SuppressedAt(config, run, n - 1) && !SuppressedAt(config, run, n)
            && Before(config, run, n).previous == Some(StatusAt(config, history[..n]))
            && run[n].status.status == StatusAt(config, history[..n + 1])
  {
    var run := FailingRun(config, history, group, topic, partition);
    FailuresSuppressNothing(config, run, n - 1);
    FailuresSuppressNothing(config, run, n);
    PreviousAfterOne(config, run, n);
    StatusSeen(config, run[n - 1], history[..n], group, topic, partition);
    StatusSeen(config, run[n], history[..n + 1], group, topic, partition);
  }

  // ----- stops that follow no skip -----

  /** A run with gaps of at most g attempts consumer_stopped right after an evaluation that nothing suppressed. */
  ghost predicate StopsUnskipped(config: Config, p: EventPublisher, r: RedisState, trace: Trace, group: string,
      topic: string, partition: int, g: nat, n: nat)
  {
    && IsTrace(config, p, r, trace, group, topic, partition) && GapsAtMost(trace.history, g)
    && 1 <= n < |trace.run| && !SuppressedAt(config, trace.run, n - 1)
    && ConsumerStopped in AttemptsAt(config, trace.run, n)
  }

  lemma ObservedStatus(config: Config, run: seq<Observation>, history: seq<OffsetRecord>, group: string,
      topic: string, partition: int, n: nat)
    requires Observes(config, run, history, group, topic, partition) && n < |run|
    ensures run[n].status.status == StatusAt(config, history[..n + 1])
  {
    StatusSeen(config, run[n], history[..n + 1], group, topic, partition);
  }

  lemma NeighbourStatuses(config: Config, run: seq<Observation>, history: seq<OffsetRecord>, group: string,
      topic: string, partition: int, n: nat)
    requires Observes(config, run, history, group, topic, partition) && 1 <= n < |run|
    ensures run[n - 1].status.status == StatusAt(config, history[..n])
    ensures run[n].status.status == StatusAt(config, history[..n] + [history[n]])
  {
    ObservedStatus(config, run, history, group, topic, partition, n - 1);
    assert run[n].status.status == StatusAt(config, history[..n] + [history[n]]) by {
      ObservedStatus(config, run, history, group, topic, partition, n);
      assert history[..n + 1] == history[..n] + [history[n]];
    }
  }

  lemma PrefixIsPaced(history: seq<OffsetRecord>, n: nat, g: nat)
    requires Chronological(history) && GapsAtMost(history, g) && n < |history|
    ensures Chronological(history[..n] + [history[n]]) && GapsAtMost(history[..n] + [history[n]], g)
  {
    assert history[..n] + [history[n]] == history[..n + 1];
    PrefixGaps(history, n + 1, g);
  }

  lemma UnskippedStopIsDirect(config: Config, run: seq<Observation>, history: seq<OffsetRecord>, group: string,
      topic: string, partition: int, g: nat, n: nat)
    requires Observes(config, run, history, group, topic, partition) && Chronological(history) && GapsAtMost(history, g)
    requires 1 <= n < |run| && !SuppressedAt(config, run, n - 1) && ConsumerStopped in AttemptsAt(config, run, n)
    ensures StopsDirectly(config, history[..n], history[n], g)
  {
    assert run[n - 1].status.status in {Active, Lagging} && run[n].status.status == Stopped by {
      StopFollowsMotion(config, run, n);
    }
    NeighbourStatuses(config, run, history, group, topic, partition, n);
    PrefixIsPaced(history, n, g);
  }

  lemma StopIsAttempted(config: Config, k: KeyState, e: Observation)
    requires !Suppressed(k, e.now) && k.previous in {Some(Active), Some(Lagging)} && e.status.status == Stopped
    ensures ConsumerStopped in Attempts(config, k, e)
  {
    ChangeComesFirst(config, k, e, ConsumerStopped);
  }

  lemma FailingRunStops(config: Config, history: seq<OffsetRecord>, group: string, topic: string, partition: int,
      n: nat)
    requires 1 <= n < |history|
    requires StatusAt(config, history[..n]) in {Active, Lagging} && StatusAt(config, history[..n + 1]) == Stopped
    ensures var run := FailingRun(config, history, group, topic, partition);
            !SuppressedAt(config, run, n - 1) && ConsumerStopped in AttemptsAt(config, run, n)
  {
    var run := FailingRun(config, history, group, topic, partition);
    FailingRunAttempts(config, history, group, topic, partition, n);
    StopIsAttempted(config, Before(config, run, n), run[n]);
  }

  lemma MoveIsNatural(n: nat, m: nat, offset: int, g: nat)
    requires offset >= 0
    ensures Natural(OneMove(n, m, offset, g)) && GapsAtMost(OneMove(n, m, offset, g), g)
  {
    PacedGaps(OneMove(n, m, offset, g), g);
  }

  lemma DirectStopHistory(config: Config, g: nat) returns (history: seq<OffsetRecord>, n: nat)
    requires CanStopDirectly(config, g)
    ensures 1 <= n < |history| && Natural(history) && GapsAtMost(history, g)
    ensures StatusAt(config, history[..n]) in {Active, Lagging} && StatusAt(config, history[..n + 1]) == Stopped
  {
    n := config.windowSize;
    history := DirectStop(config, g);
    assert history[..n + 1] == history;
    DirectStopJumps(config, g);
    FarEnoughOver(config, g);
    MoveIsNatural(n + 1, Min(5, n), FarEnough(config.stalledRate, (n - 1) * g), g);
  }

  lemma UnskippedStopHappens(config: Config, p: EventPublisher, r: RedisState, group: string, topic: string,
      partition: int, g: nat) returns (trace: Trace, n: nat)
    requires CanStopDirectly(config, g) && p.enabled
    ensures StopsUnskipped(config, p, r, trace, group, topic, partition, g, n)
  {
    var history;
    history, n := DirectStopHistory(config, g);
    trace := FailingTrace(config, history, group, topic, partition);
    FailingTraceIsTrace(config, p, r, history, group, topic, partition);
    FailingRunStops(config, history, group, topic, partition, n);
  }

  lemma UnskippedStopNeeds(config: Config, p: EventPublisher, r: RedisState, trace: Trace, group: string,
      topic: string, partition: int, g: nat, n: nat)
    requires StopsUnskipped(config, p, r, trace, group, topic, partition, g, n)
    ensures CanStopDirectly(config, g)
  {
    UnskippedStopIsDirect(config, trace.run, trace.history, group, topic, partition, g, n);
    DirectStopNeeds(config, trace.history[..n], trace.history[n], g);
  }

  /**
   With gaps of at most g, some run attempts consumer_stopped with no cooldown skipping the evaluation before exactly
   when a jump straight to STOPPED is possible at all.
   */
  lemma UnskippedStopIff(config: Config, p: EventPublisher, r: RedisState, group: string, topic: string,
      partition: int, g: nat)
    requires p.enabled
    ensures (exists trace, n :: StopsUnskipped(config, p, r, trace, group, topic, partition, g, n)) <==>
            CanStopDirectly(config, g)
  {
    forall trace, n | StopsUnskipped(config, p, r, trace, group, topic, partition, g, n)
      ensures CanStopDirectly(config, g)
    {
      UnskippedStopNeeds(config, p, r, trace, group, topic, partition, g, n);
    }
    if CanStopDirectly(config, g) {
      var trace, n := UnskippedStopHappens(config, p, r, group, topic, partition, g);
    }
  }

  // ----- recoveries that come with a rapid increase -----

  /** A run attempts a recovery and a rapid increase in one evaluation. */
  ghost predicate Mixes(config: Config, p: EventPublisher, r: RedisState, trace: Trace, group: string, topic: string,
      partition: int, n: nat)
  {
    && IsTrace(config, p, r, trace, group, topic, partition) && n < |trace.run|
    && ConsumerRecovered in AttemptsAt(config, trace.run, n) && RapidLagIncrease in AttemptsAt(config, trace.run, n)
  }

  /** n samples of which the last one gains offsets and loses drop messages of lag in the given seconds. */
  function LastMoves(n: nat, gain: int, drop: int, seconds: int): seq<OffsetRecord> {
    seq(n, i => if i == n - 1 then OffsetRecord(gain, gain + 1001, 1001, seconds * NANOS_PER_SECOND)
                else OffsetRecord(0, 1001 + drop, 1001 + drop, 0))
  }

  lemma LastMoveIsNatural(n: nat, gain: int, drop: int, seconds: int)
    requires 0 <= drop <= gain && seconds >= 0
    ensures Natural(LastMoves(n, gain, drop, seconds))
  {
  }

  lemma LastMovesRates(n: nat, gain: int, drop: int, seconds: int)
    requires n >= 2 && gain > 0 && seconds > 0
    ensures var w := LastMoves(n, gain, drop, seconds);
            && IsActive(w)
            && ConsumptionRate(w) * seconds as real == gain as real
            && LagChangeRate(w) * seconds as real == -(drop as real)
  {
    var w := LastMoves(n, gain, drop, seconds);
    assert RunLength(w) == 1;
    ActivityScansAgree(w);
    assert Seconds(seconds * NANOS_PER_SECOND - 0) == seconds as real;
    QuotientTimes(gain as real, seconds as real);
    QuotientTimes((1001 - (1001 + drop)) as real, seconds as real);
    assert w[0] == OffsetRecord(0, 1001 + drop, 1001 + drop, 0);
    assert w[n - 1] == OffsetRecord(gain, gain + 1001, 1001, seconds * NANOS_PER_SECOND);
  }

  /** For any a > 0 some drop over some seconds has a rate of at least a but below 2a. */
  lemma RateBetween(a: real) returns (drop: int, seconds: int)
    requires a > 0.0
    ensures seconds > 0 && a * seconds as real <= drop as real < 2.0 * (a * seconds as real)
  {
    seconds := (1.0 / a).Floor + 1;
    var rise := a * seconds as real;
    assert rise > 1.0 by {
      QuotientTimes(1.0, a);
      ProductOrder(1.0 / a, seconds as real, a);
    }
    drop := rise.Floor + 1;
    assert rise < drop as real <= rise + 1.0;
  }

  /** How the last sample must move for the window to be ACTIVE and yet show a rapid increase. */
  ghost predicate MovesRapidly(config: Config, gain: int, drop: int, seconds: int) {
    forall n: nat :: 2 <= n && config.minWindowSize <= n ==>
      var w := LastMoves(n, gain, drop, seconds);
      StatusFor(config, w) == Active && LagChangeRate(w) > config.rapidLagIncreaseRate * 2.0
  }

  lemma ActiveAndRapid(config: Config, n: nat, gain: int, drop: int, seconds: int)
    requires 2 <= n && config.minWindowSize <= n && seconds > 0 && gain > 0
    requires config.stalledRate * seconds as real <= gain as real
    requires -config.rapidLagIncreaseRate * seconds as real <= drop as real
    requires drop as real < 2.0 * (-config.rapidLagIncreaseRate * seconds as real)
    ensures var w := LastMoves(n, gain, drop, seconds);
            StatusFor(config, w) == Active && LagChangeRate(w) > config.rapidLagIncreaseRate * 2.0
  {
    var r, t, w := config.rapidLagIncreaseRate, seconds as real, LastMoves(n, gain, drop, seconds);
    LastMovesRates(n, gain, drop, seconds);
    assert ConsumptionRate(w) >= config.stalledRate by { ProductOrder(config.stalledRate, ConsumptionRate(w), t); }
    assert LagChangeRate(w) <= r by { ProductOrder(LagChangeRate(w), r, t); }
    assert LagChangeRate(w) > r * 2.0 by { ProductOrder(r * 2.0, LagChangeRate(w), t); }
  }

  lemma RapidMove(config: Config) returns (gain: int, drop: int, seconds: int)
    requires config.rapidLagIncreaseRate < 0.0
    ensures MovesRapidly(config, gain, drop, seconds) && 0 < drop <= gain && seconds > 0
  {
    var r := config.rapidLagIncreaseRate;
    drop, seconds := RateBetween(-r);
    var t := seconds as real;
    assert drop as real > 0.0 by { ProductOrder(0.0, -r, t); }
    gain := if (config.stalledRate * t).Floor < drop then drop else (config.stalledRate * t).Floor + 1;
    forall n: nat | 2 <= n && config.minWindowSize <= n
      ensures var w := LastMoves(n, gain, drop, seconds);
              StatusFor(config, w) == Active && LagChangeRate(w) > r * 2.0
    {
      ActiveAndRapid(config, n, gain, drop, seconds);
    }
  }

  lemma StillIsStuck(config: Config, w: seq<OffsetRecord>)
    requires w != [] && config.minWindowSize <= |w| && SharesOffset(w, |w|) && w[|w| - 1].lag != 0
    ensures StatusFor(config, w) in {Stopped, Stalled}
  {
    RunLengthIsLongest(w, |w|);
    ActivityScansAgree(w);
  }

  lemma RecoveryWithRapidIncrease(config: Config, k: KeyState, e: Observation)
    requires !Suppressed(k, e.now) && k.previous in {Some(Stopped), Some(Stalled)} && e.status.status == Active
    requires RapidIncrease(config, e.status)
    ensures ConsumerRecovered in Attempts(config, k, e) && RapidLagIncrease in Attempts(config, k, e)
  {
    ChangeComesFirst(config, k, e, ConsumerRecovered);
    assert Conditions(config, e.status, e.records)[0] == RapidLagIncrease;
    assert RapidLagIncrease in Conditions(config, e.status, e.records);
  }

  lemma FailingRunMixes(config: Config, history: seq<OffsetRecord>, group: string, topic: string, partition: int,
      n: nat)
    requires 1 <= n < |history|
    requires StatusAt(config, history[..n]) in {Stopped, Stalled} && StatusAt(config, history[..n + 1]) == Active
    requires RapidIncrease(config, FailingRun(config, history, group, topic, partition)[n].status)
    ensures var run := FailingRun(config, history, group, topic, partition);
            ConsumerRecovered in AttemptsAt(config, run, n) && RapidLagIncrease in AttemptsAt(config, run, n)
  {
    var run := FailingRun(config, history, group, topic, partition);
    FailingRunAttempts(config, history, group, topic, partition, n);
    RecoveryWithRapidIncrease(config, Before(config, run, n), run[n]);
  }

  lemma WindowOfMoves(n: nat, size: nat, gain: int, drop: int, seconds: int)
    ensures WindowOf(LastMoves(n, gain, drop, seconds), size) == LastMoves(Min(n, size), gain, drop, seconds)
  {
  }

  lemma StuckBeforeMove(config: Config, n: nat, gain: int, drop: int, seconds: int)
    requires drop > 0 && 1 <= n <= config.windowSize && config.minWindowSize <= n
    ensures StatusAt(config, LastMoves(n + 1, gain, drop, seconds)[..n]) in {Stopped, Stalled}
  {
    StillIsStuck(config, LastMoves(n + 1, gain, drop, seconds)[..n]);
  }

  lemma ActiveAfterMove(config: Config, n: nat, gain: int, drop: int, seconds: int)
    requires MovesRapidly(config, gain, drop, seconds)
    requires 2 <= n <= config.windowSize && config.minWindowSize <= n
    ensures StatusAt(config, LastMoves(n + 1, gain, drop, seconds)) == Active
  {
    WindowOfMoves(n + 1, config.windowSize, gain, drop, seconds);
  }

  lemma RapidAfterMove(config: Config, w: seq<OffsetRecord>, gain: int, drop: int, seconds: int, group: string,
      topic: string, partition: int)
    requires MovesRapidly(config, gain, drop, seconds) && 2 <= |w| && config.minWindowSize <= |w|
    requires w == LastMoves(|w|, gain, drop, seconds)
    ensures RapidIncrease(config, Evaluate(config, w, group, topic, partition))
  {
    assert w[|w| - 1].lag == 1001;
  }

  lemma FailingRunStatus(config: Config, history: seq<OffsetRecord>, w: seq<OffsetRecord>, group: string,
      topic: string, partition: int, n: nat)
    requires n < |history| && w == WindowOf(history[..n + 1], config.windowSize)
    ensures FailingRun(config, history, group, topic, partition)[n].status ==
            Evaluate(config, w, group, topic, partition)
  {
  }

  lemma MovingRunIsRapid(config: Config, n: nat, gain: int, drop: int, seconds: int, group: string, topic: string,
      partition: int)
    requires MovesRapidly(config, gain, drop, seconds)
    requires 2 <= n <= config.windowSize && config.minWindowSize <= n
    ensures var history := LastMoves(n + 1, gain, drop, seconds);
            RapidIncrease(config, FailingRun(config, history, group, topic, partition)[n].status)
  {
    var history := LastMoves(n + 1, gain, drop, seconds);
    var w := LastMoves(Min(n + 1, config.windowSize), gain, drop, seconds);
    assert w == WindowOf(history[..n + 1], config.windowSize) by {
      assert history[..n + 1] == history;
      WindowOfMoves(n + 1, config.windowSize, gain, drop, seconds);
    }
    RapidAfterMove(config, w, gain, drop, seconds, group, topic, partition);
    FailingRunStatus(config, history, w, group, topic, partition, n);
  }

  lemma MovingRunMixes(config: Config, n: nat, gain: int, drop: int, seconds: int, group: string, topic: string,
      partition: int)
    requires MovesRapidly(config, gain, drop, seconds) && drop > 0
    requires 2 <= n <= config.windowSize && config.minWindowSize <= n
    ensures var run := FailingRun(config, LastMoves(n + 1, gain, drop, seconds), group, topic, partition);
            ConsumerRecovered in AttemptsAt(config, run, n) && RapidLagIncrease in AttemptsAt(config, run, n)
  {
    var history := LastMoves(n + 1, gain, drop, seconds);
    StuckBeforeMove(config, n, gain, drop, seconds);
    assert StatusAt(config, history[..n + 1]) == Active by {
      assert history[..n + 1] == history;
      ActiveAfterMove(config, n, gain, drop, seconds);
    }
    MovingRunIsRapid(config, n, gain, drop, seconds, group, topic, partition);
    FailingRunMixes(config, history, group, topic, partition, n);
  }

  lemma StillThenMoving(config: Config, p: EventPublisher, r: RedisState, group: string, topic: string, partition: int)
    returns (trace: Trace, n: nat)
    requires config.rapidLagIncreaseRate < 0.0 && p.enabled
    requires 2 <= config.windowSize && config.minWindowSize <= config.windowSize
    ensures Mixes(config, p, r, trace, group, topic, partition, n)
  {
    var gain, drop, seconds := RapidMove(config);
    n := if config.minWindowSize < 2 then 2 else config.minWindowSize;
    var history := LastMoves(n + 1, gain, drop, seconds);
    trace := FailingTrace(config, history, group, topic, partition);
    LastMoveIsNatural(n + 1, gain, drop, seconds);
    FailingTraceIsTrace(config, p, r, history, group, topic, partition);
    MovingRunMixes(config, n, gain, drop, seconds, group, topic, partition);
  }

  lemma MixingNeeds(config: Config, k: KeyState, e: Observation, history: seq<OffsetRecord>, group: string,
      topic: string, partition: int)
    requires Looks(config, e, history, group, topic, partition)
    requires ConsumerRecovered in Attempts(config, k, e) && RapidLagIncrease in Attempts(config, k, e)
    ensures config.rapidLagIncreaseRate < 0.0
    ensures 2 <= config.windowSize && config.minWindowSize <= config.windowSize
  {
    AttemptsCombine(config, k, e, group, topic, partition);
    ChangeComesFirst(config, k, e, ConsumerRecovered);
    RapidIsAttempted(config, k, e);
    StatusSeen(config, e, history, group, topic, partition);
    VerdictIsConsistent(config, e.records, group, topic, partition);
    MovingNeeds(config, history);
  }

  /**
   A recovery and a rapid increase can be attempted together, in some run, exactly when the rate is negative and the
   window holds two samples and as many as the evaluator asks for.
   */
  lemma RecoveryMixesIff(config: Config, p: EventPublisher, r: RedisState, group: string, topic: string,
      partition: int)
    requires p.enabled
    ensures (exists trace, n :: Mixes(config, p, r, trace, group, topic, partition, n)) <==>
            && config.rapidLagIncreaseRate < 0.0
            && 2 <= config.windowSize && config.minWindowSize <= config.windowSize
  {
    forall trace, n: nat | Mixes(config, p, r, trace, group, topic, partition, n)
      ensures config.rapidLagIncreaseRate < 0.0
      ensures 2 <= config.windowSize && config.minWindowSize <= config.windowSize
    {
      assert Looks(config, trace.run[n], trace.history[..n + 1], group, topic, partition);
      MixingNeeds(config, Before(config, trace.run, n), trace.run[n], trace.history[..n + 1], group, topic, partition);
    }
    if config.rapidLagIncreaseRate < 0.0 && 2 <= config.windowSize && config.minWindowSize <= config.windowSize {
      var trace, n := StillThenMoving(config, p, r, group, topic, partition);
    }
  }
}
