/** What the analyzer does over whole runs of evaluations. */
module AnalyzerRuns {
  import opened Wrappers
  import opened LagTypes
  import opened Evaluation
  import opened Expiring
  import opened Keys
  import opened Publishing
  import opened Analyzer

  // ----- many keys -----

  /** The two maps after a run of evaluations of any partitions. */
  function MemoryAfter(config: Config, run: seq<Observation>): Memory {
    if run == [] then BLANK else Remember(config, MemoryAfter(config, run[..|run| - 1]), run[|run| - 1])
  }

  /** The state of one key after its own evaluations. */
  function Run(config: Config, run: seq<Observation>): KeyState {
    if run == [] then KeyState(None, None)
    else Evaluated(config, Run(config, run[..|run| - 1]), run[|run| - 1])
  }

  function GoesUnder(key: string): Observation -> bool {
    (e: Observation) => StatusKey(e.status) == key
  }

  /** The evaluations of a run that go under one key. */
  function Only(run: seq<Observation>, key: string): seq<Observation> {
    Filtered(run, GoesUnder(key))
  }

  function LooksAt(group: string, topic: string, partition: int): Observation -> bool {
    (e: Observation) => e.status.group == group && e.status.topic == topic && e.status.partition == partition
  }

  /** The evaluations of a run that look at one partition. */
  function About(run: seq<Observation>, group: string, topic: string, partition: int): seq<Observation> {
    Filtered(run, LooksAt(group, topic, partition))
  }

  /** One evaluation moves the state under its own key as Evaluated says, and no other. */
  lemma RememberOne(config: Config, m: Memory, e: Observation, key: string)
    ensures LookUp(Remember(config, m, e), key) ==
            if StatusKey(e.status) == key then Evaluated(config, LookUp(m, key), e) else LookUp(m, key)
  {
  }

  lemma RunOneMore(config: Config, run: seq<Observation>, e: Observation)
    ensures Run(config, run + [e]) == Evaluated(config, Run(config, run), e)
  {
    assert (run + [e])[..|run|] == run;
  }

  /** What the maps hold under a key is the state after the evaluations under that key, in order. */
  lemma {:induction false} LookUpIsOwnRun(config: Config, run: seq<Observation>, key: string)
    ensures LookUp(MemoryAfter(config, run), key) == Run(config, Only(run, key))
  {
    if run != [] {
      var front, last := run[..|run| - 1], run[|run| - 1];
      LookUpIsOwnRun(config, front, key);
      RememberOne(config, MemoryAfter(config, front), last, key);
      RunOneMore(config, Only(front, key), last);
    }
  }

  ghost predicate TopicsAreColonFree(run: seq<Observation>) {
    forall i :: 0 <= i < |run| ==> ColonFree(run[i].status.topic)
  }

  lemma {:induction false} OwnKeyIsOwnPartition(run: seq<Observation>, group: string, topic: string, partition: int)
    requires TopicsAreColonFree(run) && ColonFree(topic)
    ensures Only(run, Key(group, topic, partition)) == About(run, group, topic, partition)
  {
    if run != [] {
      OwnKeyIsOwnPartition(run[..|run| - 1], group, topic, partition);
      var s := run[|run| - 1].status;
      if StatusKey(s) == Key(group, topic, partition) {
        KeyIsInjective(s.group, s.topic, s.partition, group, topic, partition);
      }
    }
  }

  /**
   With colon-free topics, partitions do not interfere: what the maps hold for one is the state after the evaluations
   of that very group, topic and partition, in order.
   */
  lemma PartitionsAreIndependent(config: Config, run: seq<Observation>, group: string, topic: string, partition: int)
    requires TopicsAreColonFree(run) && ColonFree(topic)
    ensures LookUp(MemoryAfter(config, run), Key(group, topic, partition)) ==
            Run(config, About(run, group, topic, partition))
  {
    LookUpIsOwnRun(config, run, Key(group, topic, partition));
    OwnKeyIsOwnPartition(run, group, topic, partition);
  }

  // ----- one key -----

  function Before(config: Config, run: seq<Observation>, n: nat): KeyState
    requires n <= |run|
  {
    Run(config, run[..n])
  }

  predicate SuppressedAt(config: Config, run: seq<Observation>, n: nat)
    requires n < |run|
  {
    Suppressed(Before(config, run, n), run[n].now)
  }

  function AttemptsAt(config: Config, run: seq<Observation>, n: nat): seq<EventType>
    requires n < |run|
  {
    Attempts(config, Before(config, run, n), run[n])
  }

  predicate StampedAt(config: Config, run: seq<Observation>, n: nat, t: int)
    requires n < |run|
  {
    Stamped(config, Before(config, run, n), run[n], t)
  }

  lemma OneStep(config: Config, run: seq<Observation>, n: nat)
    requires n < |run|
    ensures Before(config, run, n + 1) == Evaluated(config, Before(config, run, n), run[n])
  {
    assert run[..n + 1][..n] == run[..n];
  }

  predicate InOrder(e: Observation) {
    e.now <= e.changeAt <= e.rapidAt
  }

  /** The clock never runs backwards, within an evaluation or from one to the next. */
  ghost predicate Monotone(run: seq<Observation>) {
    && (forall i :: 0 <= i < |run| ==> InOrder(run[i]))
    && (forall i, j :: 0 <= i < j < |run| ==> run[i].rapidAt <= run[j].now)
  }

  /** The last unsuppressed evaluation before n. */
  function LastUnsuppressed(config: Config, run: seq<Observation>, n: nat): (last: Option<nat>)
    requires n <= |run|
    ensures last.Some? ==> last.value < n && !SuppressedAt(config, run, last.value)
    ensures forall i :: (if last.Some? then last.value + 1 else 0) <= i < n ==> SuppressedAt(config, run, i)
  {
    if n == 0 then None
    else if !SuppressedAt(config, run, n - 1) then Some(n - 1)
    else LastUnsuppressed(config, run, n - 1)
  }

  /** The remembered status is the status of the last unsuppressed evaluation. */
  lemma {:induction false} PreviousIsLastUnsuppressed(config: Config, run: seq<Observation>, n: nat)
    requires n <= |run|
    ensures var last := LastUnsuppressed(config, run, n);
            Before(config, run, n).previous ==
              if last.Some? then Some(run[last.value].status.status) else None
  {
    if n > 0 {
      PreviousIsLastUnsuppressed(config, run, n - 1);
      OneStep(config, run, n - 1);
    }
  }

  lemma PreviousAfterOne(config: Config, run: seq<Observation>, n: nat)
    requires n <= |run|
    ensures n == 0 ==> Before(config, run, n).previous == None
    ensures n >= 1 && !SuppressedAt(config, run, n - 1) ==>
              Before(config, run, n).previous == Some(run[n - 1].status.status)
  {
    if n >= 1 {
      OneStep(config, run, n - 1);
    }
  }

  /** A stamp lies within its evaluation, and the cooldown never falls behind one. */
  lemma StampsAreCovered(config: Config, k: KeyState, e: Observation, t: int)
    requires InOrder(e)
    ensures Stamped(config, k, e, t) ==> e.now <= t <= e.rapidAt && !Suppressed(k, e.now)
    ensures Stamped(config, k, e, t) || (k.lastEvent.Some? && t <= k.lastEvent.value && t <= e.now) ==>
              var after := Evaluated(config, k, e).lastEvent; after.Some? && t <= after.value
  {
  }

  /** The cooldown runs from a stamp at least as late as every stamp so far. */
  lemma {:induction false} CooldownCoversStamps(config: Config, run: seq<Observation>, i: nat, n: nat, t: int)
    requires Monotone(run) && i < n <= |run| && StampedAt(config, run, i, t)
    ensures var last := Before(config, run, n).lastEvent; last.Some? && t <= last.value
    decreases n
  {
    OneStep(config, run, n - 1);
    if i < n - 1 {
      CooldownCoversStamps(config, run, i, n - 1, t);
      StampsAreCovered(config, Before(config, run, i), run[i], t);
    }
    StampsAreCovered(config, Before(config, run, n - 1), run[n - 1], t);
  }

  /** Stamped publishes of different evaluations of a key are at least the cooldown apart. */
  lemma StampsAreApart(config: Config, run: seq<Observation>, i: nat, j: nat, s: int, t: int)
    requires Monotone(run) && i < j < |run|
    requires StampedAt(config, run, i, s) && StampedAt(config, run, j, t)
    ensures t - s >= 300 * NANOS_PER_SECOND
  {
    CooldownCoversStamps(config, run, i, j, s);
    StampsAreCovered(config, Before(config, run, j), run[j], t);
  }

  /** The events that follow a change of status are attempted exactly when the change calls for them. */
  lemma ChangeComesFirst(config: Config, k: KeyState, e: Observation, t: EventType)
    requires t in {ConsumerStopped, ConsumerStalled, ConsumerRecovered}
    ensures t in Attempts(config, k, e) <==>
            !Suppressed(k, e.now) && ChangeEvent(k.previous, e.status.status) == Some(t)
  {
    var change := Just(ChangeEvent(k.previous, e.status.status));
    var rest := Conditions(config, e.status, e.records);
    assert forall x :: x in rest ==> x in {RapidLagIncrease, LagCleared};
    assert change != [] ==> change[0] in change;
  }

  /** The rapid increase is attempted exactly when it applies and no cooldown suppresses it. */
  lemma RapidIsAttempted(config: Config, k: KeyState, e: Observation)
    ensures RapidLagIncrease in Attempts(config, k, e) <==> !Suppressed(k, e.now) && RapidIncrease(config, e.status)
  {
    var change := Just(ChangeEvent(k.previous, e.status.status));
    assert RapidLagIncrease !in change;
    if RapidIncrease(config, e.status) {
      assert Conditions(config, e.status, e.records)[0] == RapidLagIncrease;
      assert RapidLagIncrease in Conditions(config, e.status, e.records);
    }
  }

  // ----- when the cooldown holds -----

  /** An event of a status change is attempted. */
  predicate AttemptsChange(config: Config, run: seq<Observation>, n: nat)
    requires n < |run|
  {
    || ConsumerStopped in AttemptsAt(config, run, n) || ConsumerStalled in AttemptsAt(config, run, n)
    || ConsumerRecovered in AttemptsAt(config, run, n)
  }

  /** An attempted event other than a cleared lag goes out at t. */
  predicate GoesOut(config: Config, run: seq<Observation>, n: nat, t: int)
    requires n < |run|
  {
    || (AttemptsChange(config, run, n) && run[n].changeOk && t == run[n].changeAt)
    || (RapidLagIncrease in AttemptsAt(config, run, n) && run[n].rapidOk && t == run[n].rapidAt)
  }

  lemma ChangeIsAttempted(config: Config, k: KeyState, e: Observation)
    ensures var attempts := Attempts(config, k, e);
            (ConsumerStopped in attempts || ConsumerStalled in attempts || ConsumerRecovered in attempts) <==>
              !Suppressed(k, e.now) && ChangeEvent(k.previous, e.status.status).Some?
  {
    ChangeComesFirst(config, k, e, ConsumerStopped);
    ChangeComesFirst(config, k, e, ConsumerStalled);
    ChangeComesFirst(config, k, e, ConsumerRecovered);
  }

  lemma GoesOutIsStamped(config: Config, run: seq<Observation>, n: nat, t: int)
    requires n < |run|
    ensures GoesOut(config, run, n, t) <==> StampedAt(config, run, n, t)
  {
    ChangeIsAttempted(config, Before(config, run, n), run[n]);
    RapidIsAttempted(config, Before(config, run, n), run[n]);
  }

  /** The evaluation leaves the cooldown where it was or at a stamp of its own. */
  lemma LastEventIsStamp(config: Config, k: KeyState, e: Observation)
    ensures var after := Evaluated(config, k, e).lastEvent;
            after == k.lastEvent || (after.Some? && Stamped(config, k, e, after.value))
  {
  }

  /** The cooldown runs from something that went out. */
  lemma {:induction false} LastEventWentOut(config: Config, run: seq<Observation>, n: nat) returns (i: nat)
    requires n <= |run| && Before(config, run, n).lastEvent.Some?
    ensures i < n && GoesOut(config, run, i, Before(config, run, n).lastEvent.value)
  {
    OneStep(config, run, n - 1);
    LastEventIsStamp(config, Before(config, run, n - 1), run[n - 1]);
    if Before(config, run, n).lastEvent == Before(config, run, n - 1).lastEvent {
      i := LastEventWentOut(config, run, n - 1);
    } else {
      i := n - 1;
      GoesOutIsStamped(config, run, n - 1, Before(config, run, n).lastEvent.value);
    }
  }

  /**
   An evaluation is skipped exactly when, less than five minutes before it, an earlier evaluation of the key got an
   event other than a cleared lag out.
   */
  lemma SuppressedExactly(config: Config, run: seq<Observation>, n: nat)
    requires Monotone(run) && n < |run|
    ensures SuppressedAt(config, run, n) <==>
            exists i, t :: 0 <= i < n && GoesOut(config, run, i, t) && run[n].now - t < 300 * NANOS_PER_SECOND
  {
    if SuppressedAt(config, run, n) {
      var i := LastEventWentOut(config, run, n);
      assert GoesOut(config, run, i, Before(config, run, n).lastEvent.value);
    }
    forall i, t | 0 <= i < n && GoesOut(config, run, i, t) && run[n].now - t < 300 * NANOS_PER_SECOND
      ensures SuppressedAt(config, run, n)
    {
      GoesOutIsStamped(config, run, i, t);
      CooldownCoversStamps(config, run, i, n, t);
    }
  }

  // ----- what an evaluation attempts -----

  /** The status at the last evaluation before n that was not skipped. */
  function LastLook(config: Config, run: seq<Observation>, n: nat): Option<Status>
    requires n <= |run|
  {
    var last := LastUnsuppressed(config, run, n);
    if last.Some? then Some(run[last.value].status.status) else None
  }

  /** Each event of a status change is attempted exactly at the changes it stands for. */
  lemma ChangesExactly(config: Config, run: seq<Observation>, n: nat)
    requires n < |run|
    ensures var look, status, attempts := LastLook(config, run, n), run[n].status.status, AttemptsAt(config, run, n);
            var open := !SuppressedAt(config, run, n);
            && (ConsumerStopped in attempts <==> open && status == Stopped && look in {Some(Active), Some(Lagging)})
            && (ConsumerStalled in attempts <==> open && status == Stalled && look == Some(Active))
            && (ConsumerRecovered in attempts <==>
                  open && status in {Active, Empty} && look in {Some(Stopped), Some(Stalled)})
  {
    PreviousIsLastUnsuppressed(config, run, n);
    ChangeComesFirst(config, Before(config, run, n), run[n], ConsumerStopped);
    ChangeComesFirst(config, Before(config, run, n), run[n], ConsumerStalled);
    ChangeComesFirst(config, Before(config, run, n), run[n], ConsumerRecovered);
  }

  function Turn(t: EventType): nat {
    match t
    case RapidLagIncrease => 1
    case LagCleared => 2
    case _ => 0
  }

  /** The event of the change comes first, then the rapid increase, then the cleared lag, each at most once. */
  lemma AttemptsComeInTurn(config: Config, k: KeyState, e: Observation)
    ensures var attempts := Attempts(config, k, e);
            forall a, b :: 0 <= a < b < |attempts| ==> Turn(attempts[a]) < Turn(attempts[b])
  {
  }

  // ----- what succeeds -----

  /** The evaluation publishes an event that stamps the cooldown, successfully, at t. */
  predicate Publishes(config: Config, p: EventPublisher, k: KeyState, e: Observation, r: RedisState,
      io: EventType -> PublishIO, t: int)
  {
    var change := ChangeEvent(k.previous, e.status.status);
    && !Suppressed(k, e.now)
    && ((ChangeSucceeds(p, r, e.status, change, io) && t == e.changeAt)
        || (RapidSucceeds(config, p, r, e.status, change, io) && t == e.rapidAt))
  }

  /** Stamps are made exactly where a publish succeeds on the server. */
  lemma SuccessesStamp(config: Config, p: EventPublisher, k: KeyState, e: Observation, r: RedisState,
      io: EventType -> PublishIO, t: int)
    requires Wired(config, p, k, e, r, io)
    ensures Publishes(config, p, k, e, r, io, t) <==> Stamped(config, k, e, t)
  {
  }

  /**
   Publishes of different evaluations of a key that succeed on the server are at least the cooldown apart, whatever
   happened to the server in between. (A cleared lag is not among them: it does not stamp.)
   */
  lemma SuccessesAreApart(config: Config, p: EventPublisher, run: seq<Observation>, i: nat, j: nat,
      r: RedisState, io: EventType -> PublishIO, s: int, r': RedisState, io': EventType -> PublishIO, t: int)
    requires Monotone(run) && i < j < |run|
    requires Wired(config, p, Before(config, run, i), run[i], r, io)
    requires Wired(config, p, Before(config, run, j), run[j], r', io')
    requires Publishes(config, p, Before(config, run, i), run[i], r, io, s)
    requires Publishes(config, p, Before(config, run, j), run[j], r', io', t)
    ensures t - s >= 300 * NANOS_PER_SECOND
  {
    SuccessesStamp(config, p, Before(config, run, i), run[i], r, io, s);
    SuccessesStamp(config, p, Before(config, run, j), run[j], r', io', t);
    StampsAreApart(config, run, i, j, s, t);
  }

  /**
   A consumer last looked at as STOPPED or STALLED gets a recovery attempt at the next unsuppressed evaluation that
   finds it ACTIVE or EMPTY, however many evaluations the cooldown skipped in between.
   */
  lemma RecoveryIsNoticed(config: Config, run: seq<Observation>, i: nat, n: nat)
    requires i < n < |run| && !SuppressedAt(config, run, i) && !SuppressedAt(config, run, n)
    requires forall m :: i < m < n ==> SuppressedAt(config, run, m)
    requires run[i].status.status in {Stopped, Stalled} && run[n].status.status in {Active, Empty}
    ensures ConsumerRecovered in AttemptsAt(config, run, n)
  {
    assert Before(config, run, n).previous == Some(run[i].status.status) by {
      PreviousIsLastUnsuppressed(config, run, n);
      assert LastUnsuppressed(config, run, n) == Some(i);
    }
    ChangeComesFirst(config, Before(config, run, n), run[n], ConsumerRecovered);
  }

  predicate IsChange(t: EventType) {
    t in {ConsumerStopped, ConsumerStalled, ConsumerRecovered}
  }

  lemma ChangesDiffer(before: Option<Status>, status: Status, before': Option<Status>, status': Status)
    requires ChangeEvent(before, status).Some? && ChangeEvent(before', status') == ChangeEvent(before, status)
    ensures before' != Some(status)
  {
  }

  /**
   Between two attempts at the same event of a status change the consumer was looked at with another status: the
   remembered status moves on whether or not the event was published.
   */
  lemma SameChangeNeedsAnotherStatus(config: Config, run: seq<Observation>, n: nat, m: nat, t: EventType)
    returns (between: nat)
    requires n < m < |run| && IsChange(t) && t in AttemptsAt(config, run, n) && t in AttemptsAt(config, run, m)
    ensures n < between < m && !SuppressedAt(config, run, between)
    ensures run[between].status.status != run[n].status.status
  {
    ChangeComesFirst(config, Before(config, run, n), run[n], t);
    ChangeComesFirst(config, Before(config, run, m), run[m], t);
    assert !SuppressedAt(config, run, n);
    PreviousIsLastUnsuppressed(config, run, m);
    between := LastUnsuppressed(config, run, m).value;
    ChangesDiffer(Before(config, run, n).previous, run[n].status.status, Before(config, run, m).previous,
      run[m].status.status);
  }

  lemma AttemptedOnceAtSameStatus(config: Config, run: seq<Observation>, n: nat, m: nat, t: EventType)
    requires n < m < |run| && IsChange(t) && t in AttemptsAt(config, run, n)
    requires forall i :: n < i < m && !SuppressedAt(config, run, i) ==> run[i].status.status == run[n].status.status
    ensures t !in AttemptsAt(config, run, m)
  {
    if t in AttemptsAt(config, run, m) {
      var between := SameChangeNeedsAnotherStatus(config, run, n, m, t);
    }
  }

  lemma FailedPublishLeavesStream(p: EventPublisher, r: RedisState, s: PartitionStatus, t: EventType,
      io: EventType -> PublishIO)
    requires !Succeeds(p, r, s, t, io)
    requires forall i :: 0 <= i < p.config.maxRetries ==> io(t).xadd(i) != Unconfirmed
    ensures PublishEach(p, r, s, [t], io).stream == r.stream
  {
    PublishJust(p, r, s, t, io);
    FailedPublishAppendsNothing(p.config, r, p.EventOf(t, s, io(t).stamp), io(t));
  }

  /**
   A change whose publish fails is lost: the server's stream holds nothing of it, and the event is not attempted again
   for as long as no unsuppressed evaluation finds another status.
   */
  lemma FailedChangeIsLost(config: Config, p: EventPublisher, run: seq<Observation>, n: nat, m: nat, t: EventType,
      r: RedisState, io: EventType -> PublishIO)
    requires n < m < |run| && IsChange(t) && t in AttemptsAt(config, run, n)
    requires Wired(config, p, Before(config, run, n), run[n], r, io) && !run[n].changeOk
    requires forall i :: 0 <= i < p.config.maxRetries ==> io(t).xadd(i) != Unconfirmed
    requires forall i :: n < i < m && !SuppressedAt(config, run, i) ==> run[i].status.status == run[n].status.status
    ensures PublishEach(p, r, run[n].status, [t], io).stream == r.stream
    ensures t !in AttemptsAt(config, run, m)
  {
    ChangeComesFirst(config, Before(config, run, n), run[n], t);
    FailedPublishLeavesStream(p, r, run[n].status, t, io);
    AttemptedOnceAtSameStatus(config, run, n, m, t);
  }

  // ----- which events go together -----

  /** What one evaluation attempts, given a verdict of the evaluator on the same window. */
  lemma AttemptsCombine(config: Config, k: KeyState, e: Observation, group: string, topic: string, partition: int)
    requires e.status == Evaluate(config, e.records, group, topic, partition)
    ensures |Attempts(config, k, e)| <= 2
    ensures RapidLagIncrease in Attempts(config, k, e) ==> LagCleared !in Attempts(config, k, e)
    ensures ConsumerStopped in Attempts(config, k, e) ==> LagCleared !in Attempts(config, k, e)
    ensures config.rapidLagIncreaseRate >= 0.0 && RapidLagIncrease in Attempts(config, k, e) ==>
              ConsumerRecovered !in Attempts(config, k, e)
  {
    VerdictIsConsistent(config, e.records, group, topic, partition);
  }
}
