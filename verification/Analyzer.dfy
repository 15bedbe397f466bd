/** The event analyzer: for each key, the status last looked at and the time of the last event, guarding the next. */
module Analyzer {
  import opened Wrappers
  import opened LagTypes
  import opened Evaluation
  import opened Keys
  import opened Publishing

  // Five minutes.
  const COOLDOWN: int := 300 * NANOS_PER_SECOND

  /** What the analyzer remembers about one key. */
  datatype KeyState = KeyState(previous: Option<Status>, lastEvent: Option<int>)

  /**
   One evaluation: the verdict and its window, the clock reading that the cooldown is measured at, and for the two
   publishes that stamp the cooldown whether they succeed and the clock reading then.
   */
  datatype Observation = Observation(status: PartitionStatus, records: seq<OffsetRecord>, now: int,
    changeOk: bool, changeAt: int, rapidOk: bool, rapidAt: int)

  predicate Suppressed(k: KeyState, now: int) {
    k.lastEvent.Some? && now - k.lastEvent.value < COOLDOWN
  }

  /** The event that a change of status calls for, if any. */
  function ChangeEvent(previous: Option<Status>, status: Status): Option<EventType> {
    if previous.None? || previous.value == status then None
    else match status
      case Stopped => if previous.value in {Active, Lagging} then Some(ConsumerStopped) else None
      case Stalled => if previous.value == Active then Some(ConsumerStalled) else None
      case Active => if previous.value in {Stopped, Stalled} then Some(ConsumerRecovered) else None
      case Empty => if previous.value in {Stopped, Stalled} then Some(ConsumerRecovered) else None
      case _ => None
  }

  predicate RapidIncrease(config: Config, s: PartitionStatus) {
    s.lagChangeRate > config.rapidLagIncreaseRate * 2.0 && s.currentLag > 1000
  }

  predicate Cleared(s: PartitionStatus, records: seq<OffsetRecord>) {
    s.currentLag == 0 && |records| > 2 && records[|records| - 2].lag > 1000
  }

  function Conditions(config: Config, s: PartitionStatus, records: seq<OffsetRecord>): seq<EventType> {
    (if RapidIncrease(config, s) then [RapidLagIncrease] else []) + (if Cleared(s, records) then [LagCleared] else [])
  }

  function Just(e: Option<EventType>): seq<EventType> {
    if e.Some? then [e.value] else []
  }

  /** The events one evaluation attempts to publish, in order. */
  function Attempts(config: Config, k: KeyState, e: Observation): seq<EventType> {
    if Suppressed(k, e.now) then []
    else
      Just(ChangeEvent(k.previous, e.status.status)) + Conditions(config, e.status, e.records)
  }

  /** The evaluation publishes successfully at t and stamps the cooldown then; LagCleared never stamps it. */
  predicate Stamped(config: Config, k: KeyState, e: Observation, t: int) {
    && !Suppressed(k, e.now)
    && (|| (ChangeEvent(k.previous, e.status.status).Some? && e.changeOk && t == e.changeAt)
        || (RapidIncrease(config, e.status) && e.rapidOk && t == e.rapidAt))
  }

  function Evaluated(config: Config, k: KeyState, e: Observation): KeyState {
    if Suppressed(k, e.now) then k
    else
      KeyState(Some(e.status.status),
        if RapidIncrease(config, e.status) && e.rapidOk then Some(e.rapidAt)
        else if ChangeEvent(k.previous, e.status.status).Some? && e.changeOk then Some(e.changeAt)
        else k.lastEvent)
  }

  function StatusKey(s: PartitionStatus): string {
    Key(s.group, s.topic, s.partition)
  }

  // ----- both maps -----

  /** What the analyzer remembers about all keys, as it holds it. */
  datatype Memory = Memory(previousStatuses: map<string, Status>, lastEventTime: map<string, int>)

  const BLANK: Memory := Memory(map[], map[])

  function LookUp(m: Memory, key: string): KeyState {
    KeyState(if key in m.previousStatuses then Some(m.previousStatuses[key]) else None,
      if key in m.lastEventTime then Some(m.lastEventTime[key]) else None)
  }

  /** What one evaluation does to the two maps. */
  function Remember(config: Config, m: Memory, e: Observation): Memory {
    var key := StatusKey(e.status);
    if Suppressed(LookUp(m, key), e.now) then m
    else
      var change := ChangeEvent(LookUp(m, key).previous, e.status.status);
      Memory(m.previousStatuses[key := e.status.status],
        if RapidIncrease(config, e.status) && e.rapidOk then m.lastEventTime[key := e.rapidAt]
        else if change.Some? && e.changeOk then m.lastEventTime[key := e.changeAt]
        else m.lastEventTime)
  }

  // ----- the server -----

  /** What publishing one event does to the server, each event in its own surroundings. */
  function PublishOne(p: EventPublisher, s: PartitionStatus, io: EventType -> PublishIO)
    : (RedisState, EventType) -> RedisState
  {
    (r, t) => if p.enabled then Publish(p.config, r, p.EventOf(t, s, io(t).stamp), io(t)).0 else r
  }

  /** The server after publishing the events in order. */
  function PublishEach(p: EventPublisher, r: RedisState, s: PartitionStatus, events: seq<EventType>,
      io: EventType -> PublishIO): RedisState
  {
    Fold(PublishOne(p, s, io), r, events)
  }

  /** Publishing the event is reported as a success. */
  predicate Succeeds(p: EventPublisher, r: RedisState, s: PartitionStatus, t: EventType, io: EventType -> PublishIO) {
    p.enabled ==> Publish(p.config, r, p.EventOf(t, s, io(t).stamp), io(t)).1
  }

  /** The status change calls for an event, and publishing it succeeds. */
  predicate ChangeSucceeds(p: EventPublisher, r: RedisState, s: PartitionStatus, change: Option<EventType>,
      io: EventType -> PublishIO)
  {
    change.Some? && Succeeds(p, r, s, change.value, io)
  }

  /** The lag increases rapidly, and publishing that, after the event of the change, succeeds. */
  predicate RapidSucceeds(config: Config, p: EventPublisher, r: RedisState, s: PartitionStatus,
      change: Option<EventType>, io: EventType -> PublishIO)
  {
    RapidIncrease(config, s) && Succeeds(p, PublishEach(p, r, s, Just(change), io), s, RapidLagIncrease, io)
  }

  /** The observed outcomes are those of the publisher on the server's state. */
  predicate Wired(config: Config, p: EventPublisher, k: KeyState, e: Observation, r: RedisState,
      io: EventType -> PublishIO)
  {
    var change := ChangeEvent(k.previous, e.status.status);
    && e.changeOk == (!Suppressed(k, e.now) && ChangeSucceeds(p, r, e.status, change, io))
    && e.rapidOk == (!Suppressed(k, e.now) && RapidSucceeds(config, p, r, e.status, change, io))
  }

  lemma PublishOneMore(p: EventPublisher, r: RedisState, s: PartitionStatus, events: seq<EventType>, t: EventType,
      io: EventType -> PublishIO)
    ensures var before := PublishEach(p, r, s, events, io);
            PublishEach(p, r, s, events + [t], io) ==
              if p.enabled then Publish(p.config, before, p.EventOf(t, s, io(t).stamp), io(t)).0 else before
  {
    FoldOneMore(PublishOne(p, s, io), r, events, t);
  }

  lemma PublishJust(p: EventPublisher, r: RedisState, s: PartitionStatus, t: EventType, io: EventType -> PublishIO)
    ensures PublishEach(p, r, s, Just(Some(t)), io) ==
            if p.enabled then Publish(p.config, r, p.EventOf(t, s, io(t).stamp), io(t)).0 else r
  {
    PublishOneMore(p, r, s, [], t, io);
    assert [] + [t] == [t];
  }

  lemma VerdictKey(config: Config, records: seq<OffsetRecord>, group: string, topic: string, partition: int)
    ensures StatusKey(Evaluate(config, records, group, topic, partition)) == Key(group, topic, partition)
  {
  }

  /** Evaluates under a lock, so that each evaluation is one step. */
  class EvaluatorWithRCA {
    const config: Config
    const evaluator: LagEvaluator
    const rcaPublisher: EventPublisher?
    var previousStatuses: map<string, Status>
    var lastEventTime: map<string, int>

    ghost predicate Valid() {
      evaluator.config == config
    }

    ghost function Remembered(): Memory
      reads this
    {
      Memory(previousStatuses, lastEventTime)
    }

    constructor (config: Config, rcaPublisher: EventPublisher?)
      ensures Valid() && this.config == config && this.rcaPublisher == rcaPublisher
      ensures Remembered() == BLANK
    {
      this.config, this.rcaPublisher := config, rcaPublisher;
      evaluator := new LagEvaluator(config);
      previousStatuses, lastEventTime := map[], map[];
    }

    /** Publishes the event that the change from previous calls for, and stamps the cooldown on success. */
    method PublishStatusChangeEvent(status: PartitionStatus, previous: Status, at: int, io: EventType -> PublishIO)
      returns (ok: bool)
      requires previous != status.status && rcaPublisher != null
      modifies this`lastEventTime, rcaPublisher.client
      ensures var event := ChangeEvent(Some(previous), status.status);
              && ok == ChangeSucceeds(rcaPublisher, old(rcaPublisher.client.state), status, event, io)
              && lastEventTime == (if ok then old(lastEventTime)[StatusKey(status) := at] else old(lastEventTime))
              && rcaPublisher.client.state ==
                   PublishEach(rcaPublisher, old(rcaPublisher.client.state), status, Just(event), io)
    {
      var event: Option<EventType> := None;
      match status.status {
        case Stopped =>
          if previous == Active || previous == Lagging {
            event := Some(ConsumerStopped);
          }
        case Stalled =>
          if previous == Active {
            event := Some(ConsumerStalled);
          }
        case Active | Empty =>
          if previous == Stopped || previous == Stalled {
            event := Some(ConsumerRecovered);
          }
        case Lagging | UnknownStatus =>
      }
      assert event == ChangeEvent(Some(previous), status.status);
      ok := false;
      if event.Some? {
        PublishJust(rcaPublisher, rcaPublisher.client.state, status, event.value, io);
        var waits, slept;
        ok, waits, slept := rcaPublisher.PublishPartitionEvent(event.value, status, io(event.value));
        if ok {
          lastEventTime := lastEventTime[StatusKey(status) := at];
        }
      }
    }

    /** Publishes the conditions that do not depend on the previous status; clearing the lag leaves no stamp. */
    method DetectCriticalConditions(status: PartitionStatus, records: seq<OffsetRecord>, at: int,
        io: EventType -> PublishIO) returns (ok: bool)
      requires rcaPublisher != null
      modifies this`lastEventTime, rcaPublisher.client
      ensures ok == (RapidIncrease(config, status)
                     && Succeeds(rcaPublisher, old(rcaPublisher.client.state), status, RapidLagIncrease, io))
      ensures lastEventTime == (if ok then old(lastEventTime)[StatusKey(status) := at] else old(lastEventTime))
      ensures rcaPublisher.client.state == PublishEach(rcaPublisher, old(rcaPublisher.client.state), status,
                Conditions(config, status, records), io)
    {
      ghost var r := rcaPublisher.client.state;
      ok := false;
      ghost var events: seq<EventType> := [];
      if status.lagChangeRate > config.rapidLagIncreaseRate * 2.0 && status.currentLag > 1000 {
        PublishOneMore(rcaPublisher, r, status, events, RapidLagIncrease, io);
        var waits, slept;
        ok, waits, slept := rcaPublisher.PublishPartitionEvent(RapidLagIncrease, status, io(RapidLagIncrease));
        if ok {
          lastEventTime := lastEventTime[StatusKey(status) := at];
        }
        events := events + [RapidLagIncrease];
      }
      if status.currentLag == 0 && |records| > 2 && records[|records| - 2].lag > 1000 {
        PublishOneMore(rcaPublisher, r, status, events, LagCleared, io);
        var sent, waits, slept := rcaPublisher.PublishPartitionEvent(LagCleared, status, io(LagCleared));
        events := events + [LagCleared];
      }
    }

    /** The publishing half of an evaluation that no cooldown suppresses. */
    method PublishEvents(status: PartitionStatus, records: seq<OffsetRecord>, previous: Option<Status>, changeAt: int,
        rapidAt: int, io: EventType -> PublishIO) returns (changeOk: bool, rapidOk: bool)
      requires rcaPublisher != null
      modifies this`lastEventTime, rcaPublisher.client
      ensures var change := ChangeEvent(previous, status.status);
              var r := old(rcaPublisher.client.state);
              var key := StatusKey(status);
              && changeOk == ChangeSucceeds(rcaPublisher, r, status, change, io)
              && rapidOk == RapidSucceeds(config, rcaPublisher, r, status, change, io)
              && lastEventTime == (if rapidOk then old(lastEventTime)[key := rapidAt]
                                   else if changeOk then old(lastEventTime)[key := changeAt]
                                   else old(lastEventTime))
              && rcaPublisher.client.state ==
                   PublishEach(rcaPublisher, r, status, Just(change) + Conditions(config, status, records), io)
    {
      var change := ChangeEvent(previous, status.status);
      changeOk := false;
      if previous.Some? && previous.value != status.status {
        changeOk := PublishStatusChangeEvent(status, previous.value, changeAt, io);
      }
      rapidOk := DetectCriticalConditions(status, records, rapidAt, io);
      FoldInTwoParts(PublishOne(rcaPublisher, status, io), old(rcaPublisher.client.state), Just(change),
        Conditions(config, status, records));
    }

    /**
     One evaluation of a key. The two maps move as Remember says, given how the two stamping publishes went; how they
     went is what the publisher made of the server's state; and the server has received the attempted events in order.
     */
    method DetectAndPublishEvents(status: PartitionStatus, records: seq<OffsetRecord>, now: int, changeAt: int,
        rapidAt: int, io: EventType -> PublishIO) returns (changeOk: bool, rapidOk: bool)
      requires rcaPublisher != null
      modifies this, rcaPublisher.client
      ensures var e := Observation(status, records, now, changeOk, changeAt, rapidOk, rapidAt);
              var k := LookUp(old(Remembered()), StatusKey(status));
              && Remembered() == Remember(config, old(Remembered()), e)
              && Wired(config, rcaPublisher, k, e, old(rcaPublisher.client.state), io)
              && rcaPublisher.client.state ==
                   PublishEach(rcaPublisher, old(rcaPublisher.client.state), status, Attempts(config, k, e), io)
    {
      var key := StatusKey(status);
      changeOk, rapidOk := false, false;
      if key in lastEventTime && now - lastEventTime[key] < COOLDOWN {
        return;
      }
      var previous := if key in previousStatuses then Some(previousStatuses[key]) else None;
      changeOk, rapidOk := PublishEvents(status, records, previous, changeAt, rapidAt, io);
      previousStatuses := previousStatuses[key := status.status];
    }

    /** Evaluates the window, and takes the verdict through the analyzer if there is a publisher. */
    method EvaluatePartitionConsumerWithRCA(records: seq<OffsetRecord>, group: string, topic: string, partition: int,
        now: int, changeAt: int, rapidAt: int, io: EventType -> PublishIO)
      returns (status: PartitionStatus, changeOk: bool, rapidOk: bool)
      requires Valid()
      modifies this, if rcaPublisher == null then {} else {rcaPublisher.client}
      ensures status == Evaluate(config, records, group, topic, partition)
      ensures StatusKey(status) == Key(group, topic, partition)
      ensures rcaPublisher == null ==> Remembered() == old(Remembered())
      ensures rcaPublisher != null ==>
                var e := Observation(status, records, now, changeOk, changeAt, rapidOk, rapidAt);
                var k := LookUp(old(Remembered()), StatusKey(status));
                && Remembered() == Remember(config, old(Remembered()), e)
                && Wired(config, rcaPublisher, k, e, old(rcaPublisher.client.state), io)
                && rcaPublisher.client.state ==
                     PublishEach(rcaPublisher, old(rcaPublisher.client.state), status, Attempts(config, k, e), io)
    {
      status := evaluator.EvaluatePartitionConsumer(records, group, topic, partition);
      changeOk, rapidOk := false, false;
      VerdictKey(config, records, group, topic, partition);
      if rcaPublisher != null {
        changeOk, rapidOk := DetectAndPublishEvents(status, records, now, changeAt, rapidAt, io);
      }
    }
  }
}
