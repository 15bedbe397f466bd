/** Event publishing: deduplication by an expiring key, then appending to a stream with a bounded number of tries. */
module Publishing {
  import opened LagTypes
  import opened Keys
  import opened Expiring
  import opened Arithmetic

  datatype EventType = ConsumerStopped | ConsumerStalled | RapidLagIncrease | ConsumerRecovered | LagCleared

  /** An event; stamp counts nanoseconds since the first instant of year 1. */
  datatype Event = Event(eventType: EventType, cluster: string, group: string, topic: string, partition: int,
    stamp: int)

  datatype PublisherConfig = PublisherConfig(dedupeWindow: int, maxRetries: nat, retryInterval: int)

  // ----- the server -----

  /** A stream entry: an event, or something another writer left that does not parse as one. */
  datatype Entry = Published(event: Event) | Unparsable

  /** Deduplication keys with their expiry, and the event stream. */
  datatype RedisState = RedisState(dedup: map<string, Expiry>, stream: seq<Entry>)

  predicate Live(r: RedisState, key: string, now: int) {
    key in r.dedup && !Lapsed(r.dedup[key], now)
  }

  function Claim(r: RedisState, key: string, now: int, ttl: int): RedisState {
    r.(dedup := r.dedup[key := ExpiryOf(now, ttl)])
  }

  class RedisServer {
    var state: RedisState

    /** Sets key unless it is live, and tells whether it did. */
    method SetNX(key: string, now: int, ttl: int) returns (wasNew: bool)
      modifies this
      ensures wasNew == !Live(old(state), key, now)
      ensures state == if wasNew then Claim(old(state), key, now, ttl) else old(state)
    {
      wasNew := !(key in state.dedup && !Lapsed(state.dedup[key], now));
      if wasNew {
        state := state.(dedup := state.dedup[key := ExpiryOf(now, ttl)]);
      }
    }

    method XAdd(event: Event)
      modifies this
      ensures state == old(state).(stream := old(state).stream + [Published(event)])
    {
      state := state.(stream := state.stream + [Published(event)]);
    }
  }

  // ----- buckets and fingerprints -----

  // Seconds from the first instant of year 1 to the Unix epoch.
  const UNIX_EPOCH: int := 62135596800

  /** t rounded down to a multiple of d since year 1; unchanged when d is not positive. */
  function Truncate(t: int, d: int): int {
    if d <= 0 then t else t - t % d
  }

  function UnixSeconds(t: int): int {
    t / NANOS_PER_SECOND - UNIX_EPOCH
  }

  function Bucket(stamp: int, window: int): int {
    UnixSeconds(Truncate(stamp, window))
  }

  function TypeName(t: EventType): string {
    match t
    case ConsumerStopped => "consumer_stopped"
    case ConsumerStalled => "consumer_stalled"
    case RapidLagIncrease => "rapid_lag_increase"
    case ConsumerRecovered => "consumer_recovered"
    case LagCleared => "lag_cleared"
  }

  function Incident(e: Event): string {
    TypeName(e.eventType) + ":" + Key(e.group, e.topic, e.partition)
  }

  /** What the deduplication key is derived from; the digest taken of it is treated as injective. */
  function Fingerprint(e: Event, window: int): string {
    "lagradar:" + (Incident(e) + ":" + Decimal(Bucket(e.stamp, window)))
  }

  function DedupKey(e: Event, window: int): string {
    "rca:dedup:" + Fingerprint(e, window)
  }

  /** Two events the publisher means to treat as one: same type, group, topic, partition and time bucket. */
  predicate SameIncident(d: Event, e: Event, window: int) {
    && d.eventType == e.eventType && d.group == e.group && d.topic == e.topic && d.partition == e.partition
    && Bucket(d.stamp, window) == Bucket(e.stamp, window)
  }

  lemma TypeNamesAreColonFree(t: EventType)
    ensures ColonFree(TypeName(t))
  {
  }

  lemma TypeNamesDiffer(s: EventType, t: EventType)
    requires TypeName(s) == TypeName(t)
    ensures s == t
  {
    assert |TypeName(ConsumerStopped)| == |TypeName(ConsumerStalled)| == 16;
    assert |TypeName(ConsumerRecovered)| == |TypeName(RapidLagIncrease)| == 18 && |TypeName(LagCleared)| == 11;
    assert TypeName(ConsumerStopped)[11] == 'o' && TypeName(ConsumerStalled)[11] == 'a';
    assert TypeName(ConsumerRecovered)[0] == 'c' && TypeName(RapidLagIncrease)[0] == 'r';
  }

  lemma FirstColonSplits(a: string, b: string, c: string, d: string)
    requires ColonFree(a) && ColonFree(c) && a + ":" + b == c + ":" + d
    ensures a == c && b == d
  {
    var s, t := a + ":" + b, c + ":" + d;
    assert s[|a|] == ':' && t[|c|] == ':';
    assert forall i :: 0 <= i < |a| ==> s[i] == a[i];
    assert forall i :: 0 <= i < |c| ==> t[i] == c[i];
    assert s[..|a|] == a && t[..|c|] == c;
    assert s[|a| + 1..] == b && t[|c| + 1..] == d;
  }

  lemma SamePrefix(p: string, s: string, t: string)
    requires p + s == p + t
    ensures s == t
  {
    assert (p + s)[|p|..] == s && (p + t)[|p|..] == t;
  }

  /**
   With colon-free topics, two events share a deduplication key exactly when they are the same incident.
   The cluster plays no part: events of two clusters about equally named partitions share a key as well.
   */
  lemma KeysIdentifyIncidents(d: Event, e: Event, window: int)
    requires ColonFree(d.topic) && ColonFree(e.topic)
    ensures DedupKey(d, window) == DedupKey(e, window) <==> SameIncident(d, e, window)
  {
    var a, b := Decimal(Bucket(d.stamp, window)), Decimal(Bucket(e.stamp, window));
    DecimalIsInjective(Bucket(d.stamp, window), Bucket(e.stamp, window));
    DecimalIsInjective(Bucket(e.stamp, window), Bucket(d.stamp, window));
    if DedupKey(d, window) == DedupKey(e, window) {
      SamePrefix("rca:dedup:", Fingerprint(d, window), Fingerprint(e, window));
      SamePrefix("lagradar:", Incident(d) + ":" + a, Incident(e) + ":" + b);
      LastColonSplits(Incident(d), a, Incident(e), b);
      TypeNamesAreColonFree(d.eventType);
      TypeNamesAreColonFree(e.eventType);
      FirstColonSplits(TypeName(d.eventType), Key(d.group, d.topic, d.partition),
        TypeName(e.eventType), Key(e.group, e.topic, e.partition));
      TypeNamesDiffer(d.eventType, e.eventType);
      KeyIsInjective(d.group, d.topic, d.partition, e.group, e.topic, e.partition);
    }
  }

  /** The bucket of an event in a slot that starts at Unix second u is u, whatever the length of the slot. */
  lemma BucketIsUnixSecond(stamp: int, window: int, u: int)
    requires window > 0 && stamp - stamp % window == (62135596800 + u) * NANOS_PER_SECOND
    ensures Bucket(stamp, window) == u
  {
  }

  /** Buckets count seconds, so they tell slots of at least a second apart. */
  predicate LongEnough(window: int) {
    window >= NANOS_PER_SECOND
  }

  lemma SlotStartsApart(p: int, q: int, window: int)
    requires window > 0 && p < q
    ensures window * p + window <= window * q
  {
    var k: nat := q - p - 1;
    NonNegativeProduct(window, k);
    assert window * q == window * p + window + window * k;
  }

  lemma TruncateIsSlot(t: int, window: int)
    requires window > 0
    ensures Truncate(t, window) == window * (t / window)
  {
  }

  lemma BucketsAreSlots(s: int, t: int, window: int)
    requires LongEnough(window)
    ensures Bucket(s, window) == Bucket(t, window) <==> s / window == t / window
  {
    var p, q := s / window, t / window;
    TruncateIsSlot(s, window);
    TruncateIsSlot(t, window);
    if p < q {
      SlotStartsApart(p, q, window);
    } else if q < p {
      SlotStartsApart(q, p, window);
    }
  }

  /** Buckets are exactly the slots of the window. */
  ghost predicate BucketsTellSlots(window: int)
    requires window > 0
  {
    forall s, t :: Bucket(s, window) == Bucket(t, window) <==> s / window == t / window
  }

  lemma FirstTwoSlots(window: int)
    requires window > 0 && !LongEnough(window)
    ensures Bucket(0, window) == Bucket(window, window) && 0 / window != window / window
  {
    assert 0 % window == 0 && window % window == 0;
  }

  /** That is so exactly when the window is at least a second; a shorter one puts two slots into one bucket. */
  lemma BucketsTellSlotsIff(window: int)
    requires window > 0
    ensures BucketsTellSlots(window) <==> LongEnough(window)
  {
    if LongEnough(window) {
      forall s, t ensures Bucket(s, window) == Bucket(t, window) <==> s / window == t / window {
        BucketsAreSlots(s, t, window);
      }
    } else {
      FirstTwoSlots(window);
    }
  }

  // ----- publishing -----

  /** What a SETNX call does: a failed one may still have been applied. */
  datatype SetReply = Answered | Failed(applied: bool)

  /** The surroundings of one publish: when the event is stamped, when SETNX runs, and what the calls do. */
  datatype PublishIO = PublishIO(stamp: int, setAt: int, setReply: SetReply, xadd: nat -> WriteReply)

  /** The stream after the tries from the i-th on, and whether one was confirmed. */
  function Tries(config: PublisherConfig, stream: seq<Entry>, e: Event, xadd: nat -> WriteReply, i: nat)
    : (seq<Entry>, bool)
    decreases config.maxRetries - i
  {
    if i >= config.maxRetries then (stream, false)
    else match xadd(i)
      case Done => (stream + [Published(e)], true)
      case Lost => Tries(config, stream, e, xadd, i + 1)
      case Unconfirmed => Tries(config, stream + [Published(e)], e, xadd, i + 1)
  }

  /** How many of the tries from the i-th on fail before one is confirmed. */
  function FailedTries(config: PublisherConfig, xadd: nat -> WriteReply, i: nat): (n: nat)
    ensures i <= config.maxRetries ==> i + n <= config.maxRetries
    ensures forall k :: i <= k < i + n ==> xadd(k) != Done
    ensures i + n < config.maxRetries ==> xadd(i + n) == Done
    decreases config.maxRetries - i
  {
    if i >= config.maxRetries || xadd(i) == Done then 0 else 1 + FailedTries(config, xadd, i + 1)
  }

  /** The check passes: the server does not say that the key is live. */
  predicate PassesCheck(config: PublisherConfig, r: RedisState, e: Event, io: PublishIO) {
    !(io.setReply.Answered? && Live(r, DedupKey(e, config.dedupeWindow), io.setAt))
  }

  /** The server after one publish, and whether the caller is told of success. */
  function Publish(config: PublisherConfig, r: RedisState, e: Event, io: PublishIO): (RedisState, bool) {
    var key := DedupKey(e, config.dedupeWindow);
    if io.setReply.Answered? && Live(r, key, io.setAt) then (r, true)
    else
      var claimed := if io.setReply == Failed(false) || Live(r, key, io.setAt) then r
                     else Claim(r, key, io.setAt, config.dedupeWindow);
      var (stream, ok) := Tries(config, claimed.stream, e, io.xadd, 0);
      (claimed.(stream := stream), ok)
  }

  /** How many of the tries from the i-th on are applied, up to the confirmed one. */
  function AppliedTries(config: PublisherConfig, xadd: nat -> WriteReply, i: nat): nat
    decreases config.maxRetries - i
  {
    if i >= config.maxRetries then 0
    else (if xadd(i) == Lost then 0 else 1) + (if xadd(i) == Done then 0 else AppliedTries(config, xadd, i + 1))
  }

  function Copies(e: Event, n: nat): seq<Entry> {
    seq(n, i => Published(e))
  }

  /** The tries append copies of the event and nothing else, and succeed exactly when one of them is confirmed. */
  lemma {:induction false} TriesAppendCopies(config: PublisherConfig, stream: seq<Entry>, e: Event,
      xadd: nat -> WriteReply, i: nat)
    ensures var (stream', ok) := Tries(config, stream, e, xadd, i);
            && stream' == stream + Copies(e, AppliedTries(config, xadd, i))
            && (ok <==> exists k :: i <= k < config.maxRetries && xadd(k) == Done)
    decreases config.maxRetries - i
  {
    if i < config.maxRetries && xadd(i) != Done {
      var grown := if xadd(i) == Lost then stream else stream + [Published(e)];
      TriesAppendCopies(config, grown, e, xadd, i + 1);
      assert xadd(i) == Unconfirmed ==> grown + Copies(e, AppliedTries(config, xadd, i + 1)) ==
                                        stream + Copies(e, AppliedTries(config, xadd, i));
    } else if i < config.maxRetries {
      assert [Published(e)] == Copies(e, 1);
    }
  }

  /**
   A publish whose key is live is a success that changes nothing. Any other claims the key, unless the check was lost,
   appends as many copies of the event as tries are applied, and succeeds exactly when a try is confirmed.
   */
  lemma PublishExactly(config: PublisherConfig, r: RedisState, e: Event, io: PublishIO)
    ensures var (r', ok) := Publish(config, r, e, io);
            var live := Live(r, DedupKey(e, config.dedupeWindow), io.setAt);
            if io.setReply.Answered? && live then r' == r && ok
            else
              && r'.stream == r.stream + Copies(e, AppliedTries(config, io.xadd, 0))
              && (ok <==> exists k :: 0 <= k < config.maxRetries && io.xadd(k) == Done)
              && r'.dedup == if live || io.setReply == Failed(false) then r.dedup
                             else r.dedup[DedupKey(e, config.dedupeWindow) := ExpiryOf(io.setAt, config.dedupeWindow)]
  {
    TriesAppendCopies(config, r.stream, e, io.xadd, 0);
  }

  /** All waits together, when the k-th takes k times d. */
  function WaitingTime(d: int, waits: nat): int {
    if waits == 0 then 0 else WaitingTime(d, waits - 1) + d * waits
  }

  lemma {:induction false} WaitsAreTriangular(d: int, waits: nat)
    ensures 2 * WaitingTime(d, waits) == d * (waits * (waits + 1))
  {
    if waits > 0 {
      WaitsAreTriangular(d, waits - 1);
      assert waits * (waits + 1) == (waits - 1) * waits + 2 * waits;
      assert d * (waits * (waits + 1)) == d * ((waits - 1) * waits) + 2 * (d * waits);
    }
  }

  class EventPublisher {
    const enabled: bool
    const cluster: string
    const config: PublisherConfig
    const client: RedisServer

    constructor (enabled: bool, cluster: string, config: PublisherConfig, client: RedisServer)
      ensures this.enabled == enabled && this.cluster == cluster && this.config == config && this.client == client
    {
      this.enabled, this.cluster, this.config, this.client := enabled, cluster, config, client;
    }

    function EventOf(eventType: EventType, status: PartitionStatus, stamp: int): Event {
      Event(eventType, cluster, status.group, status.topic, status.partition, stamp)
    }

    /** The tries of a publish that passed its check. */
    method AppendWithRetries(event: Event, xadd: nat -> WriteReply) returns (ok: bool, waits: nat, slept: int)
      modifies client
      ensures client.state.dedup == old(client.state.dedup)
      ensures (client.state.stream, ok) == Tries(config, old(client.state.stream), event, xadd, 0)
      ensures waits == if config.maxRetries == 0 then 0 else Min(FailedTries(config, xadd, 0), config.maxRetries - 1)
      ensures slept == WaitingTime(config.retryInterval, waits)
    {
      waits, slept := 0, 0;
      var i := 0;
      while i < config.maxRetries
        invariant 0 <= i <= config.maxRetries && waits == (if i == config.maxRetries && i > 0 then i - 1 else i)
        invariant slept == WaitingTime(config.retryInterval, waits)
        invariant client.state.dedup == old(client.state.dedup)
        invariant Tries(config, client.state.stream, event, xadd, i) ==
                  Tries(config, old(client.state.stream), event, xadd, 0)
        invariant FailedTries(config, xadd, 0) == i + FailedTries(config, xadd, i)
      {
        match xadd(i) {
          case Done =>
            client.XAdd(event);
            return true, waits, slept;
          case Lost =>
          case Unconfirmed =>
            client.XAdd(event);
        }
        if i < config.maxRetries - 1 {
          slept := slept + config.retryInterval * (i + 1);
          waits := waits + 1;
        }
        i := i + 1;
      }
      ok := false;
    }

    /**
     Publishes one event. There is a wait after every failed try but the last one allowed; the waits grow linearly, so
     together they take a triangular number of retry intervals.
     */
    method PublishPartitionEvent(eventType: EventType, status: PartitionStatus, io: PublishIO)
      returns (ok: bool, waits: nat, slept: int)
      modifies client
      ensures enabled ==>
                var event := Event(eventType, cluster, status.group, status.topic, status.partition, io.stamp);
                (client.state, ok) == Publish(config, old(client.state), event, io)
      ensures !enabled ==> ok && client.state == old(client.state)
      ensures var tried := enabled && PassesCheck(config, old(client.state), EventOf(eventType, status, io.stamp), io);
              waits ==
                if tried && config.maxRetries > 0 then Min(FailedTries(config, io.xadd, 0), config.maxRetries - 1)
                else 0
      ensures slept == WaitingTime(config.retryInterval, waits)
    {
      waits, slept := 0, 0;
      if !enabled {
        return true, 0, 0;
      }
      var event := EventOf(eventType, status, io.stamp);
      var key := DedupKey(event, config.dedupeWindow);
      match io.setReply {
        case Answered =>
          var wasNew := client.SetNX(key, io.setAt, config.dedupeWindow);
          if !wasNew {
            return true, 0, 0;
          }
        case Failed(applied) =>
          if applied {
            var wasNew := client.SetNX(key, io.setAt, config.dedupeWindow);
          }
      }
      ok, waits, slept := AppendWithRetries(event, io.xadd);
    }
  }

  /** A publish that passes its check and is confirmed at once adds the one event that its verdict calls for. */
  lemma PublishedAtOnce(p: EventPublisher, r: RedisState, s: PartitionStatus, t: EventType, io: PublishIO)
    requires var event := Event(t, p.cluster, s.group, s.topic, s.partition, io.stamp);
             PassesCheck(p.config, r, event, io)
    requires p.config.maxRetries > 0 && io.xadd(0) == Done
    ensures var (r', ok) := Publish(p.config, r, p.EventOf(t, s, io.stamp), io);
            && ok
            && r'.stream == r.stream + [Published(Event(t, p.cluster, s.group, s.topic, s.partition, io.stamp))]
  {
  }

  // ----- two publishes of one incident -----

  /**
   After a publish that claimed its key, a second publish of the same incident appends nothing exactly when it
   claims before the key expires (or has no tries): the window runs from the claim, not from the bucket.
   */
  lemma SecondPublishIsSuppressed(config: PublisherConfig, r: RedisState, d: Event, e: Event, io: PublishIO,
      io': PublishIO)
    requires config.dedupeWindow > 0 && SameIncident(d, e, config.dedupeWindow)
    requires io.setReply.Answered? && io'.setReply.Answered?
    requires !Live(r, DedupKey(d, config.dedupeWindow), io.setAt)
    requires config.maxRetries > 0 && forall i :: io'.xadd(i) == Done
    ensures var once := Publish(config, r, d, io).0;
            var twice := Publish(config, once, e, io').0;
            twice.stream == once.stream <==> io'.setAt < io.setAt + config.dedupeWindow
  {
    assert DedupKey(d, config.dedupeWindow) == DedupKey(e, config.dedupeWindow);
    var once := Publish(config, r, d, io).0;
    assert once.dedup == Claim(r, DedupKey(d, config.dedupeWindow), io.setAt, config.dedupeWindow).dedup;
    var twice := Publish(config, once, e, io').0;
    if !Live(once, DedupKey(e, config.dedupeWindow), io'.setAt) {
      assert io'.xadd(0) == Done;
      assert twice.stream == once.stream + [Published(e)];
    }
  }

  lemma {:induction false} FailedTriesAppendNothing(config: PublisherConfig, stream: seq<Entry>, e: Event,
      xadd: nat -> WriteReply, i: nat)
    requires forall k :: i <= k < config.maxRetries ==> xadd(k) != Unconfirmed
    requires !Tries(config, stream, e, xadd, i).1
    ensures Tries(config, stream, e, xadd, i).0 == stream
    decreases config.maxRetries - i
  {
    if i < config.maxRetries {
      assert xadd(i) == Lost;
      FailedTriesAppendNothing(config, stream, e, xadd, i + 1);
    }
  }

  /** A publish that fails without an unconfirmed append appends nothing at all. */
  lemma FailedPublishAppendsNothing(config: PublisherConfig, r: RedisState, e: Event, io: PublishIO)
    requires !Publish(config, r, e, io).1
    requires forall i :: 0 <= i < config.maxRetries ==> io.xadd(i) != Unconfirmed
    ensures Publish(config, r, e, io).0.stream == r.stream
  {
    FailedTriesAppendNothing(config, r.stream, e, io.xadd, 0);
  }

  lemma {:induction false} AllTriesLost(config: PublisherConfig, stream: seq<Entry>, e: Event, xadd: nat -> WriteReply,
      i: nat)
    requires forall k :: xadd(k) == Lost
    ensures Tries(config, stream, e, xadd, i) == (stream, false)
    decreases config.maxRetries - i
  {
    if i < config.maxRetries {
      assert xadd(i) == Lost;
      AllTriesLost(config, stream, e, xadd, i + 1);
    }
  }

  /**
   The key is claimed before the first append and kept when every append is lost: the failed event is gone, and a
   retry within the window is reported as a success although the stream never receives it.
   */
  lemma FailedPublishSwallowsRetry(config: PublisherConfig, r: RedisState, e: Event, io: PublishIO, retry: PublishIO)
    requires config.dedupeWindow > 0 && io.setReply.Answered? && retry.setReply.Answered?
    requires !Live(r, DedupKey(e, config.dedupeWindow), io.setAt)
    requires forall i :: io.xadd(i) == Lost
    requires retry.setAt < io.setAt + config.dedupeWindow
    ensures var (failed, ok) := Publish(config, r, e, io);
            && !ok && failed.stream == r.stream
            && Publish(config, failed, e, retry) == (failed, true)
  {
    var key := DedupKey(e, config.dedupeWindow);
    AllTriesLost(config, r.stream, e, io.xadd, 0);
    var failed := Publish(config, r, e, io).0;
    assert Live(failed, key, retry.setAt);
  }
}
