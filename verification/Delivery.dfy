/**
 The event pipeline end to end: any number of publishes and consumers against one server, their server calls
 interleaved in any order as time passes.
 */
module Delivery {
  import opened Keys
  import opened Publishing
  import opened Expiring
  import opened StreamConsumer

  /** A publish that is past its deduplication check and has left more tries to append. */
  datatype Call = Call(event: Event, left: nat)

  datatype System = System(now: int, redis: RedisState, calls: map<nat, Call>, group: Group)

  datatype Action =
    | Begin(id: nat, event: Event, setAt: int, reply: SetReply, tries: nat)
    | Try(id: nat, xadd: WriteReply)
    | Foreign
    | ReadNew(consumer: string, count: nat)
    | Handle(entry: nat, handlers: nat, ackOk: bool)

  const START: System := System(0, RedisState(map[], []), map[], Group([], []))

  predicate Enabled(s: System, a: Action) {
    match a
    case Begin(id, event, setAt, _, _) => id !in s.calls && s.now <= setAt && event.stamp <= setAt
    case Try(id, _) => id in s.calls && s.calls[id].left > 0
    case Foreign => true
    case ReadNew(_, _) => |s.group.delivered| <= |s.redis.stream|
    case Handle(entry, _, _) =>
      entry < |s.group.delivered| <= |s.redis.stream| && s.group.delivered[entry].Waiting?
  }

  function Step(window: int, s: System, a: Action): System
    requires Enabled(s, a)
  {
    match a
    case Begin(id, event, setAt, reply, tries) =>
      var key := DedupKey(event, window);
      if reply.Answered? && Live(s.redis, key, setAt) then s.(now := setAt)
      else
        var claimed := if reply == Failed(false) || Live(s.redis, key, setAt) then s.redis
                       else Claim(s.redis, key, setAt, window);
        s.(now := setAt, redis := claimed, calls := if tries == 0 then s.calls else s.calls[id := Call(event, tries)])
    case Try(id, xadd) =>
      var c := s.calls[id];
      var stream := if xadd == Lost then s.redis.stream else s.redis.stream + [Published(c.event)];
      s.(redis := s.redis.(stream := stream),
        calls := if xadd == Done || c.left == 1 then s.calls - {id} else s.calls[id := c.(left := c.left - 1)])
    case Foreign => s.(redis := s.redis.(stream := s.redis.stream + [Unparsable]))
    case ReadNew(consumer, count) => s.(group := Read(s.group, |s.redis.stream|, consumer, count))
    case Handle(entry, handlers, ackOk) => s.(group := Process(s.group, s.redis.stream, handlers, entry, ackOk))
  }

  /** The actions are a run from s0 when each can be taken at its point. */
  ghost predicate IsRun(window: int, s0: System, actions: seq<Action>)
    decreases |actions|, 0
  {
    actions != [] ==>
      var front := actions[..|actions| - 1];
      IsRun(window, s0, front) && Enabled(Exec(window, s0, front), actions[|actions| - 1])
  }

  ghost function Exec(window: int, s0: System, actions: seq<Action>): System
    requires IsRun(window, s0, actions)
    decreases |actions|, 1
  {
    if actions == [] then s0
    else Step(window, Exec(window, s0, actions[..|actions| - 1]), actions[|actions| - 1])
  }

  // ----- at most one entry an incident -----

  function SlotEnd(e: Event, window: int): int
    requires window > 0
  {
    e.stamp - e.stamp % window + window
  }

  /**
   The server answers the deduplication check of every publish that has a try, the check runs within the slot of the
   event, and the server appends exactly what it confirms.
   */
  predicate Tame(window: int, a: Action)
    requires window > 0
  {
    match a
    case Begin(_, event, setAt, reply, tries) => tries == 0 || (reply.Answered? && setAt < SlotEnd(event, window))
    case Try(_, xadd) => xadd != Unconfirmed
    case _ => true
  }

  ghost predicate AllTame(window: int, actions: seq<Action>)
    requires window > 0
  {
    forall i :: 0 <= i < |actions| ==> Tame(window, actions[i])
  }

  predicate Guarded(dedup: map<string, Expiry>, window: int, e: Event)
    requires window > 0
  {
    var key := DedupKey(e, window);
    key in dedup && dedup[key].At? && SlotEnd(e, window) <= dedup[key].instant
  }

  /** The events in the stream and in flight have pairwise different keys. */
  ghost predicate Distinct(stream: seq<Entry>, calls: map<nat, Call>, key: Event -> string) {
    && (forall i, j :: 0 <= i < j < |stream| && stream[i].Published? && stream[j].Published? ==>
          key(stream[i].event) != key(stream[j].event))
    && (forall i, id :: 0 <= i < |stream| && stream[i].Published? && id in calls ==>
          key(stream[i].event) != key(calls[id].event))
    && (forall id, jd :: id in calls && jd in calls && id != jd ==> key(calls[id].event) != key(calls[jd].event))
  }

  ghost predicate Everywhere(stream: seq<Entry>, calls: map<nat, Call>, holds: Event -> bool) {
    && (forall i :: 0 <= i < |stream| && stream[i].Published? ==> holds(stream[i].event))
    && (forall id :: id in calls ==> holds(calls[id].event))
  }

  ghost function KeyOf(window: int): Event -> string {
    e => DedupKey(e, window)
  }

  /** No two events in the stream or in flight share a key, and each key is held past the end of its event's slot. */
  ghost predicate KeysAreSingle(s: System, window: int)
    requires window > 0
  {
    && Distinct(s.redis.stream, s.calls, KeyOf(window))
    && Everywhere(s.redis.stream, s.calls, e => Guarded(s.redis.dedup, window, e))
  }

  lemma NewCallIsDistinct(stream: seq<Entry>, calls: map<nat, Call>, key: Event -> string, id: nat, c: Call)
    requires Distinct(stream, calls, key) && id !in calls
    requires Everywhere(stream, calls, e => key(e) != key(c.event))
    ensures Distinct(stream, calls[id := c], key)
  {
  }

  lemma AppendIsDistinct(stream: seq<Entry>, calls: map<nat, Call>, key: Event -> string, id: nat)
    requires Distinct(stream, calls, key) && id in calls
    ensures Distinct(stream + [Published(calls[id].event)], calls - {id}, key)
  {
    var longer := stream + [Published(calls[id].event)];
    forall i, j | 0 <= i < j < |longer| && longer[i].Published? && longer[j].Published?
      ensures key(longer[i].event) != key(longer[j].event)
    {
      assert longer[i] == stream[i];
      assert j < |stream| ==> longer[j] == stream[j];
    }
    forall i, jd | 0 <= i < |longer| && longer[i].Published? && jd in calls - {id}
      ensures key(longer[i].event) != key(calls[jd].event)
    {
      assert i < |stream| ==> longer[i] == stream[i];
    }
  }

  lemma SameKeySameBucket(d: Event, e: Event, window: int)
    requires DedupKey(d, window) == DedupKey(e, window)
    ensures Bucket(d.stamp, window) == Bucket(e.stamp, window)
  {
    var a, b := Bucket(d.stamp, window), Bucket(e.stamp, window);
    SamePrefix("rca:dedup:", Fingerprint(d, window), Fingerprint(e, window));
    SamePrefix("lagradar:", Incident(d) + ":" + Decimal(a), Incident(e) + ":" + Decimal(b));
    DecimalIsInjective(a, b);
    DecimalIsInjective(b, a);
    LastColonSplits(Incident(d), Decimal(a), Incident(e), Decimal(b));
  }

  lemma SameBucketSameEnd(s: int, t: int, window: int)
    requires LongEnough(window) && Bucket(s, window) == Bucket(t, window)
    ensures s - s % window == t - t % window
  {
    BucketsAreSlots(s, t, window);
    assert s - s % window == window * (s / window);
    assert t - t % window == window * (t / window);
  }

  lemma SameKeySameSlot(d: Event, e: Event, window: int)
    requires LongEnough(window) && DedupKey(d, window) == DedupKey(e, window)
    ensures SlotEnd(d, window) == SlotEnd(e, window)
  {
    SameKeySameBucket(d, e, window);
    SameBucketSameEnd(d.stamp, e.stamp, window);
  }

  lemma SlotEndIsSoon(e: Event, window: int)
    requires window > 0
    ensures e.stamp < SlotEnd(e, window) <= e.stamp + window
  {
  }

  /** A tame publish that passes the check meets no earlier event with its key. */
  lemma ClaimIsFresh(window: int, s: System, e: Event, setAt: int, other: Event)
    requires LongEnough(window) && Guarded(s.redis.dedup, window, other)
    requires setAt < SlotEnd(e, window) && !Live(s.redis, DedupKey(e, window), setAt)
    ensures DedupKey(other, window) != DedupKey(e, window)
  {
    if DedupKey(other, window) == DedupKey(e, window) {
      SameKeySameSlot(other, e, window);
    }
  }

  lemma ClaimKeepsGuard(window: int, r: RedisState, key: string, setAt: int, e: Event)
    requires window > 0 && Guarded(r.dedup, window, e) && !Live(r, key, setAt)
    ensures Guarded(r.dedup[key := At(setAt + window)], window, e)
  {
  }

  /** Claiming a key that is not live moves no expiry back. */
  lemma ClaimKeepsGuards(window: int, s: System, key: string, setAt: int)
    requires window > 0 && !Live(s.redis, key, setAt)
    requires Everywhere(s.redis.stream, s.calls, e => Guarded(s.redis.dedup, window, e))
    ensures Everywhere(s.redis.stream, s.calls, e => Guarded(s.redis.dedup[key := At(setAt + window)], window, e))
  {
    var dedup, stream := s.redis.dedup, s.redis.stream;
    forall i | 0 <= i < |stream| && stream[i].Published?
      ensures Guarded(dedup[key := At(setAt + window)], window, stream[i].event)
    {
      ClaimKeepsGuard(window, s.redis, key, setAt, stream[i].event);
    }
    forall id | id in s.calls ensures Guarded(dedup[key := At(setAt + window)], window, s.calls[id].event) {
      ClaimKeepsGuard(window, s.redis, key, setAt, s.calls[id].event);
    }
  }

  lemma ClaimsAreFresh(window: int, s: System, e: Event, setAt: int)
    requires LongEnough(window) && KeysAreSingle(s, window)
    requires setAt < SlotEnd(e, window) && !Live(s.redis, DedupKey(e, window), setAt)
    ensures Everywhere(s.redis.stream, s.calls, d => KeyOf(window)(d) != KeyOf(window)(e))
  {
    var stream := s.redis.stream;
    forall i | 0 <= i < |stream| && stream[i].Published?
      ensures KeyOf(window)(stream[i].event) != KeyOf(window)(e)
    {
      ClaimIsFresh(window, s, e, setAt, stream[i].event);
    }
    forall id | id in s.calls ensures KeyOf(window)(s.calls[id].event) != KeyOf(window)(e) {
      ClaimIsFresh(window, s, e, setAt, s.calls[id].event);
    }
  }

  lemma ClaimKeepsKeys(window: int, s: System, e: Event, setAt: int, id: nat, tries: nat)
    requires LongEnough(window) && KeysAreSingle(s, window) && id !in s.calls && setAt < SlotEnd(e, window)
    requires e.stamp <= setAt && !Live(s.redis, DedupKey(e, window), setAt)
    ensures KeysAreSingle(s.(redis := Claim(s.redis, DedupKey(e, window), setAt, window),
                             calls := s.calls[id := Call(e, tries)]), window)
  {
    var dedup := s.redis.dedup[DedupKey(e, window) := At(setAt + window)];
    ClaimKeepsGuards(window, s, DedupKey(e, window), setAt);
    ClaimsAreFresh(window, s, e, setAt);
    NewCallIsDistinct(s.redis.stream, s.calls, KeyOf(window), id, Call(e, tries));
    SlotEndIsSoon(e, window);
    assert Guarded(dedup, window, e);
  }

  lemma BeginKeepsKeys(window: int, s: System, a: Action)
    requires LongEnough(window) && KeysAreSingle(s, window)
    requires a.Begin? && Enabled(s, a) && Tame(window, a)
    ensures KeysAreSingle(Step(window, s, a), window)
  {
    if !Live(s.redis, DedupKey(a.event, window), a.setAt) {
      if a.tries == 0 {
        ClaimKeepsGuards(window, s, DedupKey(a.event, window), a.setAt);
      } else {
        ClaimKeepsKeys(window, s, a.event, a.setAt, a.id, a.tries);
      }
    }
  }

  lemma LostTryKeepsKeys(window: int, s: System, id: nat)
    requires window > 0 && KeysAreSingle(s, window) && Enabled(s, Try(id, Lost))
    ensures KeysAreSingle(Step(window, s, Try(id, Lost)), window)
  {
    var s' := Step(window, s, Try(id, Lost));
    assert s'.redis == s.redis && s'.calls.Keys <= s.calls.Keys;
    assert forall i :: i in s'.calls ==> s'.calls[i].event == s.calls[i].event;
  }

  lemma TryKeepsKeys(window: int, s: System, a: Action)
    requires window > 0 && KeysAreSingle(s, window)
    requires a.Try? && Enabled(s, a) && Tame(window, a)
    ensures KeysAreSingle(Step(window, s, a), window)
  {
    if a.xadd == Done {
      AppendIsDistinct(s.redis.stream, s.calls, KeyOf(window), a.id);
    } else {
      LostTryKeepsKeys(window, s, a.id);
    }
  }

  lemma ForeignKeepsKeys(window: int, s: System)
    requires window > 0 && KeysAreSingle(s, window)
    ensures KeysAreSingle(Step(window, s, Foreign), window)
  {
    var stream := s.redis.stream + [Unparsable];
    assert forall i :: 0 <= i < |stream| && stream[i].Published? ==>
      i < |s.redis.stream| && stream[i] == s.redis.stream[i];
  }

  lemma StepKeepsKeys(window: int, s: System, a: Action)
    requires LongEnough(window) && KeysAreSingle(s, window) && Enabled(s, a) && Tame(window, a)
    ensures KeysAreSingle(Step(window, s, a), window)
  {
    match a {
      case Begin(_, _, _, _, _) => BeginKeepsKeys(window, s, a);
      case Try(_, _) => TryKeepsKeys(window, s, a);
      case Foreign => ForeignKeepsKeys(window, s);
      case ReadNew(_, _) =>
      case Handle(_, _, _) =>
    }
  }

  lemma {:induction false} RunKeepsKeysSingle(window: int, actions: seq<Action>)
    requires LongEnough(window) && IsRun(window, START, actions) && AllTame(window, actions)
    ensures KeysAreSingle(Exec(window, START, actions), window)
  {
    if actions != [] {
      var front, a := actions[..|actions| - 1], actions[|actions| - 1];
      assert forall i :: 0 <= i < |front| ==> front[i] == actions[i];
      RunKeepsKeysSingle(window, front);
      StepKeepsKeys(window, Exec(window, START, front), a);
    }
  }

  /** In a tame run no two stream entries report the same incident. */
  lemma OneEntryPerIncident(window: int, actions: seq<Action>, i: nat, j: nat)
    requires LongEnough(window) && IsRun(window, START, actions) && AllTame(window, actions)
    requires var stream := Exec(window, START, actions).redis.stream;
             i < j < |stream| && stream[i].Published? && stream[j].Published?
    ensures var stream := Exec(window, START, actions).redis.stream;
            !SameIncident(stream[i].event, stream[j].event, window)
  {
    RunKeepsKeysSingle(window, actions);
    var stream := Exec(window, START, actions).redis.stream;
    assert KeyOf(window)(stream[i].event) != KeyOf(window)(stream[j].event);
  }

  predicate SamePlace(d: Event, e: Event) {
    d.eventType == e.eventType && d.group == e.group && d.topic == e.topic && d.partition == e.partition
  }

  lemma SlotsApart(a: int, b: int, w: int)
    requires w > 0
    ensures b / w - a / w >= 2 ==> b - a > w
  {
    var p, q := a / w, b / w;
    assert a == p * w + a % w && b == q * w + b % w;
    if q - p >= 2 {
      assert (q - p - 2) * w >= 0;
    }
  }

  lemma FarSlots(a: int, b: int, c: int, w: int)
    requires w > 0 && a / w != b / w && b / w != c / w && a / w != c / w
    ensures a - b > w || b - a > w || a - c > w || c - a > w || b - c > w || c - b > w
  {
    SlotsApart(a, b, w);
    SlotsApart(b, a, w);
    SlotsApart(a, c, w);
    SlotsApart(c, a, w);
    SlotsApart(b, c, w);
    SlotsApart(c, b, w);
  }

  /** Three entries about one partition and type never fit into less than a window of event time. */
  lemma ThreeEntriesSpanTheWindow(window: int, actions: seq<Action>, i: nat, j: nat, k: nat)
    requires LongEnough(window) && IsRun(window, START, actions) && AllTame(window, actions)
    requires var stream := Exec(window, START, actions).redis.stream;
             && i < j < k < |stream| && stream[i].Published? && stream[j].Published? && stream[k].Published?
             && SamePlace(stream[i].event, stream[j].event) && SamePlace(stream[i].event, stream[k].event)
    ensures var stream := Exec(window, START, actions).redis.stream;
            var a, b, c := stream[i].event.stamp, stream[j].event.stamp, stream[k].event.stamp;
            a - b > window || b - a > window || a - c > window || c - a > window || b - c > window || c - b > window
  {
    var stream := Exec(window, START, actions).redis.stream;
    OneEntryPerIncident(window, actions, i, j);
    OneEntryPerIncident(window, actions, i, k);
    OneEntryPerIncident(window, actions, j, k);
    var a, b, c := stream[i].event.stamp, stream[j].event.stamp, stream[k].event.stamp;
    BucketsAreSlots(a, b, window);
    BucketsAreSlots(a, c, window);
    BucketsAreSlots(b, c, window);
    FarSlots(a, b, c, window);
  }

  // ----- at most one call a handler -----

  /** Entries have been handled once at most: a call names a delivered entry that is no longer waiting. */
  ghost predicate CallsAreSingle(s: System) {
    var calls, delivered := s.group.calls, s.group.delivered;
    && |delivered| <= |s.redis.stream|
    && (forall a :: 0 <= a < |calls| ==>
          && calls[a].entry < |delivered| && (delivered[calls[a].entry].Acked? || delivered[calls[a].entry].Unacked?)
          && s.redis.stream[calls[a].entry].Published?)
    && (forall a, b :: 0 <= a < b < |calls| && calls[a].handler == calls[b].handler ==>
          calls[a].entry != calls[b].entry)
  }

  lemma HandleKeepsCalls(window: int, s: System, a: Action)
    requires CallsAreSingle(s) && a.Handle? && Enabled(s, a)
    ensures CallsAreSingle(Step(window, s, a))
  {
    var s' := Step(window, s, a);
    var calls, calls' := s.group.calls, s'.group.calls;
    if s.redis.stream[a.entry].Published? {
      var more := CallAll(s.group.delivered[a.entry].consumer, a.handlers, a.entry);
      assert calls' == calls + more;
      forall b, c | 0 <= b < c < |calls'| && calls'[b].handler == calls'[c].handler
        ensures calls'[b].entry != calls'[c].entry
      {
        if b < |calls| <= c {
          assert calls[b].entry != a.entry;
        }
      }
    }
  }

  lemma {:induction false} RunKeepsCallsSingle(window: int, actions: seq<Action>)
    requires IsRun(window, START, actions)
    ensures CallsAreSingle(Exec(window, START, actions))
  {
    if actions != [] {
      var front, a := actions[..|actions| - 1], actions[|actions| - 1];
      RunKeepsCallsSingle(window, front);
      if a.Handle? {
        HandleKeepsCalls(window, Exec(window, START, front), a);
      }
    }
  }

  /**
   End to end: across any publishers and consumers, a handler sees at most one event for each type, group, topic,
   partition and time bucket.
   */
  lemma HandlersSeeIncidentsOnce(window: int, actions: seq<Action>, a: nat, b: nat)
    requires LongEnough(window) && IsRun(window, START, actions) && AllTame(window, actions)
    requires var calls := Exec(window, START, actions).group.calls;
             a < b < |calls| && calls[a].handler == calls[b].handler
    ensures var s := Exec(window, START, actions);
            var i, j := s.group.calls[a].entry, s.group.calls[b].entry;
            && i < |s.redis.stream| && s.redis.stream[i].Published?
            && j < |s.redis.stream| && s.redis.stream[j].Published?
            && !SameIncident(s.redis.stream[i].event, s.redis.stream[j].event, window)
  {
    RunKeepsCallsSingle(window, actions);
    var s := Exec(window, START, actions);
    var i, j := s.group.calls[a].entry, s.group.calls[b].entry;
    if i < j {
      OneEntryPerIncident(window, actions, i, j);
    } else {
      OneEntryPerIncident(window, actions, j, i);
    }
  }

  // ----- exactly one call a handler, once all is settled -----

  /** Every consumer has the same handlers registered. */
  ghost predicate SameHandlers(actions: seq<Action>, handlers: nat) {
    forall i :: 0 <= i < |actions| && actions[i].Handle? ==> actions[i].handlers == handlers
  }

  predicate IsHandled(state: EntryState) {
    state.Acked? || state.Unacked?
  }

  ghost predicate IsCalled(g: Group, handler: nat, entry: nat) {
    exists a :: 0 <= a < |g.calls| && g.calls[a].handler == handler && g.calls[a].entry == entry
  }

  /** An entry that was handled has been given to every handler, and one that parses is never rejected. */
  ghost predicate CallsAreComplete(s: System, handlers: nat) {
    && |s.group.delivered| <= |s.redis.stream|
    && (forall j :: 0 <= j < |s.group.delivered| && s.redis.stream[j].Published? ==>
          s.group.delivered[j].Waiting? || IsHandled(s.group.delivered[j]))
    && (forall j, h :: 0 <= j < |s.group.delivered| && IsHandled(s.group.delivered[j]) && 0 <= h < handlers ==>
          IsCalled(s.group, h, j))
  }

  lemma CallsStay(g: Group, g': Group, more: seq<HandlerCall>, handler: nat, entry: nat)
    requires g'.calls == g.calls + more && IsCalled(g, handler, entry)
    ensures IsCalled(g', handler, entry)
  {
    var a :| 0 <= a < |g.calls| && g.calls[a].handler == handler && g.calls[a].entry == entry;
    assert g'.calls[a] == g.calls[a];
  }

  lemma AllAreCalled(g: Group, g': Group, consumer: string, handlers: nat, entry: nat, h: nat)
    requires g'.calls == g.calls + CallAll(consumer, handlers, entry) && h < handlers
    ensures IsCalled(g', h, entry)
  {
    assert g'.calls[|g.calls| + h] == HandlerCall(consumer, h, entry);
  }

  lemma HandleCompletes(window: int, s: System, a: Action, handlers: nat)
    requires CallsAreComplete(s, handlers) && a.Handle? && a.handlers == handlers && Enabled(s, a)
    ensures CallsAreComplete(Step(window, s, a), handlers)
  {
    var s' := Step(window, s, a);
    var consumer := s.group.delivered[a.entry].consumer;
    var more := if s.redis.stream[a.entry].Published? then CallAll(consumer, handlers, a.entry) else [];
    assert s'.group.calls == s.group.calls + more;
    forall j, h | 0 <= j < |s'.group.delivered| && IsHandled(s'.group.delivered[j]) && 0 <= h < handlers
      ensures IsCalled(s'.group, h, j)
    {
      if j == a.entry {
        AllAreCalled(s.group, s'.group, consumer, handlers, a.entry, h);
      } else {
        CallsStay(s.group, s'.group, more, h, j);
      }
    }
  }

  lemma StepCompletes(window: int, s: System, a: Action, handlers: nat)
    requires CallsAreComplete(s, handlers) && Enabled(s, a) && (a.Handle? ==> a.handlers == handlers)
    ensures CallsAreComplete(Step(window, s, a), handlers)
  {
    if a.Handle? {
      HandleCompletes(window, s, a, handlers);
    } else {
      var s' := Step(window, s, a);
      assert s'.group.calls == s.group.calls;
      assert forall h: nat, j: nat :: IsCalled(s.group, h, j) ==> IsCalled(s'.group, h, j);
    }
  }

  lemma {:induction false} RunCompletes(window: int, actions: seq<Action>, handlers: nat)
    requires IsRun(window, START, actions) && SameHandlers(actions, handlers)
    ensures CallsAreComplete(Exec(window, START, actions), handlers)
  {
    if actions != [] {
      var front, a := actions[..|actions| - 1], actions[|actions| - 1];
      assert forall i :: 0 <= i < |front| ==> front[i] == actions[i];
      RunCompletes(window, front, handlers);
      StepCompletes(window, Exec(window, START, front), a, handlers);
    }
  }

  /** Every entry of the stream has been delivered and dealt with. */
  ghost predicate Settled(s: System) {
    && |s.group.delivered| == |s.redis.stream|
    && forall j :: 0 <= j < |s.group.delivered| ==> !s.group.delivered[j].Waiting?
  }

  /** Call a is for the entry, and no other call of its handler is. */
  ghost predicate OnlyCall(s: System, a: nat, handler: nat, entry: nat)
    requires a < |s.group.calls|
  {
    && s.group.calls[a].handler == handler && s.group.calls[a].entry == entry
    && forall b :: 0 <= b < |s.group.calls| && s.group.calls[b].handler == handler && s.group.calls[b].entry == entry
         ==> b == a
  }

  /** Once a run has settled, each handler has been called exactly once for each event in the stream. */
  lemma SettledMeansHandledOnce(window: int, actions: seq<Action>, handlers: nat, handler: nat, entry: nat)
    returns (a: nat)
    requires IsRun(window, START, actions) && SameHandlers(actions, handlers) && handler < handlers
    requires var s := Exec(window, START, actions);
             Settled(s) && entry < |s.redis.stream| && s.redis.stream[entry].Published?
    ensures var s := Exec(window, START, actions); a < |s.group.calls| && OnlyCall(s, a, handler, entry)
  {
    RunCompletes(window, actions, handlers);
    RunKeepsCallsSingle(window, actions);
    var s := Exec(window, START, actions);
    assert IsCalled(s.group, handler, entry);
    a :| 0 <= a < |s.group.calls| && s.group.calls[a].handler == handler && s.group.calls[a].entry == entry;
  }

  /** A call of the handler for an entry about the incident. */
  ghost predicate CallAbout(window: int, s: System, a: nat, handler: nat, e: Event) {
    && a < |s.group.calls| && s.group.calls[a].handler == handler && s.group.calls[a].entry < |s.redis.stream|
    && s.redis.stream[s.group.calls[a].entry].Published?
    && SameIncident(s.redis.stream[s.group.calls[a].entry].event, e, window)
  }

  lemma BothSameIncident(d: Event, f: Event, e: Event, window: int)
    requires SameIncident(d, e, window) && SameIncident(f, e, window)
    ensures SameIncident(d, f, window) && SameIncident(f, d, window)
  {
  }

  lemma OneCallAbout(window: int, actions: seq<Action>, a: nat, b: nat, handler: nat, e: Event)
    requires LongEnough(window) && IsRun(window, START, actions) && AllTame(window, actions)
    requires CallAbout(window, Exec(window, START, actions), a, handler, e)
    requires CallAbout(window, Exec(window, START, actions), b, handler, e)
    ensures a == b
  {
    var s := Exec(window, START, actions);
    BothSameIncident(s.redis.stream[s.group.calls[a].entry].event, s.redis.stream[s.group.calls[b].entry].event, e,
      window);
    if a < b {
      HandlersSeeIncidentsOnce(window, actions, a, b);
    } else if b < a {
      HandlersSeeIncidentsOnce(window, actions, b, a);
    }
  }

  /** End to end, in a settled tame run each handler has been told of each incident in the stream exactly once. */
  lemma SettledTellsOfIncidentsOnce(window: int, actions: seq<Action>, handlers: nat, handler: nat, entry: nat)
    returns (a: nat)
    requires LongEnough(window) && IsRun(window, START, actions) && AllTame(window, actions)
    requires SameHandlers(actions, handlers) && handler < handlers
    requires var s := Exec(window, START, actions);
             Settled(s) && entry < |s.redis.stream| && s.redis.stream[entry].Published?
    ensures var s := Exec(window, START, actions);
            && CallAbout(window, s, a, handler, s.redis.stream[entry].event)
            && forall b :: CallAbout(window, s, b, handler, s.redis.stream[entry].event) ==> b == a
  {
    a := SettledMeansHandledOnce(window, actions, handlers, handler, entry);
    var s := Exec(window, START, actions);
    assert CallAbout(window, s, a, handler, s.redis.stream[entry].event);
    forall b | CallAbout(window, s, b, handler, s.redis.stream[entry].event) ensures b == a {
      OneCallAbout(window, actions, a, b, handler, s.redis.stream[entry].event);
    }
  }

  // ----- the methods are runs of this system -----

  lemma RunExtends(window: int, s0: System, actions: seq<Action>, a: Action)
    requires IsRun(window, s0, actions) && Enabled(Exec(window, s0, actions), a)
    ensures IsRun(window, s0, actions + [a])
    ensures Exec(window, s0, actions + [a]) == Step(window, Exec(window, s0, actions), a)
  {
    assert (actions + [a])[..|actions|] == actions;
  }

  lemma TryStep(window: int, s: System, id: nat, e: Event, left: nat, xadd: WriteReply)
    requires left > 0 && id in s.calls && s.calls[id] == Call(e, left)
    ensures var t := Step(window, s, Try(id, xadd));
            && t.group == s.group
            && t.redis == (if xadd == Lost then s.redis else s.redis.(stream := s.redis.stream + [Published(e)]))
            && (xadd != Done && left > 1 ==> id in t.calls && t.calls[id] == Call(e, left - 1))
  {
  }

  lemma TryExtends(window: int, s0: System, actions: seq<Action>, id: nat, e: Event, left: nat, xadd: WriteReply)
    requires IsRun(window, s0, actions) && left > 0
    requires var calls := Exec(window, s0, actions).calls; id in calls && calls[id] == Call(e, left)
    ensures IsRun(window, s0, actions + [Try(id, xadd)])
    ensures var s, t := Exec(window, s0, actions), Exec(window, s0, actions + [Try(id, xadd)]);
            && t.group == s.group
            && t.redis == (if xadd == Lost then s.redis else s.redis.(stream := s.redis.stream + [Published(e)]))
            && (xadd != Done && left > 1 ==> id in t.calls && t.calls[id] == Call(e, left - 1))
  {
    RunExtends(window, s0, actions, Try(id, xadd));
    TryStep(window, Exec(window, s0, actions), id, e, left, xadd);
  }

  predicate EndsWith(actions: seq<Action>, a: Action) {
    actions != [] && actions[|actions| - 1] == a
  }

  lemma EndsWithAdded(actions: seq<Action>, a: Action, b: Action)
    ensures EndsWith(actions + [b], a) <==> a == b
  {
  }

  /** The tries of a call from the i-th on, appended to a run that ends in anything but a confirmed try. */
  lemma {:induction false} TriesAreARun(window: int, config: PublisherConfig, s0: System, actions: seq<Action>, id: nat,
      e: Event, xadd: nat -> WriteReply, i: nat) returns (longer: seq<Action>)
    requires IsRun(window, s0, actions) && i <= config.maxRetries && !EndsWith(actions, Try(id, Done))
    requires var calls := Exec(window, s0, actions).calls;
             i < config.maxRetries ==> id in calls && calls[id] == Call(e, config.maxRetries - i)
    ensures IsRun(window, s0, longer)
    ensures var s, t := Exec(window, s0, actions), Exec(window, s0, longer);
            var (stream, ok) := Tries(config, s.redis.stream, e, xadd, i);
            && t.redis == s.redis.(stream := stream) && t.group == s.group
            && (ok <==> EndsWith(longer, Try(id, Done)))
    decreases config.maxRetries - i
  {
    longer := actions;
    if i < config.maxRetries {
      TryExtends(window, s0, actions, id, e, config.maxRetries - i, xadd(i));
      EndsWithAdded(actions, Try(id, Done), Try(id, xadd(i)));
      longer := actions + [Try(id, xadd(i))];
      if xadd(i) != Done {
        longer := TriesAreARun(window, config, s0, longer, id, e, xadd, i + 1);
      }
    }
  }

  /**
   A publish with nothing interleaved is a run, its check and then its tries. It is reported as a success exactly when
   the check finds the key live or the last try is confirmed.
   */
  lemma PublishIsRun(config: PublisherConfig, s: System, id: nat, e: Event, io: PublishIO)
    returns (actions: seq<Action>)
    requires id !in s.calls && s.now <= io.setAt && e.stamp <= io.setAt
    ensures IsRun(config.dedupeWindow, s, actions)
    ensures Exec(config.dedupeWindow, s, actions).redis == Publish(config, s.redis, e, io).0
    ensures Exec(config.dedupeWindow, s, actions).group == s.group
    ensures Publish(config, s.redis, e, io).1 <==>
            || (io.setReply.Answered? && Live(s.redis, DedupKey(e, config.dedupeWindow), io.setAt))
            || EndsWith(actions, Try(id, Done))
  {
    var begin := Begin(id, e, io.setAt, io.setReply, config.maxRetries);
    RunExtends(config.dedupeWindow, s, [], begin);
    assert [] + [begin] == [begin];
    actions := [begin];
    if !(io.setReply.Answered? && Live(s.redis, DedupKey(e, config.dedupeWindow), io.setAt)) {
      actions := TriesAreARun(config.dedupeWindow, config, s, actions, id, e, io.xadd, 0);
    }
  }

  /** The group after a consumer has read a batch and gone through it up to an entry, the rest of it waiting. */
  ghost predicate HandledUpTo(g: Group, r: Group, stream: seq<Entry>, consumer: string, handlers: nat, first: nat,
      entry: nat, ack: nat -> bool)
    requires first <= entry <= |r.delivered| <= |stream|
  {
    && g == ProcessRange(r, stream, handlers, first, entry, ack)
    && forall i :: entry <= i < |g.delivered| ==> g.delivered[i] == Waiting(consumer)
  }

  lemma HandleOneMore(window: int, s: System, r: Group, consumer: string, handlers: nat, first: nat, entry: nat,
      ack: nat -> bool)
    requires first <= entry < |r.delivered| <= |s.redis.stream|
    requires HandledUpTo(s.group, r, s.redis.stream, consumer, handlers, first, entry, ack)
    ensures var a := Handle(entry, handlers, ack(entry));
            && Enabled(s, a) && Step(window, s, a).redis == s.redis
            && HandledUpTo(Step(window, s, a).group, r, s.redis.stream, consumer, handlers, first, entry + 1, ack)
  {
    assert s.group.delivered[entry] == Waiting(consumer);
  }

  lemma BatchStarts(window: int, s: System, consumer: string, count: nat, handlers: nat, ack: nat -> bool)
    requires |s.group.delivered| <= |s.redis.stream|
    ensures IsRun(window, s, [ReadNew(consumer, count)])
    ensures var r := Read(s.group, |s.redis.stream|, consumer, count);
            var t := Exec(window, s, [ReadNew(consumer, count)]);
            && |s.group.delivered| <= |r.delivered| <= |s.redis.stream| && t.redis == s.redis
            && HandledUpTo(t.group, r, s.redis.stream, consumer, handlers, |s.group.delivered|, |s.group.delivered|,
                 ack)
  {
    RunExtends(window, s, [], ReadNew(consumer, count));
    assert [] + [ReadNew(consumer, count)] == [ReadNew(consumer, count)];
  }

  lemma BatchStep(window: int, s: System, actions: seq<Action>, r: Group, consumer: string, handlers: nat, first: nat,
      entry: nat, ack: nat -> bool)
    requires first <= entry < |r.delivered| <= |s.redis.stream|
    requires IsRun(window, s, actions) && Exec(window, s, actions).redis == s.redis
    requires HandledUpTo(Exec(window, s, actions).group, r, s.redis.stream, consumer, handlers, first, entry, ack)
    ensures var longer := actions + [Handle(entry, handlers, ack(entry))];
            && IsRun(window, s, longer) && Exec(window, s, longer).redis == s.redis
            && HandledUpTo(Exec(window, s, longer).group, r, s.redis.stream, consumer, handlers, first, entry + 1, ack)
  {
    HandleOneMore(window, Exec(window, s, actions), r, consumer, handlers, first, entry, ack);
    RunExtends(window, s, actions, Handle(entry, handlers, ack(entry)));
  }

  /** A batch with nothing interleaved is a run: one read, then each entry in order. */
  lemma BatchIsRun(window: int, s: System, consumer: string, count: nat, handlers: nat, ack: nat -> bool)
    returns (actions: seq<Action>)
    requires |s.group.delivered| <= |s.redis.stream|
    ensures IsRun(window, s, actions)
    ensures Exec(window, s, actions).redis == s.redis
    ensures var r := Read(s.group, |s.redis.stream|, consumer, count);
            Exec(window, s, actions).group ==
              ProcessRange(r, s.redis.stream, handlers, |s.group.delivered|, |r.delivered|, ack)
  {
    var first := |s.group.delivered|;
    var r := Read(s.group, |s.redis.stream|, consumer, count);
    BatchStarts(window, s, consumer, count, handlers, ack);
    actions := [ReadNew(consumer, count)];
    for entry := first to |r.delivered|
      invariant IsRun(window, s, actions) && Exec(window, s, actions).redis == s.redis
      invariant HandledUpTo(Exec(window, s, actions).group, r, s.redis.stream, consumer, handlers, first, entry, ack)
    {
      BatchStep(window, s, actions, r, consumer, handlers, first, entry, ack);
      actions := actions + [Handle(entry, handlers, ack(entry))];
    }
  }

  /** Everything has been delivered, and the first n entries have been dealt with. */
  ghost predicate SettledUpTo(s: System, redis: RedisState, n: nat) {
    && s.redis == redis && |s.group.delivered| == |redis.stream|
    && forall j :: 0 <= j < n && j < |s.group.delivered| ==> !s.group.delivered[j].Waiting?
  }

  lemma HandleSettles(window: int, s: System, redis: RedisState, n: nat, handlers: nat)
    requires SettledUpTo(s, redis, n) && n < |redis.stream| && s.group.delivered[n].Waiting?
    ensures Enabled(s, Handle(n, handlers, true))
    ensures SettledUpTo(Step(window, s, Handle(n, handlers, true)), redis, n + 1)
  {
  }

  lemma ReadingAll(window: int, s: System, consumer: string)
    requires |s.group.delivered| <= |s.redis.stream|
    ensures IsRun(window, s, [ReadNew(consumer, |s.redis.stream|)])
    ensures SettledUpTo(Exec(window, s, [ReadNew(consumer, |s.redis.stream|)]), s.redis, 0)
  {
    var read := ReadNew(consumer, |s.redis.stream|);
    RunExtends(window, s, [], read);
    assert [] + [read] == [read];
  }

  /** Any state can settle: reading what is left and handling what waits is enough. */
  lemma CanSettle(window: int, s: System, consumer: string, handlers: nat) returns (actions: seq<Action>)
    requires |s.group.delivered| <= |s.redis.stream|
    ensures IsRun(window, s, actions) && SameHandlers(actions, handlers)
    ensures Exec(window, s, actions).redis == s.redis && Settled(Exec(window, s, actions))
  {
    actions := [ReadNew(consumer, |s.redis.stream|)];
    ReadingAll(window, s, consumer);
    for entry := 0 to |s.redis.stream|
      invariant IsRun(window, s, actions) && SameHandlers(actions, handlers)
      invariant SettledUpTo(Exec(window, s, actions), s.redis, entry)
    {
      if Exec(window, s, actions).group.delivered[entry].Waiting? {
        HandleSettles(window, Exec(window, s, actions), s.redis, entry, handlers);
        RunExtends(window, s, actions, Handle(entry, handlers, true));
        actions := actions + [Handle(entry, handlers, true)];
      }
    }
  }

  // ----- what is tame is exactly what is safe -----

  /** A publish stamps its event within the run and before its check. */
  predicate Takeable(a: Action) {
    a.Begin? ==> 0 <= a.event.stamp <= a.setAt
  }

  ghost predicate HasTwoOfOne(window: int, stream: seq<Entry>) {
    exists i, j :: 0 <= i < j < |stream| && stream[i].Published? && stream[j].Published?
      && SameIncident(stream[i].event, stream[j].event, window)
  }

  ghost predicate TameBut(window: int, actions: seq<Action>, odd: Action)
    requires window > 0
  {
    forall i :: 0 <= i < |actions| ==> Tame(window, actions[i]) || actions[i] == odd
  }

  /** Some run, tame but for the given action, puts two entries of one incident in the stream. */
  ghost predicate Repeats(window: int, odd: Action)
    requires window > 0
  {
    exists actions :: TameBut(window, actions, odd) && IsRun(window, START, actions)
      && HasTwoOfOne(window, Exec(window, START, actions).redis.stream)
  }

  /** An append that is carried out but reported as failed is tried again: the same event twice, whatever the event. */
  lemma UnconfirmedAppendDuplicates(window: int, e: Event, id: nat)
    returns (actions: seq<Action>)
    requires window > 0 && e.stamp >= 0
    ensures TameBut(window, actions, Try(id, Unconfirmed)) && IsRun(window, START, actions)
    ensures Exec(window, START, actions).redis.stream == [Published(e)] + [Published(e)]
  {
    var begin := Begin(id, e, e.stamp, Answered, 2);
    SlotEndIsSoon(e, window);
    RunExtends(window, START, [], begin);
    assert [] + [begin] == [begin];
    actions := [begin];
    RunExtends(window, START, actions, Try(id, Unconfirmed));
    actions := actions + [Try(id, Unconfirmed)];
    RunExtends(window, START, actions, Try(id, Done));
    actions := actions + [Try(id, Done)];
  }

  /** The event moved to the start of its slot. */
  function AtSlotStart(e: Event, window: int): Event
    requires window > 0
  {
    e.(stamp := e.stamp - e.stamp % window)
  }

  lemma MultiplesAreApart(w: int, k: int)
    requires w > 0
    ensures k >= 1 ==> w * k >= w
    ensures k <= -1 ==> w * k <= -w
  {
    if k >= 1 {
      assert w * (k - 1) >= 0;
    } else if k <= -1 {
      assert w * (-k - 1) >= 0;
    }
  }

  lemma MultipleOf(t: int, w: int)
    requires w > 0
    ensures (t - t % w) % w == 0
    ensures t >= 0 ==> t - t % w >= 0
  {
    var n := t - t % w;
    var q, r := n / w, n % w;
    assert n == w * (t / w) == w * q + r;
    assert r == w * (t / w - q);
    MultiplesAreApart(w, t / w - q);
  }

  lemma SlotStart(e: Event, window: int)
    requires window > 0 && e.stamp >= 0
    ensures 0 <= AtSlotStart(e, window).stamp <= e.stamp
    ensures SlotEnd(AtSlotStart(e, window), window) == SlotEnd(e, window) == AtSlotStart(e, window).stamp + window
    ensures SameIncident(AtSlotStart(e, window), e, window)
  {
    MultipleOf(e.stamp, window);
  }

  lemma OnePublish(window: int, e: Event, id: nat)
    requires window > 0 && e.stamp >= 0
    ensures var actions := [Begin(id, e, e.stamp, Answered, 1), Try(id, Done)];
            && IsRun(window, START, actions)
            && Exec(window, START, actions) ==
                 System(e.stamp, RedisState(map[DedupKey(e, window) := At(e.stamp + window)], [Published(e)]), map[],
                   Group([], []))
  {
    var begin := Begin(id, e, e.stamp, Answered, 1);
    RunExtends(window, START, [], begin);
    assert [] + [begin] == [begin];
    RunExtends(window, START, [begin], Try(id, Done));
    assert [begin] + [Try(id, Done)] == [begin, Try(id, Done)];
  }

  /** A second publish goes on to append when its check is not answered or comes once the first claim has lapsed. */
  lemma SecondClaim(window: int, a: Action, prior: Event, s: System)
    requires a.Begin? && a.tries > 0 && Takeable(a)
    requires prior.stamp <= a.setAt && (a.reply.Failed? || prior.stamp + window <= a.setAt)
    requires s == System(prior.stamp, RedisState(map[DedupKey(prior, window) := At(prior.stamp + window)],
                    [Published(prior)]), map[], Group([], []))
    ensures Enabled(s, a)
    ensures Step(window, s, a).calls == map[a.id := Call(a.event, a.tries)]
    ensures Step(window, s, a).redis.stream == [Published(prior)]
  {
  }

  /** A prior event, published in its slot, and then the second publish. */
  lemma PublishedAfter(window: int, a: Action, prior: Event) returns (actions: seq<Action>)
    requires window > 0 && a.Begin? && a.tries > 0 && Takeable(a) && 0 <= prior.stamp <= a.setAt
    requires a.reply.Failed? || prior.stamp + window <= a.setAt
    ensures TameBut(window, actions, a) && IsRun(window, START, actions)
    ensures Exec(window, START, actions).redis.stream == [Published(prior)] + [Published(a.event)]
  {
    SlotEndIsSoon(prior, window);
    OnePublish(window, prior, a.id);
    actions := [Begin(a.id, prior, prior.stamp, Answered, 1), Try(a.id, Done)];
    assert TameBut(window, actions, a);
    SecondClaim(window, a, prior, Exec(window, START, actions));
    RunExtends(window, START, actions, a);
    actions := actions + [a];
    RunExtends(window, START, actions, Try(a.id, Done));
    actions := actions + [Try(a.id, Done)];
  }

  /**
   A publish with tries left whose check comes after the slot, or is not answered (applied or not), lets its incident
   in a second time, however its event is stamped.
   */
  lemma UncheckedPublishDuplicates(window: int, odd: Action) returns (actions: seq<Action>)
    requires window > 0 && odd.Begin? && !Tame(window, odd) && Takeable(odd)
    ensures TameBut(window, actions, odd) && IsRun(window, START, actions)
    ensures Exec(window, START, actions).redis.stream ==
            [Published(AtSlotStart(odd.event, window))] + [Published(odd.event)]
  {
    SlotStart(odd.event, window);
    actions := PublishedAfter(window, odd, AtSlotStart(odd.event, window));
  }

  lemma TwoInARow(window: int, d: Event, e: Event)
    requires SameIncident(d, e, window)
    ensures HasTwoOfOne(window, [Published(d)] + [Published(e)])
  {
    var stream := [Published(d)] + [Published(e)];
    assert stream[0].event == d && stream[1].event == e;
  }

  lemma NoTwoOfOne(window: int, actions: seq<Action>)
    requires LongEnough(window) && IsRun(window, START, actions) && AllTame(window, actions)
    ensures !HasTwoOfOne(window, Exec(window, START, actions).redis.stream)
  {
    var stream := Exec(window, START, actions).redis.stream;
    forall i, j | 0 <= i < j < |stream| && stream[i].Published? && stream[j].Published?
      ensures !SameIncident(stream[i].event, stream[j].event, window)
    {
      OneEntryPerIncident(window, actions, i, j);
    }
  }

  lemma OddActionRepeats(window: int, a: Action)
    requires window > 0 && Takeable(a) && !Tame(window, a)
    ensures Repeats(window, a)
  {
    if a.Begin? {
      var actions := UncheckedPublishDuplicates(window, a);
      SlotStart(a.event, window);
      TwoInARow(window, AtSlotStart(a.event, window), a.event);
    } else {
      var e := Event(LagCleared, "", "", "", 0, 0);
      var actions := UnconfirmedAppendDuplicates(window, e, a.id);
      TwoInARow(window, e, e);
    }
  }

  /** Tame actions are exactly the safe ones: any other, added to the tame ones, lets some incident in twice. */
  lemma TameIffNeverRepeats(window: int, a: Action)
    requires LongEnough(window) && Takeable(a)
    ensures Tame(window, a) <==> !Repeats(window, a)
  {
    if Tame(window, a) {
      forall actions | TameBut(window, actions, a) && IsRun(window, START, actions)
        ensures !HasTwoOfOne(window, Exec(window, START, actions).redis.stream)
      {
        NoTwoOfOne(window, actions);
      }
    } else {
      OddActionRepeats(window, a);
    }
  }

  // ----- which windows are long enough -----

  /** No run of tame actions has two entries of one incident. */
  ghost predicate AtMostOnce(window: int)
    requires window > 0
  {
    forall actions :: AllTame(window, actions) && IsRun(window, START, actions) ==>
      !HasTwoOfOne(window, Exec(window, START, actions).redis.stream)
  }

  lemma ShortWindowRepeats(window: int) returns (actions: seq<Action>)
    requires window > 0 && !LongEnough(window)
    ensures AllTame(window, actions) && IsRun(window, START, actions)
    ensures HasTwoOfOne(window, Exec(window, START, actions).redis.stream)
  {
    var prior := Event(LagCleared, "", "", "", 0, 0);
    var e := prior.(stamp := window);
    var second := Begin(0, e, window, Answered, 1);
    SlotEndIsSoon(e, window);
    actions := PublishedAfter(window, second, prior);
    FirstTwoSlots(window);
    TwoInARow(window, prior, e);
  }

  /** Tame runs deliver at most once exactly when the deduplication window is at least a second. */
  lemma AtMostOnceIff(window: int)
    requires window > 0
    ensures AtMostOnce(window) <==> LongEnough(window)
  {
    if LongEnough(window) {
      forall actions | AllTame(window, actions) && IsRun(window, START, actions)
        ensures !HasTwoOfOne(window, Exec(window, START, actions).redis.stream)
      {
        NoTwoOfOne(window, actions);
      }
    } else {
      var actions := ShortWindowRepeats(window);
    }
  }
}
