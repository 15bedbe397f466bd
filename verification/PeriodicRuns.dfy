/** Whole runs of the periodic loop: which windows survive its clean-ups, and what every window remembers. */
module PeriodicRuns {
  import opened Wrappers
  import opened LagTypes
  import opened SlidingWindow
  import opened Keys
  import opened Collection

  /** A tick of the periodic loop: a collection (None when the groups cannot be listed) or a clean-up. */
  datatype Tick = Collect(inputs: Option<seq<GroupInput>>) | Cleanup

  /** Every window was made for a group whose status is stored. */
  ghost predicate WindowsTracked(windows: Windows, store: StatusStore) {
    forall key :: key in windows ==> exists group, topic, partition ::
      group in store && key == Key(group, topic, partition)
  }

  ghost predicate GroupsColonFree(store: StatusStore) {
    forall group :: group in store ==> ColonFree(group)
  }

  /** What a clean-up keeps: the windows whose key starts with an active group and a colon. */
  function Cleaned<T>(windows: map<string, T>, active: set<string>): map<string, T> {
    map key | key in windows && GroupPart(key) in active :: windows[key]
  }

  function Collected(config: Config, windows: Windows, store: StatusStore, listing: Option<seq<GroupInput>>)
    : (Windows, StatusStore)
  {
    if listing.None? then (windows, store) else CollectRound(config, windows, store, listing.value)
  }

  function Ticked(config: Config, windows: Windows, store: StatusStore, tick: Tick): (Windows, StatusStore) {
    match tick
    case Cleanup => (Cleaned(windows, store.Keys), store)
    case Collect(listing) => Collected(config, windows, store, listing)
  }

  /** The state at the loop head after the first collection and the ticks, from the state at the start. */
  function Periodic(config: Config, start: (Windows, StatusStore), first: Option<seq<GroupInput>>,
      ticks: seq<Tick>)
    : (Windows, StatusStore)
  {
    if ticks == [] then Collected(config, start.0, start.1, first)
    else
      var (windows, store) := Periodic(config, start, first, ticks[..|ticks| - 1]);
      Ticked(config, windows, store, ticks[|ticks| - 1])
  }

  function CollectedLooks(config: Config, windows: Windows, store: StatusStore, listing: Option<seq<GroupInput>>)
    : seq<Look>
  {
    if listing.None? then [] else RoundLooks(config, windows, store, listing.value)
  }

  function TickLooks(config: Config, windows: Windows, store: StatusStore, tick: Tick): seq<Look> {
    match tick
    case Cleanup => []
    case Collect(listing) => CollectedLooks(config, windows, store, listing)
  }

  /** The calls of the evaluation hook over the first collection and the ticks. */
  function LoopLooks(config: Config, start: (Windows, StatusStore), first: Option<seq<GroupInput>>, ticks: seq<Tick>)
    : seq<Look>
  {
    if ticks == [] then CollectedLooks(config, start.0, start.1, first)
    else
      var front := ticks[..|ticks| - 1];
      var (windows, store) := Periodic(config, start, first, front);
      LoopLooks(config, start, first, front) + TickLooks(config, windows, store, ticks[|ticks| - 1])
  }

  lemma LoopOneMore(config: Config, start: (Windows, StatusStore), first: Option<seq<GroupInput>>, ticks: seq<Tick>,
      i: nat)
    requires i < |ticks|
    ensures var (windows, store) := Periodic(config, start, first, ticks[..i]);
            && Periodic(config, start, first, ticks[..i + 1]) == Ticked(config, windows, store, ticks[i])
            && LoopLooks(config, start, first, ticks[..i + 1]) ==
                 LoopLooks(config, start, first, ticks[..i]) + TickLooks(config, windows, store, ticks[i])
  {
    assert ticks[..i + 1][..i] == ticks[..i];
  }

  /** What the same collections would leave with no clean-up at all. */
  function WithoutCleanups(config: Config, start: (Windows, StatusStore), first: Option<seq<GroupInput>>,
      ticks: seq<Tick>)
    : (Windows, StatusStore)
  {
    if ticks == [] then Collected(config, start.0, start.1, first)
    else
      var (windows, store) := WithoutCleanups(config, start, first, ticks[..|ticks| - 1]);
      match ticks[|ticks| - 1]
      case Cleanup => (windows, store)
      case Collect(listing) => Collected(config, windows, store, listing)
  }

  ghost predicate ListingColonFree(listing: Option<seq<GroupInput>>) {
    listing.Some? ==> forall i :: 0 <= i < |listing.value| ==> ColonFree(listing.value[i].group)
  }

  // ----- clean-up -----

  /** A clean-up over colon-free active groups keeps exactly the windows made for those groups. */
  lemma CleanupKeepsActive(windows: Windows, active: set<string>, group: string, topic: string, partition: int)
    requires ColonFree(group) && Key(group, topic, partition) in windows
    ensures Key(group, topic, partition) in Cleaned(windows, active) <==> group in active
  {
    GroupPartOfKey(group, topic, partition);
  }

  /**
   The clean-up follows group membership, for every set of active groups, exactly when the group name has no colon:
   with a colon in it, a live group's windows are dropped.
   */
  lemma CleanupIsRightIffColonFree(windows: Windows, group: string, topic: string, partition: int)
    requires Key(group, topic, partition) in windows
    ensures ColonFree(group) <==>
            forall active :: Key(group, topic, partition) in Cleaned(windows, active) <==> group in active
  {
    GroupPartOfKey(group, topic, partition);
    var key := Key(group, topic, partition);
    if !ColonFree(group) {
      assert key !in Cleaned(windows, {group}) && group in {group};
    }
  }

  /** With tracked windows and colon-free groups, cleaning up against the status store changes nothing. */
  lemma CleanupKeepsTracked(windows: Windows, store: StatusStore)
    requires WindowsTracked(windows, store) && GroupsColonFree(store)
    ensures Cleaned(windows, store.Keys) == windows
  {
    forall key | key in windows ensures GroupPart(key) in store {
      var group, topic, partition :| group in store && key == Key(group, topic, partition);
      GroupPartOfKey(group, topic, partition);
    }
  }

  // ----- tracking -----

  lemma {:induction false} ProbesTouchOwnKeys(config: Config, w: Windows, group: string, probes: seq<Probe>)
    ensures forall key :: key in ProbeAll(config, w, group, probes).0 ==>
              key in w || exists topic, partition :: key == Key(group, topic, partition)
  {
    if probes != [] {
      ProbesTouchOwnKeys(config, w, group, probes[..|probes| - 1]);
    }
  }

  lemma {:induction false} RoundKeepsTracking(config: Config, w: Windows, store: StatusStore, inputs: seq<GroupInput>)
    requires WindowsTracked(w, store)
    ensures var (w', store') := CollectRound(config, w, store, inputs);
            && WindowsTracked(w', store') && store.Keys <= store'.Keys
            && (forall group :: group in store' ==>
                  (group in store || exists i :: 0 <= i < |inputs| && inputs[i].group == group))
  {
    if inputs != [] {
      var front, last := inputs[..|inputs| - 1], inputs[|inputs| - 1];
      RoundKeepsTracking(config, w, store, front);
      var (w1, store1) := CollectRound(config, w, store, front);
      var (w2, store2) := CollectRound(config, w, store, inputs);
      if last.offsets.Some? {
        ProbesTouchOwnKeys(config, w1, last.group, last.offsets.value);
        forall key | key in w2
          ensures exists group, topic, partition :: group in store2 && key == Key(group, topic, partition)
        {
          if key in w1 {
            var group, topic, partition :| group in store1 && key == Key(group, topic, partition);
            assert group in store2;
          } else {
            var topic, partition :| key == Key(last.group, topic, partition);
            assert last.group in store2;
          }
        }
      }
    }
  }

  lemma CollectionKeepsTracking(config: Config, w: Windows, store: StatusStore, listing: Option<seq<GroupInput>>)
    requires WindowsTracked(w, store)
    ensures var (w', store') := Collected(config, w, store, listing);
            && WindowsTracked(w', store')
            && (GroupsColonFree(store) && ListingColonFree(listing) ==> GroupsColonFree(store'))
  {
    if listing.Some? {
      RoundKeepsTracking(config, w, store, listing.value);
    }
  }

  /** At every loop head each window's group has a stored status. */
  lemma {:induction false} LoopKeepsTracking(config: Config, start: (Windows, StatusStore),
      first: Option<seq<GroupInput>>, ticks: seq<Tick>)
    requires WindowsTracked(start.0, start.1)
    ensures var (windows, store) := Periodic(config, start, first, ticks); WindowsTracked(windows, store)
  {
    if ticks == [] {
      CollectionKeepsTracking(config, start.0, start.1, first);
    } else {
      var front := ticks[..|ticks| - 1];
      LoopKeepsTracking(config, start, first, front);
      var (windows, store) := Periodic(config, start, first, front);
      if ticks[|ticks| - 1].Collect? {
        CollectionKeepsTracking(config, windows, store, ticks[|ticks| - 1].inputs);
      }
    }
  }

  /** While no group name has a colon, clean-ups never drop a window: the run is as if they were not there. */
  lemma {:induction false} CleanupsAreNoOps(config: Config, start: (Windows, StatusStore),
      first: Option<seq<GroupInput>>, ticks: seq<Tick>)
    requires WindowsTracked(start.0, start.1) && GroupsColonFree(start.1) && ListingColonFree(first)
    requires forall i :: 0 <= i < |ticks| && ticks[i].Collect? ==> ListingColonFree(ticks[i].inputs)
    ensures Periodic(config, start, first, ticks) == WithoutCleanups(config, start, first, ticks)
    ensures var (windows, store) := Periodic(config, start, first, ticks);
            WindowsTracked(windows, store) && GroupsColonFree(store)
  {
    if ticks == [] {
      CollectionKeepsTracking(config, start.0, start.1, first);
    } else {
      var front, last := ticks[..|ticks| - 1], ticks[|ticks| - 1];
      CleanupsAreNoOps(config, start, first, front);
      var (windows, store) := Periodic(config, start, first, front);
      match last {
        case Cleanup => CleanupKeepsTracked(windows, store);
        case Collect(listing) => CollectionKeepsTracking(config, windows, store, listing);
      }
    }
  }

  // ----- statuses -----

  /** A tick leaves a group the status of its last successful collection in the tick, and any other group its own. */
  lemma TickStoresLatest(config: Config, windows: Windows, store: StatusStore, tick: Tick, group: string)
    ensures var store' := Ticked(config, windows, store, tick).1;
            && (tick.Collect? && tick.inputs.Some? ==>
                  forall i: nat :: LastSuccess(tick.inputs.value, i) && tick.inputs.value[i].group == group ==>
                    && group in store'
                    && Some(store'[group]) == CollectGroup(config,
                         CollectRound(config, windows, store, tick.inputs.value[..i]).0, tick.inputs.value[i]).1)
            && ((tick.Collect? && tick.inputs.Some? ==>
                   forall i :: 0 <= i < |tick.inputs.value| && tick.inputs.value[i].group == group ==>
                     tick.inputs.value[i].offsets.None?) ==>
                  (group in store' <==> group in store) && (group in store ==> store'[group] == store[group]))
  {
    if tick.Collect? && tick.inputs.Some? {
      var inputs := tick.inputs.value;
      forall i: nat | LastSuccess(inputs, i) && inputs[i].group == group
        ensures var store' := CollectRound(config, windows, store, inputs).1;
                && group in store'
                && Some(store'[group]) ==
                     CollectGroup(config, CollectRound(config, windows, store, inputs[..i]).0, inputs[i]).1
      {
        LatestStatusIsStored(config, windows, store, inputs, i);
      }
      if forall i :: 0 <= i < |inputs| && inputs[i].group == group ==> inputs[i].offsets.None? {
        UncollectedStatusStays(config, windows, store, inputs, group);
      }
    }
  }

  // ----- windows remember the most recent samples -----

  /** All samples taken for each key, without a bound: what the windows would be if nothing were ever dropped. */
  function SampleAll(history: Windows, group: string, probes: seq<Probe>): Windows {
    if probes == [] then history
    else
      var h := SampleAll(history, group, probes[..|probes| - 1]);
      var p := probes[|probes| - 1];
      var key := ProbeKey(group, p);
      if Sampled(p) then h[key := WithWindow(h, key)[key] + [SampleOf(p, p.highWatermark.value)]] else h
  }

  function SampleRound(history: Windows, inputs: seq<GroupInput>): Windows {
    if inputs == [] then history
    else
      var h := SampleRound(history, inputs[..|inputs| - 1]);
      var last := inputs[|inputs| - 1];
      if last.offsets.Some? then SampleAll(h, last.group, last.offsets.value) else h
  }

  function SampleListing(history: Windows, listing: Option<seq<GroupInput>>): Windows {
    if listing.Some? then SampleRound(history, listing.value) else history
  }

  /** The samples of a run; a clean-up that drops a window also ends its history. */
  function RunHistory(config: Config, start: (Windows, StatusStore), past: Windows, first: Option<seq<GroupInput>>,
      ticks: seq<Tick>): Windows
  {
    if ticks == [] then SampleListing(past, first)
    else
      var front := ticks[..|ticks| - 1];
      var h := RunHistory(config, start, past, first, front);
      match ticks[|ticks| - 1]
      case Cleanup => Cleaned(h, Periodic(config, start, first, front).1.Keys)
      case Collect(listing) => SampleListing(h, listing)
  }

  predicate LagIsRight(r: OffsetRecord) {
    r.lag == (if r.highWatermark < r.offset then 0 else r.highWatermark - r.offset)
  }

  predicate LagsAreRight(records: seq<OffsetRecord>) {
    forall i :: 0 <= i < |records| ==> LagIsRight(records[i])
  }

  /** Each window holds the most recent samples of its key in order, and every stored lag is right. */
  ghost predicate Remembers(windows: Windows, history: Windows, size: nat) {
    && windows.Keys == history.Keys
    && (forall key :: key in windows ==> windows[key] == WindowOf(history[key], size))
    && (forall key :: key in history ==> LagsAreRight(history[key]))
  }

  lemma SampleRemembers(w: Windows, h: Windows, key: string, record: OffsetRecord, size: nat)
    requires Remembers(w, h, size) && LagIsRight(record)
    ensures Remembers(AddSample(w, key, record, size), h[key := WithWindow(h, key)[key] + [record]], size)
  {
    var past := WithWindow(h, key)[key];
    assert WithWindow(w, key)[key] == WindowOf(past, size);
    WindowSlides(past, record, size);
    assert LagsAreRight(past + [record]);
  }

  lemma {:induction false} ProbesRemember(config: Config, w: Windows, h: Windows, group: string, probes: seq<Probe>)
    requires Remembers(w, h, config.windowSize)
    ensures Remembers(ProbeAll(config, w, group, probes).0, SampleAll(h, group, probes), config.windowSize)
  {
    if probes != [] {
      var front, p := probes[..|probes| - 1], probes[|probes| - 1];
      ProbesRemember(config, w, h, group, front);
      if Sampled(p) {
        SampleRemembers(ProbeAll(config, w, group, front).0, SampleAll(h, group, front), ProbeKey(group, p),
          SampleOf(p, p.highWatermark.value), config.windowSize);
      }
    }
  }

  lemma {:induction false} RoundRemembers(config: Config, w: Windows, h: Windows, store: StatusStore,
      inputs: seq<GroupInput>)
    requires Remembers(w, h, config.windowSize)
    ensures Remembers(CollectRound(config, w, store, inputs).0, SampleRound(h, inputs), config.windowSize)
  {
    if inputs != [] {
      var front, last := inputs[..|inputs| - 1], inputs[|inputs| - 1];
      RoundRemembers(config, w, h, store, front);
      if last.offsets.Some? {
        ProbesRemember(config, CollectRound(config, w, store, front).0, SampleRound(h, front), last.group,
          last.offsets.value);
      }
    }
  }

  /** In every reachable state of the loop each window equals the most recent samples taken for its key. */
  lemma {:induction false} EveryRunRemembers(config: Config, start: (Windows, StatusStore), past: Windows,
      first: Option<seq<GroupInput>>, ticks: seq<Tick>)
    requires Remembers(start.0, past, config.windowSize)
    ensures Remembers(Periodic(config, start, first, ticks).0, RunHistory(config, start, past, first, ticks),
              config.windowSize)
  {
    if ticks == [] {
      if first.Some? {
        RoundRemembers(config, start.0, past, start.1, first.value);
      }
    } else {
      var front := ticks[..|ticks| - 1];
      EveryRunRemembers(config, start, past, first, front);
      var (windows, store) := Periodic(config, start, first, front);
      match ticks[|ticks| - 1] {
        case Cleanup =>
        case Collect(listing) =>
          if listing.Some? {
            RoundRemembers(config, windows, RunHistory(config, start, past, first, front), store, listing.value);
          }
      }
    }
  }
}
