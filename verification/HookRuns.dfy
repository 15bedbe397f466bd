/**
 The periodic loop with the event analyzer on its evaluation hook: what the analyzer is shown under a key is the sliding
 window over that key's samples, so the theorems about its runs hold of the loop.
 */
module HookRuns {
  import opened Wrappers
  import opened LagTypes
  import opened Evaluation
  import opened SlidingWindow
  import opened MotionTheorems
  import opened Keys
  import opened Collection
  import opened PeriodicRuns
  import opened Publishing
  import opened Analyzer
  import opened AnalyzerRuns
  import opened EventRuns

  // ----- the calls under one key -----

  function UnderKey(key: string): Look -> bool {
    (look: Look) => StatusKey(look.status) == key
  }

  function OwnLooks(looks: seq<Look>, key: string): seq<Look> {
    Filtered(looks, UnderKey(key))
  }

  lemma OwnLooksAfter(own: seq<Look>, first: seq<Look>, second: seq<Look>, key: string)
    ensures own + OwnLooks(first + second, key) == (own + OwnLooks(first, key)) + OwnLooks(second, key)
  {
    FilteredInTwoParts(first, second, UnderKey(key));
  }

  /** Call n shows the window after the first n + 1 samples, with its verdict. */
  ghost predicate Sees(config: Config, looks: seq<Look>, history: seq<OffsetRecord>, group: string, topic: string,
      partition: int)
  {
    && |looks| == |history|
    && forall n :: 0 <= n < |looks| ==>
         && looks[n].records == WindowOf(history[..n + 1], config.windowSize)
         && looks[n].status == Evaluate(config, looks[n].records, group, topic, partition)
  }

  lemma SeesOneMore(config: Config, looks: seq<Look>, history: seq<OffsetRecord>, group: string, topic: string,
      partition: int, look: Look, record: OffsetRecord)
    requires Sees(config, looks, history, group, topic, partition)
    requires look.records == WindowOf(history + [record], config.windowSize)
    requires look.status == Evaluate(config, look.records, group, topic, partition)
    ensures Sees(config, looks + [look], history + [record], group, topic, partition)
  {
    var longer := history + [record];
    forall n | 0 <= n < |looks| + 1
      ensures (looks + [look])[n].records == WindowOf(longer[..n + 1], config.windowSize)
      ensures (looks + [look])[n].status == Evaluate(config, (looks + [look])[n].records, group, topic, partition)
    {
      if n < |looks| {
        assert longer[..n + 1] == history[..n + 1];
      } else {
        assert longer[..n + 1] == longer;
      }
    }
  }

  /** The samples of a key in a history, none when it has none. */
  function HistoryAt(history: Windows, key: string): seq<OffsetRecord> {
    WithWindow(history, key)[key]
  }

  lemma OneSample(h: Windows, group: string, p: Probe)
    ensures SampleAll(h, group, [p]) ==
            var key := ProbeKey(group, p);
            if Sampled(p) then h[key := WithWindow(h, key)[key] + [SampleOf(p, p.highWatermark.value)]] else h
  {
    assert [p][..0] == [];
    assert SampleAll(h, group, []) == h;
  }

  lemma ProbeIsSeen(config: Config, w: Windows, h: Windows, own: seq<Look>, group: string, p: Probe, g: string,
      t: string, q: int)
    requires Remembers(w, h, config.windowSize) && ColonFree(p.topic) && ColonFree(t)
    requires Sees(config, own, HistoryAt(h, Key(g, t, q)), g, t, q)
    ensures Sees(config, own + OwnLooks(LookOf(config, w, group, p), Key(g, t, q)),
              HistoryAt(SampleAll(h, group, [p]), Key(g, t, q)), g, t, q)
  {
    var key, own' := Key(g, t, q), OwnLooks(LookOf(config, w, group, p), Key(g, t, q));
    OneSample(h, group, p);
    if Sampled(p) {
      var record := SampleOf(p, p.highWatermark.value);
      var look := LookOf(config, w, group, p)[0];
      assert StatusKey(look.status) == ProbeKey(group, p);
      SampleRemembers(w, h, ProbeKey(group, p), record, config.windowSize);
      FilteredOne(look, UnderKey(key));
      if ProbeKey(group, p) == key {
        KeyIsInjective(group, p.topic, p.partition, g, t, q);
        SeesOneMore(config, own, HistoryAt(h, key), g, t, q, look, record);
        assert own' == [look];
      } else {
        assert own' == [] && own + own' == own;
      }
    } else {
      assert own' == [] && own + own' == own;
    }
  }

  lemma {:induction false} ProbesAreSeen(config: Config, w: Windows, h: Windows, own: seq<Look>, group: string,
      probes: seq<Probe>, g: string, t: string, q: int)
    requires Remembers(w, h, config.windowSize) && Collection.TopicsColonFree(probes) && ColonFree(t)
    requires Sees(config, own, HistoryAt(h, Key(g, t, q)), g, t, q)
    ensures Sees(config, own + OwnLooks(LooksOf(config, w, group, probes), Key(g, t, q)),
              HistoryAt(SampleAll(h, group, probes), Key(g, t, q)), g, t, q)
  {
    var key := Key(g, t, q);
    if probes == [] {
      assert own + OwnLooks(LooksOf(config, w, group, probes), key) == own;
    } else {
      var front, p := probes[..|probes| - 1], probes[|probes| - 1];
      ProbesAreSeen(config, w, h, own, group, front, g, t, q);
      ProbesRemember(config, w, h, group, front);
      var w', h' := ProbeAll(config, w, group, front).0, SampleAll(h, group, front);
      var seen := own + OwnLooks(LooksOf(config, w, group, front), key);
      ProbeIsSeen(config, w', h', seen, group, p, g, t, q);
      OneSample(h', group, p);
      OwnLooksAfter(own, LooksOf(config, w, group, front), LookOf(config, w', group, p), key);
    }
  }

  // ----- rounds and the loop -----

  ghost predicate InputsColonFree(inputs: seq<GroupInput>) {
    forall i :: 0 <= i < |inputs| && inputs[i].offsets.Some? ==> Collection.TopicsColonFree(inputs[i].offsets.value)
  }

  lemma {:induction false} RoundIsSeen(config: Config, w: Windows, h: Windows, store: StatusStore, own: seq<Look>,
      inputs: seq<GroupInput>, g: string, t: string, q: int)
    requires Remembers(w, h, config.windowSize) && InputsColonFree(inputs) && ColonFree(t)
    requires Sees(config, own, HistoryAt(h, Key(g, t, q)), g, t, q)
    ensures Sees(config, own + OwnLooks(RoundLooks(config, w, store, inputs), Key(g, t, q)),
              HistoryAt(SampleRound(h, inputs), Key(g, t, q)), g, t, q)
  {
    var key := Key(g, t, q);
    if inputs == [] {
      assert own + OwnLooks(RoundLooks(config, w, store, inputs), key) == own;
    } else {
      var front, last := inputs[..|inputs| - 1], inputs[|inputs| - 1];
      RoundIsSeen(config, w, h, store, own, front, g, t, q);
      RoundRemembers(config, w, h, store, front);
      var w', h' := CollectRound(config, w, store, front).0, SampleRound(h, front);
      var seen := own + OwnLooks(RoundLooks(config, w, store, front), key);
      var more := GroupLooks(config, w', last);
      if last.offsets.Some? {
        ProbesAreSeen(config, w', h', seen, last.group, last.offsets.value, g, t, q);
      } else {
        assert seen + OwnLooks(more, key) == seen;
      }
      OwnLooksAfter(own, RoundLooks(config, w, store, front), more, key);
    }
  }

  /** All names that a listing brings are without a colon. */
  ghost predicate Plain(listing: Option<seq<GroupInput>>) {
    ListingColonFree(listing) && (listing.Some? ==> InputsColonFree(listing.value))
  }

  ghost predicate PlainLoop(first: Option<seq<GroupInput>>, ticks: seq<Tick>) {
    Plain(first) && forall i :: 0 <= i < |ticks| && ticks[i].Collect? ==> Plain(ticks[i].inputs)
  }

  lemma CollectionIsSeen(config: Config, w: Windows, h: Windows, store: StatusStore, own: seq<Look>,
      listing: Option<seq<GroupInput>>, g: string, t: string, q: int)
    requires Remembers(w, h, config.windowSize) && Plain(listing) && ColonFree(t)
    requires Sees(config, own, HistoryAt(h, Key(g, t, q)), g, t, q)
    ensures Sees(config, own + OwnLooks(CollectedLooks(config, w, store, listing), Key(g, t, q)),
              HistoryAt(SampleListing(h, listing), Key(g, t, q)), g, t, q)
  {
    if listing.Some? {
      RoundIsSeen(config, w, h, store, own, listing.value, g, t, q);
    } else {
      assert own + OwnLooks([], Key(g, t, q)) == own;
    }
  }

  const START: (Windows, StatusStore) := (map[], map[])

  /** Everything sampled for a key since the loop started. */
  function LoopHistory(config: Config, first: Option<seq<GroupInput>>, ticks: seq<Tick>, key: string)
    : seq<OffsetRecord>
  {
    HistoryAt(RunHistory(config, START, map[], first, ticks), key)
  }

  lemma CleanupForgetsNothing(windows: Windows, h: Windows, store: StatusStore)
    requires windows.Keys == h.Keys && WindowsTracked(windows, store) && GroupsColonFree(store)
    ensures Cleaned(h, store.Keys) == h
  {
    CleanupKeepsTracked(windows, store);
    forall key | key in h ensures GroupPart(key) in store {
      assert key in Cleaned(windows, store.Keys);
    }
  }

  /** The loop's calls of the hook under a key show the sliding window over exactly the samples of that key. */
  lemma {:induction false} LoopIsSeen(config: Config, first: Option<seq<GroupInput>>, ticks: seq<Tick>, g: string,
      t: string, q: int)
    requires PlainLoop(first, ticks) && ColonFree(t)
    ensures Sees(config, OwnLooks(LoopLooks(config, START, first, ticks), Key(g, t, q)),
              LoopHistory(config, first, ticks, Key(g, t, q)), g, t, q)
  {
    var key := Key(g, t, q);
    if ticks == [] {
      CollectionIsSeen(config, map[], map[], map[], [], first, g, t, q);
      var looks := CollectedLooks(config, map[], map[], first);
      assert [] + OwnLooks(looks, key) == OwnLooks(looks, key);
    } else {
      var front, last := ticks[..|ticks| - 1], ticks[|ticks| - 1];
      LoopIsSeen(config, first, front, g, t, q);
      EveryRunRemembers(config, START, map[], first, front);
      CleanupsAreNoOps(config, START, first, front);
      var (windows, store) := Periodic(config, START, first, front);
      var h, looks := RunHistory(config, START, map[], first, front), LoopLooks(config, START, first, front);
      match last {
        case Cleanup =>
          CleanupForgetsNothing(windows, h, store);
          assert looks + [] == looks;
        case Collect(listing) =>
          CollectionIsSeen(config, windows, h, store, OwnLooks(looks, key), listing, g, t, q);
          FilteredInTwoParts(looks, CollectedLooks(config, windows, store, listing), UnderKey(key));
      }
    }
  }

  // ----- the analyzer on the hook -----

  /** The run evaluates what the calls show, in order, whatever the clock readings and outcomes of the publishes. */
  ghost predicate Reports(run: seq<Observation>, looks: seq<Look>) {
    && |run| == |looks|
    && forall i :: 0 <= i < |run| ==> run[i].status == looks[i].status && run[i].records == looks[i].records
  }

  lemma {:induction false} OwnReports(run: seq<Observation>, looks: seq<Look>, key: string)
    requires Reports(run, looks)
    ensures Reports(Only(run, key), OwnLooks(looks, key))
  {
    if run != [] {
      OwnReports(run[..|run| - 1], looks[..|looks| - 1], key);
    }
  }

  /** Under each key the analyzer on the loop's hook evaluates a history, as its theorems suppose. */
  lemma LoopObserves(config: Config, first: Option<seq<GroupInput>>, ticks: seq<Tick>, run: seq<Observation>, g: string,
      t: string, q: int)
    requires PlainLoop(first, ticks) && ColonFree(t) && Reports(run, LoopLooks(config, START, first, ticks))
    ensures Observes(config, Only(run, Key(g, t, q)), LoopHistory(config, first, ticks, Key(g, t, q)), g, t, q)
  {
    var key := Key(g, t, q);
    LoopIsSeen(config, first, ticks, g, t, q);
    OwnReports(run, LoopLooks(config, START, first, ticks), key);
    var own, looks, history := Only(run, key), OwnLooks(LoopLooks(config, START, first, ticks), key),
      LoopHistory(config, first, ticks, key);
    forall n | 0 <= n < |own| ensures Looks(config, own[n], history[..n + 1], g, t, q) {
      assert own[n].status == looks[n].status && own[n].records == looks[n].records;
    }
  }

  // ----- one evaluation among those of all keys -----

  /** The events that evaluation m of a run over all keys attempts, from what the maps hold then. */
  function AttemptsIn(config: Config, run: seq<Observation>, m: nat): seq<EventType>
    requires m < |run|
  {
    Attempts(config, LookUp(MemoryAfter(config, run[..m]), StatusKey(run[m].status)), run[m])
  }

  predicate SuppressedIn(config: Config, run: seq<Observation>, m: nat)
    requires m < |run|
  {
    Suppressed(LookUp(MemoryAfter(config, run[..m]), StatusKey(run[m].status)), run[m].now)
  }

  /** How many evaluations of the run so far went under the key of evaluation m. */
  function Place(run: seq<Observation>, m: nat): nat
    requires m < |run|
  {
    |Only(run[..m], StatusKey(run[m].status))|
  }

  /** Evaluation m is the evaluation at its place among those of its own key, and finds the state they left. */
  lemma OwnPlace(config: Config, run: seq<Observation>, m: nat)
    requires m < |run|
    ensures var own, n := Only(run, StatusKey(run[m].status)), Place(run, m);
            && n < |own| && own[n] == run[m]
            && LookUp(MemoryAfter(config, run[..m]), StatusKey(run[m].status)) == Before(config, own, n)
  {
    var key := StatusKey(run[m].status);
    PlaceAmongKept(run, m, GoesUnder(key));
    LookUpIsOwnRun(config, run[..m], key);
  }

  /** The evaluation before evaluation m under the same key. */
  lemma OwnPredecessor(config: Config, run: seq<Observation>, m: nat) returns (l: nat)
    requires m < |run| && Place(run, m) > 0
    ensures l < m && StatusKey(run[l].status) == StatusKey(run[m].status)
    ensures forall i :: l < i < m ==> StatusKey(run[i].status) != StatusKey(run[m].status)
    ensures var own := Only(run, StatusKey(run[m].status));
            && Place(run, m) - 1 < |own|
            && (SuppressedIn(config, run, l) <==> SuppressedAt(config, own, Place(run, m) - 1))
  {
    var key := StatusKey(run[m].status);
    l := LastKept(run, m, GoesUnder(key));
    assert Only(run[..m], key) == Only(run[..l], key) + [run[l]];
    OwnPlace(config, run, l);
    OwnPlace(config, run, m);
  }

  lemma {:induction false} LooksArePlain(config: Config, w: Windows, group: string, probes: seq<Probe>)
    requires Collection.TopicsColonFree(probes)
    ensures forall i :: 0 <= i < |LooksOf(config, w, group, probes)| ==>
              ColonFree(LooksOf(config, w, group, probes)[i].status.topic)
  {
    if probes != [] {
      LooksArePlain(config, w, group, probes[..|probes| - 1]);
    }
  }

  lemma {:induction false} RoundLooksArePlain(config: Config, w: Windows, store: StatusStore, inputs: seq<GroupInput>)
    requires InputsColonFree(inputs)
    ensures forall i :: 0 <= i < |RoundLooks(config, w, store, inputs)| ==>
              ColonFree(RoundLooks(config, w, store, inputs)[i].status.topic)
  {
    if inputs != [] {
      var front, last := inputs[..|inputs| - 1], inputs[|inputs| - 1];
      RoundLooksArePlain(config, w, store, front);
      if last.offsets.Some? {
        LooksArePlain(config, CollectRound(config, w, store, front).0, last.group, last.offsets.value);
      }
    }
  }

  lemma {:induction false} LoopLooksArePlain(config: Config, first: Option<seq<GroupInput>>, ticks: seq<Tick>)
    requires PlainLoop(first, ticks)
    ensures forall i :: 0 <= i < |LoopLooks(config, START, first, ticks)| ==>
              ColonFree(LoopLooks(config, START, first, ticks)[i].status.topic)
  {
    if ticks == [] {
      if first.Some? {
        RoundLooksArePlain(config, map[], map[], first.value);
      }
    } else {
      var front, last := ticks[..|ticks| - 1], ticks[|ticks| - 1];
      LoopLooksArePlain(config, first, front);
      if last.Collect? && last.inputs.Some? {
        var (windows, store) := Periodic(config, START, first, front);
        RoundLooksArePlain(config, windows, store, last.inputs.value);
      }
    }
  }

  lemma OwnStopFollowsSkip(config: Config, first: Option<seq<GroupInput>>, ticks: seq<Tick>, run: seq<Observation>,
      g: nat, key: string, n: nat, e: Observation)
    requires PlainLoop(first, ticks) && Reports(run, LoopLooks(config, START, first, ticks))
    requires e in run && key == StatusKey(e.status) && n < |Only(run, key)|
    requires GapsAtMost(LoopHistory(config, first, ticks, key), g)
    requires config.windowSize >= 2 ==> Min(4, config.windowSize - 1) * g <= config.inactivityTimeout
    requires ConsumerStopped in AttemptsAt(config, Only(run, key), n)
    ensures n >= 1 && SuppressedAt(config, Only(run, key), n - 1)
    ensures Before(config, Only(run, key), n).previous in {Some(Active), Some(Lagging)}
  {
    var s := e.status;
    LoopLooksArePlain(config, first, ticks);
    LoopObserves(config, first, ticks, run, s.group, s.topic, s.partition);
    StoppedOnlyAfterSkip(config, Only(run, key), LoopHistory(config, first, ticks, key), s.group, s.topic, s.partition,
      g, n);
  }

  /**
   In the loop itself: when four sample gaps of a partition, or as many as the window spans, fit in the inactivity
   timeout, consumer_stopped is attempted for it only if its last evaluation before was skipped by a cooldown and the
   remembered status is frozen at ACTIVE or LAGGING.
   */
  lemma LoopStopsOnlyAfterSkip(config: Config, first: Option<seq<GroupInput>>, ticks: seq<Tick>,
      run: seq<Observation>, g: nat, m: nat) returns (l: nat)
    requires PlainLoop(first, ticks) && Reports(run, LoopLooks(config, START, first, ticks)) && m < |run|
    requires GapsAtMost(LoopHistory(config, first, ticks, StatusKey(run[m].status)), g)
    requires config.windowSize >= 2 ==> Min(4, config.windowSize - 1) * g <= config.inactivityTimeout
    requires ConsumerStopped in AttemptsIn(config, run, m)
    ensures l < m && StatusKey(run[l].status) == StatusKey(run[m].status) && SuppressedIn(config, run, l)
    ensures forall i :: l < i < m ==> StatusKey(run[i].status) != StatusKey(run[m].status)
    ensures LookUp(MemoryAfter(config, run[..m]), StatusKey(run[m].status)).previous in {Some(Active), Some(Lagging)}
  {
    var key, n := StatusKey(run[m].status), Place(run, m);
    OwnPlace(config, run, m);
    OwnStopFollowsSkip(config, first, ticks, run, g, key, n, run[m]);
    l := OwnPredecessor(config, run, m);
  }
}
