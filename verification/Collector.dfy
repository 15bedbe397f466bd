/** The collector object: one window for each group, topic and partition, and the latest status of each group. */
module Collector {
  import opened Wrappers
  import opened LagTypes
  import opened Evaluation
  import opened Keys
  import opened Collection
  import opened PeriodicRuns

  lemma RollUpVerdict(blank: GroupStatus, verdicts: seq<PartitionStatus>, verdict: Option<PartitionStatus>)
    ensures RollUp(blank, verdicts + Verdicts(verdict)) ==
            if verdict.Some? then Account(RollUp(blank, verdicts), verdict.value) else RollUp(blank, verdicts)
  {
    if verdict.Some? {
      assert (verdicts + [verdict.value])[..|verdicts|] == verdicts;
    } else {
      assert verdicts + [] == verdicts;
    }
  }

  class Collector {
    const config: Config
    const evaluator: LagEvaluator
    var windows: Windows
    var statusStore: StatusStore
    // The calls made of the evaluation hook, in order.
    ghost var looks: seq<Look>

    ghost predicate Valid() {
      evaluator.config == config
    }

    constructor (config: Config)
      ensures Valid() && this.config == config && windows == map[] && statusStore == map[] && looks == []
    {
      this.config := config;
      evaluator := new LagEvaluator(config);
      windows, statusStore, looks := map[], map[], [];
    }

    method AddToWindow(key: string, record: OffsetRecord)
      modifies this`windows
      ensures windows == AddSample(old(windows), key, record, config.windowSize)
    {
      if key !in windows {
        windows := windows[key := []];
      }
      windows := windows[key := windows[key] + [record]];
      if |windows[key]| > config.windowSize {
        windows := windows[key := windows[key][1..]];
      }
    }

    /** The records of key, none when there is no window. */
    method GetWindowRecords(key: string) returns (records: seq<OffsetRecord>)
      ensures records == WithWindow(windows, key)[key]
    {
      records := if key in windows then windows[key] else [];
    }

    method EvaluatePartition(group: string, p: Probe) returns (verdict: Option<PartitionStatus>)
      requires Valid()
      modifies this`windows, this`looks
      ensures (windows, verdict) == EvaluateProbe(config, old(windows), group, p)
      ensures looks == old(looks) + LookOf(config, old(windows), group, p)
    {
      if p.highWatermark.None? {
        return None;
      }
      if p.offset == OFFSET_INVALID {
        return Some(Uncommitted(group, p, p.highWatermark.value));
      }
      var lag := p.highWatermark.value - p.offset;
      if lag < 0 {
        lag := 0;
      }
      var record := OffsetRecord(p.offset, p.highWatermark.value, lag, p.at);
      var key := Key(group, p.topic, p.partition);
      AddToWindow(key, record);
      var records := GetWindowRecords(key);
      var status := evaluator.EvaluatePartitionConsumer(records, group, p.topic, p.partition);
      looks := looks + [Look(status, records)];
      verdict := Some(status);
    }

    method AddVerdict(g: GroupStatus, s: PartitionStatus) returns (r: GroupStatus)
      ensures r == Account(g, s)
    {
      r := g.(totalLag := g.totalLag + s.currentLag);
      match s.status {
        case Active | Empty => r := r.(activePartitions := r.activePartitions + 1);
        case Stopped => r := r.(stoppedPartitions := r.stoppedPartitions + 1);
        case Stalled => r := r.(stalledPartitions := r.stalledPartitions + 1);
        case Lagging | UnknownStatus =>
      }
      match s.health {
        case Critical => r := r.(critical := r.critical + [s]);
        case Warning => r := r.(warning := r.warning + [s]);
        case Good => r := r.(healthy := r.healthy + [s]);
      }
    }

    method CollectGroupMetrics(input: GroupInput) returns (status: Option<GroupStatus>)
      requires Valid()
      modifies this`windows, this`looks
      ensures (windows, status) == CollectGroup(config, old(windows), input)
      ensures looks == old(looks) + GroupLooks(config, old(windows), input)
    {
      if input.offsets.None? {
        return None;
      }
      var probes := input.offsets.value;
      var blank := BlankGroup(input, |probes|);
      var g := blank;
      ghost var verdicts := [];
      for i := 0 to |probes|
        invariant (windows, verdicts) == ProbeAll(config, old(windows), input.group, probes[..i])
        invariant g == RollUp(blank, verdicts)
        invariant looks == old(looks) + LooksOf(config, old(windows), input.group, probes[..i])
      {
        ProbesOneMore(config, old(windows), input.group, probes, i);
        AppendAssociates(old(looks), LooksOf(config, old(windows), input.group, probes[..i]),
          LookOf(config, windows, input.group, probes[i]));
        var verdict := EvaluatePartition(input.group, probes[i]);
        RollUpVerdict(blank, verdicts, verdict);
        if verdict.Some? {
          g := AddVerdict(g, verdict.value);
        }
        verdicts := verdicts + Verdicts(verdict);
      }
      assert probes[..|probes|] == probes;
      status := Some(Conclude(g));
    }

    /** One group of a round: its windows, and its status unless its offsets are missing. */
    method CollectOne(input: GroupInput)
      requires Valid()
      modifies this
      ensures var (w, status) := CollectGroup(config, old(windows), input);
              windows == w && statusStore == Store(old(statusStore), input.group, status)
      ensures looks == old(looks) + GroupLooks(config, old(windows), input)
    {
      var status := CollectGroupMetrics(input);
      if status.Some? {
        statusStore := statusStore[input.group := status.value];
      }
    }

    /** A round with the groups taken one at a time; nothing changes when the groups cannot be listed. */
    method CollectMetrics(listing: Option<seq<GroupInput>>) returns (ok: bool)
      requires Valid()
      modifies this
      ensures ok == listing.Some?
      ensures (windows, statusStore) == Collected(config, old(windows), old(statusStore), listing)
      ensures looks == old(looks) + CollectedLooks(config, old(windows), old(statusStore), listing)
    {
      if listing.None? {
        return false;
      }
      var inputs := listing.value;
      for i := 0 to |inputs|
        invariant (windows, statusStore) == CollectRound(config, old(windows), old(statusStore), inputs[..i])
        invariant looks == old(looks) + RoundLooks(config, old(windows), old(statusStore), inputs[..i])
      {
        RoundOneMore(config, old(windows), old(statusStore), inputs, i);
        AppendAssociates(old(looks), RoundLooks(config, old(windows), old(statusStore), inputs[..i]),
          GroupLooks(config, windows, inputs[i]));
        CollectOne(inputs[i]);
      }
      assert inputs[..|inputs|] == inputs;
      ok := true;
    }

    /** Drops every window whose key does not start with an active group. */
    method CleanupOldWindows(active: set<string>)
      modifies this`windows
      ensures windows == Cleaned(old(windows), active)
    {
      var keys := windows.Keys;
      while keys != {}
        invariant keys <= old(windows).Keys
        invariant windows ==
                  map key | key in old(windows) && (key in keys || GroupPart(key) in active) :: old(windows)[key]
        decreases keys
      {
        var key :| key in keys;
        keys := keys - {key};
        if GroupPart(key) !in active {
          windows := windows - {key};
        }
      }
    }

    /** One tick of the periodic loop. */
    method HandleTick(tick: Tick)
      requires Valid()
      modifies this
      ensures (windows, statusStore) == Ticked(config, old(windows), old(statusStore), tick)
      ensures looks == old(looks) + TickLooks(config, old(windows), old(statusStore), tick)
    {
      match tick {
        case Cleanup =>
          var activeGroups := statusStore.Keys;
          CleanupOldWindows(activeGroups);
        case Collect(listing) =>
          var ok := CollectMetrics(listing);
      }
    }

    /**
     The periodic loop, for any sequence of ticks: a collection first, then collections and clean-ups as they come.
     At every loop head each window belongs to a group whose status is stored, when that is so at the start.
     */
    method StartPeriodicCollection(first: Option<seq<GroupInput>>, ticks: seq<Tick>)
      requires Valid()
      modifies this
      ensures (windows, statusStore) == Periodic(config, old((windows, statusStore)), first, ticks)
      ensures looks == old(looks) + LoopLooks(config, old((windows, statusStore)), first, ticks)
      ensures old(WindowsTracked(windows, statusStore)) ==> WindowsTracked(windows, statusStore)
    {
      ghost var start := (windows, statusStore);
      var ok := CollectMetrics(first);
      for i := 0 to |ticks|
        invariant (windows, statusStore) == Periodic(config, start, first, ticks[..i])
        invariant looks == old(looks) + LoopLooks(config, start, first, ticks[..i])
      {
        LoopOneMore(config, start, first, ticks, i);
        AppendAssociates(old(looks), LoopLooks(config, start, first, ticks[..i]),
          TickLooks(config, windows, statusStore, ticks[i]));
        HandleTick(ticks[i]);
      }
      assert ticks[..|ticks|] == ticks;
      if WindowsTracked(start.0, start.1) {
        LoopKeepsTracking(config, start, first, ticks);
      }
    }
  }
}
