/** What one collection does to the windows and group statuses, as functions of the replies it gets. */
module Collection {
  import opened Wrappers
  import opened LagTypes
  import opened Evaluation
  import opened SlidingWindow
  import opened Keys

  // The offset that Kafka reports for a partition without a commit.
  const OFFSET_INVALID: int := -1001

  datatype GroupStatus = GroupStatus(
    group: string,
    overallHealth: Health,
    totalLag: int,
    partitionCount: nat,
    activePartitions: nat,
    stoppedPartitions: nat,
    stalledPartitions: nat,
    memberCount: int,
    lastUpdate: int,
    critical: seq<PartitionStatus>,
    warning: seq<PartitionStatus>,
    healthy: seq<PartitionStatus>)

  type Windows = map<string, seq<OffsetRecord>>
  type StatusStore = map<string, GroupStatus>

  /** A listed partition with its committed offset, the high watermark reply (None on error) and the sampling time. */
  datatype Probe = Probe(topic: string, partition: int, offset: int, highWatermark: Option<int>, at: int)

  /** The replies for one group; offsets is None when its offsets could not be fetched. */
  datatype GroupInput = GroupInput(group: string, members: int, at: int, offsets: Option<seq<Probe>>)

  function SampleOf(p: Probe, highWatermark: int): OffsetRecord {
    var lag := highWatermark - p.offset;
    OffsetRecord(p.offset, highWatermark, if lag < 0 then 0 else lag, p.at)
  }

  function ProbeKey(group: string, p: Probe): string {
    Key(group, p.topic, p.partition)
  }

  /** The window of key exists; a missing one starts empty. */
  function WithWindow(w: Windows, key: string): Windows {
    if key in w then w else w[key := []]
  }

  function AddSample(w: Windows, key: string, record: OffsetRecord, size: nat): Windows {
    w[key := Push(WithWindow(w, key)[key], record, size)]
  }

  function Uncommitted(group: string, p: Probe, highWatermark: int): PartitionStatus {
    PartitionStatus(group, p.topic, p.partition, 0, highWatermark, 0, 0,
      UnknownStatus, NoTrend, Warning, 0.0, 0.0, false, 0)
  }

  predicate Sampled(p: Probe) {
    p.highWatermark.Some? && p.offset != OFFSET_INVALID
  }

  /** The windows after one probe, and the verdict unless the high watermark is missing. */
  function EvaluateProbe(config: Config, w: Windows, group: string, p: Probe): (Windows, Option<PartitionStatus>) {
    if p.highWatermark.None? then (w, None)
    else if p.offset == OFFSET_INVALID then (w, Some(Uncommitted(group, p, p.highWatermark.value)))
    else
      var key := ProbeKey(group, p);
      var w' := AddSample(w, key, SampleOf(p, p.highWatermark.value), config.windowSize);
      (w', Some(Evaluate(config, w'[key], group, p.topic, p.partition)))
  }

  function Verdicts(verdict: Option<PartitionStatus>): seq<PartitionStatus> {
    if verdict.Some? then [verdict.value] else []
  }

  /** The windows after probing a group's partitions in order, and the verdicts reached. */
  function ProbeAll(config: Config, w: Windows, group: string, probes: seq<Probe>): (Windows, seq<PartitionStatus>) {
    if probes == [] then (w, [])
    else
      var (w1, verdicts) := ProbeAll(config, w, group, probes[..|probes| - 1]);
      var (w2, verdict) := EvaluateProbe(config, w1, group, probes[|probes| - 1]);
      (w2, verdicts + Verdicts(verdict))
  }

  // ----- the evaluation hook -----

  /** What the evaluation hook is called with: a verdict and the window it was reached on. */
  datatype Look = Look(status: PartitionStatus, records: seq<OffsetRecord>)

  /** The hook's call for one probe; without a sample there is none. */
  function LookOf(config: Config, w: Windows, group: string, p: Probe): seq<Look> {
    if !Sampled(p) then []
    else
      var key := ProbeKey(group, p);
      var records := AddSample(w, key, SampleOf(p, p.highWatermark.value), config.windowSize)[key];
      [Look(Evaluate(config, records, group, p.topic, p.partition), records)]
  }

  /** The hook's calls while a group's partitions are probed in order. */
  function LooksOf(config: Config, w: Windows, group: string, probes: seq<Probe>): seq<Look> {
    if probes == [] then []
    else
      var front, last := probes[..|probes| - 1], probes[|probes| - 1];
      LooksOf(config, w, group, front) + LookOf(config, ProbeAll(config, w, group, front).0, group, last)
  }

  lemma ProbesOneMore(config: Config, w: Windows, group: string, probes: seq<Probe>, i: nat)
    requires i < |probes|
    ensures var (w1, verdicts) := ProbeAll(config, w, group, probes[..i]);
            var (w2, verdict) := EvaluateProbe(config, w1, group, probes[i]);
            && ProbeAll(config, w, group, probes[..i + 1]) == (w2, verdicts + Verdicts(verdict))
            && LooksOf(config, w, group, probes[..i + 1]) ==
                 LooksOf(config, w, group, probes[..i]) + LookOf(config, w1, group, probes[i])
  {
    assert probes[..i + 1][..i] == probes[..i];
  }

  // ----- group roll-up -----

  function BlankGroup(input: GroupInput, partitions: nat): GroupStatus {
    GroupStatus(input.group, Good, 0, partitions, 0, 0, 0, input.members, input.at, [], [], [])
  }

  /** Adds one verdict to the counts and to the list of its health. */
  function Account(g: GroupStatus, s: PartitionStatus): GroupStatus {
    g.(totalLag := g.totalLag + s.currentLag,
      activePartitions := g.activePartitions + (if s.status in {Active, Empty} then 1 else 0),
      stoppedPartitions := g.stoppedPartitions + (if s.status == Stopped then 1 else 0),
      stalledPartitions := g.stalledPartitions + (if s.status == Stalled then 1 else 0),
      critical := if s.health == Critical then g.critical + [s] else g.critical,
      warning := if s.health == Warning then g.warning + [s] else g.warning,
      healthy := if s.health == Good then g.healthy + [s] else g.healthy)
  }

  function RollUp(g: GroupStatus, verdicts: seq<PartitionStatus>): GroupStatus {
    if verdicts == [] then g
    else Account(RollUp(g, verdicts[..|verdicts| - 1]), verdicts[|verdicts| - 1])
  }

  function Conclude(g: GroupStatus): GroupStatus {
    g.(overallHealth := if |g.critical| > 0 then Critical else if |g.warning| > 0 then Warning else Good)
  }

  /** The windows and the group's status after one group's collection; no status when its offsets are missing. */
  function CollectGroup(config: Config, w: Windows, input: GroupInput): (Windows, Option<GroupStatus>) {
    if input.offsets.None? then (w, None)
    else
      var (w', verdicts) := ProbeAll(config, w, input.group, input.offsets.value);
      (w', Some(Conclude(RollUp(BlankGroup(input, |input.offsets.value|), verdicts))))
  }

  function Store(store: StatusStore, group: string, status: Option<GroupStatus>): StatusStore {
    if status.Some? then store[group := status.value] else store
  }

  /** Collecting the groups one at a time. */
  function CollectRound(config: Config, w: Windows, store: StatusStore, inputs: seq<GroupInput>)
    : (Windows, StatusStore)
  {
    if inputs == [] then (w, store)
    else
      var (w1, store1) := CollectRound(config, w, store, inputs[..|inputs| - 1]);
      var last := inputs[|inputs| - 1];
      var (w2, status) := CollectGroup(config, w1, last);
      (w2, Store(store1, last.group, status))
  }

  function GroupLooks(config: Config, w: Windows, input: GroupInput): seq<Look> {
    if input.offsets.None? then [] else LooksOf(config, w, input.group, input.offsets.value)
  }

  /** The hook's calls in a round that takes the groups one at a time. */
  function RoundLooks(config: Config, w: Windows, store: StatusStore, inputs: seq<GroupInput>): seq<Look> {
    if inputs == [] then []
    else
      var front, last := inputs[..|inputs| - 1], inputs[|inputs| - 1];
      RoundLooks(config, w, store, front) + GroupLooks(config, CollectRound(config, w, store, front).0, last)
  }

  lemma RoundOneMore(config: Config, w: Windows, store: StatusStore, inputs: seq<GroupInput>, i: nat)
    requires i < |inputs|
    ensures var (w1, store1) := CollectRound(config, w, store, inputs[..i]);
            var (w2, status) := CollectGroup(config, w1, inputs[i]);
            && CollectRound(config, w, store, inputs[..i + 1]) == (w2, Store(store1, inputs[i].group, status))
            && RoundLooks(config, w, store, inputs[..i + 1]) ==
                 RoundLooks(config, w, store, inputs[..i]) + GroupLooks(config, w1, inputs[i])
  {
    assert inputs[..i + 1][..i] == inputs[..i];
  }

  // ----- the roll-up theorem -----

  function WithHealth(verdicts: seq<PartitionStatus>, health: Health): seq<PartitionStatus> {
    if verdicts == [] then []
    else
      var last := verdicts[|verdicts| - 1];
      var front := WithHealth(verdicts[..|verdicts| - 1], health);
      if last.health == health then front + [last] else front
  }

  function CountStatus(verdicts: seq<PartitionStatus>, statuses: set<Status>): nat {
    if verdicts == [] then 0
    else
      CountStatus(verdicts[..|verdicts| - 1], statuses)
      + (if verdicts[|verdicts| - 1].status in statuses then 1 else 0)
  }

  function SumOfLags(verdicts: seq<PartitionStatus>): int {
    if verdicts == [] then 0
    else SumOfLags(verdicts[..|verdicts| - 1]) + verdicts[|verdicts| - 1].currentLag
  }

  /** Health follows status the way every verdict of the evaluator does. */
  predicate WellJudged(s: PartitionStatus) {
    && (s.status in {Stopped, Stalled} ==> s.health == Critical)
    && (s.health == Good ==> s.status in {Active, Empty})
  }

  lemma {:induction false} VerdictsAreWellJudged(config: Config, w: Windows, group: string, probes: seq<Probe>)
    ensures forall s :: s in ProbeAll(config, w, group, probes).1 ==> WellJudged(s) && s.group == group
  {
    if probes != [] {
      var front, last := probes[..|probes| - 1], probes[|probes| - 1];
      VerdictsAreWellJudged(config, w, group, front);
      var w1 := ProbeAll(config, w, group, front).0;
      if Sampled(last) {
        var key := ProbeKey(group, last);
        var w2 := EvaluateProbe(config, w1, group, last).0;
        VerdictIsConsistent(config, w2[key], group, last.topic, last.partition);
      }
    }
  }

  /** The lists are the verdicts of each health in order, and the counters count the statuses. */
  lemma {:induction false} RollUpSortsVerdicts(blank: GroupStatus, verdicts: seq<PartitionStatus>)
    requires blank.critical == blank.warning == blank.healthy == []
    requires blank.totalLag == 0
    requires blank.activePartitions == blank.stoppedPartitions == blank.stalledPartitions == 0
    ensures var g := RollUp(blank, verdicts);
            && g.critical == WithHealth(verdicts, Critical)
            && g.warning == WithHealth(verdicts, Warning)
            && g.healthy == WithHealth(verdicts, Good)
            && g.totalLag == SumOfLags(verdicts)
            && g.activePartitions == CountStatus(verdicts, {Active, Empty})
            && g.stoppedPartitions == CountStatus(verdicts, {Stopped})
            && g.stalledPartitions == CountStatus(verdicts, {Stalled})
            && g.group == blank.group && g.partitionCount == blank.partitionCount
            && g.memberCount == blank.memberCount && g.lastUpdate == blank.lastUpdate
  {
    if verdicts != [] {
      RollUpSortsVerdicts(blank, verdicts[..|verdicts| - 1]);
    }
  }

  function BagOf(verdicts: seq<PartitionStatus>, health: Health): multiset<PartitionStatus> {
    multiset(WithHealth(verdicts, health))
  }

  lemma OneMoreInBag(verdicts: seq<PartitionStatus>, s: PartitionStatus, health: Health)
    ensures BagOf(verdicts + [s], health) ==
            if s.health == health then BagOf(verdicts, health) + multiset{s} else BagOf(verdicts, health)
  {
    assert (verdicts + [s])[..|verdicts|] == verdicts;
    var list := WithHealth(verdicts, health);
    assert multiset(list + [s]) == multiset(list) + multiset{s};
  }

  lemma {:induction false} HealthPartitionsVerdicts(verdicts: seq<PartitionStatus>)
    ensures BagOf(verdicts, Critical) + BagOf(verdicts, Warning) + BagOf(verdicts, Good) == multiset(verdicts)
  {
    if verdicts != [] {
      var front, last := verdicts[..|verdicts| - 1], verdicts[|verdicts| - 1];
      HealthPartitionsVerdicts(front);
      assert verdicts == front + [last];
      OneMoreInBag(front, last, Critical);
      OneMoreInBag(front, last, Warning);
      OneMoreInBag(front, last, Good);
    }
  }

  lemma {:induction false} StatusCountsByHealth(verdicts: seq<PartitionStatus>)
    requires forall s :: s in verdicts ==> WellJudged(s)
    ensures CountStatus(verdicts, {Stopped}) + CountStatus(verdicts, {Stalled}) <= |WithHealth(verdicts, Critical)|
    ensures CountStatus(verdicts, {Active, Empty}) >= |WithHealth(verdicts, Good)|
    ensures CountStatus(verdicts, {Stopped}) + CountStatus(verdicts, {Stalled})
          + CountStatus(verdicts, {Active, Empty}) <= |verdicts|
    ensures |WithHealth(verdicts, Critical)| + |WithHealth(verdicts, Warning)| + |WithHealth(verdicts, Good)|
         == |verdicts|
  {
    if verdicts != [] {
      StatusCountsByHealth(verdicts[..|verdicts| - 1]);
      assert WellJudged(verdicts[|verdicts| - 1]);
    }
  }

  lemma {:induction false} ListedByHealth(verdicts: seq<PartitionStatus>, health: Health)
    ensures forall s :: s in WithHealth(verdicts, health) ==> s.health == health
  {
    if verdicts != [] {
      ListedByHealth(verdicts[..|verdicts| - 1], health);
    }
  }

  /** The group status sorts every evaluated partition into one list, and its counters agree with the lists. */
  lemma RollUpIsSound(config: Config, w: Windows, input: GroupInput)
    requires input.offsets.Some?
    ensures var verdicts := ProbeAll(config, w, input.group, input.offsets.value).1;
            var status := CollectGroup(config, w, input).1;
            && status.Some?
            && var g := status.value;
               && multiset(g.critical) + multiset(g.warning) + multiset(g.healthy) == multiset(verdicts)
               && (forall s :: s in g.critical ==> s.health == Critical)
               && (forall s :: s in g.warning ==> s.health == Warning)
               && (forall s :: s in g.healthy ==> s.health == Good)
               && g.group == input.group && g.partitionCount == |input.offsets.value|
               && g.memberCount == input.members && g.lastUpdate == input.at
               && g.totalLag == SumOfLags(verdicts)
               && g.stoppedPartitions + g.stalledPartitions <= |g.critical|
               && g.activePartitions >= |g.healthy|
               && (g.overallHealth == Critical <==> g.critical != [])
               && (g.overallHealth == Warning <==> g.critical == [] && g.warning != [])
               && (g.overallHealth == Good <==> g.critical == [] && g.warning == [])
               && (g.overallHealth == Good ==>
                     g.stoppedPartitions == g.stalledPartitions == 0
                     && g.activePartitions == |g.healthy| == |verdicts|)
  {
    var probes := input.offsets.value;
    var verdicts := ProbeAll(config, w, input.group, probes).1;
    VerdictsAreWellJudged(config, w, input.group, probes);
    RollUpSortsVerdicts(BlankGroup(input, |probes|), verdicts);
    HealthPartitionsVerdicts(verdicts);
    StatusCountsByHealth(verdicts);
    ListedByHealth(verdicts, Critical);
    ListedByHealth(verdicts, Warning);
    ListedByHealth(verdicts, Good);
  }

  // ----- what a probe leaves and yields -----

  /** A partition without a commit is judged unknown, with a warning, and leaves no sample and calls no hook. */
  lemma UncommittedVerdict(config: Config, w: Windows, group: string, p: Probe)
    requires p.highWatermark.Some? && p.offset == -1001
    ensures var (w', verdict) := EvaluateProbe(config, w, group, p);
            && w' == w && verdict.Some? && LookOf(config, w, group, p) == []
            && var s := verdict.value;
               && s.group == group && s.topic == p.topic && s.partition == p.partition
               && s.status == UnknownStatus && s.health == Warning && s.trend == NoTrend
               && s.highWatermark == p.highWatermark.value
               && s.currentOffset == s.currentLag == s.lastUpdate == s.timeSinceLastMove == 0
               && s.consumptionRate == s.lagChangeRate == 0.0 && !s.isActive
  {
  }

  /** Without a watermark there is no verdict, no sample and no call. */
  lemma UnreadVerdict(config: Config, w: Windows, group: string, p: Probe)
    requires p.highWatermark.None?
    ensures EvaluateProbe(config, w, group, p) == (w, None) && LookOf(config, w, group, p) == []
  {
  }

  /** A committed partition leaves its reply as the newest sample, and the hook is shown the verdict reached. */
  lemma SampledVerdict(config: Config, w: Windows, group: string, p: Probe)
    requires p.highWatermark.Some? && p.offset != -1001 && config.windowSize >= 1
    ensures var (w', verdict) := EvaluateProbe(config, w, group, p);
            var key, hwm := Key(group, p.topic, p.partition), p.highWatermark.value;
            && key in w' && w'[key] != []
            && w'[key][|w'[key]| - 1] == OffsetRecord(p.offset, hwm, if hwm < p.offset then 0 else hwm - p.offset, p.at)
            && verdict == Some(Evaluate(config, w'[key], group, p.topic, p.partition))
            && LookOf(config, w, group, p) == [Look(verdict.value, w'[key])]
  {
  }

  // ----- which status is stored -----

  /** Input i is the last of the round that brings its group's offsets. */
  ghost predicate LastSuccess(inputs: seq<GroupInput>, i: nat) {
    && i < |inputs| && inputs[i].offsets.Some?
    && forall j :: i < j < |inputs| && inputs[j].group == inputs[i].group ==> inputs[j].offsets.None?
  }

  /** A round stores the status that the last successful collection of the group came to. */
  lemma {:induction false} LatestStatusIsStored(config: Config, w: Windows, store: StatusStore, inputs: seq<GroupInput>,
      i: nat)
    requires LastSuccess(inputs, i)
    ensures var store', status := CollectRound(config, w, store, inputs).1,
              CollectGroup(config, CollectRound(config, w, store, inputs[..i]).0, inputs[i]).1;
            && status.Some? && inputs[i].group in store' && store'[inputs[i].group] == status.value
  {
    var front, last := inputs[..|inputs| - 1], inputs[|inputs| - 1];
    if i < |front| {
      LatestStatusIsStored(config, w, store, front, i);
      assert front[..i] == inputs[..i];
      assert last.group == inputs[i].group ==> last.offsets.None?;
    }
  }

  /** A group that no input of the round brings offsets for keeps the status it had, if any. */
  lemma {:induction false} UncollectedStatusStays(config: Config, w: Windows, store: StatusStore,
      inputs: seq<GroupInput>, group: string)
    requires forall j :: 0 <= j < |inputs| && inputs[j].group == group ==> inputs[j].offsets.None?
    ensures var store' := CollectRound(config, w, store, inputs).1;
            (group in store' <==> group in store) && (group in store ==> store'[group] == store[group])
  {
    if inputs != [] {
      UncollectedStatusStays(config, w, store, inputs[..|inputs| - 1], group);
      assert inputs[|inputs| - 1].group == group ==> inputs[|inputs| - 1].offsets.None?;
    }
  }

  // ----- which group a window belongs to -----

  ghost predicate TopicsColonFree(probes: seq<Probe>) {
    forall i :: 0 <= i < |probes| ==> ColonFree(probes[i].topic)
  }

  ghost predicate SameAt(v: Windows, w: Windows, key: string) {
    (key in v <==> key in w) && (key in v ==> v[key] == w[key])
  }

  lemma ProbeIsLocal(config: Config, v: Windows, w: Windows, group: string, p: Probe)
    requires ColonFree(p.topic) && forall key :: OwnerOf(key) == group ==> SameAt(v, w, key)
    ensures EvaluateProbe(config, v, group, p).1 == EvaluateProbe(config, w, group, p).1
    ensures forall key :: OwnerOf(key) == group ==>
              SameAt(EvaluateProbe(config, v, group, p).0, EvaluateProbe(config, w, group, p).0, key)
    ensures forall key :: OwnerOf(key) != group ==> SameAt(EvaluateProbe(config, v, group, p).0, v, key)
  {
    OwnerOfKey(group, p.topic, p.partition);
    assert SameAt(v, w, ProbeKey(group, p));
  }

  /** A group's collection reads and writes only its own windows. */
  lemma {:induction false} ProbesAreLocal(config: Config, v: Windows, w: Windows, group: string, probes: seq<Probe>)
    requires TopicsColonFree(probes)
    requires forall key :: OwnerOf(key) == group ==> SameAt(v, w, key)
    ensures ProbeAll(config, v, group, probes).1 == ProbeAll(config, w, group, probes).1
    ensures forall key :: OwnerOf(key) == group ==>
              SameAt(ProbeAll(config, v, group, probes).0, ProbeAll(config, w, group, probes).0, key)
    ensures forall key :: OwnerOf(key) != group ==> SameAt(ProbeAll(config, v, group, probes).0, v, key)
  {
    if probes != [] {
      var front, last := probes[..|probes| - 1], probes[|probes| - 1];
      ProbesAreLocal(config, v, w, group, front);
      ProbeIsLocal(config, ProbeAll(config, v, group, front).0, ProbeAll(config, w, group, front).0, group, last);
    }
  }
}
