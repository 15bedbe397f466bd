/** Every finished round leaves the windows and the status store that collecting one group at a time would leave. */
module RoundAgreement {
  import opened Wrappers
  import opened LagTypes
  import opened Evaluation
  import opened Keys
  import opened Collection
  import opened ConcurrentRound
  import opened RoundControl

  ghost predicate DistinctGroups(inputs: seq<GroupInput>) {
    forall i, j :: 0 <= i < j < |inputs| ==> inputs[i].group != inputs[j].group
  }

  ghost predicate WellFormed(setup: Setup) {
    && DistinctGroups(setup.inputs)
    && forall i :: 0 <= i < |setup.inputs| ==> TopicsColonFree(Probes(setup.inputs[i]))
  }

  /** What collecting group i alone, from the round's starting windows, gives. */
  function Alone(setup: Setup, i: nat): (Windows, Option<GroupStatus>)
    requires i < |setup.inputs|
  {
    CollectGroup(setup.config, setup.windows, setup.inputs[i])
  }

  function AloneUpTo(setup: Setup, i: nat, j: nat): (Windows, seq<PartitionStatus>)
    requires i < |setup.inputs| && j <= |Probes(setup.inputs[i])|
  {
    ProbeAll(setup.config, setup.windows, setup.inputs[i].group, Probes(setup.inputs[i])[..j])
  }

  /** The windows worker i has produced so far, had it run alone. */
  function Private(setup: Setup, i: nat, w: Worker): Windows
    requires i < |setup.inputs| && InRange(setup, i, w)
  {
    match w
    case Unspawned => setup.windows
    case Fetching => setup.windows
    case Probing(j, _) => AloneUpTo(setup, i, j).0
    case Opening(j, _) => AloneUpTo(setup, i, j).0
    case Appending(j, _) =>
      WithWindow(AloneUpTo(setup, i, j).0, ProbeKey(setup.inputs[i].group, Probes(setup.inputs[i])[j]))
    case Judging(j, _) => AloneUpTo(setup, i, j + 1).0
    case _ => Alone(setup, i).0
  }

  /** A worker's accumulator holds the verdicts it would have reached alone. */
  predicate AccumulatorAgrees(setup: Setup, i: nat, w: Worker)
    requires i < |setup.inputs| && InRange(setup, i, w)
  {
    var input := setup.inputs[i];
    var blank := BlankGroup(input, |Probes(input)|);
    match w
    case Probing(j, acc) => input.offsets.Some? && acc == RollUp(blank, AloneUpTo(setup, i, j).1)
    case Opening(j, acc) => input.offsets.Some? && acc == RollUp(blank, AloneUpTo(setup, i, j).1)
    case Appending(j, acc) => input.offsets.Some? && acc == RollUp(blank, AloneUpTo(setup, i, j).1)
    case Judging(j, acc) => input.offsets.Some? && acc == RollUp(blank, AloneUpTo(setup, i, j).1)
    case Sending(status) => status == Alone(setup, i).1
    case _ => true
  }

  ghost predicate WindowsAgree(setup: Setup, windows: Windows, i: nat, w: Worker)
    requires i < |setup.inputs| && InRange(setup, i, w)
  {
    forall key :: OwnerOf(key) == setup.inputs[i].group ==> SameAt(windows, Private(setup, i, w), key)
  }

  /** The key belongs to none of the first m groups. */
  ghost predicate Unowned(inputs: seq<GroupInput>, m: nat, key: string)
    requires m <= |inputs|
  {
    forall i :: 0 <= i < m ==> OwnerOf(key) != inputs[i].group
  }

  ghost predicate Unlisted(inputs: seq<GroupInput>, m: nat, group: string)
    requires m <= |inputs|
  {
    forall i :: 0 <= i < m ==> inputs[i].group != group
  }

  ghost predicate SameStatus(s: StatusStore, t: StatusStore, group: string) {
    (group in s <==> group in t) && (group in s ==> s[group] == t[group])
  }

  /** Worker i's message has been drained. */
  ghost predicate Drained(s: State, i: nat)
    requires i < |s.workers|
  {
    HasSent(i, s.workers[i]) == 1 && i !in s.senders
  }

  ghost predicate WorkersAgree(setup: Setup, s: State)
    requires |s.workers| == |setup.inputs|
  {
    forall i :: 0 <= i < |s.workers| ==>
      && InRange(setup, i, s.workers[i])
      && AccumulatorAgrees(setup, i, s.workers[i])
      && WindowsAgree(setup, s.windows, i, s.workers[i])
  }

  ghost predicate MessagesAgree(setup: Setup, s: State)
    requires |s.workers| == |setup.inputs|
  {
    && |s.senders| == |s.results|
    && (forall a :: 0 <= a < |s.senders| ==>
          && s.senders[a] < |s.workers| && HasSent(s.senders[a], s.workers[s.senders[a]]) == 1
          && s.results[a] == Message(setup.inputs[s.senders[a]].group, Alone(setup, s.senders[a]).1))
    && (forall a, b :: 0 <= a < b < |s.senders| ==> s.senders[a] != s.senders[b])
  }

  ghost predicate StoreAgrees(setup: Setup, s: State)
    requires |s.workers| == |setup.inputs|
  {
    && (forall i :: 0 <= i < |s.workers| ==>
          var group := setup.inputs[i].group;
          SameStatus(s.store,
            if Drained(s, i) then Store(setup.store, group, Alone(setup, i).1) else setup.store, group))
    && (forall group :: Unlisted(setup.inputs, |setup.inputs|, group) ==>
          SameStatus(s.store, setup.store, group))
  }

  ghost predicate DataInv(setup: Setup, s: State) {
    && |s.workers| == |setup.inputs|
    && WorkersAgree(setup, s)
    && (forall key :: Unowned(setup.inputs, |setup.inputs|, key) ==> SameAt(s.windows, setup.windows, key))
    && MessagesAgree(setup, s)
    && StoreAgrees(setup, s)
  }

  // ----- one worker's step -----

  lemma OneMoreProbe(setup: Setup, i: nat, j: nat)
    requires i < |setup.inputs| && j < |Probes(setup.inputs[i])|
    ensures var (w, verdicts) := AloneUpTo(setup, i, j);
            var (w', verdict) := EvaluateProbe(setup.config, w, setup.inputs[i].group, Probes(setup.inputs[i])[j]);
            AloneUpTo(setup, i, j + 1) == (w', verdicts + Verdicts(verdict))
  {
    ProbesOneMore(setup.config, setup.windows, setup.inputs[i].group, Probes(setup.inputs[i]), j);
  }

  lemma AllProbes(setup: Setup, i: nat)
    requires i < |setup.inputs| && setup.inputs[i].offsets.Some?
    ensures var n := |Probes(setup.inputs[i])|;
            var (w, verdicts) := AloneUpTo(setup, i, n);
            Alone(setup, i) == (w, Some(Conclude(RollUp(BlankGroup(setup.inputs[i], n), verdicts))))
  {
    var probes := Probes(setup.inputs[i]);
    assert probes[..|probes|] == probes;
  }

  lemma RollUpOneMore(blank: GroupStatus, verdicts: seq<PartitionStatus>, s: PartitionStatus)
    ensures RollUp(blank, verdicts + [s]) == Account(RollUp(blank, verdicts), s)
  {
    assert (verdicts + [s])[..|verdicts|] == verdicts;
  }

  lemma ProbeKeyIsOwned(setup: Setup, i: nat, j: nat)
    requires WellFormed(setup) && i < |setup.inputs| && j < |Probes(setup.inputs[i])|
    ensures OwnerOf(ProbeKey(setup.inputs[i].group, Probes(setup.inputs[i])[j])) == setup.inputs[i].group
  {
    var p := Probes(setup.inputs[i])[j];
    OwnerOfKey(setup.inputs[i].group, p.topic, p.partition);
  }

  ghost predicate StaysInStep(setup: Setup, windows: Windows, i: nat, w: Worker)
    requires i < |setup.inputs| && InRange(setup, i, w)
  {
    var windows' := NextWindows(setup, windows, i, w);
    var w' := NextWorker(setup, windows, i, w);
    && InRange(setup, i, w')
    && AccumulatorAgrees(setup, i, w') && WindowsAgree(setup, windows', i, w')
    && forall key :: OwnerOf(key) != setup.inputs[i].group ==> SameAt(windows', windows, key)
  }

  /** A step that leaves the windows alone, as the solitary run does there, stays in step. */
  lemma QuietStep(setup: Setup, windows: Windows, i: nat, w: Worker, w': Worker)
    requires i < |setup.inputs| && InRange(setup, i, w) && InRange(setup, i, w')
    requires NextWorker(setup, windows, i, w) == w' && NextWindows(setup, windows, i, w) == windows
    requires WindowsAgree(setup, windows, i, w) && Private(setup, i, w') == Private(setup, i, w)
    requires AccumulatorAgrees(setup, i, w')
    ensures StaysInStep(setup, windows, i, w)
  {
    forall key | OwnerOf(key) == setup.inputs[i].group ensures SameAt(windows, Private(setup, i, w'), key) {
    }
  }

  lemma CountsOneMore(setup: Setup, i: nat, j: nat, acc: GroupStatus, verdict: PartitionStatus)
    requires i < |setup.inputs| && j < |Probes(setup.inputs[i])|
    requires AccumulatorAgrees(setup, i, Probing(j, acc))
    requires AloneUpTo(setup, i, j + 1).1 == AloneUpTo(setup, i, j).1 + [verdict]
    ensures AccumulatorAgrees(setup, i, Probing(j + 1, Account(acc, verdict)))
  {
    RollUpOneMore(BlankGroup(setup.inputs[i], |Probes(setup.inputs[i])|), AloneUpTo(setup, i, j).1, verdict);
  }

  lemma PassedVerdict(setup: Setup, i: nat, j: nat)
    requires i < |setup.inputs| && j < |Probes(setup.inputs[i])| && !Sampled(Probes(setup.inputs[i])[j])
    ensures AloneUpTo(setup, i, j + 1).0 == AloneUpTo(setup, i, j).0
    ensures var group, p := setup.inputs[i].group, Probes(setup.inputs[i])[j];
            AloneUpTo(setup, i, j + 1).1 ==
              if p.highWatermark.Some? then AloneUpTo(setup, i, j).1 + [Uncommitted(group, p, p.highWatermark.value)]
              else AloneUpTo(setup, i, j).1
  {
    OneMoreProbe(setup, i, j);
    assert AloneUpTo(setup, i, j).1 + [] == AloneUpTo(setup, i, j).1;
  }

  /** The worker's accumulator after passing over an unsampled partition. */
  function PassedCount(setup: Setup, i: nat, j: nat, acc: GroupStatus): GroupStatus
    requires i < |setup.inputs| && j < |Probes(setup.inputs[i])|
  {
    var p := Probes(setup.inputs[i])[j];
    if p.highWatermark.None? then acc
    else Account(acc, Uncommitted(setup.inputs[i].group, p, p.highWatermark.value))
  }

  lemma PassedCountAgrees(setup: Setup, i: nat, j: nat, acc: GroupStatus)
    requires i < |setup.inputs| && j < |Probes(setup.inputs[i])| && !Sampled(Probes(setup.inputs[i])[j])
    requires AccumulatorAgrees(setup, i, Probing(j, acc))
    ensures AccumulatorAgrees(setup, i, Probing(j + 1, PassedCount(setup, i, j, acc)))
  {
    var group, p := setup.inputs[i].group, Probes(setup.inputs[i])[j];
    PassedVerdict(setup, i, j);
    if p.highWatermark.Some? {
      CountsOneMore(setup, i, j, acc, Uncommitted(group, p, p.highWatermark.value));
    }
  }

  lemma ProbingStaysInStep(setup: Setup, windows: Windows, i: nat, w: Worker)
    requires WellFormed(setup) && i < |setup.inputs| && InRange(setup, i, w) && w.Probing?
    requires AccumulatorAgrees(setup, i, w) && WindowsAgree(setup, windows, i, w)
    ensures StaysInStep(setup, windows, i, w)
  {
    var j := w.next;
    if j == |Probes(setup.inputs[i])| {
      AllProbes(setup, i);
      QuietStep(setup, windows, i, w, Sending(Some(Conclude(w.acc))));
    } else if !Sampled(Probes(setup.inputs[i])[j]) {
      PassedCountAgrees(setup, i, j, w.acc);
      PassedVerdict(setup, i, j);
      QuietStep(setup, windows, i, w, Probing(j + 1, PassedCount(setup, i, j, w.acc)));
    } else {
      QuietStep(setup, windows, i, w, Opening(j, w.acc));
    }
  }

  ghost predicate AgreeFor(group: string, v: Windows, w: Windows) {
    forall key :: OwnerOf(key) == group ==> SameAt(v, w, key)
  }

  lemma OpeningAgrees(group: string, v: Windows, w: Windows, key: string)
    requires AgreeFor(group, v, w) && OwnerOf(key) == group
    ensures AgreeFor(group, WithWindow(v, key), WithWindow(w, key))
    ensures forall other :: OwnerOf(other) != group ==> SameAt(WithWindow(v, key), v, other)
  {
    assert SameAt(v, w, key);
  }

  lemma AddingAgrees(group: string, v: Windows, w: Windows, key: string, record: OffsetRecord, size: nat)
    requires AgreeFor(group, v, WithWindow(w, key)) && OwnerOf(key) == group
    ensures AgreeFor(group, AddSample(v, key, record, size), AddSample(w, key, record, size))
    ensures forall other :: OwnerOf(other) != group ==> SameAt(AddSample(v, key, record, size), v, other)
  {
    assert SameAt(v, WithWindow(w, key), key);
    forall other | OwnerOf(other) == group
      ensures SameAt(AddSample(v, key, record, size), AddSample(w, key, record, size), other)
    {
      assert SameAt(v, WithWindow(w, key), other);
    }
  }

  lemma OpeningStaysInStep(setup: Setup, windows: Windows, i: nat, w: Worker)
    requires WellFormed(setup) && i < |setup.inputs| && InRange(setup, i, w) && w.Opening?
    requires AccumulatorAgrees(setup, i, w) && WindowsAgree(setup, windows, i, w)
    ensures StaysInStep(setup, windows, i, w)
  {
    var group := setup.inputs[i].group;
    ProbeKeyIsOwned(setup, i, w.next);
    assert AgreeFor(group, windows, Private(setup, i, w));
    OpeningAgrees(group, windows, Private(setup, i, w), ProbeKey(group, Probes(setup.inputs[i])[w.next]));
  }

  lemma AloneAfterSample(setup: Setup, i: nat, j: nat)
    requires i < |setup.inputs| && j < |Probes(setup.inputs[i])| && Sampled(Probes(setup.inputs[i])[j])
    ensures var p := Probes(setup.inputs[i])[j];
            AloneUpTo(setup, i, j + 1).0 == AddSample(AloneUpTo(setup, i, j).0, ProbeKey(setup.inputs[i].group, p),
              SampleOf(p, p.highWatermark.value), setup.config.windowSize)
  {
    OneMoreProbe(setup, i, j);
  }

  lemma AppendedWindows(setup: Setup, windows: Windows, i: nat, w: Worker)
    requires WellFormed(setup) && i < |setup.inputs| && InRange(setup, i, w) && w.Appending?
    requires WindowsAgree(setup, windows, i, w)
    ensures WindowsAgree(setup, NextWindows(setup, windows, i, w), i, Judging(w.next, w.acc))
    ensures forall key :: OwnerOf(key) != setup.inputs[i].group ==>
              SameAt(NextWindows(setup, windows, i, w), windows, key)
  {
    var group, p, size := setup.inputs[i].group, Probes(setup.inputs[i])[w.next], setup.config.windowSize;
    var key, record := ProbeKey(group, p), SampleOf(p, p.highWatermark.value);
    var before := AloneUpTo(setup, i, w.next).0;
    AloneAfterSample(setup, i, w.next);
    assert AgreeFor(group, windows, WithWindow(before, key));
    ProbeKeyIsOwned(setup, i, w.next);
    AddingAgrees(group, windows, before, key, record, size);
  }

  lemma AppendingStaysInStep(setup: Setup, windows: Windows, i: nat, w: Worker)
    requires WellFormed(setup) && i < |setup.inputs| && InRange(setup, i, w) && w.Appending?
    requires AccumulatorAgrees(setup, i, w) && WindowsAgree(setup, windows, i, w)
    ensures StaysInStep(setup, windows, i, w)
  {
    AppendedWindows(setup, windows, i, w);
    assert NextWorker(setup, windows, i, w) == Judging(w.next, w.acc);
  }

  lemma JudgedVerdict(setup: Setup, i: nat, j: nat)
    requires i < |setup.inputs| && j < |Probes(setup.inputs[i])| && Sampled(Probes(setup.inputs[i])[j])
    ensures var group, p := setup.inputs[i].group, Probes(setup.inputs[i])[j];
            var w := AloneUpTo(setup, i, j + 1).0;
            && ProbeKey(group, p) in w
            && AloneUpTo(setup, i, j + 1).1 ==
                 AloneUpTo(setup, i, j).1 + [Evaluate(setup.config, w[ProbeKey(group, p)], group, p.topic, p.partition)]
  {
    OneMoreProbe(setup, i, j);
  }

  lemma JudgingMoves(setup: Setup, windows: Windows, i: nat, w: Worker)
    requires i < |setup.inputs| && w.Judging? && InRange(setup, i, w)
    requires ProbeKey(setup.inputs[i].group, Probes(setup.inputs[i])[w.next]) in windows
    ensures var group, p := setup.inputs[i].group, Probes(setup.inputs[i])[w.next];
            NextWorker(setup, windows, i, w) == Probing(w.next + 1, Account(w.acc,
              Evaluate(setup.config, windows[ProbeKey(group, p)], group, p.topic, p.partition)))
  {
  }

  lemma JudgedAlone(setup: Setup, windows: Windows, i: nat, w: Worker) returns (acc: GroupStatus)
    requires i < |setup.inputs| && w.Judging? && InRange(setup, i, w) && AccumulatorAgrees(setup, i, w)
    requires SameAt(windows, AloneUpTo(setup, i, w.next + 1).0,
               ProbeKey(setup.inputs[i].group, Probes(setup.inputs[i])[w.next]))
    ensures NextWorker(setup, windows, i, w) == Probing(w.next + 1, acc)
    ensures AccumulatorAgrees(setup, i, Probing(w.next + 1, acc))
  {
    var group, p := setup.inputs[i].group, Probes(setup.inputs[i])[w.next];
    JudgedVerdict(setup, i, w.next);
    var verdict := Evaluate(setup.config, windows[ProbeKey(group, p)], group, p.topic, p.partition);
    CountsOneMore(setup, i, w.next, w.acc, verdict);
    acc := Account(w.acc, verdict);
    JudgingMoves(setup, windows, i, w);
  }

  lemma JudgedWindow(setup: Setup, windows: Windows, i: nat, w: Worker)
    requires WellFormed(setup) && i < |setup.inputs| && InRange(setup, i, w) && w.Judging?
    requires WindowsAgree(setup, windows, i, w)
    ensures SameAt(windows, AloneUpTo(setup, i, w.next + 1).0,
              ProbeKey(setup.inputs[i].group, Probes(setup.inputs[i])[w.next]))
  {
    ProbeKeyIsOwned(setup, i, w.next);
  }

  lemma JudgedInStep(setup: Setup, windows: Windows, i: nat, w: Worker) returns (acc: GroupStatus)
    requires WellFormed(setup) && i < |setup.inputs| && InRange(setup, i, w) && w.Judging?
    requires AccumulatorAgrees(setup, i, w) && WindowsAgree(setup, windows, i, w)
    ensures NextWorker(setup, windows, i, w) == Probing(w.next + 1, acc)
    ensures AccumulatorAgrees(setup, i, Probing(w.next + 1, acc))
  {
    JudgedWindow(setup, windows, i, w);
    acc := JudgedAlone(setup, windows, i, w);
  }

  lemma JudgingStaysInStep(setup: Setup, windows: Windows, i: nat, w: Worker)
    requires WellFormed(setup) && i < |setup.inputs| && InRange(setup, i, w) && w.Judging?
    requires AccumulatorAgrees(setup, i, w) && WindowsAgree(setup, windows, i, w)
    ensures StaysInStep(setup, windows, i, w)
  {
    var acc := JudgedInStep(setup, windows, i, w);
    QuietStep(setup, windows, i, w, Probing(w.next + 1, acc));
  }

  /** A worker that agrees with its solitary run still does after one more step, and touches no foreign window. */
  lemma WorkerStaysInStep(setup: Setup, windows: Windows, i: nat, w: Worker)
    requires WellFormed(setup) && i < |setup.inputs| && InRange(setup, i, w) && w !in {Unspawned, Exited}
    requires AccumulatorAgrees(setup, i, w) && WindowsAgree(setup, windows, i, w)
    ensures StaysInStep(setup, windows, i, w)
  {
    match w {
      case Fetching => assert Probes(setup.inputs[i])[..0] == [];
      case Probing(_, _) => ProbingStaysInStep(setup, windows, i, w);
      case Opening(_, _) => OpeningStaysInStep(setup, windows, i, w);
      case Appending(_, _) => AppendingStaysInStep(setup, windows, i, w);
      case Judging(_, _) => JudgingStaysInStep(setup, windows, i, w);
      case Sending(_) =>
      case Releasing =>
      case Leaving =>
    }
  }

  // ----- every step keeps the agreement -----

  lemma WorkerKeepsWorkersAgree(setup: Setup, s: State, i: nat)
    requires WellFormed(setup) && |s.workers| == |setup.inputs| && WorkersAgree(setup, s)
    requires Enabled(setup, s, WorkerThread(i))
    ensures WorkersAgree(setup, WorkerStep(setup, s, i))
    ensures forall key :: OwnerOf(key) != setup.inputs[i].group ==>
              SameAt(WorkerStep(setup, s, i).windows, s.windows, key)
  {
    WorkerStaysInStep(setup, s.windows, i, s.workers[i]);
    var s' := WorkerStep(setup, s, i);
    forall k | 0 <= k < |s.workers| && k != i ensures WindowsAgree(setup, s'.windows, k, s.workers[k]) {
      forall key | OwnerOf(key) == setup.inputs[k].group
        ensures SameAt(s'.windows, Private(setup, k, s.workers[k]), key)
      {
        assert SameAt(s'.windows, s.windows, key);
      }
    }
  }

  lemma SendingKeepsMessages(setup: Setup, s: State, i: nat)
    requires |s.workers| == |setup.inputs| && MessagesAgree(setup, s)
    requires Enabled(setup, s, WorkerThread(i)) && s.workers[i].Sending?
    requires s.workers[i].status == Alone(setup, i).1
    ensures MessagesAgree(setup, WorkerStep(setup, s, i))
    ensures forall k :: 0 <= k < |s.workers| ==> Drained(WorkerStep(setup, s, i), k) == Drained(s, k)
  {
    var s' := WorkerStep(setup, s, i);
    assert s'.workers[i] == Releasing && i !in s.senders;
    assert forall k :: 0 <= k < |s.workers| && k != i ==> s'.workers[k] == s.workers[k];
    assert s'.senders == s.senders + [i];
    assert s'.results == s.results + [Message(setup.inputs[i].group, Alone(setup, i).1)];
  }

  lemma WorkingKeepsMessages(setup: Setup, s: State, i: nat)
    requires |s.workers| == |setup.inputs| && MessagesAgree(setup, s)
    requires Enabled(setup, s, WorkerThread(i)) && !s.workers[i].Sending?
    ensures MessagesAgree(setup, WorkerStep(setup, s, i))
    ensures forall k :: 0 <= k < |s.workers| ==> Drained(WorkerStep(setup, s, i), k) == Drained(s, k)
  {
    var s' := WorkerStep(setup, s, i);
    WorkerAdvances(setup, s.windows, i, s.workers[i]);
    assert HasSent(i, s'.workers[i]) == HasSent(i, s.workers[i]);
    assert forall k :: 0 <= k < |s.workers| && k != i ==> s'.workers[k] == s.workers[k];
    assert s'.senders == s.senders && s'.results == s.results;
  }

  lemma WorkerKeepsData(setup: Setup, s: State, i: nat)
    requires WellFormed(setup) && DataInv(setup, s) && Enabled(setup, s, WorkerThread(i))
    ensures DataInv(setup, WorkerStep(setup, s, i))
  {
    var s' := WorkerStep(setup, s, i);
    WorkerKeepsWorkersAgree(setup, s, i);
    if s.workers[i].Sending? {
      assert AccumulatorAgrees(setup, i, s.workers[i]);
      SendingKeepsMessages(setup, s, i);
    } else {
      WorkingKeepsMessages(setup, s, i);
    }
    forall key | Unowned(setup.inputs, |setup.inputs|, key) ensures SameAt(s'.windows, setup.windows, key) {
      assert OwnerOf(key) != setup.inputs[i].group;
    }
    assert s'.store == s.store;
  }

  lemma SpawnKeepsData(setup: Setup, s: State)
    requires WellFormed(setup) && DataInv(setup, s) && ControlInv(setup, s)
    requires s.main.Acquiring? && Enabled(setup, s, MainThread)
    ensures DataInv(setup, MainStep(setup, s))
  {
    var s' := MainStep(setup, s);
    var i := s.main.next;
    assert WindowsAgree(setup, s.windows, i, s.workers[i]);
    assert Private(setup, i, Unspawned) == Private(setup, i, Fetching);
    forall k | 0 <= k < |s.workers|
      ensures InRange(setup, k, s'.workers[k])
      ensures AccumulatorAgrees(setup, k, s'.workers[k]) && WindowsAgree(setup, s'.windows, k, s'.workers[k])
      ensures Drained(s', k) == Drained(s, k)
    {
      assert k != i ==> s'.workers[k] == s.workers[k];
    }
  }

  lemma DrainKeepsMessages(setup: Setup, s: State)
    requires |s.workers| == |setup.inputs| && MessagesAgree(setup, s)
    requires s.main == Draining && s.results != []
    ensures MessagesAgree(setup, MainStep(setup, s))
    ensures forall k :: 0 <= k < |s.workers| ==>
              Drained(MainStep(setup, s), k) == (Drained(s, k) || k == s.senders[0])
  {
    var s' := MainStep(setup, s);
    var i := s.senders[0];
    assert forall a :: 0 <= a < |s'.senders| ==> s'.senders[a] == s.senders[a + 1] && s'.results[a] == s.results[a + 1];
    assert i !in s'.senders;
    assert forall k :: k in s.senders <==> k == i || k in s'.senders;
  }

  lemma DrainKeepsData(setup: Setup, s: State)
    requires WellFormed(setup) && DataInv(setup, s) && s.main == Draining && s.results != []
    ensures DataInv(setup, MainStep(setup, s))
  {
    DrainKeepsMessages(setup, s);
    var s' := MainStep(setup, s);
    var i := s.senders[0];
    var sent := setup.inputs[i].group;
    assert !Drained(s, i) && s'.store == Store(s.store, sent, Alone(setup, i).1);
    assert SameStatus(s.store, setup.store, sent);
    forall group | group != sent ensures SameStatus(s'.store, s.store, group) {
    }
    forall k | 0 <= k < |s.workers|
      ensures SameStatus(s'.store, if Drained(s', k) then Store(setup.store, setup.inputs[k].group, Alone(setup, k).1)
                                   else setup.store, setup.inputs[k].group)
    {
      if k != i {
        assert setup.inputs[k].group != sent;
      }
    }
    assert WorkersAgree(setup, s');
  }

  lemma MainKeepsData(setup: Setup, s: State)
    requires WellFormed(setup) && DataInv(setup, s) && ControlInv(setup, s) && Enabled(setup, s, MainThread)
    ensures DataInv(setup, MainStep(setup, s))
  {
    if s.main.Acquiring? {
      SpawnKeepsData(setup, s);
    } else if s.main == Draining && s.results != [] {
      DrainKeepsData(setup, s);
    }
  }

  lemma CloserKeepsData(setup: Setup, s: State)
    requires DataInv(setup, s) && Enabled(setup, s, CloserThread)
    ensures DataInv(setup, Step(setup, s, CloserThread))
  {
  }

  lemma StepKeepsData(setup: Setup, s: State, t: Thread)
    requires WellFormed(setup) && DataInv(setup, s) && ControlInv(setup, s) && Enabled(setup, s, t)
    ensures DataInv(setup, Step(setup, s, t))
  {
    match t {
      case MainThread => MainKeepsData(setup, s);
      case CloserThread => CloserKeepsData(setup, s);
      case WorkerThread(i) => WorkerKeepsData(setup, s, i);
    }
  }

  lemma InitAgrees(setup: Setup)
    requires WellFormed(setup)
    ensures DataInv(setup, Init(setup))
  {
  }

  lemma {:induction false} RunAgrees(setup: Setup, schedule: seq<Thread>)
    requires WellFormed(setup) && IsRun(setup, schedule)
    ensures DataInv(setup, Exec(setup, schedule))
  {
    if schedule == [] {
      InitAgrees(setup);
    } else {
      var front, t := schedule[..|schedule| - 1], schedule[|schedule| - 1];
      RunAgrees(setup, front);
      RunIsControlled(setup, front);
      StepKeepsData(setup, Exec(setup, front), t);
    }
  }

  // ----- the sequential run -----

  function Sequential(setup: Setup, m: nat): (Windows, StatusStore)
    requires m <= |setup.inputs|
  {
    CollectRound(setup.config, setup.windows, setup.store, setup.inputs[..m])
  }

  lemma SequentialStep(setup: Setup, m: nat)
    requires m < |setup.inputs|
    ensures var (w, store) := Sequential(setup, m);
            var (w', status) := CollectGroup(setup.config, w, setup.inputs[m]);
            Sequential(setup, m + 1) == (w', Store(store, setup.inputs[m].group, status))
  {
    assert setup.inputs[..m + 1][..m] == setup.inputs[..m];
  }

  /** In the sequential round too, group m finds its own windows as they were before the round. */
  lemma SequentialIsLocal(setup: Setup, m: nat)
    requires WellFormed(setup) && m < |setup.inputs|
    ensures var w := Sequential(setup, m).0;
            var (w', status) := CollectGroup(setup.config, w, setup.inputs[m]);
            && status == Alone(setup, m).1
            && (forall key :: OwnerOf(key) == setup.inputs[m].group ==> SameAt(w', Alone(setup, m).0, key))
            && (forall key :: OwnerOf(key) != setup.inputs[m].group ==> SameAt(w', w, key))
    decreases m, 1
  {
    var w := Sequential(setup, m).0;
    forall key | OwnerOf(key) == setup.inputs[m].group ensures SameAt(w, setup.windows, key) {
      SequentialWindowsAt(setup, m, key);
    }
    ProbesAreLocal(setup.config, w, setup.windows, setup.inputs[m].group, Probes(setup.inputs[m]));
  }

  /** One more group in the sequential round, seen from the windows and from the status store. */
  lemma SequentialStepsAlone(setup: Setup, m: nat)
    requires WellFormed(setup) && m < |setup.inputs|
    ensures var w, w' := Sequential(setup, m).0, Sequential(setup, m + 1).0;
            && (forall key :: OwnerOf(key) == setup.inputs[m].group ==> SameAt(w', Alone(setup, m).0, key))
            && (forall key :: OwnerOf(key) != setup.inputs[m].group ==> SameAt(w', w, key))
    ensures Sequential(setup, m + 1).1 ==
            Store(Sequential(setup, m).1, setup.inputs[m].group, Alone(setup, m).1)
    decreases m, 2
  {
    SequentialStep(setup, m);
    SequentialIsLocal(setup, m);
  }

  /** The windows agree at key with the solitary runs of the first m groups. */
  ghost predicate WindowsAgreeUpTo(setup: Setup, m: nat, windows: Windows, key: string)
    requires m <= |setup.inputs|
  {
    && (Unowned(setup.inputs, m, key) ==> SameAt(windows, setup.windows, key))
    && (forall i :: 0 <= i < m && OwnerOf(key) == setup.inputs[i].group ==> SameAt(windows, Alone(setup, i).0, key))
  }

  lemma CollectingAgrees(setup: Setup, m: nat, windows: Windows, windows': Windows, key: string)
    requires DistinctGroups(setup.inputs) && m < |setup.inputs| && WindowsAgreeUpTo(setup, m, windows, key)
    requires OwnerOf(key) == setup.inputs[m].group ==> SameAt(windows', Alone(setup, m).0, key)
    requires OwnerOf(key) != setup.inputs[m].group ==> SameAt(windows', windows, key)
    ensures WindowsAgreeUpTo(setup, m + 1, windows', key)
  {
    assert Unowned(setup.inputs, m + 1, key) ==> Unowned(setup.inputs, m, key);
  }

  lemma SequentialWindowsAt(setup: Setup, m: nat, key: string)
    requires WellFormed(setup) && m <= |setup.inputs|
    ensures WindowsAgreeUpTo(setup, m, Sequential(setup, m).0, key)
    decreases m, 0
  {
    if m > 0 {
      SequentialWindowsAt(setup, m - 1, key);
      SequentialStepsAlone(setup, m - 1);
      CollectingAgrees(setup, m - 1, Sequential(setup, m - 1).0, Sequential(setup, m).0, key);
    }
  }

  /** The store agrees on group with the solitary runs of the first m groups. */
  ghost predicate StoreAgreesUpTo(setup: Setup, m: nat, store: StatusStore, group: string)
    requires m <= |setup.inputs|
  {
    && (Unlisted(setup.inputs, m, group) ==> SameStatus(store, setup.store, group))
    && (forall i :: 0 <= i < m && group == setup.inputs[i].group ==>
          SameStatus(store, Store(setup.store, group, Alone(setup, i).1), group))
  }

  lemma StoringAgrees(setup: Setup, m: nat, store: StatusStore, group: string)
    requires DistinctGroups(setup.inputs) && m < |setup.inputs| && StoreAgreesUpTo(setup, m, store, group)
    ensures StoreAgreesUpTo(setup, m + 1, Store(store, setup.inputs[m].group, Alone(setup, m).1), group)
  {
    if group == setup.inputs[m].group {
      assert Unlisted(setup.inputs, m, group);
    } else {
      assert Unlisted(setup.inputs, m + 1, group) ==> Unlisted(setup.inputs, m, group);
    }
  }

  lemma SequentialStoreStep(setup: Setup, m: nat, group: string)
    requires WellFormed(setup) && m < |setup.inputs| && StoreAgreesUpTo(setup, m, Sequential(setup, m).1, group)
    ensures StoreAgreesUpTo(setup, m + 1, Sequential(setup, m + 1).1, group)
  {
    StoringAgrees(setup, m, Sequential(setup, m).1, group);
    SequentialStepsAlone(setup, m);
  }

  lemma {:induction false} SequentialStoreAt(setup: Setup, m: nat, group: string)
    requires WellFormed(setup) && m <= |setup.inputs|
    ensures StoreAgreesUpTo(setup, m, Sequential(setup, m).1, group)
  {
    if m == 0 {
      assert Sequential(setup, 0).1 == setup.store;
    } else {
      SequentialStoreAt(setup, m - 1, group);
      SequentialStoreStep(setup, m - 1, group);
    }
  }

  lemma WindowsExtensional(v: Windows, w: Windows)
    requires forall key :: SameAt(v, w, key)
    ensures v == w
  {
    assert forall key :: key in v <==> key in w by {
      forall key ensures key in v <==> key in w { assert SameAt(v, w, key); }
    }
    forall key | key in v ensures v[key] == w[key] { assert SameAt(v, w, key); }
  }

  lemma StoreExtensional(s: StatusStore, t: StatusStore)
    requires forall group :: SameStatus(s, t, group)
    ensures s == t
  {
    assert forall group :: group in s <==> group in t by {
      forall group ensures group in s <==> group in t { assert SameStatus(s, t, group); }
    }
    forall group | group in s ensures s[group] == t[group] { assert SameStatus(s, t, group); }
  }

  lemma FinishedWindows(setup: Setup, s: State)
    requires WellFormed(setup) && DataInv(setup, s)
    requires forall i :: 0 <= i < |s.workers| ==> s.workers[i] == Exited
    ensures s.windows == Sequential(setup, |setup.inputs|).0
  {
    var n := |setup.inputs|;
    forall key ensures SameAt(s.windows, Sequential(setup, n).0, key) {
      SequentialWindowsAt(setup, n, key);
      if i :| 0 <= i < n && OwnerOf(key) == setup.inputs[i].group {
        assert WindowsAgree(setup, s.windows, i, s.workers[i]);
      } else {
        assert Unowned(setup.inputs, n, key);
      }
    }
    WindowsExtensional(s.windows, Sequential(setup, n).0);
  }

  lemma FinishedStore(setup: Setup, s: State)
    requires WellFormed(setup) && DataInv(setup, s) && s.results == []
    requires forall i :: 0 <= i < |s.workers| ==> s.workers[i] == Exited
    ensures s.store == Sequential(setup, |setup.inputs|).1
  {
    var n := |setup.inputs|;
    forall group ensures SameStatus(s.store, Sequential(setup, n).1, group) {
      SequentialStoreAt(setup, n, group);
      if i :| 0 <= i < n && setup.inputs[i].group == group {
        assert Drained(s, i);
      } else {
        assert Unlisted(setup.inputs, n, group);
      }
    }
    StoreExtensional(s.store, Sequential(setup, n).1);
  }

  /** Whatever the interleaving, a returned round equals the sequential one: same windows, same status store. */
  lemma FinishedRoundIsSequential(setup: Setup, schedule: seq<Thread>)
    requires WellFormed(setup) && IsRun(setup, schedule)
    requires Exec(setup, schedule).main == Returned
    ensures var s := Exec(setup, schedule);
            (s.windows, s.store) == CollectRound(setup.config, setup.windows, setup.store, setup.inputs)
  {
    RunAgrees(setup, schedule);
    ReturnedMeansFinished(setup, schedule);
    var s, n := Exec(setup, schedule), |setup.inputs|;
    FinishedWindows(setup, s);
    FinishedStore(setup, s);
    assert setup.inputs[..n] == setup.inputs;
  }
}
