/**
 The evaluation hook in a concurrent round: under each key it is called as in the round that takes one group at a time,
 so the analyzer reaches the same state for every partition, whatever the interleaving.
 */
module RoundHooks {
  import opened Wrappers
  import opened LagTypes
  import opened Keys
  import opened Collection
  import opened ConcurrentRound
  import opened RoundControl
  import opened RoundAgreement
  import opened HookRuns

  // ----- the calls for one group -----

  function OfGroup(group: string): Look -> bool {
    (look: Look) => look.status.group == group
  }

  ghost predicate AllOf(looks: seq<Look>, group: string) {
    forall i :: 0 <= i < |looks| ==> looks[i].status.group == group
  }

  lemma {:induction false} OwnCalls(looks: seq<Look>, group: string, other: string)
    requires AllOf(looks, group)
    ensures Filtered(looks, OfGroup(other)) == if other == group then looks else []
  {
    if looks != [] {
      OwnCalls(looks[..|looks| - 1], group, other);
    }
  }

  lemma {:induction false} LooksAreOfGroup(config: Config, w: Windows, group: string, probes: seq<Probe>)
    ensures AllOf(LooksOf(config, w, group, probes), group)
  {
    if probes != [] {
      LooksAreOfGroup(config, w, group, probes[..|probes| - 1]);
    }
  }

  lemma LookIsLocal(config: Config, v: Windows, w: Windows, group: string, p: Probe)
    requires SameAt(v, w, ProbeKey(group, p))
    ensures LookOf(config, v, group, p) == LookOf(config, w, group, p)
  {
  }

  /** A group's calls depend on its own windows only. */
  lemma {:induction false} LooksAreLocal(config: Config, v: Windows, w: Windows, group: string, probes: seq<Probe>)
    requires Collection.TopicsColonFree(probes) && forall key :: OwnerOf(key) == group ==> SameAt(v, w, key)
    ensures LooksOf(config, v, group, probes) == LooksOf(config, w, group, probes)
  {
    if probes != [] {
      var front, last := probes[..|probes| - 1], probes[|probes| - 1];
      LooksAreLocal(config, v, w, group, front);
      ProbesAreLocal(config, v, w, group, front);
      OwnerOfKey(group, last.topic, last.partition);
      LookIsLocal(config, ProbeAll(config, v, group, front).0, ProbeAll(config, w, group, front).0, group, last);
    }
  }

  // ----- what a worker has called -----

  function MadeUpTo(setup: Setup, i: nat, j: nat): seq<Look>
    requires i < |setup.inputs| && j <= |Probes(setup.inputs[i])|
  {
    LooksOf(setup.config, setup.windows, setup.inputs[i].group, Probes(setup.inputs[i])[..j])
  }

  /** The calls that worker i makes up to its state, had it run alone. */
  function Made(setup: Setup, i: nat, w: Worker): seq<Look>
    requires i < |setup.inputs| && InRange(setup, i, w)
  {
    match w
    case Unspawned => []
    case Fetching => []
    case Probing(j, _) => MadeUpTo(setup, i, j)
    case Opening(j, _) => MadeUpTo(setup, i, j)
    case Appending(j, _) => MadeUpTo(setup, i, j)
    case Judging(j, _) => MadeUpTo(setup, i, j)
    case _ => GroupLooks(setup.config, setup.windows, setup.inputs[i])
  }

  lemma MadeOneMore(setup: Setup, i: nat, j: nat)
    requires i < |setup.inputs| && j < |Probes(setup.inputs[i])|
    ensures MadeUpTo(setup, i, j + 1) == MadeUpTo(setup, i, j) +
              LookOf(setup.config, AloneUpTo(setup, i, j).0, setup.inputs[i].group, Probes(setup.inputs[i])[j])
  {
    ProbesOneMore(setup.config, setup.windows, setup.inputs[i].group, Probes(setup.inputs[i]), j);
  }

  lemma AllMade(setup: Setup, i: nat)
    requires i < |setup.inputs| && setup.inputs[i].offsets.Some?
    ensures MadeUpTo(setup, i, |Probes(setup.inputs[i])|) == GroupLooks(setup.config, setup.windows, setup.inputs[i])
  {
    var probes := Probes(setup.inputs[i]);
    assert probes[..|probes|] == probes;
  }

  /** A worker judges the window that it would have judged alone. */
  lemma JudgingLooks(setup: Setup, windows: Windows, i: nat, w: Worker)
    requires WellFormed(setup) && i < |setup.inputs| && InRange(setup, i, w) && w.Judging?
    requires WindowsAgree(setup, windows, i, w)
    ensures NextLooks(setup, windows, i, w) ==
            LookOf(setup.config, AloneUpTo(setup, i, w.next).0, setup.inputs[i].group, Probes(setup.inputs[i])[w.next])
  {
    JudgedWindow(setup, windows, i, w);
    AloneAfterSample(setup, i, w.next);
  }

  lemma PassingMakes(setup: Setup, i: nat, j: nat)
    requires i < |setup.inputs| && j < |Probes(setup.inputs[i])| && !Sampled(Probes(setup.inputs[i])[j])
    ensures MadeUpTo(setup, i, j + 1) == MadeUpTo(setup, i, j)
  {
    MadeOneMore(setup, i, j);
  }

  lemma ProbingMakes(setup: Setup, windows: Windows, i: nat, w: Worker)
    requires i < |setup.inputs| && InRange(setup, i, w) && w.Probing? && AccumulatorAgrees(setup, i, w)
    ensures InRange(setup, i, NextWorker(setup, windows, i, w))
    ensures Made(setup, i, NextWorker(setup, windows, i, w)) == Made(setup, i, w)
  {
    var probes := Probes(setup.inputs[i]);
    if w.next == |probes| {
      AllMade(setup, i);
    } else if !Sampled(probes[w.next]) {
      PassingMakes(setup, i, w.next);
    }
  }

  lemma JudgingAdds(setup: Setup, windows: Windows, i: nat, w: Worker)
    requires WellFormed(setup) && i < |setup.inputs| && InRange(setup, i, w) && w.Judging?
    requires WindowsAgree(setup, windows, i, w)
    ensures MadeUpTo(setup, i, w.next + 1) == MadeUpTo(setup, i, w.next) + NextLooks(setup, windows, i, w)
  {
    MadeOneMore(setup, i, w.next);
    JudgingLooks(setup, windows, i, w);
  }

  lemma JudgingMakes(setup: Setup, windows: Windows, i: nat, w: Worker)
    requires WellFormed(setup) && i < |setup.inputs| && InRange(setup, i, w) && w.Judging?
    requires AccumulatorAgrees(setup, i, w) && WindowsAgree(setup, windows, i, w)
    ensures InRange(setup, i, NextWorker(setup, windows, i, w))
    ensures Made(setup, i, NextWorker(setup, windows, i, w)) ==
            Made(setup, i, w) + NextLooks(setup, windows, i, w)
  {
    JudgingAdds(setup, windows, i, w);
    var acc := JudgedInStep(setup, windows, i, w);
  }

  /** What a step adds to the calls is what the solitary run makes there. */
  lemma StepMakes(setup: Setup, windows: Windows, i: nat, w: Worker)
    requires WellFormed(setup) && i < |setup.inputs| && InRange(setup, i, w) && w !in {Unspawned, Exited}
    requires AccumulatorAgrees(setup, i, w) && WindowsAgree(setup, windows, i, w)
    ensures InRange(setup, i, NextWorker(setup, windows, i, w))
    ensures Made(setup, i, NextWorker(setup, windows, i, w)) ==
            Made(setup, i, w) + NextLooks(setup, windows, i, w)
  {
    if w.Judging? {
      JudgingMakes(setup, windows, i, w);
    } else if w.Probing? {
      ProbingMakes(setup, windows, i, w);
    }
  }

  // ----- every step keeps the calls in step -----

  ghost predicate Plain(looks: seq<Look>) {
    forall i :: 0 <= i < |looks| ==> ColonFree(looks[i].status.topic)
  }

  /** The calls for each group are those its worker made, in order, and there are no others. */
  ghost predicate LooksAgree(setup: Setup, s: State) {
    && |s.workers| == |setup.inputs|
    && (forall i :: 0 <= i < |s.workers| ==>
          InRange(setup, i, s.workers[i])
          && Filtered(s.looks, OfGroup(setup.inputs[i].group)) == Made(setup, i, s.workers[i]))
    && (forall group :: Unlisted(setup.inputs, |setup.inputs|, group) ==> Filtered(s.looks, OfGroup(group)) == [])
    && Plain(s.looks)
  }

  lemma OneWorkersCalls(setup: Setup, windows: Windows, i: nat, w: Worker, group: string)
    requires WellFormed(setup) && i < |setup.inputs| && InRange(setup, i, w)
    ensures Filtered(NextLooks(setup, windows, i, w), OfGroup(group)) ==
            if group == setup.inputs[i].group then NextLooks(setup, windows, i, w) else []
    ensures Plain(NextLooks(setup, windows, i, w))
  {
    OwnCalls(NextLooks(setup, windows, i, w), setup.inputs[i].group, group);
  }

  lemma WorkerKeepsLooks(setup: Setup, s: State, i: nat)
    requires WellFormed(setup) && DataInv(setup, s) && LooksAgree(setup, s) && Enabled(setup, s, WorkerThread(i))
    ensures LooksAgree(setup, WorkerStep(setup, s, i))
  {
    var s', more := WorkerStep(setup, s, i), NextLooks(setup, s.windows, i, s.workers[i]);
    StepMakes(setup, s.windows, i, s.workers[i]);
    forall k | 0 <= k < |s.workers|
      ensures InRange(setup, k, s'.workers[k])
      ensures Filtered(s'.looks, OfGroup(setup.inputs[k].group)) == Made(setup, k, s'.workers[k])
    {
      FilteredInTwoParts(s.looks, more, OfGroup(setup.inputs[k].group));
      OneWorkersCalls(setup, s.windows, i, s.workers[i], setup.inputs[k].group);
      if k != i {
        assert s'.workers[k] == s.workers[k] && setup.inputs[k].group != setup.inputs[i].group;
      }
    }
    forall group | Unlisted(setup.inputs, |setup.inputs|, group) ensures Filtered(s'.looks, OfGroup(group)) == [] {
      FilteredInTwoParts(s.looks, more, OfGroup(group));
      OneWorkersCalls(setup, s.windows, i, s.workers[i], group);
      assert group != setup.inputs[i].group;
    }
    OneWorkersCalls(setup, s.windows, i, s.workers[i], "");
  }

  lemma MainKeepsLooks(setup: Setup, s: State)
    requires LooksAgree(setup, s) && ControlInv(setup, s) && Enabled(setup, s, MainThread)
    ensures LooksAgree(setup, MainStep(setup, s))
  {
    var s' := MainStep(setup, s);
    if s.main.Acquiring? {
      var i := s.main.next;
      assert forall k :: 0 <= k < |s.workers| && k != i ==> s'.workers[k] == s.workers[k];
      assert Made(setup, i, Fetching) == Made(setup, i, Unspawned);
    }
  }

  lemma StepKeepsLooks(setup: Setup, s: State, t: Thread)
    requires WellFormed(setup) && DataInv(setup, s) && ControlInv(setup, s) && LooksAgree(setup, s)
    requires Enabled(setup, s, t)
    ensures LooksAgree(setup, Step(setup, s, t))
  {
    match t {
      case MainThread => MainKeepsLooks(setup, s);
      case CloserThread =>
      case WorkerThread(i) => WorkerKeepsLooks(setup, s, i);
    }
  }

  lemma {:induction false} RunKeepsLooks(setup: Setup, schedule: seq<Thread>)
    requires WellFormed(setup) && IsRun(setup, schedule)
    ensures LooksAgree(setup, Exec(setup, schedule))
  {
    if schedule != [] {
      var front, t := schedule[..|schedule| - 1], schedule[|schedule| - 1];
      RunKeepsLooks(setup, front);
      RunAgrees(setup, front);
      RunIsControlled(setup, front);
      StepKeepsLooks(setup, Exec(setup, front), t);
    }
  }

  // ----- the sequential round -----

  function SequentialLooks(setup: Setup, m: nat): seq<Look>
    requires m <= |setup.inputs|
  {
    RoundLooks(setup.config, setup.windows, setup.store, setup.inputs[..m])
  }

  /** In the sequential round group m is shown what it would be shown alone. */
  lemma SequentialLooksStep(setup: Setup, m: nat)
    requires WellFormed(setup) && m < |setup.inputs|
    ensures SequentialLooks(setup, m + 1) ==
            SequentialLooks(setup, m) + GroupLooks(setup.config, setup.windows, setup.inputs[m])
  {
    var w := Sequential(setup, m).0;
    RoundOneMore(setup.config, setup.windows, setup.store, setup.inputs, m);
    forall key | OwnerOf(key) == setup.inputs[m].group ensures SameAt(w, setup.windows, key) {
      SequentialWindowsAt(setup, m, key);
    }
    LooksAreLocal(setup.config, w, setup.windows, setup.inputs[m].group, Probes(setup.inputs[m]));
  }

  lemma GroupLooksAreOfGroup(setup: Setup, m: nat, group: string)
    requires WellFormed(setup) && m < |setup.inputs|
    ensures var looks := GroupLooks(setup.config, setup.windows, setup.inputs[m]);
            Filtered(looks, OfGroup(group)) == (if group == setup.inputs[m].group then looks else []) && Plain(looks)
  {
    var input := setup.inputs[m];
    if input.offsets.Some? {
      LooksAreOfGroup(setup.config, setup.windows, input.group, input.offsets.value);
      LooksArePlain(setup.config, setup.windows, input.group, input.offsets.value);
    }
    OwnCalls(GroupLooks(setup.config, setup.windows, input), input.group, group);
  }

  /** The calls agree for the group with the solitary runs of the first m groups. */
  ghost predicate LooksAgreeUpTo(setup: Setup, m: nat, looks: seq<Look>, group: string)
    requires m <= |setup.inputs|
  {
    && (Unlisted(setup.inputs, m, group) ==> Filtered(looks, OfGroup(group)) == [])
    && (forall i :: 0 <= i < m && setup.inputs[i].group == group ==>
          Filtered(looks, OfGroup(group)) == GroupLooks(setup.config, setup.windows, setup.inputs[i]))
    && Plain(looks)
  }

  lemma LookingAgrees(setup: Setup, m: nat, looks: seq<Look>, group: string)
    requires WellFormed(setup) && m < |setup.inputs| && LooksAgreeUpTo(setup, m, looks, group)
    ensures LooksAgreeUpTo(setup, m + 1, looks + GroupLooks(setup.config, setup.windows, setup.inputs[m]), group)
  {
    GroupLooksAreOfGroup(setup, m, group);
    FilteredInTwoParts(looks, GroupLooks(setup.config, setup.windows, setup.inputs[m]), OfGroup(group));
    if group == setup.inputs[m].group {
      assert Unlisted(setup.inputs, m, group);
    } else {
      assert Unlisted(setup.inputs, m + 1, group) ==> Unlisted(setup.inputs, m, group);
    }
  }

  lemma {:induction false} SequentialLooksAt(setup: Setup, m: nat, group: string)
    requires WellFormed(setup) && m <= |setup.inputs|
    ensures LooksAgreeUpTo(setup, m, SequentialLooks(setup, m), group)
  {
    if m == 0 {
      assert SequentialLooks(setup, 0) == [];
    } else {
      SequentialLooksAt(setup, m - 1, group);
      SequentialLooksStep(setup, m - 1);
      LookingAgrees(setup, m - 1, SequentialLooks(setup, m - 1), group);
    }
  }

  // ----- the finished round -----

  /** A key's calls are among those of the group that owns it. */
  lemma {:induction false} OwnedCalls(looks: seq<Look>, key: string)
    requires Plain(looks)
    ensures OwnLooks(looks, key) == OwnLooks(Filtered(looks, OfGroup(OwnerOf(key))), key)
  {
    if looks != [] {
      var front, last := looks[..|looks| - 1], looks[|looks| - 1];
      OwnedCalls(front, key);
      OwnerOfKey(last.status.group, last.status.topic, last.status.partition);
      var kept := Filtered(front, OfGroup(OwnerOf(key)));
      FilteredInTwoParts(kept, [last], UnderKey(key));
      FilteredOne(last, UnderKey(key));
    }
  }

  lemma SameCallsForGroup(setup: Setup, s: State, group: string)
    requires WellFormed(setup) && LooksAgree(setup, s)
    requires forall i :: 0 <= i < |s.workers| ==> s.workers[i] == Exited
    ensures Filtered(s.looks, OfGroup(group)) ==
            Filtered(SequentialLooks(setup, |setup.inputs|), OfGroup(group))
    ensures Plain(s.looks) && Plain(SequentialLooks(setup, |setup.inputs|))
  {
    SequentialLooksAt(setup, |setup.inputs|, group);
    if i :| 0 <= i < |setup.inputs| && setup.inputs[i].group == group {
      assert s.workers[i] == Exited;
    } else {
      assert Unlisted(setup.inputs, |setup.inputs|, group);
    }
  }

  lemma SameCallsUnderKey(setup: Setup, s: State, key: string)
    requires WellFormed(setup) && LooksAgree(setup, s)
    requires forall i :: 0 <= i < |s.workers| ==> s.workers[i] == Exited
    ensures OwnLooks(s.looks, key) == OwnLooks(SequentialLooks(setup, |setup.inputs|), key)
  {
    SameCallsForGroup(setup, s, OwnerOf(key));
    OwnedCalls(s.looks, key);
    OwnedCalls(SequentialLooks(setup, |setup.inputs|), key);
  }

  /** Whatever the interleaving, the hook is called under each key as in the sequential round, in the same order. */
  lemma FinishedRoundLooksSequential(setup: Setup, schedule: seq<Thread>, key: string)
    requires WellFormed(setup) && IsRun(setup, schedule)
    requires Exec(setup, schedule).main == Returned
    ensures OwnLooks(Exec(setup, schedule).looks, key) ==
            OwnLooks(RoundLooks(setup.config, setup.windows, setup.store, setup.inputs), key)
  {
    RunKeepsLooks(setup, schedule);
    ReturnedMeansFinished(setup, schedule);
    SameCallsUnderKey(setup, Exec(setup, schedule), key);
    assert setup.inputs[..|setup.inputs|] == setup.inputs;
  }
}
