/**
 One collection round as a transition system.
 The main thread spawns a worker a group under a counting semaphore, starts a closer that waits for the workers
 and closes the result channel, and drains the channel into the status store. Each worker probes its partitions,
 sends one result, gives its permit back and leaves the wait group. Threads take atomic steps in any order.
 */
module ConcurrentRound {
  import opened Wrappers
  import opened LagTypes
  import opened Evaluation
  import opened Collection

  /** What a round starts from: the configuration, the state before it and the replies it will get. */
  datatype Setup = Setup(config: Config, windows: Windows, store: StatusStore, inputs: seq<GroupInput>)

  datatype Worker =
    | Unspawned
    | Fetching
    | Probing(next: nat, acc: GroupStatus)
    | Opening(next: nat, acc: GroupStatus)
    | Appending(next: nat, acc: GroupStatus)
    | Judging(next: nat, acc: GroupStatus)
    | Sending(status: Option<GroupStatus>)
    | Releasing
    | Leaving
    | Exited

  datatype Main = Adding(next: nat) | Acquiring(next: nat) | Draining | Returned

  datatype Closer = NotStarted | Waiting | Closing | Finished

  datatype Message = Message(group: string, status: Option<GroupStatus>)

  /**
   senders records, for the proofs only, which worker each buffered message came from, and looks the calls of the
   evaluation hook in the order they are made.
   */
  datatype State = State(
    main: Main,
    closer: Closer,
    workers: seq<Worker>,
    waitGroup: int,
    permits: nat,
    results: seq<Message>,
    senders: seq<nat>,
    closed: bool,
    panicked: bool,
    windows: Windows,
    store: StatusStore,
    looks: seq<Look>)

  datatype Thread = MainThread | CloserThread | WorkerThread(worker: nat)

  function Probes(input: GroupInput): seq<Probe> {
    if input.offsets.Some? then input.offsets.value else []
  }

  function Init(setup: Setup): State {
    State(Adding(0), NotStarted, seq(|setup.inputs|, i => Unspawned), 0, 0, [], [], false, false,
      setup.windows, setup.store, [])
  }

  // ----- steps -----

  /** A worker's position lies within its probes, and it opens a window only for a probe that was sampled. */
  predicate InRange(setup: Setup, i: nat, w: Worker)
    requires i < |setup.inputs|
  {
    var probes := Probes(setup.inputs[i]);
    match w
    case Probing(j, _) => j <= |probes|
    case Opening(j, _) => j < |probes| && Sampled(probes[j])
    case Appending(j, _) => j < |probes| && Sampled(probes[j])
    case Judging(j, _) => j < |probes| && Sampled(probes[j])
    case _ => true
  }

  predicate Enabled(setup: Setup, s: State, t: Thread) {
    match t
    case MainThread =>
      (match s.main
       case Adding(_) => true
       case Acquiring(_) => s.permits < setup.config.maxConcurrency
       case Draining => s.results != [] || s.closed
       case Returned => false)
    case CloserThread =>
      (match s.closer
       case Waiting => s.waitGroup == 0
       case Closing => true
       case _ => false)
    case WorkerThread(i) =>
      && i < |s.workers| && i < |setup.inputs| && InRange(setup, i, s.workers[i])
      && (match s.workers[i]
          case Unspawned => false
          case Exited => false
          case Sending(_) => |s.results| < |setup.inputs|
          case Releasing => s.permits > 0
          case _ => true)
  }

  function MainStep(setup: Setup, s: State): State
    requires Enabled(setup, s, MainThread)
  {
    match s.main
    case Adding(i) =>
      if i < |setup.inputs| then s.(main := Acquiring(i), waitGroup := s.waitGroup + 1)
      else s.(main := Draining, closer := Waiting)
    case Acquiring(i) =>
      s.(main := Adding(i + 1), permits := s.permits + 1,
        workers := if i < |s.workers| then s.workers[i := Fetching] else s.workers)
    case Draining =>
      if s.results == [] then s.(main := Returned)
      else
        var m := s.results[0];
        s.(results := s.results[1..], senders := if s.senders == [] then [] else s.senders[1..],
          store := Store(s.store, m.group, m.status))
  }

  function NextWorker(setup: Setup, windows: Windows, i: nat, w: Worker): Worker
    requires i < |setup.inputs| && InRange(setup, i, w)
  {
    var input := setup.inputs[i];
    var probes := Probes(input);
    match w
    case Unspawned => Fetching
    case Fetching => if input.offsets.None? then Sending(None) else Probing(0, BlankGroup(input, |probes|))
    case Probing(j, acc) =>
      if j == |probes| then Sending(Some(Conclude(acc)))
      else if Sampled(probes[j]) then Opening(j, acc)
      else if probes[j].highWatermark.None? then Probing(j + 1, acc)
      else Probing(j + 1, Account(acc, Uncommitted(input.group, probes[j], probes[j].highWatermark.value)))
    case Opening(j, acc) => Appending(j, acc)
    case Appending(j, acc) => Judging(j, acc)
    case Judging(j, acc) =>
      var key := ProbeKey(input.group, probes[j]);
      var records := WithWindow(windows, key)[key];
      Probing(j + 1, Account(acc,
        Evaluate(setup.config, records, input.group, probes[j].topic, probes[j].partition)))
    case Sending(_) => Releasing
    case Releasing => Leaving
    case Leaving => Exited
    case Exited => Exited
  }

  function NextWindows(setup: Setup, windows: Windows, i: nat, w: Worker): Windows
    requires i < |setup.inputs| && InRange(setup, i, w)
  {
    var input := setup.inputs[i];
    match w
    case Opening(j, _) => WithWindow(windows, ProbeKey(input.group, Probes(input)[j]))
    case Appending(j, _) =>
      var p := Probes(input)[j];
      AddSample(windows, ProbeKey(input.group, p), SampleOf(p, p.highWatermark.value), setup.config.windowSize)
    case _ => windows
  }

  /** A worker calls the hook when it has judged a window. */
  function NextLooks(setup: Setup, windows: Windows, i: nat, w: Worker): seq<Look>
    requires i < |setup.inputs| && InRange(setup, i, w)
  {
    if !w.Judging? then []
    else
      var group, p := setup.inputs[i].group, Probes(setup.inputs[i])[w.next];
      var records := WithWindow(windows, ProbeKey(group, p))[ProbeKey(group, p)];
      [Look(Evaluate(setup.config, records, group, p.topic, p.partition), records)]
  }

  function WorkerStep(setup: Setup, s: State, i: nat): State
    requires Enabled(setup, s, WorkerThread(i))
  {
    var w := s.workers[i];
    s.(workers := s.workers[i := NextWorker(setup, s.windows, i, w)],
      windows := NextWindows(setup, s.windows, i, w),
      permits := if w == Releasing then s.permits - 1 else s.permits,
      waitGroup := if w == Leaving then s.waitGroup - 1 else s.waitGroup,
      results := if w.Sending? then s.results + [Message(setup.inputs[i].group, w.status)] else s.results,
      senders := if w.Sending? then s.senders + [i] else s.senders,
      looks := s.looks + NextLooks(setup, s.windows, i, w),
      panicked := s.panicked || (w.Sending? && s.closed) || (w == Leaving && s.waitGroup <= 0))
  }

  function Step(setup: Setup, s: State, t: Thread): State
    requires Enabled(setup, s, t)
  {
    match t
    case MainThread => MainStep(setup, s)
    case CloserThread =>
      if s.closer == Waiting then s.(closer := Closing)
      else s.(closer := Finished, closed := true, panicked := s.panicked || s.closed)
    case WorkerThread(i) => WorkerStep(setup, s, i)
  }

  // ----- runs -----

  /** A schedule is a run when every thread it names can take its step at that point. */
  ghost predicate IsRun(setup: Setup, schedule: seq<Thread>)
    decreases |schedule|, 0
  {
    schedule != [] ==>
      var front := schedule[..|schedule| - 1];
      IsRun(setup, front) && Enabled(setup, Exec(setup, front), schedule[|schedule| - 1])
  }

  ghost function Exec(setup: Setup, schedule: seq<Thread>): State
    requires IsRun(setup, schedule)
    decreases |schedule|, 1
  {
    if schedule == [] then Init(setup)
    else Step(setup, Exec(setup, schedule[..|schedule| - 1]), schedule[|schedule| - 1])
  }
}
