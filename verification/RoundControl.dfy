/** Safety, progress and termination of a collection round, for every interleaving of its threads. */
module RoundControl {
  import opened Collection
  import opened ConcurrentRound

  // ----- counting workers -----

  ghost function Total(ws: seq<Worker>, f: (nat, Worker) -> nat): nat {
    if ws == [] then 0 else Total(ws[..|ws| - 1], f) + f(|ws| - 1, ws[|ws| - 1])
  }

  function InFlight(i: nat, w: Worker): nat {
    match w
    case Unspawned => 0
    case Leaving => 0
    case Exited => 0
    case _ => 1
  }

  function Present(i: nat, w: Worker): nat {
    if w in {Unspawned, Exited} then 0 else 1
  }

  function HasSent(i: nat, w: Worker): nat {
    if w in {Releasing, Leaving, Exited} then 1 else 0
  }

  lemma {:induction false} TotalUpdate(ws: seq<Worker>, i: nat, w: Worker, f: (nat, Worker) -> nat)
    requires i < |ws|
    ensures Total(ws[i := w], f) + f(i, ws[i]) == Total(ws, f) + f(i, w)
  {
    var n := |ws|;
    var front := ws[..n - 1];
    if i == n - 1 {
      assert ws[i := w][..n - 1] == front;
    } else {
      TotalUpdate(front, i, w, f);
      assert ws[i := w][..n - 1] == front[i := w];
    }
  }

  lemma {:induction false} TotalIsCovered(ws: seq<Worker>, f: (nat, Worker) -> nat, i: nat)
    requires i < |ws|
    ensures f(i, ws[i]) <= Total(ws, f)
    ensures (forall k, w :: f(k, w) <= 1) ==> Total(ws, f) <= |ws| - 1 + f(i, ws[i])
  {
    var n := |ws|;
    var front := ws[..n - 1];
    if i < n - 1 {
      TotalIsCovered(front, f, i);
    } else if n > 1 {
      TotalIsCovered(front, f, 0);
    }
  }

  lemma {:induction false} SomeWorkerCounts(ws: seq<Worker>, f: (nat, Worker) -> nat) returns (i: nat)
    requires Total(ws, f) > 0
    ensures i < |ws| && f(i, ws[i]) > 0
  {
    i := |ws| - 1;
    if f(i, ws[i]) == 0 {
      i := SomeWorkerCounts(ws[..|ws| - 1], f);
    }
  }

  /** How many steps a worker has left at most, its message counted twice. */
  function Rank(input: GroupInput, w: Worker): nat {
    var n := |Probes(input)|;
    match w
    case Unspawned => 4 * n + 8
    case Fetching => 4 * n + 7
    case Probing(j, _) => (if j <= n then 4 * (n - j) else 0) + 5
    case Opening(j, _) => (if j <= n then 4 * (n - j) else 0) + 4
    case Appending(j, _) => (if j <= n then 4 * (n - j) else 0) + 3
    case Judging(j, _) => (if j <= n then 4 * (n - j) else 0) + 2
    case Sending(_) => 4
    case Releasing => 2
    case Leaving => 1
    case Exited => 0
  }

  // ----- control: permits, wait group and channel -----

  ghost predicate SpawnedBelow(ws: seq<Worker>, i: nat) {
    forall k :: 0 <= k < |ws| ==> (ws[k] == Unspawned <==> i <= k)
  }

  ghost predicate MainAgrees(setup: Setup, s: State) {
    var n := |setup.inputs|;
    match s.main
    case Adding(i) => i <= n && SpawnedBelow(s.workers, i) && s.closer == NotStarted
    case Acquiring(i) => i < n && SpawnedBelow(s.workers, i) && s.closer == NotStarted
    case Draining => SpawnedBelow(s.workers, n) && s.closer != NotStarted
    case Returned => SpawnedBelow(s.workers, n) && s.closed && s.results == []
  }

  ghost predicate ControlInv(setup: Setup, s: State) {
    && |s.workers| == |setup.inputs|
    && (forall i :: 0 <= i < |s.workers| ==> InRange(setup, i, s.workers[i]))
    && MainAgrees(setup, s)
    && s.permits == Total(s.workers, InFlight) <= setup.config.maxConcurrency
    && s.waitGroup == Total(s.workers, Present) + (if s.main.Acquiring? then 1 else 0)
    && |s.results| == |s.senders| <= Total(s.workers, HasSent)
    && (s.closer in {Closing, Finished} ==> forall i :: 0 <= i < |s.workers| ==> s.workers[i] == Exited)
    && (s.closed <==> s.closer == Finished)
    && (setup.config.maxConcurrency == 0 && setup.inputs != [] ==> s.main in {Adding(0), Acquiring(0)})
    && !s.panicked
  }

  lemma {:induction false} NobodySpawnedYet(ws: seq<Worker>, f: (nat, Worker) -> nat)
    requires forall k :: 0 <= k < |ws| ==> ws[k] == Unspawned
    requires forall k :: f(k, Unspawned) == 0
    ensures Total(ws, f) == 0
  {
    if ws != [] {
      NobodySpawnedYet(ws[..|ws| - 1], f);
    }
  }

  lemma InitIsControlled(setup: Setup)
    ensures ControlInv(setup, Init(setup))
  {
    var ws := Init(setup).workers;
    NobodySpawnedYet(ws, InFlight);
    NobodySpawnedYet(ws, Present);
    NobodySpawnedYet(ws, HasSent);
  }

  lemma SpawnKeepsControl(setup: Setup, s: State)
    requires ControlInv(setup, s) && s.main.Acquiring? && Enabled(setup, s, MainThread)
    ensures ControlInv(setup, MainStep(setup, s))
  {
    var i := s.main.next;
    TotalUpdate(s.workers, i, Fetching, InFlight);
    TotalUpdate(s.workers, i, Fetching, Present);
    TotalUpdate(s.workers, i, Fetching, HasSent);
  }

  lemma DrainKeepsControl(setup: Setup, s: State)
    requires ControlInv(setup, s) && s.main == Draining && Enabled(setup, s, MainThread)
    ensures ControlInv(setup, MainStep(setup, s))
  {
  }

  lemma MainKeepsControl(setup: Setup, s: State)
    requires ControlInv(setup, s) && Enabled(setup, s, MainThread)
    ensures ControlInv(setup, MainStep(setup, s))
  {
    if s.main.Acquiring? {
      SpawnKeepsControl(setup, s);
    } else if s.main == Draining {
      DrainKeepsControl(setup, s);
    }
  }

  /** What a worker's step does to the worker itself: it stays in range and comes closer to its end. */
  lemma WorkerAdvances(setup: Setup, windows: Windows, i: nat, u: Worker)
    requires i < |setup.inputs| && InRange(setup, i, u) && u !in {Unspawned, Exited}
    ensures var w := NextWorker(setup, windows, i, u);
            && w != Unspawned && InRange(setup, i, w)
            && InFlight(i, w) == (if u == Releasing then 0 else InFlight(i, u))
            && Present(i, w) == (if u == Leaving then 0 else 1)
            && HasSent(i, w) == (if u.Sending? then 1 else HasSent(i, u))
            && Rank(setup.inputs[i], w) + (if u.Sending? then 2 else 1) <= Rank(setup.inputs[i], u)
  {
  }

  /** The counters after a worker's step count what they are there to count. */
  lemma WorkerKeepsCounts(setup: Setup, s: State, i: nat)
    requires ControlInv(setup, s) && Enabled(setup, s, WorkerThread(i))
    ensures var s' := WorkerStep(setup, s, i);
            && s'.permits == Total(s'.workers, InFlight) <= setup.config.maxConcurrency
            && s'.waitGroup == Total(s'.workers, Present) + (if s.main.Acquiring? then 1 else 0)
            && |s'.results| == |s'.senders| <= Total(s'.workers, HasSent)
            && (s.workers[i] == Leaving ==> s.waitGroup > 0)
  {
    WorkerAdvances(setup, s.windows, i, s.workers[i]);
    var w := NextWorker(setup, s.windows, i, s.workers[i]);
    TotalUpdate(s.workers, i, w, InFlight);
    TotalUpdate(s.workers, i, w, Present);
    TotalUpdate(s.workers, i, w, HasSent);
    TotalIsCovered(s.workers, Present, i);
  }

  lemma WorkerKeepsControl(setup: Setup, s: State, i: nat)
    requires ControlInv(setup, s) && Enabled(setup, s, WorkerThread(i))
    ensures ControlInv(setup, WorkerStep(setup, s, i))
  {
    WorkerAdvances(setup, s.windows, i, s.workers[i]);
    WorkerKeepsCounts(setup, s, i);
    assert s.workers[i] != Exited;
  }

  lemma CloserKeepsControl(setup: Setup, s: State)
    requires ControlInv(setup, s) && Enabled(setup, s, CloserThread)
    ensures ControlInv(setup, Step(setup, s, CloserThread))
  {
    if s.closer == Waiting {
      forall i | 0 <= i < |s.workers| ensures s.workers[i] == Exited {
        TotalIsCovered(s.workers, Present, i);
      }
    }
  }

  lemma {:induction false} RunIsControlled(setup: Setup, schedule: seq<Thread>)
    requires IsRun(setup, schedule)
    ensures ControlInv(setup, Exec(setup, schedule))
  {
    if schedule == [] {
      InitIsControlled(setup);
    } else {
      var front, t := schedule[..|schedule| - 1], schedule[|schedule| - 1];
      RunIsControlled(setup, front);
      var s := Exec(setup, front);
      match t {
        case MainThread => MainKeepsControl(setup, s);
        case CloserThread => CloserKeepsControl(setup, s);
        case WorkerThread(i) => WorkerKeepsControl(setup, s, i);
      }
    }
  }

  // ----- safety -----

  /**
   At every point of every run no more than maxConcurrency workers are in flight, nothing has panicked (no send on a
   closed channel, no second close, no negative wait group), and whoever is about to send finds the channel open and
   with room.
   */
  lemma EveryRunIsSafe(setup: Setup, schedule: seq<Thread>)
    requires IsRun(setup, schedule)
    ensures var s := Exec(setup, schedule);
            && Total(s.workers, InFlight) <= setup.config.maxConcurrency
            && !s.panicked
            && (forall i :: 0 <= i < |s.workers| && s.workers[i].Sending? ==>
                  !s.closed && |s.results| < |setup.inputs| && Enabled(setup, s, WorkerThread(i)))
  {
    RunIsControlled(setup, schedule);
    var s := Exec(setup, schedule);
    forall i | 0 <= i < |s.workers| && s.workers[i].Sending?
      ensures !s.closed && |s.results| < |setup.inputs| && Enabled(setup, s, WorkerThread(i))
    {
      TotalIsCovered(s.workers, HasSent, i);
    }
  }

  // ----- progress -----

  lemma UnfinishedWorkerCanStep(setup: Setup, s: State, i: nat)
    requires ControlInv(setup, s) && i < |s.workers| && Present(i, s.workers[i]) == 1
    ensures Enabled(setup, s, WorkerThread(i))
  {
    TotalIsCovered(s.workers, HasSent, i);
    TotalIsCovered(s.workers, InFlight, i);
  }

  lemma SomeThreadCanStep(setup: Setup, s: State) returns (t: Thread)
    requires ControlInv(setup, s) && s.main != Returned
    requires setup.config.maxConcurrency >= 1 || setup.inputs == []
    ensures Enabled(setup, s, t)
  {
    t := MainThread;
    if !Enabled(setup, s, t) {
      if s.main.Acquiring? {
        var i := SomeWorkerCounts(s.workers, InFlight);
        UnfinishedWorkerCanStep(setup, s, i);
        t := WorkerThread(i);
      } else if s.closer == Waiting && s.waitGroup != 0 {
        var i := SomeWorkerCounts(s.workers, Present);
        UnfinishedWorkerCanStep(setup, s, i);
        t := WorkerThread(i);
      } else {
        t := CloserThread;
      }
    }
  }

  /**
   A reachable state in which no thread can step is the returned one, exactly when there is a permit to hand out or
   no group to collect; with neither, the round blocks for ever on its first permit.
   */
  lemma StuckMeansReturned(setup: Setup, schedule: seq<Thread>)
    requires IsRun(setup, schedule)
    requires forall t :: !Enabled(setup, Exec(setup, schedule), t)
    ensures Exec(setup, schedule).main == Returned <==>
            setup.config.maxConcurrency >= 1 || setup.inputs == []
  {
    RunIsControlled(setup, schedule);
    var s := Exec(setup, schedule);
    if (setup.config.maxConcurrency >= 1 || setup.inputs == []) && s.main != Returned {
      var t := SomeThreadCanStep(setup, s);
    }
  }

  lemma ReturnedIsFinal(setup: Setup, s: State, t: Thread)
    requires ControlInv(setup, s) && s.main == Returned
    ensures s.closer == Finished && s.results == [] && !Enabled(setup, s, t)
    ensures forall i :: 0 <= i < |s.workers| ==> s.workers[i] == Exited
  {
  }

  /** Once the round has returned every thread has ended. */
  lemma ReturnedMeansFinished(setup: Setup, schedule: seq<Thread>)
    requires IsRun(setup, schedule) && Exec(setup, schedule).main == Returned
    ensures var s := Exec(setup, schedule);
            && s.closer == Finished && s.results == []
            && (forall i :: 0 <= i < |s.workers| ==> s.workers[i] == Exited)
            && (forall t :: !Enabled(setup, s, t))
  {
    RunIsControlled(setup, schedule);
    var s := Exec(setup, schedule);
    ReturnedIsFinal(setup, s, MainThread);
    forall t ensures !Enabled(setup, s, t) {
      ReturnedIsFinal(setup, s, t);
    }
  }

  // ----- termination -----

  ghost function RankIn(setup: Setup): (nat, Worker) -> nat {
    (i: nat, w: Worker) => if i < |setup.inputs| then Rank(setup.inputs[i], w) else 0
  }

  /** An upper bound on the number of steps left. */
  ghost function Remaining(setup: Setup, s: State): int {
    Total(s.workers, RankIn(setup)) + |s.results|
    + (match s.main
       case Adding(i) => 2 * (|setup.inputs| - i) + 3
       case Acquiring(i) => 2 * (|setup.inputs| - i) + 2
       case Draining => 1
       case Returned => 0)
    + (match s.closer case NotStarted => 2 case Waiting => 2 case Closing => 1 case Finished => 0)
  }

  lemma WorkerRunsOut(setup: Setup, s: State, i: nat)
    requires ControlInv(setup, s) && Enabled(setup, s, WorkerThread(i))
    ensures Remaining(setup, WorkerStep(setup, s, i)) < Remaining(setup, s)
  {
    WorkerAdvances(setup, s.windows, i, s.workers[i]);
    TotalUpdate(s.workers, i, NextWorker(setup, s.windows, i, s.workers[i]), RankIn(setup));
  }

  lemma MainRunsOut(setup: Setup, s: State)
    requires ControlInv(setup, s) && Enabled(setup, s, MainThread)
    ensures Remaining(setup, MainStep(setup, s)) < Remaining(setup, s)
  {
    if s.main.Acquiring? {
      TotalUpdate(s.workers, s.main.next, Fetching, RankIn(setup));
    }
  }

  lemma CloserRunsOut(setup: Setup, s: State)
    requires ControlInv(setup, s) && Enabled(setup, s, CloserThread)
    ensures Remaining(setup, Step(setup, s, CloserThread)) < Remaining(setup, s)
  {
  }

  lemma StepsRunOut(setup: Setup, s: State, t: Thread)
    requires ControlInv(setup, s) && Enabled(setup, s, t)
    ensures Remaining(setup, Step(setup, s, t)) < Remaining(setup, s)
  {
    match t {
      case MainThread => MainRunsOut(setup, s);
      case CloserThread => CloserRunsOut(setup, s);
      case WorkerThread(i) => WorkerRunsOut(setup, s, i);
    }
  }

  /** No run is longer than a bound fixed by the replies, so every interleaving ends. */
  lemma {:induction false} RunsAreBounded(setup: Setup, schedule: seq<Thread>)
    requires IsRun(setup, schedule)
    ensures 0 <= Remaining(setup, Exec(setup, schedule))
    ensures |schedule| + Remaining(setup, Exec(setup, schedule)) <= Remaining(setup, Init(setup))
  {
    if schedule != [] {
      var front, t := schedule[..|schedule| - 1], schedule[|schedule| - 1];
      RunsAreBounded(setup, front);
      RunIsControlled(setup, front);
      StepsRunOut(setup, Exec(setup, front), t);
    }
  }
}
