/** How slow sampling may get before a consumer is reported STOPPED: the bounds are exact. */
module MotionLimits {
  import opened LagTypes
  import opened Evaluation
  import opened SlidingWindow
  import opened MotionTheorems
  import opened Arithmetic

  /** Samples g apart. */
  ghost predicate Paced(records: seq<OffsetRecord>, g: nat) {
    forall i :: 0 <= i < |records| ==> records[i].at == i * g
  }

  lemma PacedGaps(records: seq<OffsetRecord>, g: nat)
    requires Paced(records, g)
    ensures Chronological(records) && GapsAtMost(records, g)
  {
    forall i, j | 0 <= i <= j < |records| ensures records[i].at <= records[j].at {
      MultiplyOrder(i, j, g);
    }
    forall i, j | 0 <= i && j == i + 1 && j < |records| ensures records[j].at - records[i].at <= g {
      assert (i + 1) * g == i * g + g;
    }
  }

  // ----- any stop -----

  /** A history with gaps of at most g that ends in STOPPED. */
  ghost predicate Stops(config: Config, history: seq<OffsetRecord>, g: nat) {
    Chronological(history) && GapsAtMost(history, g) && StatusAt(config, history) == Stopped
  }

  function StandingStill(n: nat, g: nat): seq<OffsetRecord> {
    seq(n, i => OffsetRecord(0, 1, 1, i * g))
  }

  lemma StandingStillStops(config: Config, g: nat)
    requires 1 <= config.windowSize && config.minWindowSize <= config.windowSize
    requires (config.windowSize - 1) * g > config.inactivityTimeout
    ensures Stops(config, StandingStill(config.windowSize, g), g)
  {
    var n := config.windowSize;
    var w := StandingStill(n, g);
    PacedGaps(w, g);
    assert SharesOffset(w, n);
    RunLengthIsLongest(w, n);
    assert w[n - 1].at - w[0].at == (n - 1) * g;
    StoppedExactly(config, w);
  }

  /** STOPPED can be reached with gaps of at most g exactly when a full window can outlast the timeout. */
  lemma StopIsReachableIff(config: Config, g: nat)
    ensures (exists history :: Stops(config, history, g)) <==>
            && 1 <= config.windowSize && config.minWindowSize <= config.windowSize
            && (config.windowSize - 1) * g > config.inactivityTimeout
  {
    forall history | Stops(config, history, g)
      ensures 1 <= config.windowSize && config.minWindowSize <= config.windowSize
      ensures (config.windowSize - 1) * g > config.inactivityTimeout
    {
      StoppedExactly(config, WindowOf(history, config.windowSize));
      if (config.windowSize - 1) * g <= config.inactivityTimeout {
        StopIsUnreachable(config, history, g);
      }
    }
    if 1 <= config.windowSize && config.minWindowSize <= config.windowSize
      && (config.windowSize - 1) * g > config.inactivityTimeout {
      StandingStillStops(config, g);
    }
  }

  // ----- a stop straight out of motion -----

  /** With gaps of at most g, one more sample takes ACTIVE or LAGGING straight to STOPPED. */
  ghost predicate StopsDirectly(config: Config, history: seq<OffsetRecord>, record: OffsetRecord, g: nat) {
    && Chronological(history + [record]) && GapsAtMost(history + [record], g)
    && StatusAt(config, history) in {Active, Lagging}
    && StatusAt(config, history + [record]) == Stopped
  }

  /** Samples g apart of which all but the last m are at offset 0, and those at the given offset. */
  function OneMove(n: nat, m: nat, offset: int, g: nat): seq<OffsetRecord> {
    seq(n, i => if i < n - m then OffsetRecord(0, 1, 1, i * g) else OffsetRecord(offset, offset + 1, 1, i * g))
  }

  lemma RunAfterMove(records: seq<OffsetRecord>, m: nat)
    requires 1 <= m <= |records| && SharesOffset(records, m)
    requires m < |records| ==> records[|records| - m - 1].offset != records[|records| - 1].offset
    ensures RunLength(records) == m
  {
    RunLengthIsLongest(records, m);
    if m < |records| {
      RunLengthIsLongest(records, m + 1);
    }
  }

  /** An offset far enough to reach the rate over the time, if there is any. */
  function FarEnough(rate: real, elapsed: int): int {
    if rate <= 0.0 then 1 else (rate * Seconds(elapsed)).Floor + 1
  }

  lemma FarEnoughReaches(rate: real, elapsed: int)
    requires elapsed > 0
    ensures FarEnough(rate, elapsed) > 0
    ensures FarEnough(rate, elapsed) as real / Seconds(elapsed) >= rate
  {
    var far := FarEnough(rate, elapsed) as real;
    QuotientOrder(far, Seconds(elapsed), rate);
    if rate <= 0.0 {
      assert (-rate) * Seconds(elapsed) >= 0.0;
    } else {
      assert rate * Seconds(elapsed) > 0.0;
    }
  }

  lemma FarEnoughIsPositive(rate: real, elapsed: int)
    requires elapsed >= 0
    ensures FarEnough(rate, elapsed) > 0
  {
    if rate > 0.0 {
      assert rate * Seconds(elapsed) >= 0.0;
    }
  }

  lemma MovesBefore(config: Config, w: seq<OffsetRecord>, m: nat, g: nat)
    requires 2 <= m == Min(5, |w|) && |w| >= config.minWindowSize && (g > 0 || config.stalledRate <= 0.0)
    requires w == OneMove(|w|, m - 1, FarEnough(config.stalledRate, (|w| - 1) * g), g)
    ensures StatusFor(config, w) in {Active, Lagging}
  {
    var n, elapsed := |w|, (|w| - 1) * g;
    assert w[0] == OffsetRecord(0, 1, 1, 0 * g);
    assert w[n - 1].at == elapsed;
    if g > 0 {
      MultiplyOrder(1, n - 1, g);
      FarEnoughReaches(config.stalledRate, elapsed);
    }
    FarEnoughIsPositive(config.stalledRate, elapsed);
    RunAfterMove(w, m - 1);
    ActivityScansAgree(w);
    assert ConsumptionRate(w) >= config.stalledRate;
  }

  lemma StopsAfter(config: Config, w: seq<OffsetRecord>, all: seq<OffsetRecord>, m: nat, offset: int, g: nat)
    requires 2 <= m == Min(5, |w|) && |w| >= config.minWindowSize && offset != 0
    requires (m - 1) * g > config.inactivityTimeout
    requires all == OneMove(|w| + 1, m, offset, g) && w == all[1..]
    ensures StatusFor(config, w) == Stopped
  {
    var n := |w|;
    assert forall i :: 0 <= i < n ==> w[i] == all[i + 1];
    RunAfterMove(w, m);
    assert w[n - 1].at - w[n - m].at == n * g - (n - m + 1) * g == (m - 1) * g;
    StoppedExactly(config, w);
  }

  /**
   The window holds enough, four gaps, or as many as the window spans, outlast the timeout, and there is a rate that
   counts as moving: time passes, or standing still is fast enough.
   */
  predicate CanStopDirectly(config: Config, g: nat) {
    && 2 <= config.windowSize && config.minWindowSize <= config.windowSize
    && Min(4, config.windowSize - 1) * g > config.inactivityTimeout
    && (g > 0 || config.stalledRate <= 0.0)
  }

  lemma FarEnoughOver(config: Config, g: nat)
    requires 2 <= config.windowSize
    ensures FarEnough(config.stalledRate, (config.windowSize - 1) * g) > 0
  {
    MultiplyOrder(0, config.windowSize - 1, g);
    FarEnoughIsPositive(config.stalledRate, (config.windowSize - 1) * g);
  }

  /** A full window that moves once, late enough to be still moving, and one more sample. */
  function DirectStop(config: Config, g: nat): seq<OffsetRecord>
    requires 2 <= config.windowSize
  {
    OneMove(config.windowSize + 1, Min(5, config.windowSize),
      FarEnough(config.stalledRate, (config.windowSize - 1) * g), g)
  }

  lemma DirectStopMoves(config: Config, g: nat)
    requires CanStopDirectly(config, g)
    ensures StatusAt(config, DirectStop(config, g)[..config.windowSize]) in {Active, Lagging}
  {
    var n, m := config.windowSize, Min(5, config.windowSize);
    var offset := FarEnough(config.stalledRate, (n - 1) * g);
    assert DirectStop(config, g)[..n] == OneMove(n, m - 1, offset, g);
    MovesBefore(config, OneMove(n, m - 1, offset, g), m, g);
  }

  lemma DirectStopStops(config: Config, g: nat)
    requires CanStopDirectly(config, g)
    ensures StatusAt(config, DirectStop(config, g)) == Stopped
  {
    var all := DirectStop(config, g);
    FarEnoughOver(config, g);
    assert WindowOf(all, config.windowSize) == all[1..];
    StopsAfter(config, all[1..], all, Min(5, config.windowSize),
      FarEnough(config.stalledRate, (config.windowSize - 1) * g), g);
  }

  lemma DirectStopJumps(config: Config, g: nat)
    requires CanStopDirectly(config, g)
    ensures var all := DirectStop(config, g);
            && StatusAt(config, all[..config.windowSize]) in {Active, Lagging} && StatusAt(config, all) == Stopped
  {
    DirectStopMoves(config, g);
    DirectStopStops(config, g);
  }

  lemma OneMoveStopsDirectly(config: Config, g: nat) returns (history: seq<OffsetRecord>, record: OffsetRecord)
    requires CanStopDirectly(config, g)
    ensures StopsDirectly(config, history, record, g)
  {
    var all := DirectStop(config, g);
    history, record := all[..config.windowSize], all[config.windowSize];
    assert history + [record] == all;
    PacedGaps(all, g);
    DirectStopJumps(config, g);
  }

  /** Moving takes two samples in the window, as many as the evaluator asks for, and a rate that is not stalled. */
  lemma MovingNeeds(config: Config, history: seq<OffsetRecord>)
    requires StatusAt(config, history) in {Active, Lagging}
    ensures var w := WindowOf(history, config.windowSize);
            && 2 <= |w| <= config.windowSize && config.minWindowSize <= |w|
            && ConsumptionRate(w) >= config.stalledRate
  {
  }

  /** Samples that are all taken at one instant show no rate. */
  lemma NoTimeNoRate(history: seq<OffsetRecord>, size: nat)
    requires Chronological(history) && GapsAtMost(history, 0)
    ensures ConsumptionRate(WindowOf(history, size)) == 0.0
  {
    var w := WindowOf(history, size);
    if |w| >= 2 {
      SpanAtMost(history, |history| - |w|, |history| - 1, 0);
      assert w[0] == history[|history| - |w|] && w[|w| - 1] == history[|history| - 1];
    }
  }

  lemma FrontIsPaced(history: seq<OffsetRecord>, record: OffsetRecord, g: nat)
    requires Chronological(history + [record]) && GapsAtMost(history + [record], g)
    ensures Chronological(history) && GapsAtMost(history, g)
  {
    assert forall i :: 0 <= i < |history| ==> (history + [record])[i] == history[i];
  }

  lemma DirectStopNeeds(config: Config, history: seq<OffsetRecord>, record: OffsetRecord, g: nat)
    requires StopsDirectly(config, history, record, g)
    ensures CanStopDirectly(config, g)
  {
    MovingNeeds(config, history);
    FrontIsPaced(history, record, g);
    if g == 0 {
      NoTimeNoRate(history, config.windowSize);
    }
    if Min(4, config.windowSize - 1) * g <= config.inactivityTimeout {
      NoDirectStop(config, history, record, g);
    }
  }

  /** A jump straight to STOPPED can happen with gaps of at most g exactly under that condition. */
  lemma DirectStopIff(config: Config, g: nat)
    ensures (exists history, record :: StopsDirectly(config, history, record, g)) <==> CanStopDirectly(config, g)
  {
    forall history, record | StopsDirectly(config, history, record, g) ensures CanStopDirectly(config, g) {
      DirectStopNeeds(config, history, record, g);
    }
    if CanStopDirectly(config, g) {
      var history, record := OneMoveStopsDirectly(config, g);
    }
  }
}
