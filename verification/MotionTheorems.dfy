/**
 What the evaluator can conclude about a consumer, over whole sample histories.
 After each sample the evaluator sees the window: the most recent records of the history.
 */
module MotionTheorems {
  import opened LagTypes
  import opened Evaluation
  import opened SlidingWindow
  import opened Arithmetic

  ghost predicate Chronological(records: seq<OffsetRecord>) {
    forall i, j :: 0 <= i <= j < |records| ==> records[i].at <= records[j].at
  }

  ghost predicate GapsAtMost(records: seq<OffsetRecord>, g: int) {
    forall i, j :: 0 <= i && j == i + 1 && j < |records| ==> records[j].at - records[i].at <= g
  }

  ghost predicate GapsAtLeast(records: seq<OffsetRecord>, h: int) {
    forall i, j :: 0 <= i && j == i + 1 && j < |records| ==> records[j].at - records[i].at >= h
  }

  function StatusAt(config: Config, history: seq<OffsetRecord>): Status {
    StatusFor(config, WindowOf(history, config.windowSize))
  }

  // ----- runs and windows -----

  /** Dropping old records shortens the trailing run only when the whole remainder is one run. */
  lemma RunOfSuffix(records: seq<OffsetRecord>, d: nat)
    requires d <= |records|
    ensures RunLength(records[d..]) == Min(RunLength(records), |records| - d)
  {
    var rest := records[d..];
    var m := Min(RunLength(records), |records| - d);
    RunLengthIsLongest(records, m);
    RunLengthIsLongest(rest, m);
    if m < |rest| {
      RunLengthIsLongest(records, m + 1);
      RunLengthIsLongest(rest, m + 1);
    }
  }

  lemma WindowIsSuffix(history: seq<OffsetRecord>, size: nat)
    ensures WindowOf(history, size) == history[|history| - Min(|history|, size)..]
  {
  }

  lemma RunOfWindow(history: seq<OffsetRecord>, size: nat)
    ensures RunLength(WindowOf(history, size)) == Min(RunLength(history), Min(|history|, size))
  {
    var d: nat := |history| - Min(|history|, size);
    assert WindowOf(history, size) == history[d..] by {
      WindowIsSuffix(history, size);
    }
    RunOfSuffix(history, d);
  }

  lemma RunGrowsByAtMostOne(history: seq<OffsetRecord>, record: OffsetRecord)
    ensures RunLength(history + [record]) <= RunLength(history) + 1
  {
    assert (history + [record])[..|history|] == history;
  }

  lemma {:induction false} SpanAtMost(records: seq<OffsetRecord>, i: nat, j: nat, g: int)
    requires i <= j < |records| && GapsAtMost(records, g)
    ensures records[j].at - records[i].at <= (j - i) * g
    decreases j
  {
    if i < j {
      SpanAtMost(records, i, j - 1, g);
      assert records[j].at - records[j - 1].at <= g;
      assert (j - i) * g == (j - 1 - i) * g + g;
    }
  }

  lemma {:induction false} SpanAtLeast(records: seq<OffsetRecord>, i: nat, j: nat, h: int)
    requires i <= j < |records| && GapsAtLeast(records, h)
    ensures records[j].at - records[i].at >= (j - i) * h
    decreases j
  {
    if i < j {
      SpanAtLeast(records, i, j - 1, h);
      assert records[j].at - records[j - 1].at >= h;
      assert (j - i) * h == (j - 1 - i) * h + h;
    }
  }

  lemma DurationInHistory(history: seq<OffsetRecord>, size: nat)
    requires WindowOf(history, size) != []
    ensures var w := WindowOf(history, size);
            RunDuration(w) == history[|history| - 1].at - history[|history| - RunLength(w)].at
  {
  }

  lemma RunDurationAtMost(history: seq<OffsetRecord>, size: nat, g: nat, steps: nat)
    requires GapsAtMost(history, g)
    requires RunLength(WindowOf(history, size)) <= steps + 1
    ensures RunDuration(WindowOf(history, size)) <= steps * g
  {
    var w := WindowOf(history, size);
    if w == [] {
      MultiplyOrder(0, steps, g);
    } else {
      var run := RunLength(w);
      DurationInHistory(history, size);
      SpanAtMost(history, |history| - run, |history| - 1, g);
      MultiplyOrder(run - 1, steps, g);
    }
  }

  // ----- stopping -----

  /** Samples that share an offset show in the window's trailing run, as far as the window reaches. */
  lemma StandingRun(history: seq<OffsetRecord>, size: nat, k: nat)
    requires k <= |history| && SharesOffset(history, k)
    ensures var w := WindowOf(history, size); Min(k, |w|) <= RunLength(w)
  {
    RunLengthIsLongest(history, k);
    RunOfWindow(history, size);
  }

  lemma StandingDuration(history: seq<OffsetRecord>, size: nat, m: nat, h: int)
    requires Chronological(history) && GapsAtLeast(history, h)
    requires var w := WindowOf(history, size); w != [] && 1 <= m <= RunLength(w)
    ensures RunDuration(WindowOf(history, size)) >= (m - 1) * h
  {
    DurationInHistory(history, size);
    SpanAtLeast(history, |history| - m, |history| - 1, h);
  }

  /** A consumer that stays put for long enough, with lag left, is reported STOPPED. */
  lemma StopIsDetected(config: Config, history: seq<OffsetRecord>, k: nat, h: int)
    requires 1 <= k <= |history| && config.windowSize >= 1
    requires Chronological(history) && GapsAtLeast(history, h)
    requires SharesOffset(history, k) && history[|history| - 1].lag > 0
    requires var n := |WindowOf(history, config.windowSize)|;
             && n >= config.minWindowSize && k >= Min(5, n)
             && (Min(k, n) - 1) * h > config.inactivityTimeout
    ensures StatusAt(config, history) == Stopped
  {
    var w := WindowOf(history, config.windowSize);
    StandingRun(history, config.windowSize, k);
    StandingDuration(history, config.windowSize, Min(k, |w|), h);
    StoppedExactly(config, w);
  }

  /** When the window cannot span the timeout, STOPPED is never reported, after any history. */
  lemma StopIsUnreachable(config: Config, history: seq<OffsetRecord>, g: nat)
    requires GapsAtMost(history, g)
    requires config.windowSize >= 1 ==> (config.windowSize - 1) * g <= config.inactivityTimeout
    ensures StatusAt(config, history) != Stopped
  {
    var w := WindowOf(history, config.windowSize);
    StoppedExactly(config, w);
    if w != [] {
      RunDurationAtMost(history, config.windowSize, g, config.windowSize - 1);
    }
  }

  lemma MovingRun(config: Config, history: seq<OffsetRecord>)
    requires StatusAt(config, history) in {Active, Lagging}
    ensures var w := WindowOf(history, config.windowSize);
            |w| >= 2 && RunLength(w) < Min(5, |w|)
  {
    ActivityScansAgree(WindowOf(history, config.windowSize));
  }

  lemma RunAfterMotion(config: Config, history: seq<OffsetRecord>, record: OffsetRecord)
    requires StatusAt(config, history) in {Active, Lagging}
    ensures config.windowSize >= 2
    ensures RunLength(WindowOf(history + [record], config.windowSize)) <= Min(5, config.windowSize)
  {
    MovingRun(config, history);
    RunOfWindow(history, config.windowSize);
    RunGrowsByAtMostOne(history, record);
    RunOfWindow(history + [record], config.windowSize);
  }

  /** When four gaps, or as many as the window spans, fit in the timeout, a moving consumer never stops at once. */
  lemma NoDirectStop(config: Config, history: seq<OffsetRecord>, record: OffsetRecord, g: nat)
    requires GapsAtMost(history + [record], g)
    requires config.windowSize >= 2 ==> Min(4, config.windowSize - 1) * g <= config.inactivityTimeout
    requires StatusAt(config, history) in {Active, Lagging}
    ensures StatusAt(config, history + [record]) != Stopped
  {
    RunAfterMotion(config, history, record);
    RunDurationAtMost(history + [record], config.windowSize, g, Min(4, config.windowSize - 1));
    StoppedExactly(config, WindowOf(history + [record], config.windowSize));
  }

  // ----- progress -----

  /** Every consecutive pair moves forward in time and gains at least rate messages a second. */
  ghost predicate RatesAtLeast(records: seq<OffsetRecord>, rate: real) {
    forall i, j :: 0 <= i && j == i + 1 && j < |records| ==>
      && records[i].at < records[j].at
      && (records[j].offset - records[i].offset) as real >= rate * Seconds(records[j].at - records[i].at)
  }

  ghost predicate RatesBelow(records: seq<OffsetRecord>, rate: real) {
    forall i, j :: 0 <= i && j == i + 1 && j < |records| ==>
      && records[i].at < records[j].at
      && ((records[j].offset - records[i].offset) as real) < rate * Seconds(records[j].at - records[i].at)
  }

  lemma ScaledSum(rate: real, s: int, t: int)
    ensures rate * Seconds(s + t) == rate * Seconds(s) + rate * Seconds(t)
  {
    assert Seconds(s + t) == Seconds(s) + Seconds(t);
  }

  lemma {:induction false} GainAtLeast(records: seq<OffsetRecord>, j: nat, rate: real)
    requires j < |records| && RatesAtLeast(records, rate)
    ensures records[0].at <= records[j].at && (j > 0 ==> records[0].at < records[j].at)
    ensures (records[j].offset - records[0].offset) as real >= rate * Seconds(records[j].at - records[0].at)
  {
    if j == 0 {
      assert Seconds(0) == 0.0;
    } else {
      GainAtLeast(records, j - 1, rate);
      assert records[j - 1].at < records[j].at;
      ScaledSum(rate, records[j - 1].at - records[0].at, records[j].at - records[j - 1].at);
    }
  }

  lemma {:induction false} GainBelow(records: seq<OffsetRecord>, j: nat, rate: real)
    requires j < |records| && RatesBelow(records, rate)
    ensures records[0].at <= records[j].at && (j > 0 ==> records[0].at < records[j].at)
    ensures j > 0 ==> ((records[j].offset - records[0].offset) as real) < rate * Seconds(records[j].at - records[0].at)
  {
    if j > 0 {
      GainBelow(records, j - 1, rate);
      assert records[j - 1].at < records[j].at;
      ScaledSum(rate, records[j - 1].at - records[0].at, records[j].at - records[j - 1].at);
      assert Seconds(0) == 0.0;
    }
  }

  /** A consumer that always keeps pace is reported EMPTY, LAGGING or ACTIVE: never STALLED, never STOPPED. */
  lemma ProgressIsSound(config: Config, records: seq<OffsetRecord>, rate: real)
    requires |records| >= 2 && |records| >= config.minWindowSize
    requires rate > 0.0 && rate >= config.stalledRate && RatesAtLeast(records, rate)
    ensures StatusFor(config, records) in {Empty, Lagging, Active}
  {
    var n := |records|;
    var elapsed := records[n - 1].at - records[n - 2].at;
    assert records[n - 2].at < records[n - 1].at;
    assert rate * Seconds(elapsed) > 0.0;
    assert RunLength(records) == 1;
    ActivityScansAgree(records);
    GainAtLeast(records, n - 1, rate);
    var total := Seconds(records[n - 1].at - records[0].at);
    assert rate * total > 0.0;
    QuotientOrder((records[n - 1].offset - records[0].offset) as real, total, rate);
  }

  lemma SlowRate(gain: int, elapsed: int, rate: real)
    requires elapsed > 0 && (gain as real) < rate * Seconds(elapsed)
    ensures gain as real / Seconds(elapsed) < rate
    ensures gain == 0 ==> rate > 0.0
  {
    QuotientOrder(gain as real, Seconds(elapsed), rate);
    assert rate <= 0.0 ==> (-rate) * Seconds(elapsed) >= 0.0;
  }

  /** A consumer that never reaches the stalled rate between two samples is never reported ACTIVE or LAGGING. */
  lemma SlownessIsSound(config: Config, records: seq<OffsetRecord>)
    requires RatesBelow(records, config.stalledRate)
    ensures StatusFor(config, records) !in {Active, Lagging}
  {
    var n := |records|;
    if n >= 2 {
      GainBelow(records, n - 1, config.stalledRate);
      SlowRate(records[n - 1].offset - records[0].offset, records[n - 1].at - records[0].at, config.stalledRate);
    }
  }
}
