/** What each status, health and measure of a verdict says about the window, in terms of its records alone. */
module VerdictTheorems {
  import opened LagTypes
  import opened Evaluation
  import opened Arithmetic

  /** The trailing run of one offset is shorter than the recent view. */
  predicate Moving(w: seq<OffsetRecord>) {
    RunLength(w) < Min(5, |w|)
  }

  /** From the first record to the last, at least the stalled rate is consumed. */
  predicate KeepsPace(config: Config, w: seq<OffsetRecord>)
    requires w != []
  {
    var gain, nanos := w[|w| - 1].offset - w[0].offset, w[|w| - 1].at - w[0].at;
    if nanos == 0 then config.stalledRate <= 0.0
    else gain as real >= config.stalledRate * (nanos as real / 1000000000.0)
  }

  /** From the first record to the last, the lag grows by more than the given rate. */
  predicate LagGrowsBy(w: seq<OffsetRecord>, rate: real)
    requires w != []
  {
    var growth, nanos := w[|w| - 1].lag - w[0].lag, w[|w| - 1].at - w[0].at;
    if nanos == 0 then rate < 0.0
    else growth as real > rate * (nanos as real / 1000000000.0)
  }

  lemma PaceIsRate(config: Config, w: seq<OffsetRecord>)
    requires w != [] && w[0].at <= w[|w| - 1].at
    ensures ConsumptionRate(w) >= config.stalledRate <==> KeepsPace(config, w)
  {
    var gain, nanos := w[|w| - 1].offset - w[0].offset, w[|w| - 1].at - w[0].at;
    if nanos > 0 {
      QuotientOrder(gain as real, nanos as real / 1000000000.0, config.stalledRate);
      QuotientSign(gain as real, nanos as real / 1000000000.0);
    }
  }

  lemma GrowthIsRate(w: seq<OffsetRecord>, rate: real)
    requires w != [] && w[0].at <= w[|w| - 1].at
    ensures LagChangeRate(w) > rate <==> LagGrowsBy(w, rate)
  {
    var growth, nanos := w[|w| - 1].lag - w[0].lag, w[|w| - 1].at - w[0].at;
    if nanos > 0 {
      QuotientOrder(growth as real, nanos as real / 1000000000.0, rate);
    }
  }

  /** Every status, exactly, on every window whose clock does not run backwards. */
  lemma StatusExactly(config: Config, w: seq<OffsetRecord>)
    requires w != [] && w[0].at <= w[|w| - 1].at
    ensures var n, lag, status := |w|, w[|w| - 1].lag, StatusFor(config, w);
            var enough, standing := config.minWindowSize <= n, w[n - 1].at - w[n - RunLength(w)].at;
            && (status == UnknownStatus <==> !enough)
            && (status == Stopped <==> enough && !Moving(w) && lag != 0 && standing > config.inactivityTimeout)
            && (status == Stalled <==>
                  && enough
                  && (if Moving(w) then !KeepsPace(config, w)
                      else lag != 0 && standing <= config.inactivityTimeout))
            && (status == Empty <==> enough && lag == 0 && (!Moving(w) || KeepsPace(config, w)))
            && (status == Lagging <==>
                  && enough && Moving(w) && KeepsPace(config, w) && lag != 0
                  && LagGrowsBy(w, config.rapidLagIncreaseRate))
            && (status == Active <==>
                  && enough && Moving(w) && KeepsPace(config, w) && lag != 0
                  && !LagGrowsBy(w, config.rapidLagIncreaseRate))
  {
    ActivityScansAgree(w);
    PaceIsRate(config, w);
    GrowthIsRate(w, config.rapidLagIncreaseRate);
  }

  /** Every health, exactly. */
  lemma HealthExactly(config: Config, w: seq<OffsetRecord>, group: string, topic: string, partition: int)
    ensures var s := Evaluate(config, w, group, topic, partition);
            var rising := s.trend == Increasing;
            && (s.health == Critical <==> s.status in {Stopped, Stalled} || (s.status == Lagging && rising))
            && (s.health == Warning <==>
                  || s.status == UnknownStatus || (s.status == Lagging && !rising)
                  || (s.status in {Active, Empty} && rising && s.currentLag > 1000))
            && (s.health == Good <==> s.status in {Active, Empty} && !(rising && s.currentLag > 1000))
  {
    VerdictIsConsistent(config, w, group, topic, partition);
  }

  /** A verdict names what it is about and reports the newest record. */
  lemma VerdictReportsNewest(config: Config, w: seq<OffsetRecord>, group: string, topic: string, partition: int)
    requires w != []
    ensures var s, last := Evaluate(config, w, group, topic, partition), w[|w| - 1];
            && s.group == group && s.topic == topic && s.partition == partition
            && s.currentOffset == last.offset && s.highWatermark == last.highWatermark
            && s.currentLag == last.lag && s.lastUpdate == last.at
  {
  }

  /** The two rates are what is gained from the first record to the last over the seconds between them. */
  lemma RatesMeasure(w: seq<OffsetRecord>)
    requires w != [] && w[0].at <= w[|w| - 1].at
    ensures var first, last := w[0], w[|w| - 1];
            var seconds := (last.at - first.at) as real / 1000000000.0;
            if last.at == first.at then ConsumptionRate(w) == LagChangeRate(w) == 0.0
            else
              && ConsumptionRate(w) * seconds == (last.offset - first.offset) as real
              && LagChangeRate(w) * seconds == (last.lag - first.lag) as real
  {
    var n := |w|;
    if w[n - 1].at > w[0].at {
      var seconds := (w[n - 1].at - w[0].at) as real / 1000000000.0;
      QuotientTimes((w[n - 1].offset - w[0].offset) as real, seconds);
      QuotientTimes((w[n - 1].lag - w[0].lag) as real, seconds);
    }
  }

  /** A trend needs three records. */
  lemma TrendUnknownIff(config: Config, w: seq<OffsetRecord>)
    ensures LagTrend(config, w) == UnknownTrend <==> |w| < 3
  {
  }

  /** With enough records the verdict reports what the window measures; with fewer it measures nothing. */
  lemma VerdictMeasures(config: Config, w: seq<OffsetRecord>, group: string, topic: string, partition: int)
    requires w != []
    ensures var s := Evaluate(config, w, group, topic, partition);
            if |w| < config.minWindowSize then
              && s.trend == UnknownTrend && !s.isActive && s.timeSinceLastMove == 0
              && s.consumptionRate == s.lagChangeRate == 0.0
            else
              && (s.isActive <==> Moving(w)) && s.timeSinceLastMove == w[|w| - 1].at - w[|w| - RunLength(w)].at
              && s.consumptionRate == ConsumptionRate(w) && s.lagChangeRate == LagChangeRate(w)
              && s.trend == LagTrend(config, w)
  {
    ActivityScansAgree(w);
  }

  /** No records, no verdict. */
  lemma NothingToJudge(config: Config, group: string, topic: string, partition: int)
    ensures var s := Evaluate(config, [], group, topic, partition);
            && s.group == group && s.topic == topic && s.partition == partition
            && s.status == UnknownStatus && s.trend == UnknownTrend && s.health == Warning
            && s.currentOffset == s.highWatermark == s.currentLag == s.lastUpdate == s.timeSinceLastMove == 0
            && s.consumptionRate == s.lagChangeRate == 0.0 && !s.isActive
  {
  }
}
