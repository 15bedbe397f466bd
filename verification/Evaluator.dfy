/** The window evaluator: what it computes, as functions of a window of offset records. */
module Evaluation {
  import opened LagTypes

  // ----- activity -----

  // The distinct offsets among the last five records.
  function RecentOffsets(records: seq<OffsetRecord>): set<int> {
    set i | |records| - Min(5, |records|) <= i < |records| :: records[i].offset
  }

  predicate IsActive(records: seq<OffsetRecord>) {
    |records| >= 2 && |RecentOffsets(records)| > 1
  }

  /** The length of the longest suffix of records that share one offset. */
  function RunLength(records: seq<OffsetRecord>): (k: nat)
    ensures k <= |records| && (records != [] ==> k >= 1)
  {
    var n := |records|;
    if n <= 1 then n
    else if records[n - 2].offset != records[n - 1].offset then 1
    else 1 + RunLength(records[..n - 1])
  }

  predicate SharesOffset(records: seq<OffsetRecord>, k: nat)
    requires k <= |records|
  {
    forall i :: |records| - k <= i < |records| ==> records[i].offset == records[|records| - 1].offset
  }

  /** How long the trailing constant-offset run has lasted. */
  function RunDuration(records: seq<OffsetRecord>): int {
    if records == [] then 0
    else records[|records| - 1].at - records[|records| - RunLength(records)].at
  }

  // ----- rates -----

  function ConsumptionRate(records: seq<OffsetRecord>): real {
    if |records| < 2 then 0.0
    else
      var first, last := records[0], records[|records| - 1];
      if first.offset == last.offset || last.at == first.at then 0.0
      else (last.offset - first.offset) as real / Seconds(last.at - first.at)
  }

  function LagChangeRate(records: seq<OffsetRecord>): real {
    if |records| < 2 then 0.0
    else
      var first, last := records[0], records[|records| - 1];
      if last.at == first.at then 0.0
      else (last.lag - first.lag) as real / Seconds(last.at - first.at)
  }

  // ----- trend -----

  function SumLag(records: seq<OffsetRecord>): int {
    if records == [] then 0 else SumLag(records[..|records| - 1]) + records[|records| - 1].lag
  }

  function AverageLag(records: seq<OffsetRecord>): real {
    if records == [] then 0.0 else SumLag(records) as real / |records| as real
  }

  function Abs(x: real): real {
    if x < 0.0 then -x else x
  }

  function LagTrend(config: Config, records: seq<OffsetRecord>): Trend {
    if |records| < 3 then UnknownTrend
    else
      var third := |records| / 3;
      var firstAvg := AverageLag(records[..third]);
      var lastAvg := AverageLag(records[|records| - third..]);
      if firstAvg == 0.0 && lastAvg == 0.0 then Stable
      else if firstAvg > 0.0 then
        var change := (lastAvg - firstAvg) / firstAvg;
        if Abs(change) < config.lagTrendThreshold then Stable
        else if change > 0.0 then Increasing
        else Decreasing
      else if lastAvg > 0.0 then Increasing
      else Stable
  }

  // ----- the verdict -----

  function StatusOf(config: Config, records: seq<OffsetRecord>): Status
    requires records != []
  {
    var lag := records[|records| - 1].lag;
    if !IsActive(records) then
      if lag == 0 then Empty
      else if RunDuration(records) > config.inactivityTimeout then Stopped
      else Stalled
    else if ConsumptionRate(records) < config.stalledRate then Stalled
    else if lag == 0 then Empty
    else if LagChangeRate(records) > config.rapidLagIncreaseRate then Lagging
    else Active
  }

  function StatusFor(config: Config, records: seq<OffsetRecord>): Status {
    if records == [] || |records| < config.minWindowSize then UnknownStatus else StatusOf(config, records)
  }

  function HealthOf(config: Config, status: Status, trend: Trend, lagChangeRate: real, lag: int): Health {
    match status
    case Stopped => Critical
    case Stalled => Critical
    case Lagging => if trend == Increasing && lagChangeRate > config.rapidLagIncreaseRate then Critical else Warning
    case Empty => if trend == Increasing && lag > 1000 then Warning else Good
    case Active => if trend == Increasing && lag > 1000 then Warning else Good
    case UnknownStatus => Warning
  }

  function Evaluate(config: Config, records: seq<OffsetRecord>, group: string, topic: string, partition: int)
    : PartitionStatus
  {
    if records == [] then
      PartitionStatus(group, topic, partition, 0, 0, 0, 0, UnknownStatus, UnknownTrend, Warning, 0.0, 0.0, false, 0)
    else
      var latest := records[|records| - 1];
      if |records| < config.minWindowSize then
        PartitionStatus(group, topic, partition, latest.offset, latest.highWatermark, latest.lag, latest.at,
          UnknownStatus, UnknownTrend, Warning, 0.0, 0.0, false, 0)
      else
        var status := StatusOf(config, records);
        var trend := LagTrend(config, records);
        var rate := LagChangeRate(records);
        PartitionStatus(group, topic, partition, latest.offset, latest.highWatermark, latest.lag, latest.at,
          status, trend, HealthOf(config, status, trend, rate, latest.lag),
          ConsumptionRate(records), rate, IsActive(records), RunDuration(records))
  }

  // ----- the two scans of a window agree -----

  /** RunLength is the longest: the last k records share an offset exactly when k does not exceed it. */
  lemma {:induction false} RunLengthIsLongest(records: seq<OffsetRecord>, k: nat)
    requires k <= |records|
    ensures SharesOffset(records, k) <==> k <= RunLength(records)
  {
    var n := |records|;
    if n <= 1 || k <= 1 {
    } else {
      var front := records[..n - 1];
      RunLengthIsLongest(front, k - 1);
      if records[n - 2].offset == records[n - 1].offset {
        if SharesOffset(front, k - 1) {
          assert forall i :: n - k <= i < n - 1 ==> records[i] == front[i];
        }
        if SharesOffset(records, k) {
          assert forall i :: n - k <= i < n - 1 ==> records[i] == front[i];
        }
      }
    }
  }

  /** Counting distinct recent offsets and walking back over the trailing run reach the same answer. */
  lemma ActivityScansAgree(records: seq<OffsetRecord>)
    ensures IsActive(records) <==> RunLength(records) < Min(5, |records|)
  {
    var n := |records|;
    var m := Min(5, n);
    RunLengthIsLongest(records, m);
    if n >= 2 {
      var last := records[n - 1].offset;
      assert last in RecentOffsets(records);
      if RunLength(records) >= m {
        assert RecentOffsets(records) == {last};
      } else {
        var i :| n - m <= i < n && records[i].offset != last;
        assert records[i].offset in RecentOffsets(records) - {last};
        assert |RecentOffsets(records)| == |RecentOffsets(records) - {last}| + 1;
      }
    }
  }

  /** STOPPED, exactly: enough data, a run that fills the recent view, lag left, and a run older than the timeout. */
  lemma StoppedExactly(config: Config, records: seq<OffsetRecord>)
    ensures StatusFor(config, records) == Stopped <==>
            && 1 <= |records| && config.minWindowSize <= |records|
            && Min(5, |records|) <= RunLength(records)
            && records[|records| - 1].lag != 0
            && RunDuration(records) > config.inactivityTimeout
  {
    ActivityScansAgree(records);
  }

  /** Every verdict ties health to status: stopped or stalled is critical, and good means active or empty. */
  lemma VerdictIsConsistent(config: Config, records: seq<OffsetRecord>, group: string, topic: string, partition: int)
    ensures var s := Evaluate(config, records, group, topic, partition);
            && s.status == StatusFor(config, records)
            && (s.status in {Stopped, Stalled} ==> s.health == Critical)
            && (s.health == Good ==> s.status in {Active, Empty})
            && (s.status == Stopped ==> s.currentLag != 0)
            && (s.status == Empty ==> s.currentLag == 0)
            && (s.status == Active ==> s.lagChangeRate <= config.rapidLagIncreaseRate && s.currentLag != 0)
            && (s.status == Lagging ==> s.lagChangeRate > config.rapidLagIncreaseRate && s.currentLag != 0)
  {
  }

  // ----- the code's methods -----

  /** The mutable status record that the evaluation steps fill in. */
  class StatusRecord {
    const currentLag: int
    var isActive: bool
    var timeSinceLastMove: int
    var consumptionRate: real
    var lagChangeRate: real
    var status: Status
    var trend: Trend
    var health: Health

    constructor (currentLag: int)
      ensures this.currentLag == currentLag
    {
      this.currentLag := currentLag;
      isActive, timeSinceLastMove, consumptionRate, lagChangeRate := false, 0, 0.0, 0.0;
      status, trend, health := UnknownStatus, NoTrend, Warning;
    }
  }

  class LagEvaluator {
    const config: Config

    constructor (config: Config)
      ensures this.config == config
    {
      this.config := config;
    }

    /** Active exactly when the trailing constant-offset run is shorter than the recent view. */
    method IsConsumerActive(records: seq<OffsetRecord>) returns (active: bool)
      ensures active <==> RunLength(records) < Min(5, |records|)
    {
      if |records| < 2 {
        return false;
      }
      var recentCount := Min(5, |records|);
      var uniqueOffsets: set<int> := {};
      for i := |records| - recentCount to |records|
        invariant uniqueOffsets == set j | |records| - recentCount <= j < i :: records[j].offset
      {
        uniqueOffsets := uniqueOffsets + {records[i].offset};
      }
      ActivityScansAgree(records);
      assert uniqueOffsets == RecentOffsets(records);
      active := |uniqueOffsets| > 1;
    }

    /** The time since the last move is the duration of the trailing constant-offset run. */
    method TimeSinceLastOffsetChange(records: seq<OffsetRecord>) returns (d: int)
      ensures d == RunDuration(records)
    {
      var n := |records|;
      if n < 2 {
        return 0;
      }
      var lastOffset := records[n - 1].offset;
      var i := n - 2;
      while i >= 0
        invariant -1 <= i <= n - 2
        invariant SharesOffset(records, n - 1 - i)
      {
        RunLengthIsLongest(records, n - 1 - i);
        if records[i].offset != lastOffset {
          RunLengthIsLongest(records, n - i);
          return records[n - 1].at - records[i + 1].at;
        }
        i := i - 1;
      }
      RunLengthIsLongest(records, n);
      d := records[n - 1].at - records[0].at;
    }

    method AverageLagOf(records: seq<OffsetRecord>) returns (avg: real)
      ensures records == [] ==> avg == 0.0
      ensures records != [] ==> avg * |records| as real == SumLag(records) as real
      ensures avg == AverageLag(records)
    {
      if |records| == 0 {
        return 0.0;
      }
      var sum := 0;
      for i := 0 to |records|
        invariant sum == SumLag(records[..i])
      {
        assert records[..i + 1][..i] == records[..i];
        sum := sum + records[i].lag;
      }
      assert records[..|records|] == records;
      avg := sum as real / |records| as real;
    }

    method CalculateLagTrend(records: seq<OffsetRecord>) returns (trend: Trend)
      ensures trend == LagTrend(config, records)
    {
      if |records| < 3 {
        return UnknownTrend;
      }
      var third := |records| / 3;
      if third == 0 {
        third := 1;
      }
      var firstAvg := AverageLagOf(records[..third]);
      var lastAvg := AverageLagOf(records[|records| - third..]);
      if firstAvg == 0.0 && lastAvg == 0.0 {
        return Stable;
      }
      var change: real;
      if firstAvg > 0.0 {
        change := (lastAvg - firstAvg) / firstAvg;
      } else {
        return if lastAvg > 0.0 then Increasing else Stable;
      }
      trend := if Abs(change) < config.lagTrendThreshold then Stable
               else if change > 0.0 then Increasing
               else Decreasing;
    }

    method CalculateMetrics(result: StatusRecord, records: seq<OffsetRecord>)
      modifies result
      ensures result.isActive == (RunLength(records) < Min(5, |records|))
      ensures result.timeSinceLastMove == RunDuration(records)
      ensures result.consumptionRate == ConsumptionRate(records)
      ensures result.lagChangeRate == LagChangeRate(records)
    {
      result.isActive := IsConsumerActive(records);
      result.timeSinceLastMove := TimeSinceLastOffsetChange(records);
      result.consumptionRate := ConsumptionRate(records);
      result.lagChangeRate := LagChangeRate(records);
    }

    method DetermineStatus(result: StatusRecord, ghost records: seq<OffsetRecord>)
      requires records != [] && result.currentLag == records[|records| - 1].lag
      requires result.isActive == IsActive(records) && result.timeSinceLastMove == RunDuration(records)
      requires result.consumptionRate == ConsumptionRate(records) && result.lagChangeRate == LagChangeRate(records)
      modifies result`status
      ensures result.status == StatusOf(config, records)
    {
      if !result.isActive {
        if result.currentLag == 0 {
          result.status := Empty;
        } else if result.timeSinceLastMove > config.inactivityTimeout {
          result.status := Stopped;
        } else {
          result.status := Stalled;
        }
        return;
      }
      if result.consumptionRate < config.stalledRate {
        result.status := Stalled;
        return;
      }
      if result.currentLag == 0 {
        result.status := Empty;
        return;
      }
      if result.lagChangeRate > config.rapidLagIncreaseRate {
        result.status := Lagging;
        return;
      }
      result.status := Active;
    }

    method DetermineTrend(result: StatusRecord, records: seq<OffsetRecord>)
      modifies result`trend
      ensures result.trend == LagTrend(config, records)
    {
      if |records| < 3 {
        result.trend := UnknownTrend;
        return;
      }
      result.trend := CalculateLagTrend(records);
    }

    method DetermineHealth(result: StatusRecord)
      modifies result`health
      ensures result.health == HealthOf(config, result.status, result.trend, result.lagChangeRate, result.currentLag)
    {
      match result.status {
        case Stopped | Stalled =>
          result.health := Critical;
        case Lagging =>
          if result.trend == Increasing && result.lagChangeRate > config.rapidLagIncreaseRate {
            result.health := Critical;
          } else {
            result.health := Warning;
          }
        case Empty | Active =>
          if result.trend == Increasing && result.currentLag > 1000 {
            result.health := Warning;
          } else {
            result.health := Good;
          }
        case UnknownStatus =>
          result.health := Warning;
      }
    }

    method EvaluatePartitionConsumer(records: seq<OffsetRecord>, group: string, topic: string, partition: int)
      returns (s: PartitionStatus)
      ensures s == Evaluate(config, records, group, topic, partition)
    {
      if |records| == 0 {
        return PartitionStatus(group, topic, partition, 0, 0, 0, 0,
            UnknownStatus, UnknownTrend, Warning, 0.0, 0.0, false, 0);
      }
      var latest := records[|records| - 1];
      var result := new StatusRecord(latest.lag);
      if |records| < config.minWindowSize {
        return PartitionStatus(group, topic, partition, latest.offset, latest.highWatermark, latest.lag, latest.at,
            UnknownStatus, UnknownTrend, Warning, 0.0, 0.0, false, 0);
      }
      CalculateMetrics(result, records);
      ActivityScansAgree(records);
      DetermineStatus(result, records);
      DetermineTrend(result, records);
      DetermineHealth(result);
      s := PartitionStatus(group, topic, partition, latest.offset, latest.highWatermark, latest.lag, latest.at,
        result.status, result.trend, result.health, result.consumptionRate, result.lagChangeRate,
        result.isActive, result.timeSinceLastMove);
    }
  }
}
