/** The values that flow from the collector to the evaluator and on to the event analyzer. */
module LagTypes {
  // Times and durations are integers counting nanoseconds.
  const NANOS_PER_SECOND: int := 1000000000

  datatype Status = Active | Lagging | Stalled | Stopped | Empty | UnknownStatus

  // NoTrend is the zero value of a status that never reached the trend computation.
  datatype Trend = Increasing | Decreasing | Stable | UnknownTrend | NoTrend

  datatype Health = Good | Warning | Critical

  /** One offset check. */
  datatype OffsetRecord = OffsetRecord(offset: int, highWatermark: int, lag: int, at: int)

  datatype Config = Config(
    windowSize: nat,
    minWindowSize: int,
    stalledRate: real,
    rapidLagIncreaseRate: real,
    lagTrendThreshold: real,
    inactivityTimeout: int,
    maxConcurrency: nat)

  /** The verdict on one consumer group at one partition. */
  datatype PartitionStatus = PartitionStatus(
    group: string,
    topic: string,
    partition: int,
    currentOffset: int,
    highWatermark: int,
    currentLag: int,
    lastUpdate: int,
    status: Status,
    trend: Trend,
    health: Health,
    consumptionRate: real,
    lagChangeRate: real,
    isActive: bool,
    timeSinceLastMove: int)

  function Seconds(nanos: int): real {
    nanos as real / 1000000000.0
  }

  function Min(a: int, b: int): int {
    if a < b then a else b
  }
}
