/** What the lag trend of a window says about its lags. */
module TrendTheorems {
  import opened LagTypes
  import opened Evaluation
  import opened Arithmetic

  ghost predicate NonNegativeLags(records: seq<OffsetRecord>) {
    forall i :: 0 <= i < |records| ==> records[i].lag >= 0
  }

  function FirstThird(records: seq<OffsetRecord>): seq<OffsetRecord> {
    records[..|records| / 3]
  }

  function LastThird(records: seq<OffsetRecord>): seq<OffsetRecord> {
    records[|records| - |records| / 3..]
  }

  /** The trend read off two integer sums, without a division. */
  function TrendOfSums(threshold: real, first: int, last: int): Trend {
    if first == 0 then if last > 0 then Increasing else Stable
    else if Abs((last - first) as real) < threshold * first as real then Stable
    else if last > first then Increasing
    else Decreasing
  }

  lemma {:induction false} SumIsNonNegative(records: seq<OffsetRecord>)
    requires NonNegativeLags(records)
    ensures SumLag(records) >= 0
  {
    if records != [] {
      SumIsNonNegative(records[..|records| - 1]);
    }
  }

  lemma Reorder(q: real, x: real, m: real)
    ensures q * (x * m) == (q * x) * m
  {
  }

  lemma RelativeChange(a: real, b: real, m: real)
    requires a > 0.0 && m > 0.0
    ensures (b / m - a / m) / (a / m) == (b - a) / a
  {
    var x, y, q := a / m, b / m, (b - a) / a;
    QuotientSign(a, m);
    QuotientTimes(a, m);
    QuotientTimes(b, m);
    QuotientTimes(b - a, a);
    Reorder(q, x, m);
    assert (y - x) * m == y * m - x * m == b - a;
    CancelFactor(q * x, y - x, m);
    QuotientTimes(y - x, x);
    CancelFactor((y - x) / x, q, x);
  }

  lemma AbsOfQuotient(x: real, d: real)
    requires d > 0.0
    ensures Abs(x / d) == Abs(x) / d
  {
    QuotientOrder(x, d, 0.0);
    assert (-x) / d == -(x / d);
  }

  /** The trend as the code reads it off two averages. */
  function TrendOfAverages(threshold: real, firstAvg: real, lastAvg: real): Trend {
    if firstAvg == 0.0 && lastAvg == 0.0 then Stable
    else if firstAvg > 0.0 then
      var change := (lastAvg - firstAvg) / firstAvg;
      if Abs(change) < threshold then Stable else if change > 0.0 then Increasing else Decreasing
    else if lastAvg > 0.0 then Increasing
    else Stable
  }

  lemma TrendReadsAverages(config: Config, records: seq<OffsetRecord>)
    requires |records| >= 3
    ensures LagTrend(config, records)
         == TrendOfAverages(config.lagTrendThreshold, AverageLag(FirstThird(records)), AverageLag(LastThird(records)))
  {
  }

  lemma ChangeAgrees(threshold: real, first: int, last: int)
    requires first > 0
    ensures var change := (last as real - first as real) / first as real;
            && (Abs(change) < threshold <==> Abs((last - first) as real) < threshold * first as real)
            && (change > 0.0 <==> last > first)
  {
    var a, x := first as real, (last - first) as real;
    assert x == last as real - a;
    AbsOfQuotient(x, a);
    QuotientOrder(Abs(x), a, threshold);
    QuotientSign(x, a);
  }

  /** Dividing both sums by one positive count changes nothing. */
  lemma AveragesAgreeWithSums(threshold: real, first: int, last: int, count: int)
    requires first >= 0 && last >= 0 && count > 0
    ensures TrendOfAverages(threshold, first as real / count as real, last as real / count as real)
         == TrendOfSums(threshold, first, last)
  {
    var a, b, m := first as real, last as real, count as real;
    QuotientSign(a, m);
    QuotientSign(b, m);
    if first > 0 {
      RelativeChange(a, b, m);
      ChangeAgrees(threshold, first, last);
    }
  }

  /** With nonnegative lags the trend is decided by the lag sums of the first and last third alone. */
  lemma TrendIsDecidedBySums(config: Config, records: seq<OffsetRecord>)
    requires |records| >= 3 && NonNegativeLags(records)
    ensures LagTrend(config, records)
         == TrendOfSums(config.lagTrendThreshold, SumLag(FirstThird(records)), SumLag(LastThird(records)))
  {
    SumIsNonNegative(FirstThird(records));
    SumIsNonNegative(LastThird(records));
    TrendReadsAverages(config, records);
    AveragesAgreeWithSums(config.lagTrendThreshold, SumLag(FirstThird(records)), SumLag(LastThird(records)),
      |records| / 3);
  }

  /** The two thirds have equal size and never overlap. */
  lemma ThirdsAreDisjoint(records: seq<OffsetRecord>)
    requires |records| >= 3
    ensures |FirstThird(records)| == |LastThird(records)| >= 1
    ensures exists middle :: records == FirstThird(records) + middle + LastThird(records)
  {
    var m := |records| / 3;
    var middle := records[m..|records| - m];
    assert records == FirstThird(records) + middle + LastThird(records);
  }

  // ----- scaling -----

  function ScaleLags(records: seq<OffsetRecord>, c: int): (s: seq<OffsetRecord>)
    ensures |s| == |records|
    ensures forall i :: 0 <= i < |s| ==> s[i] == records[i].(lag := c * records[i].lag)
  {
    if records == [] then []
    else ScaleLags(records[..|records| - 1], c) + [records[|records| - 1].(lag := c * records[|records| - 1].lag)]
  }

  lemma {:induction false} SumOfScaled(records: seq<OffsetRecord>, scaled: seq<OffsetRecord>, c: int)
    requires |scaled| == |records|
    requires forall i :: 0 <= i < |records| ==> scaled[i].lag == c * records[i].lag
    ensures SumLag(scaled) == c * SumLag(records)
  {
    var n := |records|;
    if n > 0 {
      SumOfScaled(records[..n - 1], scaled[..n - 1], c);
      var rest := SumLag(records[..n - 1]);
      assert c * (rest + records[n - 1].lag) == c * rest + c * records[n - 1].lag;
    }
  }

  lemma AbsOfProduct(r: real, x: real)
    requires r > 0.0
    ensures Abs(r * x) == r * Abs(x)
  {
    if x < 0.0 {
      assert r * -x > 0.0;
    } else {
      assert r * x >= 0.0;
    }
    assert r * -x == -(r * x);
  }

  lemma ScaledBound(threshold: real, a: int, x: int, c: int)
    requires c > 0
    ensures Abs((c * x) as real) < threshold * (c * a) as real <==> Abs(x as real) < threshold * a as real
  {
    var r, t := c as real, threshold * a as real;
    assert (c * x) as real == r * x as real;
    assert threshold * (c * a) as real == t * r by {
      assert (c * a) as real == r * a as real;
    }
    AbsOfProduct(r, x as real);
    ProductOrder(Abs(x as real), t, r);
  }

  lemma TrendComparesSums(threshold: real, a: int, b: int, a': int, b': int)
    requires (a == 0 <==> a' == 0) && (b > 0 <==> b' > 0) && (b > a <==> b' > a')
    requires Abs((b - a) as real) < threshold * a as real <==> Abs((b' - a') as real) < threshold * a' as real
    ensures TrendOfSums(threshold, a, b) == TrendOfSums(threshold, a', b')
  {
  }

  lemma ScaledSumsAgree(threshold: real, a: int, b: int, c: int)
    requires c > 0
    ensures TrendOfSums(threshold, c * a, c * b) == TrendOfSums(threshold, a, b)
  {
    ScaleOrder(0, a, c);
    ScaleOrder(0, b, c);
    ScaleOrder(a, b, c);
    ScaledBound(threshold, a, b - a, c);
    assert c * (b - a) == c * b - c * a;
    TrendComparesSums(threshold, c * a, c * b, a, b);
  }

  /** Scaling every lag by one positive constant leaves the trend unchanged. */
  lemma TrendIsScaleInvariant(config: Config, records: seq<OffsetRecord>, c: int)
    requires NonNegativeLags(records) && c > 0
    ensures LagTrend(config, ScaleLags(records, c)) == LagTrend(config, records)
  {
    var scaled := ScaleLags(records, c);
    if |records| >= 3 {
      forall i | 0 <= i < |scaled| ensures scaled[i].lag >= 0 {
        assert scaled[i].lag == c * records[i].lag;
      }
      TrendIsDecidedBySums(config, records);
      TrendIsDecidedBySums(config, scaled);
      SumOfScaled(FirstThird(records), FirstThird(scaled), c);
      SumOfScaled(LastThird(records), LastThird(scaled), c);
      SumIsNonNegative(FirstThird(records));
      SumIsNonNegative(LastThird(records));
      ScaledSumsAgree(config.lagTrendThreshold, SumLag(FirstThird(records)), SumLag(LastThird(records)), c);
    }
  }

  // ----- monotone windows -----

  lemma {:induction false} SumIsMonotone(low: seq<OffsetRecord>, high: seq<OffsetRecord>)
    requires |low| == |high|
    requires forall i :: 0 <= i < |low| ==> low[i].lag <= high[i].lag
    ensures SumLag(low) <= SumLag(high)
  {
    var n := |low|;
    if n > 0 {
      SumIsMonotone(low[..n - 1], high[..n - 1]);
    }
  }

  /** A window whose lag never falls is never DECREASING, and one whose lag never rises is never INCREASING. */
  lemma TrendFollowsMonotoneLags(config: Config, records: seq<OffsetRecord>)
    requires |records| >= 3 && NonNegativeLags(records) && config.lagTrendThreshold > 0.0
    ensures (forall i, j :: 0 <= i <= j < |records| ==> records[i].lag <= records[j].lag) ==>
              LagTrend(config, records) != Decreasing
    ensures (forall i, j :: 0 <= i <= j < |records| ==> records[i].lag >= records[j].lag) ==>
              LagTrend(config, records) != Increasing
  {
    var first, last := FirstThird(records), LastThird(records);
    TrendIsDecidedBySums(config, records);
    SumIsNonNegative(first);
    SumIsNonNegative(last);
    if forall i, j :: 0 <= i <= j < |records| ==> records[i].lag <= records[j].lag {
      SumIsMonotone(first, last);
      if SumLag(first) == SumLag(last) && SumLag(first) > 0 {
        assert config.lagTrendThreshold * SumLag(first) as real > 0.0;
      }
    }
    if forall i, j :: 0 <= i <= j < |records| ==> records[i].lag >= records[j].lag {
      SumIsMonotone(last, first);
    }
  }

  /** A flat window with lag left is STABLE exactly when the threshold is positive; otherwise it reads DECREASING. */
  lemma FlatLagTrend(config: Config, records: seq<OffsetRecord>, lag: int)
    requires |records| >= 3 && lag > 0
    requires forall i :: 0 <= i < |records| ==> records[i].lag == lag
    ensures LagTrend(config, records) == if config.lagTrendThreshold > 0.0 then Stable else Decreasing
  {
    var first, last := FirstThird(records), LastThird(records);
    TrendIsDecidedBySums(config, records);
    SumIsMonotone(first, last);
    SumIsMonotone(last, first);
    SumIsNonNegative(first[..|first| - 1]);
    var t, a := config.lagTrendThreshold, SumLag(first) as real;
    assert a > 0.0;
    if t > 0.0 {
      assert t * a > 0.0;
    } else {
      assert (-t) * a >= 0.0;
    }
  }

  // ----- reversal -----

  function Reverse(records: seq<OffsetRecord>): seq<OffsetRecord> {
    seq(|records|, i requires 0 <= i < |records| => records[|records| - 1 - i])
  }

  lemma {:induction false} SumOfConcat(a: seq<OffsetRecord>, b: seq<OffsetRecord>)
    ensures SumLag(a + b) == SumLag(a) + SumLag(b)
  {
    if b == [] {
      assert a + b == a;
    } else {
      SumOfConcat(a, b[..|b| - 1]);
      assert (a + b)[..|a + b| - 1] == a + b[..|b| - 1];
    }
  }

  lemma {:induction false} SumOfReverse(records: seq<OffsetRecord>)
    ensures SumLag(Reverse(records)) == SumLag(records)
  {
    if records != [] {
      var n := |records|;
      SumOfReverse(records[..n - 1]);
      assert Reverse(records) == [records[n - 1]] + Reverse(records[..n - 1]);
      SumOfConcat([records[n - 1]], Reverse(records[..n - 1]));
      assert [records[n - 1]][..0] == [];
    }
  }

  lemma ReversedSums(t: real, a: int, b: int)
    requires t > 0.0 && a >= 0 && b >= 0
    requires TrendOfSums(t, a, b) == Decreasing
    ensures TrendOfSums(t, b, a) == Increasing
  {
    var x, y := a as real, b as real;
    assert t * x > 0.0;
    assert x - y >= t * x;
    assert t * (x - y) > 0.0;
  }

  /** Read backwards, the thirds change places. */
  lemma ReversedThirds(records: seq<OffsetRecord>)
    ensures FirstThird(Reverse(records)) == Reverse(LastThird(records))
    ensures LastThird(Reverse(records)) == Reverse(FirstThird(records))
  {
  }

  /** A DECREASING window read backwards is INCREASING. */
  lemma ReversedDecreaseIsIncrease(config: Config, records: seq<OffsetRecord>)
    requires NonNegativeLags(records) && config.lagTrendThreshold > 0.0
    requires LagTrend(config, records) == Decreasing
    ensures LagTrend(config, Reverse(records)) == Increasing
  {
    ReversedThirds(records);
    SumOfReverse(FirstThird(records));
    SumOfReverse(LastThird(records));
    TrendIsDecidedBySums(config, records);
    TrendIsDecidedBySums(config, Reverse(records));
    SumIsNonNegative(FirstThird(records));
    SumIsNonNegative(LastThird(records));
    ReversedSums(config.lagTrendThreshold, SumLag(FirstThird(records)), SumLag(LastThird(records)));
  }

  // ----- the threshold must be positive -----

  ghost predicate Rises(records: seq<OffsetRecord>) {
    forall i, j :: 0 <= i <= j < |records| ==> records[i].lag <= records[j].lag
  }

  /** No window whose lag never falls reads DECREASING. */
  ghost predicate RisingIsNeverDecreasing(config: Config) {
    forall records :: NonNegativeLags(records) && Rises(records) ==> LagTrend(config, records) != Decreasing
  }

  /** Every DECREASING window reads INCREASING backwards. */
  ghost predicate DecreasesReverse(config: Config) {
    forall records :: NonNegativeLags(records) && LagTrend(config, records) == Decreasing ==>
      LagTrend(config, Reverse(records)) == Increasing
  }

  function Flat(): seq<OffsetRecord> {
    seq(3, i => OffsetRecord(0, 1, 1, i))
  }

  lemma FlatReadsDecreasing(config: Config)
    requires config.lagTrendThreshold <= 0.0
    ensures NonNegativeLags(Flat()) && Rises(Flat())
    ensures LagTrend(config, Flat()) == Decreasing && LagTrend(config, Reverse(Flat())) == Decreasing
  {
    FlatLagTrend(config, Flat(), 1);
    FlatLagTrend(config, Reverse(Flat()), 1);
  }

  /** Both laws of the trend hold exactly for the configurations with a positive threshold. */
  lemma TrendIsSoundIff(config: Config)
    ensures RisingIsNeverDecreasing(config) <==> config.lagTrendThreshold > 0.0
    ensures DecreasesReverse(config) <==> config.lagTrendThreshold > 0.0
  {
    if config.lagTrendThreshold > 0.0 {
      forall records | NonNegativeLags(records) && Rises(records) ensures LagTrend(config, records) != Decreasing {
        if |records| >= 3 {
          TrendFollowsMonotoneLags(config, records);
        }
      }
      forall records | NonNegativeLags(records) && LagTrend(config, records) == Decreasing
        ensures LagTrend(config, Reverse(records)) == Increasing
      {
        ReversedDecreaseIsIncrease(config, records);
      }
    } else {
      FlatReadsDecreasing(config);
    }
  }
}
