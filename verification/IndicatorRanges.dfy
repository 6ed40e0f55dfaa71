/** What the indicators of the analysis mean for every history: where their values can lie. */
module IndicatorRanges {
  import opened Prelude
  import opened Candles
  import opened BatchAnalysis

  lemma ShareBounds(part: real, whole: real)
    requires whole > 0.0 && 0.0 <= part <= whole
    ensures 0.0 <= part / whole <= 1.0
  {
    var share := part / whole;
    assert share * whole == part;
    assert share > 1.0 ==> (share - 1.0) * whole > 0.0;
  }

  lemma StrengthInRange(gain: real, loss: real)
    requires gain >= 0.0 && loss >= 0.0
    ensures 0.0 <= RelativeStrength(gain, loss) <= 100.0
  {
    if loss > 0.0 {
      assert gain / loss >= 0.0;
      ShareBounds(1.0, 1.0 + gain / loss);
    }
  }

  /** The relative strength index is a percentage. */
  lemma RsiInRange(v: seq<real>)
    ensures Rsi(v).Some? ==> 0.0 <= Rsi(v).value <= 100.0
  {
    if |v| >= PERIOD + 1 {
      SumNonNegative(Gains(v, PERIOD));
      SumNonNegative(Losses(v, PERIOD));
      StrengthInRange(Sum(Gains(v, PERIOD)) / 14.0, Sum(Losses(v, PERIOD)) / 14.0);
    }
  }

  lemma DirectionalInRange(range: real, plus: real, minus: real)
    requires plus >= 0.0 && minus >= 0.0
    ensures 0.0 <= DirectionalIndex(range, plus, minus) <= 100.0
  {
    if range > 0.0 {
      var p, m := 100.0 * plus / range, 100.0 * minus / range;
      assert p >= 0.0 && m >= 0.0;
      if p + m > 0.0 { ShareBounds(Abs(p - m), p + m); }
    }
  }

  /** So is the directional index, whatever the candles. */
  lemma AdxInRange(h: seq<Candle>)
    ensures Adx(h).Some? ==> 0.0 <= Adx(h).value <= 100.0
  {
    hide TrueRange, DirectionalIndex;
    if |h| >= PERIOD + 2 {
      SumNonNegative(Last(Pairwise(PlusMove, h), PERIOD));
      SumNonNegative(Last(Pairwise(MinusMove, h), PERIOD));
      DirectionalInRange(Sum(Last(Pairwise(TrueRange, h), PERIOD)), Sum(Last(Pairwise(PlusMove, h), PERIOD)),
                         Sum(Last(Pairwise(MinusMove, h), PERIOD)));
    }
  }

  lemma SmoothBetween(previous: real, item: real, period: nat, low: real, high: real)
    requires period > 0 && low <= previous <= high && low <= item <= high
    ensures low <= Smooth(previous, item, period) <= high
  {
    var k := 2.0 / (period + 1) as real;
    ShareBounds(2.0, (period + 1) as real);
    Blend(previous, item, k, low, high);
    assert Smooth(previous, item, period) == (item - previous) * k + previous;
  }

  lemma NonNegative(a: real, b: real)
    requires a >= 0.0 && b >= 0.0
    ensures a * b >= 0.0
  {
  }

  lemma Blend(previous: real, item: real, k: real, low: real, high: real)
    requires low <= previous <= high && low <= item <= high && 0.0 <= k <= 1.0
    ensures low <= (item - previous) * k + previous <= high
  {
    NonNegative(previous - low, 1.0 - k);
    NonNegative(item - low, k);
    NonNegative(high - previous, 1.0 - k);
    NonNegative(high - item, k);
    assert (previous - low) * (1.0 - k) + (item - low) * k == (item - previous) * k + previous - low;
    assert (high - previous) * (1.0 - k) + (high - item) * k == high - ((item - previous) * k + previous);
  }

  lemma {:induction false} SumBetween(v: seq<real>, low: real, high: real)
    requires forall i :: 0 <= i < |v| ==> low <= v[i] <= high
    ensures low * |v| as real <= Sum(v) <= high * |v| as real
  {
    if v != [] {
      SumBetween(v[..|v| - 1], low, high);
      assert |v| as real == |v[..|v| - 1]| as real + 1.0;
    }
  }

  /** An exponential average never leaves the range of the values it averages. */
  lemma {:induction false} EmaBetween(v: seq<real>, period: nat, low: real, high: real)
    requires 0 < period <= |v| && forall i :: 0 <= i < |v| ==> low <= v[i] <= high
    ensures low <= EmaValue(v, period) <= high
  {
    hide Smooth;
    if |v| == period {
      SumBetween(v, low, high);
      MeanBetween(Sum(v), period as real, low, high);
    } else {
      EmaBetween(v[..|v| - 1], period, low, high);
      SmoothBetween(EmaValue(v[..|v| - 1], period), v[|v| - 1], period, low, high);
    }
  }

  lemma MeanBetween(total: real, count: real, low: real, high: real)
    requires count > 0.0 && low * count <= total <= high * count
    ensures low <= total / count <= high
  {
    var mean := total / count;
    assert mean * count == total;
    assert mean < low ==> (low - mean) * count > 0.0;
    assert mean > high ==> (mean - high) * count > 0.0;
  }

  /** A trend score is a percentage. */
  lemma TrendScoreInRange(sqrt: Root, h: seq<Candle>)
    ensures 0.0 <= AnalyzeTrend(sqrt, h).score <= 100.0
  {
    hide BuildSnapshot;
  }
}
