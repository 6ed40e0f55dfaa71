/** The loops of the batch indicators, each proved to compute its function of BatchAnalysis. */
module BatchLoops {
  import opened Prelude
  import opened Candles
  import opened BatchAnalysis

  lemma EmaStep(v: seq<real>, period: nat, i: nat)
    requires 0 < period <= i < |v|
    ensures EmaValue(v[..i + 1], period) == Smooth(EmaValue(v[..i], period), v[i], period)
  {
    assert v[..i + 1][..i] == v[..i];
  }

  lemma EmaSeed(v: seq<real>, period: nat)
    requires 0 < period <= |v|
    ensures EmaValue(v[..period], period) == Sum(v[..period]) / period as real
  {
  }

  method ComputeEma(values: seq<real>, period: nat) returns (result: Option<real>)
    requires period > 0
    ensures result == Ema(values, period)
  {
    if |values| < period {
      return None;
    }
    var multiplier := 2.0 / (period + 1) as real;
    var current := Sum(values[..period]) / period as real;
    for i := period to |values|
      invariant current == EmaValue(values[..i], period)
    {
      EmaStep(values, period, i);
      current := (values[i] - current) * multiplier + current;
    }
    assert values[..|values|] == values;
    return Some(current);
  }

  method ComputeEmaSeries(values: seq<real>, period: nat) returns (series: seq<real>)
    requires period > 0
    ensures series == EmaSeries(values, period)
  {
    hide Smooth, Sum, EmaValue;
    if |values| < period {
      return [];
    }
    var current := Sum(values[..period]) / period as real;
    EmaSeed(values, period);
    series := [current];
    for i := period to |values|
      invariant current == EmaValue(values[..i], period)
      invariant |series| == i - period + 1
      invariant forall k :: 0 <= k < |series| ==> series[k] == EmaValue(values[..period + k], period)
    {
      EmaStep(values, period, i);
      current := Smooth(current, values[i], period);
      series := series + [current];
    }
  }

  method ComputeRsi(values: seq<real>) returns (result: Option<real>)
    ensures result == Rsi(values)
  {
    if |values| < PERIOD + 1 {
      return None;
    }
    var first := |values| - PERIOD;
    var gains, losses := [], [];
    for i := 0 to PERIOD
      invariant |gains| == |losses| == i
      invariant forall k :: 0 <= k < i ==> gains[k] == Gains(values, PERIOD)[k]
      invariant forall k :: 0 <= k < i ==> losses[k] == Losses(values, PERIOD)[k]
    {
      var change := values[first + i] - values[first + i - 1];
      gains := gains + [Max(change, 0.0)];
      losses := losses + [Max(-change, 0.0)];
    }
    assert gains == Gains(values, PERIOD) && losses == Losses(values, PERIOD);
    SumNonNegative(gains);
    SumNonNegative(losses);
    return Some(RelativeStrength(Sum(gains) / 14.0, Sum(losses) / 14.0));
  }

  method ComputeTrueRanges(h: seq<Candle>) returns (values: seq<real>)
    ensures values == TrueRanges(h)
  {
    values := [];
    var i := 1;
    while i < |h|
      invariant |values| == i - 1 && (i == 1 || i <= |h|)
      invariant forall k :: 0 <= k < |values| ==> values[k] == TrueRanges(h)[k]
    {
      values := values + [TrueRange(h[i - 1], h[i])];
      i := i + 1;
    }
  }

  lemma PairwiseShort(h: seq<Candle>)
    requires h != []
    ensures Pairwise(PlusMove, h[..1]) == Pairwise(MinusMove, h[..1]) == Pairwise(TrueRange, h[..1]) == []
  {
  }

  lemma PairwiseSnoc(f: (Candle, Candle) -> real, h: seq<Candle>, i: nat)
    requires 0 < i < |h|
    ensures Pairwise(f, h[..i + 1]) == Pairwise(f, h[..i]) + [f(h[i - 1], h[i])]
  {
  }

  /** Ranges and directional moves of all neighbours, of which the last period is used. */
  method ComputeAdx(h: seq<Candle>) returns (result: Option<real>)
    ensures result == Adx(h)
  {
    if |h| < PERIOD + 2 {
      return None;
    }
    hide PlusMove, MinusMove, TrueRange, DirectionalIndex, Sum, Pairwise, Last;
    var plus, minus, ranges := [], [], [];
    PairwiseShort(h);
    for i := 1 to |h|
      invariant plus == Pairwise(PlusMove, h[..i])
      invariant minus == Pairwise(MinusMove, h[..i])
      invariant ranges == Pairwise(TrueRange, h[..i])
    {
      plus := plus + [PlusMove(h[i - 1], h[i])];
      minus := minus + [MinusMove(h[i - 1], h[i])];
      ranges := ranges + [TrueRange(h[i - 1], h[i])];
      PairwiseSnoc(PlusMove, h, i);
      PairwiseSnoc(MinusMove, h, i);
      PairwiseSnoc(TrueRange, h, i);
    }
    assert h[..|h|] == h;
    return Some(DirectionalIndex(
        Sum(Last(ranges, PERIOD)), Sum(Last(plus, PERIOD)), Sum(Last(minus, PERIOD))));
  }

  method DetectSwings(h: seq<Candle>, pivot: nat) returns (highs: History, lows: History)
    requires pivot > 0
    ensures highs == SwingHighs(h, pivot) && lows == SwingLows(h, pivot)
  {
    hide IsSwingHigh, IsSwingLow, MaxHigh, MinLow;
    highs, lows := [], [];
    var i := pivot;
    while i < |h| - pivot
      invariant pivot <= i
      invariant i == pivot || i <= |h| - pivot
      invariant highs == HighsBefore(h, pivot, i) && lows == LowsBefore(h, pivot, i)
    {
      var current, left, right := h[i], h[i - pivot..i], h[i + 1..i + pivot + 1];
      MaximaDecide(h, pivot, i);
      if current.high > MaxHigh(left) && current.high >= MaxHigh(right) {
        highs := highs + [SwingPoint(HIGH, current.timestamp, current.high, i)];
      }
      if current.low < MinLow(left) && current.low <= MinLow(right) {
        lows := lows + [SwingPoint(LOW, current.timestamp, current.low, i)];
      }
      i := i + 1;
    }
  }

  /** The score is built up piece by piece and capped. */
  method ScoreEvidence(s: IndicatorSnapshot, direction: Direction, last: real) returns (score: real)
    ensures score == Min(60.0 + Evidence(s, direction, last), 100.0)
  {
    score := 60.0;
    var bullish := direction == BULLISH;
    if s.rsi14.Some? {
      if (bullish && s.rsi14.value >= 50.0) || (!bullish && s.rsi14.value <= 50.0) {
        score := score + 10.0;
      }
    }
    assert score == 60.0 + RsiPoints(s, bullish);
    if s.macd.histogram.Some? {
      if (bullish && s.macd.histogram.value > 0.0) || (!bullish && s.macd.histogram.value < 0.0) {
        score := score + 10.0;
      }
    }
    assert score == 60.0 + RsiPoints(s, bullish) + MacdPoints(s, bullish);
    if s.adx14.Some? {
      if s.adx14.value >= 25.0 {
        score := score + 10.0;
      } else if s.adx14.value >= 18.0 {
        score := score + 5.0;
      }
    }
    assert score == 60.0 + RsiPoints(s, bullish) + MacdPoints(s, bullish) + AdxPoints(s);
    if s.supertrend == Some(direction) {
      score := score + 5.0;
    }
    if s.vwap20.Some? {
      if (bullish && last >= s.vwap20.value) || (!bullish && last <= s.vwap20.value) {
        score := score + 5.0;
      }
    }
    score := Min(score, 100.0);
  }

  method ComputeTrend(sqrt: Root, h: seq<Candle>) returns (result: TrendResult)
    ensures result == AnalyzeTrend(sqrt, h)
  {
    hide BuildSnapshot, Evidence;
    var s := BuildSnapshot(sqrt, h);
    if h == [] {
      return TrendResult(UNKNOWN, UNKNOWN_STRENGTH, 0.0, s);
    }
    var last := h[|h| - 1].close;
    var direction := Aligned(s, last);
    if direction == UNKNOWN {
      return TrendResult(direction, UNKNOWN_STRENGTH, 0.0, s);
    }
    if direction == NEUTRAL {
      return TrendResult(direction, WEAK, 45.0, s);
    }
    var score := ScoreEvidence(s, direction, last);
    return TrendResult(direction, StrengthOf(score), score, s);
  }
}
