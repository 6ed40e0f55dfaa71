/** The quality check every candle series passes: its shape and its contiguity. */
module CandleQuality {
  import opened Prelude
  import opened Candles

  predicate Shaped(c: Candle)
  {
    c.low <= c.open <= c.high && c.low <= c.close <= c.high && c.volume >= 0.0
  }

  /** Candles of one timeframe, one step apart, each with a possible OHLCV. */
  predicate ValidSeries(candles: seq<Candle>, frame: Timeframe)
  {
    && candles != []
    && (forall i :: 0 <= i < |candles| ==> candles[i].timeframe == frame && Shaped(candles[i]))
    && Contiguous(candles, frame.Seconds())
  }

  predicate Contiguous(candles: seq<Candle>, step: int)
  {
    forall i :: 0 < i < |candles| ==> candles[i].timestamp == candles[i - 1].timestamp + step
  }

  datatype Defect =
    | NoCandles | UnexpectedTimeframe | HighBelowLow | OpenOutside | CloseOutside | NegativeVolume
    | NotChronological | Gap | TooClose

  /** All defects, in the order they are met; none exactly for a valid series. */
  method ValidateCandles(candles: seq<Candle>, frame: Timeframe) returns (reasons: seq<Defect>)
    ensures reasons == [] <==> ValidSeries(candles, frame)
  {
    if candles == [] { return [NoCandles]; }
    reasons := [];
    var i := 0;
    while i < |candles|
      invariant 0 <= i <= |candles|
      invariant reasons == [] <==>
        (forall k :: 0 <= k < i ==> candles[k].timeframe == frame && Shaped(candles[k]))
        && (forall k :: 0 < k < i ==> candles[k].timestamp == candles[k - 1].timestamp + frame.Seconds())
    {
      var c := candles[i];
      var before := reasons;
      if c.timeframe != frame { reasons := reasons + [UnexpectedTimeframe]; }
      if c.high < c.low { reasons := reasons + [HighBelowLow]; }
      if c.open < c.low || c.open > c.high { reasons := reasons + [OpenOutside]; }
      if c.close < c.low || c.close > c.high { reasons := reasons + [CloseOutside]; }
      if c.volume < 0.0 { reasons := reasons + [NegativeVolume]; }
      assert reasons == before <==> c.timeframe == frame && Shaped(c);
      if i > 0 {
        var delta := c.timestamp - candles[i - 1].timestamp;
        if delta <= 0 { reasons := reasons + [NotChronological]; }
        else if delta > frame.Seconds() { reasons := reasons + [Gap]; }
        else if delta < frame.Seconds() { reasons := reasons + [TooClose]; }
      }
      i := i + 1;
    }
  }

  /** In a contiguous series the k-th candle is k steps after the first. */
  lemma {:induction false} ContiguousAt(candles: seq<Candle>, step: int, k: nat)
    requires Contiguous(candles, step) && k < |candles|
    ensures candles[k].timestamp == candles[0].timestamp + step * k
  {
    if k > 0 { ContiguousAt(candles, step, k - 1); }
  }

  lemma ContiguousConcat(a: seq<Candle>, b: seq<Candle>, step: int)
    requires Contiguous(a, step) && Contiguous(b, step) && a != [] && b != []
    requires b[0].timestamp == a[|a| - 1].timestamp + step
    ensures Contiguous(a + b, step)
  {
  }
}
