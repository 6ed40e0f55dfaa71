/** What the fields of a market snapshot mean: its indicators, trend, structure, liquidity, regime and score. */
module SnapshotMeaning {
  import opened Prelude
  import opened Candles
  import opened BatchAnalysis
  import opened AnalysisMeaning

  // --------------------------------------------------------------------- the indicators

  /** Every indicator of a snapshot is the one its name says. */
  lemma IndicatorsSay(sqrt: Root, symbol: string, timeframe: Timeframe, h: seq<Candle>)
    ensures var i := Analyze(sqrt, symbol, timeframe, h).indicators;
      && i.ema20 == (if |h| >= 20 then Some(MeanClose(h, 20, |h|)) else None)
      && i.ema50 == (if |h| >= 50 then Some(MeanClose(h, 50, |h|)) else None)
      && i.ema200 == (if |h| >= 200 then Some(MeanClose(h, 200, |h|)) else None)
      && i.rsi14 == Rsi(Closes(h)) && i.atr14 == Atr(h) && i.volumeSma20 == VolumeAverage(h)
      && i.sma50 == Sma(Closes(h), 50) && i.macd == Macd(Closes(h)) && i.adx14 == Adx(h)
      && i.supertrend == Supertrend(h) && i.vwap20 == Vwap(h) && i.bollinger == Bollinger(sqrt, Closes(h))
  {
    EmaOfCloses(h, 20);
    EmaOfCloses(h, 50);
    EmaOfCloses(h, 200);
    hide Ema, MeanClose, AnalyzeTrend, AnalyzeStructure, AnalyzeAdvanced, AnalyzeLiquidity, ClassifyRegime, Rsi, Atr,
      VolumeAverage, Sma, Macd, Adx, Supertrend, Vwap, Bollinger, Closes;
  }

  // -------------------------------------------------------------------------- the trend

  function Points(found: bool, points: real): real { if found then points else 0.0 }

  /** The criteria for a direction, as points. */
  function Found(i: IndicatorSnapshot, bullish: bool, last: real): real
  {
    Points(i.rsi14.Some? && (if bullish then i.rsi14.value >= 50.0 else i.rsi14.value <= 50.0), 10.0)
    + Points(i.macd.histogram.Some?
             && (if bullish then i.macd.histogram.value > 0.0 else i.macd.histogram.value < 0.0), 10.0)
    + Points(i.adx14.Some? && i.adx14.value >= 18.0, 5.0) + Points(i.adx14.Some? && i.adx14.value >= 25.0, 5.0)
    + Points(i.supertrend == Some(if bullish then BULLISH else BEARISH), 5.0)
    + Points(i.vwap20.Some? && (if bullish then last >= i.vwap20.value else last <= i.vwap20.value), 5.0)
  }

  lemma EvidenceIs(i: IndicatorSnapshot, bullish: bool, last: real)
    ensures Evidence(i, if bullish then BULLISH else BEARISH, last) == Found(i, bullish, last)
    ensures 0.0 <= Found(i, bullish, last) <= 40.0
  {
  }

  lemma TrendOfSays(i: IndicatorSnapshot, last: real)
    ensures var t := TrendOf(i, last);
      && t.indicators == i && t.direction == Aligned(i, last)
      && (t.direction == BULLISH ==> t.score == 60.0 + Found(i, true, last))
      && (t.direction == BEARISH ==> t.score == 60.0 + Found(i, false, last))
      && (t.direction == NEUTRAL ==> t.score == 45.0) && (t.direction == UNKNOWN ==> t.score == 0.0)
      && t.strength == (if t.direction == UNKNOWN then UNKNOWN_STRENGTH
                        else if t.score >= 85.0 then STRONG else if t.score >= 65.0 then MODERATE else WEAK)
  {
    hide Evidence, Found;
    EvidenceIs(i, true, last);
    EvidenceIs(i, false, last);
  }

  /**
   * The trend: unknown before the 200th candle; up when the close stands above the three averages in falling
   * order, down in the mirror case, and neutral otherwise.  A direction starts at 60 points, and what is
   * found for it adds its own; the strength follows the score.
   */
  lemma TrendSays(sqrt: Root, symbol: string, timeframe: Timeframe, h: seq<Candle>)
    ensures var s := Analyze(sqrt, symbol, timeframe, h);
      var (t, i) := (s.trend, s.indicators);
      && t.indicators == i && (t.direction == UNKNOWN <==> |h| < 200)
      && (|h| >= 200 ==>
            var (last, fast, middle, slow) :=
              (h[|h| - 1].close, MeanClose(h, 20, |h|), MeanClose(h, 50, |h|), MeanClose(h, 200, |h|));
            && t.direction == (if last > fast && fast > middle && middle > slow then BULLISH
                               else if last < fast && fast < middle && middle < slow then BEARISH else NEUTRAL)
            && (t.direction == BULLISH ==> t.score == 60.0 + Found(i, true, last))
            && (t.direction == BEARISH ==> t.score == 60.0 + Found(i, false, last)))
      && (t.direction == NEUTRAL ==> t.score == 45.0) && (t.direction == UNKNOWN ==> t.score == 0.0)
      && t.strength == (if t.direction == UNKNOWN then UNKNOWN_STRENGTH
                        else if t.score >= 85.0 then STRONG else if t.score >= 65.0 then MODERATE else WEAK)
  {
    IndicatorsSay(sqrt, symbol, timeframe, h);
    hide BuildSnapshot, MeanClose, AnalyzeStructure, AnalyzeAdvanced, AnalyzeLiquidity, ClassifyRegime, Found, TrendOf;
    var i := BuildSnapshot(sqrt, h);
    if h != [] { TrendOfSays(i, h[|h| - 1].close); }
  }

  // ------------------------------------------------------------------------- the swings

  /** Candle i is higher than the two before it and not lower than the two after it. */
  ghost predicate Peak(h: seq<Candle>, i: int)
  {
    2 <= i < |h| - 2
    && h[i].high > h[i - 1].high && h[i].high > h[i - 2].high
    && h[i].high >= h[i + 1].high && h[i].high >= h[i + 2].high
  }

  ghost predicate Trough(h: seq<Candle>, i: int)
  {
    2 <= i < |h| - 2
    && h[i].low < h[i - 1].low && h[i].low < h[i - 2].low
    && h[i].low <= h[i + 1].low && h[i].low <= h[i + 2].low
  }

  lemma PeaksAreSwings(h: seq<Candle>, i: nat)
    requires 2 <= i && i + 2 < |h|
    ensures IsSwingHigh(h, 2, i) <==> Peak(h, i)
    ensures IsSwingLow(h, 2, i) <==> Trough(h, i)
  {
    if Peak(h, i) {
      forall j | i - 2 <= j < i ensures h[j].high < h[i].high { assert j == i - 1 || j == i - 2; }
      forall j | i < j <= i + 2 ensures h[j].high <= h[i].high { assert j == i + 1 || j == i + 2; }
    }
    if Trough(h, i) {
      forall j | i - 2 <= j < i ensures h[j].low > h[i].low { assert j == i - 1 || j == i - 2; }
      forall j | i < j <= i + 2 ensures h[j].low >= h[i].low { assert j == i + 1 || j == i + 2; }
    }
  }

  /** The points of the list are peaks of the history, in order, with the price of their candle. */
  ghost predicate PeaksOf(h: seq<Candle>, n: int, points: History)
  {
    && (forall k :: 0 <= k < |points| ==>
          var p := points[k];
          p.index < n && Peak(h, p.index) && p == SwingPoint(HIGH, h[p.index].timestamp, h[p.index].high, p.index))
    && (forall k, l :: 0 <= k < l < |points| ==> points[k].index < points[l].index)
    && (forall i :: i < n && Peak(h, i) ==> exists k :: 0 <= k < |points| && points[k].index == i)
  }

  ghost predicate TroughsOf(h: seq<Candle>, n: int, points: History)
  {
    && (forall k :: 0 <= k < |points| ==>
          var p := points[k];
          p.index < n && Trough(h, p.index) && p == SwingPoint(LOW, h[p.index].timestamp, h[p.index].low, p.index))
    && (forall k, l :: 0 <= k < l < |points| ==> points[k].index < points[l].index)
    && (forall i :: i < n && Trough(h, i) ==> exists k :: 0 <= k < |points| && points[k].index == i)
  }

  lemma OneMorePeak(h: seq<Candle>, n: nat, before: History, after: History)
    requires n > 0 && PeaksOf(h, n - 1, before)
    requires Peak(h, n - 1) ==> after == before + [SwingPoint(HIGH, h[n - 1].timestamp, h[n - 1].high, n - 1)]
    requires !Peak(h, n - 1) ==> after == before
    ensures PeaksOf(h, n, after)
  {
    hide Peak;
    forall i | i < n && Peak(h, i) ensures exists k :: 0 <= k < |after| && after[k].index == i {
      if i < n - 1 {
        var k :| 0 <= k < |before| && before[k].index == i;
        assert after[k].index == i;
      } else {
        assert after[|before|].index == i;
      }
    }
  }

  lemma OneMoreTrough(h: seq<Candle>, n: nat, before: History, after: History)
    requires n > 0 && TroughsOf(h, n - 1, before)
    requires Trough(h, n - 1) ==> after == before + [SwingPoint(LOW, h[n - 1].timestamp, h[n - 1].low, n - 1)]
    requires !Trough(h, n - 1) ==> after == before
    ensures TroughsOf(h, n, after)
  {
    hide Trough;
    forall i | i < n && Trough(h, i) ensures exists k :: 0 <= k < |after| && after[k].index == i {
      if i < n - 1 {
        var k :| 0 <= k < |before| && before[k].index == i;
        assert after[k].index == i;
      } else {
        assert after[|before|].index == i;
      }
    }
  }

  lemma {:induction false} SwingsBefore(h: seq<Candle>, n: nat)
    requires n <= 2 || n + 2 <= |h|
    ensures PeaksOf(h, n, HighsBefore(h, 2, n)) && TroughsOf(h, n, LowsBefore(h, 2, n))
  {
    hide PeaksOf, TroughsOf, IsSwingHigh, IsSwingLow;
    if n <= 2 {
      NoSwings(h, n);
    } else {
      SwingsBefore(h, n - 1);
      PeaksAreSwings(h, n - 1);
      hide Peak, Trough;
      assert HighsBefore(h, 2, n - 1) + [] == HighsBefore(h, 2, n - 1);
      assert LowsBefore(h, 2, n - 1) + [] == LowsBefore(h, 2, n - 1);
      OneMorePeak(h, n, HighsBefore(h, 2, n - 1), HighsBefore(h, 2, n));
      OneMoreTrough(h, n, LowsBefore(h, 2, n - 1), LowsBefore(h, 2, n));
    }
  }

  lemma NoSwings(h: seq<Candle>, n: nat)
    requires n <= 2
    ensures PeaksOf(h, n, []) && TroughsOf(h, n, [])
  {
  }

  /** The swings of a history are exactly its peaks and troughs. */
  lemma SwingsSay(h: seq<Candle>)
    ensures PeaksOf(h, |h|, SwingHighs(h, 2)) && TroughsOf(h, |h|, SwingLows(h, 2))
  {
    var n := Confirmed(h, 2);
    SwingsBefore(h, n);
    var highs, lows := SwingHighs(h, 2), SwingLows(h, 2);
    assert forall i :: Peak(h, i) || Trough(h, i) ==> i < n;
    hide Peak, Trough;
  }

  // ---------------------------------------------------------------------- the structure

  /** Peak i is the latest of the history, and peak j, if there is one, the latest before it. */
  ghost predicate LatestPeaks(h: seq<Candle>, i: int, j: Option<int>)
  {
    && Peak(h, i) && (forall k :: i < k ==> !Peak(h, k))
    && (j.Some? ==> j.value < i && Peak(h, j.value) && forall k :: j.value < k < i ==> !Peak(h, k))
    && (j.None? ==> forall k :: k < i ==> !Peak(h, k))
  }

  ghost predicate LatestTroughs(h: seq<Candle>, i: int, j: Option<int>)
  {
    && Trough(h, i) && (forall k :: i < k ==> !Trough(h, k))
    && (j.Some? ==> j.value < i && Trough(h, j.value) && forall k :: j.value < k < i ==> !Trough(h, k))
    && (j.None? ==> forall k :: k < i ==> !Trough(h, k))
  }

  lemma LatestHighs(h: seq<Candle>, points: History, i: int, j: Option<int>)
    requires PeaksOf(h, |h|, points) && LatestPeaks(h, i, j)
    ensures points != [] && points[|points| - 1] == SwingPoint(HIGH, h[i].timestamp, h[i].high, i)
    ensures |points| >= 2 <==> j.Some?
    ensures j.Some? ==> points[|points| - 2].price == h[j.value].high
  {
    assert i < |h|;
    var k :| 0 <= k < |points| && points[k].index == i;
    hide Peak;
    var last := points[|points| - 1].index;
    assert last == i;
    assert |points| >= 2 ==> Peak(h, points[|points| - 2].index);
    if j.Some? {
      assert j.value < |h| && Peak(h, j.value);
      var l :| 0 <= l < |points| && points[l].index == j.value;
      assert l < |points| - 1;
      var second := points[|points| - 2].index;
      assert j.value <= second < i;
      assert second == j.value;
    }
  }

  lemma LatestLows(h: seq<Candle>, points: History, i: int, j: Option<int>)
    requires TroughsOf(h, |h|, points) && LatestTroughs(h, i, j)
    ensures points != [] && points[|points| - 1] == SwingPoint(LOW, h[i].timestamp, h[i].low, i)
    ensures |points| >= 2 <==> j.Some?
    ensures j.Some? ==> points[|points| - 2].price == h[j.value].low
  {
    assert i < |h|;
    var k :| 0 <= k < |points| && points[k].index == i;
    hide Trough;
    var last := points[|points| - 1].index;
    assert last == i;
    assert |points| >= 2 ==> Trough(h, points[|points| - 2].index);
    if j.Some? {
      assert j.value < |h| && Trough(h, j.value);
      var l :| 0 <= l < |points| && points[l].index == j.value;
      assert l < |points| - 1;
      var second := points[|points| - 2].index;
      assert j.value <= second < i;
      assert second == j.value;
    }
  }

  /** Rising when both latest swings are above those before them, falling when both are below. */
  ghost function SwingTrend(h: seq<Candle>, peak: int, peak2: Option<int>, trough: int, trough2: Option<int>): Direction
    requires 0 <= peak < |h| && 0 <= trough < |h|
    requires (peak2.Some? ==> 0 <= peak2.value < |h|) && (trough2.Some? ==> 0 <= trough2.value < |h|)
  {
    if peak2.None? || trough2.None? then UNKNOWN
    else if h[peak].high > h[peak2.value].high && h[trough].low > h[trough2.value].low then BULLISH
    else if h[peak].high < h[peak2.value].high && h[trough].low < h[trough2.value].low then BEARISH
    else TRANSITION
  }

  /**
   * The structure in terms of the candles.  Support is the low of the latest trough and resistance the high
   * of the latest peak; a break exists exactly when the last close lies outside the two, upwards exactly
   * above the resistance, and it continues the structure exactly when it goes with the swings' direction.
   */
  lemma StructureSays(
    h: seq<Candle>, peak: int, peak2: Option<int>, trough: int, trough2: Option<int>)
    requires LatestPeaks(h, peak, peak2) && LatestTroughs(h, trough, trough2)
    ensures var a := AnalyzeAdvanced(h, 2);
      var (last, trend) := (h[|h| - 1], SwingTrend(h, peak, peak2, trough, trough2));
      && a.trend == trend && a.support == Some(h[trough].low) && a.resistance == Some(h[peak].high)
      && (a.lastBreak.Some? <==> last.close > h[peak].high || last.close < h[trough].low)
      && (a.lastBreak.Some? ==>
            var b := a.lastBreak.value;
            && (b.up <==> last.close > h[peak].high) && b.timestamp == last.timestamp && b.kind == a.structure
            && b.level == (if b.up then h[peak].high else h[trough].low)
            && b.kind == (if trend == (if b.up then BULLISH else BEARISH) then BOS else CHOCH)
            && a.score == (if b.kind == BOS then 90.0 else 85.0))
      && (a.lastBreak.None? ==>
            && (a.structure == HIGHER_HIGH_HIGHER_LOW <==> trend == BULLISH)
            && (a.structure == LOWER_HIGH_LOWER_LOW <==> trend == BEARISH)
            && (a.structure == IN_TRANSITION <==> trend in {UNKNOWN, TRANSITION})
            && a.score == (if trend in {BULLISH, BEARISH} then 70.0 else 50.0))
  {
    assert 2 <= peak < |h| && 2 <= trough < |h|;
    SwingsSay(h);
    var highs, lows := SwingHighs(h, 2), SwingLows(h, 2);
    LatestHighs(h, highs, peak, peak2);
    LatestLows(h, lows, trough, trough2);
    hide SwingHighs, SwingLows, LatestPeaks, LatestTroughs, PeaksOf, TroughsOf, Peak, Trough;
    assert AnalyzeAdvanced(h, 2) == AdvancedOf(highs, lows, highs, lows, h[|h| - 1]);
  }

  /** Without a peak or without a trough there is no structure; what there is of the two is still reported. */
  lemma NoStructureSays(h: seq<Candle>, peak: int, peak2: Option<int>, trough: int, trough2: Option<int>)
    requires (forall i :: !Peak(h, i)) || (forall i :: !Trough(h, i))
    ensures var a := AnalyzeAdvanced(h, 2);
      && a.structure == NO_STRUCTURE && a.lastBreak == None && a.score == 0.0 && a.trend == UNKNOWN
      && ((forall i :: !Peak(h, i)) ==> a.resistance == None)
      && ((forall i :: !Trough(h, i)) ==> a.support == None)
      && (LatestPeaks(h, peak, peak2) ==> a.resistance == Some(h[peak].high))
      && (LatestTroughs(h, trough, trough2) ==> a.support == Some(h[trough].low))
  {
    SwingsSay(h);
    var highs, lows := SwingHighs(h, 2), SwingLows(h, 2);
    if LatestPeaks(h, peak, peak2) { LatestHighs(h, highs, peak, peak2); }
    if LatestTroughs(h, trough, trough2) { LatestLows(h, lows, trough, trough2); }
    hide SwingHighs, SwingLows, LatestPeaks, LatestTroughs, Peak, Trough;
    if highs != [] { assert Peak(h, highs[0].index); }
    if lows != [] { assert Trough(h, lows[0].index); }
  }

  // ------------------------------------------------------- state, liquidity and regime

  /**
   * The structure state of the last 20 candles: a break names its way and kind; otherwise the close is near
   * the support up to half a percent above it, near the resistance from half a percent below it, and
   * else the direction of the swings decides.
   */
  lemma StateSays(h: seq<Candle>)
    ensures |h| < 20 ==> AnalyzeStructure(h) == StructureResult(STATE_UNKNOWN, None, None, 0.0)
    ensures |h| >= 20 ==>
      var (a, r) := (AnalyzeAdvanced(h[|h| - 20..], 2), AnalyzeStructure(h));
      var last := h[|h| - 1].close;
      var broken := a.structure == BOS || a.structure == CHOCH;
      var (up, down) := (a.lastBreak.Some? && a.lastBreak.value.up, !(a.lastBreak.Some? && a.lastBreak.value.up));
      var nearSupport := !broken && a.support.Some? && 200.0 * last <= 201.0 * a.support.value;
      var nearResistance :=
        !broken && !nearSupport && a.resistance.Some? && 200.0 * last >= 199.0 * a.resistance.value;
      var quiet := !broken && !nearSupport && !nearResistance;
      && r.support == a.support && r.resistance == a.resistance && r.score == a.score
      && (r.state == BREAKOUT_UP <==> a.structure == BOS && up)
      && (r.state == BREAKOUT_DOWN <==> a.structure == BOS && down)
      && (r.state == CHOCH_UP <==> a.structure == CHOCH && up)
      && (r.state == CHOCH_DOWN <==> a.structure == CHOCH && down)
      && (r.state == NEAR_SUPPORT <==> nearSupport) && (r.state == NEAR_RESISTANCE <==> nearResistance)
      && (r.state == BULLISH_STRUCTURE <==> quiet && a.trend == BULLISH)
      && (r.state == BEARISH_STRUCTURE <==> quiet && a.trend == BEARISH)
      && (r.state == STATE_TRANSITION <==> quiet && a.trend == TRANSITION)
      && r.state != STATE_UNKNOWN
  {
    hide AnalyzeAdvanced;
    assert |h| >= 20 ==> Last(h, LOOKBACK) == h[|h| - 20..];
  }

  /** Liquidity compares the last volume with the mean of the twenty before it. */
  lemma LiquiditySays(h: seq<Candle>, total: real)
    requires |h| >= 21 ==> total == Latest(VolumeOf(h[..|h| - 1]), 20)
    ensures |h| < 21 ==> AnalyzeLiquidity(h) == LiquidityResult(None, None, None, 0.0)
    ensures |h| >= 21 ==>
      var (r, last) := (AnalyzeLiquidity(h), h[|h| - 1].volume);
      && r.averageVolume == Some(total / 20.0) && r.latestVolume == Some(last)
      && (total <= 0.0 ==> r.volumeRatio == None && r.score == 0.0)
      && (total > 0.0 ==>
            && r.volumeRatio.Some? && r.volumeRatio.value * total == 20.0 * last
            && r.score == (if r.volumeRatio.value >= 2.0 then 100.0 else 50.0 * r.volumeRatio.value))
  {
    hide Latest, Sum, Volumes, Last, VolumeOf;
    if |h| >= 21 {
      BaselineOver(h);
      if total > 0.0 {
        RatioIs(h[|h| - 1].volume, total);
      }
    }
  }

  lemma RatioIs(last: real, total: real)
    requires total > 0.0
    ensures last / (total / 20.0) * total == 20.0 * last
  {
    var baseline := total / 20.0;
    QuotientBack(last, baseline);
    TwentyOf(last / baseline, total);
  }

  lemma TwentyOf(ratio: real, total: real)
    ensures ratio * (total / 20.0) * 20.0 == ratio * total
  {
  }

  lemma BaselineOver(h: seq<Candle>)
    requires |h| >= 21
    ensures Sum(Volumes(Last(h, 21)[..20])) == Latest(VolumeOf(h[..|h| - 1]), 20)
  {
    SumOver(Volumes(Last(h, 21)[..20]), VolumeOf(h[..|h| - 1]), |h| - 21);
  }

  /** The range of a candle as a share of its close, if that is positive. */
  function ShareOfClose(c: Candle): real
  {
    if c.close > 0.0 then (c.high - c.low) / c.close else 0.0
  }

  ghost function Shares(h: seq<Candle>): (r: seq<real>)
    ensures |r| == |h|
  {
    seq(|h|, i requires 0 <= i < |h| => ShareOfClose(h[i]))
  }

  ghost function PositiveCloses(h: seq<Candle>): nat
  {
    if h == [] then 0 else PositiveCloses(h[..|h| - 1]) + if h[|h| - 1].close > 0.0 then 1 else 0
  }

  lemma RangeOf(h: seq<Candle>)
    requires h != []
    ensures NormalizedRanges(h)
         == NormalizedRanges(h[..|h| - 1]) + if h[|h| - 1].close > 0.0 then [ShareOfClose(h[|h| - 1])] else []
    ensures h[|h| - 1].close <= 0.0 ==> ShareOfClose(h[|h| - 1]) == 0.0
  {
    OneRange(h[|h| - 1]);
    hide NormalizedRange, ShareOfClose;
  }

  lemma OneRange(c: Candle)
    ensures if c.close > 0.0 then ShareOfClose(c) == NormalizedRange(c) else ShareOfClose(c) == 0.0
  {
  }

  lemma {:induction false} RangesAre(h: seq<Candle>)
    ensures |NormalizedRanges(h)| == PositiveCloses(h)
    ensures Sum(NormalizedRanges(h)) == Over(Shares(h), 0, |h|)
  {
    hide ShareOfClose;
    if h != [] {
      var n := |h| - 1;
      RangeOf(h);
      RangesAre(h[..n]);
      OverPrefix(Shares(h), n);
      assert Shares(h)[..n] == Shares(h[..n]);
      hide NormalizedRanges;
      SumSnoc(NormalizedRanges(h[..n]), ShareOfClose(h[n]));
      assert NormalizedRanges(h[..n]) + [] == NormalizedRanges(h[..n]);
    }
  }

  /**
   * The regime follows the trend's direction; volatility is high from a mean range of 3 percent of the close
   * on, low up to 1 percent, and a high one costs the trend's score ten points, down to none.
   */
  lemma RegimeSays(h: seq<Candle>, trend: TrendResult, count: nat, total: real)
    requires count == PositiveCloses(Last(h, 20))
    requires total == Over(Shares(Last(h, 20)), 0, |Last(h, 20)|)
    ensures var r := ClassifyRegime(h, trend);
      if h == [] || trend.direction == UNKNOWN then r == RegimeResult(REGIME_UNKNOWN, VOLATILITY_UNKNOWN, 0.0)
      else
        && (r.regime == TRENDING_BULL <==> trend.direction == BULLISH)
        && (r.regime == TRENDING_BEAR <==> trend.direction == BEARISH)
        && (r.regime == RANGING <==> trend.direction !in {BULLISH, BEARISH})
        && (r.volatility == HIGH_VOLATILITY <==> count > 0 && 100.0 * total >= 3.0 * count as real)
        && (r.volatility == LOW_VOLATILITY <==> count == 0 || 100.0 * total <= count as real)
        && (r.volatility == NORMAL_VOLATILITY <==> count > 0 && count as real < 100.0 * total < 3.0 * count as real)
        && r.score == (if r.volatility != HIGH_VOLATILITY then trend.score
                       else if trend.score >= 10.0 then trend.score - 10.0 else 0.0)
  {
    var recent := Last(h, 20);
    RangesAre(recent);
    hide Over, Sum, Last, NormalizedRanges;
    assert count == 0 ==> NormalizedRanges(recent) == [];
    if count > 0 { MeanAgainst(total, count); }
  }

  lemma MeanAgainst(total: real, count: nat)
    requires count > 0
    ensures total / count as real >= 0.03 <==> 100.0 * total >= 3.0 * count as real
    ensures total / count as real <= 0.01 <==> 100.0 * total <= count as real
  {
    var mean := total / count as real;
    assert mean * count as real == total;
    var n := count as real;
    if mean >= 0.03 { assert (mean - 0.03) * n >= 0.0; } else { assert (0.03 - mean) * n > 0.0; }
    if mean <= 0.01 { assert (0.01 - mean) * n >= 0.0; } else { assert (mean - 0.01) * n > 0.0; }
  }

  /** The parts of a snapshot are the analyses of its history, and its score their mean. */
  lemma SnapshotSays(sqrt: Root, symbol: string, timeframe: Timeframe, h: seq<Candle>)
    ensures var s := Analyze(sqrt, symbol, timeframe, h);
      && s.symbol == symbol && s.timeframe == timeframe
      && s.structure == AnalyzeStructure(h) && s.liquidity == AnalyzeLiquidity(h)
      && s.regime == ClassifyRegime(h, s.trend) && s.advanced == AnalyzeAdvanced(h, 2)
      && 3.0 * s.score == s.trend.score + s.advanced.score + s.liquidity.score
  {
    hide AnalyzeTrend, AnalyzeStructure, AnalyzeLiquidity, ClassifyRegime, AnalyzeAdvanced, BuildSnapshot;
  }
}
