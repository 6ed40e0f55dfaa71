/**
 * The batch analysis of a whole candle history: indicators, swings, trend, structure,
 * liquidity, regime and their composition.  It is the specification that the
 * incremental state is measured against.
 *
 * Every function takes the history already ordered by time; AnalyzeMarket orders it.
 * The square root is a parameter: nothing depends on which one it is.
 */
module BatchAnalysis {
  import opened Prelude
  import opened Candles

  type Root = real -> real

  datatype Direction = UNKNOWN | BULLISH | BEARISH | NEUTRAL | TRANSITION

  datatype Strength = UNKNOWN_STRENGTH | WEAK | MODERATE | STRONG

  datatype Bands = Bands(middle: Option<real>, upper: Option<real>, lower: Option<real>)

  datatype MacdResult = MacdResult(line: Option<real>, signal: Option<real>, histogram: Option<real>)

  datatype IndicatorSnapshot = IndicatorSnapshot(
    ema20: Option<real>, ema50: Option<real>, ema200: Option<real>,
    rsi14: Option<real>, atr14: Option<real>, volumeSma20: Option<real>, sma50: Option<real>,
    macd: MacdResult, adx14: Option<real>, supertrend: Option<Direction>,
    vwap20: Option<real>, bollinger: Bands)

  datatype TrendResult = TrendResult(
    direction: Direction, strength: Strength, score: real, indicators: IndicatorSnapshot)

  datatype SwingKind = HIGH | LOW

  datatype SwingPoint = SwingPoint(kind: SwingKind, timestamp: int, price: real, index: int)

  datatype StructureKind =
    | NO_STRUCTURE | BOS | CHOCH | HIGHER_HIGH_HIGHER_LOW | LOWER_HIGH_LOWER_LOW | IN_TRANSITION

  datatype StructureBreak = StructureBreak(up: bool, kind: StructureKind, level: real, timestamp: int)

  /** S is how the swing history is held: a list here, a frozen view in the incremental state. */
  datatype AdvancedStructure<S> = AdvancedStructure(
    highs: S, lows: S, trend: Direction, structure: StructureKind,
    lastBreak: Option<StructureBreak>, support: Option<real>, resistance: Option<real>, score: real)

  datatype StructureState =
    | STATE_UNKNOWN | BREAKOUT_UP | BREAKOUT_DOWN | CHOCH_UP | CHOCH_DOWN | NEAR_SUPPORT
    | NEAR_RESISTANCE | BULLISH_STRUCTURE | BEARISH_STRUCTURE | STATE_TRANSITION | STATE_RANGE

  datatype StructureResult = StructureResult(
    state: StructureState, support: Option<real>, resistance: Option<real>, score: real)

  datatype LiquidityResult = LiquidityResult(
    averageVolume: Option<real>, latestVolume: Option<real>, volumeRatio: Option<real>, score: real)

  datatype Volatility = VOLATILITY_UNKNOWN | HIGH_VOLATILITY | LOW_VOLATILITY | NORMAL_VOLATILITY

  datatype Regime = REGIME_UNKNOWN | TRENDING_BULL | TRENDING_BEAR | RANGING

  datatype RegimeResult = RegimeResult(regime: Regime, volatility: Volatility, score: real)

  datatype MarketSnapshot<S> = MarketSnapshot(
    symbol: string, timeframe: Timeframe, indicators: IndicatorSnapshot, trend: TrendResult,
    structure: StructureResult, regime: RegimeResult, liquidity: LiquidityResult, score: real,
    advanced: AdvancedStructure<S>)

  type History = seq<SwingPoint>

  // ---------------------------------------------------------------- indicators

  function Closes(h: seq<Candle>): (r: seq<real>)
    ensures |r| == |h|
  {
    Map((c: Candle) => c.close, h)
  }

  function Volumes(h: seq<Candle>): (r: seq<real>)
    ensures |r| == |h|
  {
    Map((c: Candle) => c.volume, h)
  }

  function Sma(v: seq<real>, period: nat): Option<real>
    requires period > 0
  {
    if |v| < period then None else Some(Sum(Last(v, period)) / period as real)
  }

  /** One step of an exponential average. */
  function Smooth(previous: real, item: real, period: nat): real
  {
    (item - previous) * (2.0 / (period + 1) as real) + previous
  }

  /** The exponential average of a series no shorter than its period, by its last element. */
  function EmaValue(v: seq<real>, period: nat): real
    requires 0 < period <= |v|
  {
    if |v| == period then Sum(v) / period as real
    else Smooth(EmaValue(v[..|v| - 1], period), v[|v| - 1], period)
  }

  function Ema(v: seq<real>, period: nat): Option<real>
    requires period > 0
  {
    if |v| < period then None else Some(EmaValue(v, period))
  }

  /** Element i is the average of the first period + i values. */
  function EmaSeries(v: seq<real>, period: nat): (r: seq<real>)
    requires period > 0
    ensures |r| == if |v| < period then 0 else |v| - period + 1
  {
    if |v| < period then []
    else seq(|v| - period + 1, i requires 0 <= i < |v| - period + 1 => EmaValue(v[..period + i], period))
  }

  function Differences(a: seq<real>, b: seq<real>): (r: seq<real>)
    ensures |r| == if |a| <= |b| then |a| else |b|
    ensures forall i :: 0 <= i < |r| ==> r[i] == a[i] - b[i]
  {
    var n := if |a| <= |b| then |a| else |b|;
    seq(n, i requires 0 <= i < n => a[i] - b[i])
  }

  const FAST := 12
  const SLOW := 26
  const SIGNAL := 9

  /** The fast series is cut so that both series speak of the same candles. */
  function MacdSeries(v: seq<real>): seq<real>
  {
    if |v| < SLOW then [] else Differences(EmaSeries(v, FAST)[SLOW - FAST..], EmaSeries(v, SLOW))
  }

  function Macd(v: seq<real>): MacdResult
  {
    if |v| < SLOW + SIGNAL - 1 then MacdResult(None, None, None)
    else
      var series := MacdSeries(v);
      match Ema(series, SIGNAL)
      case None => MacdResult(None, None, None)
      case Some(signal) =>
        var line := series[|series| - 1];
        MacdResult(Some(line), Some(signal), Some(line - signal))
  }

  /** The last n changes of a series. */
  function Changes(v: seq<real>, n: nat): (r: seq<real>)
    requires n < |v|
    ensures |r| == n
  {
    seq(n, i requires 0 <= i < n => v[|v| - n + i] - v[|v| - n + i - 1])
  }

  function Gains(v: seq<real>, n: nat): seq<real>
    requires n < |v|
  {
    Map((x: real) => Max(x, 0.0), Changes(v, n))
  }

  function Losses(v: seq<real>, n: nat): seq<real>
    requires n < |v|
  {
    Map((x: real) => Max(-x, 0.0), Changes(v, n))
  }

  const PERIOD := 14

  function RelativeStrength(averageGain: real, averageLoss: real): real
    requires averageGain >= 0.0 && averageLoss >= 0.0
  {
    if averageLoss == 0.0 then (if averageGain > 0.0 then 100.0 else 50.0)
    else
      100.0 - 100.0 / (1.0 + averageGain / averageLoss)
  }

  lemma {:induction false} SumNonNegative(s: seq<real>)
    requires forall i :: 0 <= i < |s| ==> s[i] >= 0.0
    ensures Sum(s) >= 0.0
  {
    if s != [] {
      SumNonNegative(s[..|s| - 1]);
    }
  }

  function Rsi(v: seq<real>): Option<real>
  {
    if |v| < PERIOD + 1 then None
    else
      SumNonNegative(Gains(v, PERIOD));
      SumNonNegative(Losses(v, PERIOD));
      Some(RelativeStrength(Sum(Gains(v, PERIOD)) / 14.0, Sum(Losses(v, PERIOD)) / 14.0))
  }

  function TrueRange(previous: Candle, current: Candle): real
  {
    Max(Max(current.high - current.low, Abs(current.high - previous.close)),
        Abs(current.low - previous.close))
  }

  function PlusMove(previous: Candle, current: Candle): real
  {
    var up, down := current.high - previous.high, previous.low - current.low;
    if up > down && up > 0.0 then up else 0.0
  }

  function MinusMove(previous: Candle, current: Candle): real
  {
    var up, down := current.high - previous.high, previous.low - current.low;
    if down > up && down > 0.0 then down else 0.0
  }

  /** f of each candle and its predecessor. */
  function Pairwise(f: (Candle, Candle) -> real, h: seq<Candle>): (r: seq<real>)
    ensures |r| == if h == [] then 0 else |h| - 1
  {
    if h == [] then [] else seq(|h| - 1, i requires 0 <= i < |h| - 1 => f(h[i], h[i + 1]))
  }

  function TrueRanges(h: seq<Candle>): seq<real> { Pairwise(TrueRange, h) }

  function Atr(h: seq<Candle>): Option<real>
  {
    var ranges := TrueRanges(h);
    if |ranges| < PERIOD then None else Some(Sum(Last(ranges, PERIOD)) / 14.0)
  }

  function DirectionalIndex(range: real, plus: real, minus: real): real
  {
    if range <= 0.0 then 0.0
    else
      var plusDi, minusDi := 100.0 * plus / range, 100.0 * minus / range;
      if plusDi + minusDi <= 0.0 then 0.0
      else 100.0 * Abs(plusDi - minusDi) / (plusDi + minusDi)
  }

  function Adx(h: seq<Candle>): Option<real>
  {
    if |h| < PERIOD + 2 then None
    else Some(DirectionalIndex(
                Sum(Last(Pairwise(TrueRange, h), PERIOD)),
                Sum(Last(Pairwise(PlusMove, h), PERIOD)),
                Sum(Last(Pairwise(MinusMove, h), PERIOD))))
  }

  function Vwap(h: seq<Candle>): Option<real>
  {
    if |h| < 20 then None
    else
      var window := Last(h, 20);
      var total := Sum(Volumes(window));
      if total <= 0.0 then None
      else Some(Sum(Map((c: Candle) => (c.high + c.low + c.close) / 3.0 * c.volume, window)) / total)
  }

  /** The squared distances of the values from m. */
  function SquaredFrom(m: real, v: seq<real>): (r: seq<real>)
    ensures |r| == |v|
  {
    Map((x: real) => (x - m) * (x - m), v)
  }

  function Bollinger(sqrt: Root, v: seq<real>): Bands
  {
    match Sma(v, 20)
    case None => Bands(None, None, None)
    case Some(middle) =>
      var variance := Sum(SquaredFrom(middle, Last(v, 20))) / 20.0;
      var deviation := sqrt(variance);
      Bands(Some(middle), Some(middle + 2.0 * deviation), Some(middle - 2.0 * deviation))
  }

  function SupertrendOf(atr: Option<real>, ema20: Option<real>, ema50: Option<real>, latest: Candle)
    : Option<Direction>
  {
    if atr.None? || ema20.None? || ema50.None? then None
    else
      var midpoint := (latest.high + latest.low) / 2.0;
      if latest.close >= midpoint - 3.0 * atr.value && ema20.value > ema50.value then Some(BULLISH)
      else if latest.close <= midpoint + 3.0 * atr.value && ema20.value < ema50.value then Some(BEARISH)
      else Some(NEUTRAL)
  }

  function Supertrend(h: seq<Candle>): Option<Direction>
  {
    if h == [] then None
    else SupertrendOf(Atr(h), Ema(Closes(h), 20), Ema(Closes(h), 50), h[|h| - 1])
  }

  function VolumeAverage(h: seq<Candle>): Option<real>
  {
    var volumes := Volumes(Last(h, 20));
    if |volumes| == 20 then Some(Sum(volumes) / 20.0) else None
  }

  function BuildSnapshot(sqrt: Root, h: seq<Candle>): IndicatorSnapshot
  {
    var v := Closes(h);
    IndicatorSnapshot(
      Ema(v, 20), Ema(v, 50), Ema(v, 200), Rsi(v), Atr(h), VolumeAverage(h), Sma(v, 50),
      Macd(v), Adx(h), Supertrend(h), Vwap(h), Bollinger(sqrt, v))
  }

  // --------------------------------------------------------------------- trend

  function Aligned(s: IndicatorSnapshot, last: real): Direction
  {
    if s.ema20.None? || s.ema50.None? || s.ema200.None? then UNKNOWN
    else if last > s.ema20.value > s.ema50.value > s.ema200.value then BULLISH
    else if last < s.ema20.value < s.ema50.value < s.ema200.value then BEARISH
    else NEUTRAL
  }

  /** x lies on the side of level that the direction calls for. */
  predicate Supports(bullish: bool, x: real, level: real)
  {
    if bullish then x >= level else x <= level
  }

  function RsiPoints(s: IndicatorSnapshot, bullish: bool): real
  {
    if s.rsi14.Some? && Supports(bullish, s.rsi14.value, 50.0) then 10.0 else 0.0
  }

  function MacdPoints(s: IndicatorSnapshot, bullish: bool): real
  {
    if s.macd.histogram.Some? && s.macd.histogram.value != 0.0 && Supports(bullish, s.macd.histogram.value, 0.0)
    then 10.0 else 0.0
  }

  function AdxPoints(s: IndicatorSnapshot): real
  {
    if s.adx14.None? || s.adx14.value < 18.0 then 0.0 else if s.adx14.value < 25.0 then 5.0 else 10.0
  }

  function SupertrendPoints(s: IndicatorSnapshot, direction: Direction): real
  {
    if s.supertrend == Some(direction) then 5.0 else 0.0
  }

  function VwapPoints(s: IndicatorSnapshot, bullish: bool, last: real): real
  {
    if s.vwap20.Some? && Supports(bullish, last, s.vwap20.value) then 5.0 else 0.0
  }

  /** The evidence found for an aligned direction, in points. */
  function Evidence(s: IndicatorSnapshot, direction: Direction, last: real): real
  {
    var bullish := direction == BULLISH;
    RsiPoints(s, bullish) + MacdPoints(s, bullish) + AdxPoints(s)
    + SupertrendPoints(s, direction) + VwapPoints(s, bullish, last)
  }

  function StrengthOf(score: real): Strength
  {
    if score >= 85.0 then STRONG else if score >= 65.0 then MODERATE else WEAK
  }

  function TrendOf(s: IndicatorSnapshot, last: real): TrendResult
  {
    var direction := Aligned(s, last);
    if direction == UNKNOWN then TrendResult(UNKNOWN, UNKNOWN_STRENGTH, 0.0, s)
    else if direction == NEUTRAL then TrendResult(NEUTRAL, WEAK, 45.0, s)
    else
      var score := Min(60.0 + Evidence(s, direction, last), 100.0);
      TrendResult(direction, StrengthOf(score), score, s)
  }

  function AnalyzeTrend(sqrt: Root, h: seq<Candle>): TrendResult
  {
    var snapshot := BuildSnapshot(sqrt, h);
    if h == [] then TrendResult(UNKNOWN, UNKNOWN_STRENGTH, 0.0, snapshot)
    else TrendOf(snapshot, h[|h| - 1].close)
  }

  // -------------------------------------------------------------------- swings

  function MaxHigh(cs: seq<Candle>): (r: real)
    requires cs != []
    ensures forall i :: 0 <= i < |cs| ==> cs[i].high <= r
    ensures exists i :: 0 <= i < |cs| && cs[i].high == r
  {
    if |cs| == 1 then cs[0].high else Max(MaxHigh(cs[..|cs| - 1]), cs[|cs| - 1].high)
  }

  function MinLow(cs: seq<Candle>): (r: real)
    requires cs != []
    ensures forall i :: 0 <= i < |cs| ==> cs[i].low >= r
    ensures exists i :: 0 <= i < |cs| && cs[i].low == r
  {
    if |cs| == 1 then cs[0].low else Min(MinLow(cs[..|cs| - 1]), cs[|cs| - 1].low)
  }

  /** Candle i stands above the pivot candles before it and not below the pivot after it. */
  predicate IsSwingHigh(h: seq<Candle>, pivot: nat, i: nat)
    requires 0 < pivot <= i && i + pivot < |h|
  {
    (forall j :: i - pivot <= j < i ==> h[j].high < h[i].high)
    && (forall j :: i < j <= i + pivot ==> h[j].high <= h[i].high)
  }

  predicate IsSwingLow(h: seq<Candle>, pivot: nat, i: nat)
    requires 0 < pivot <= i && i + pivot < |h|
  {
    (forall j :: i - pivot <= j < i ==> h[j].low > h[i].low)
    && (forall j :: i < j <= i + pivot ==> h[j].low >= h[i].low)
  }

  /** Comparing with the extremes of both sides is comparing with every candle of them. */
  lemma MaximaDecide(h: seq<Candle>, pivot: nat, i: nat)
    requires 0 < pivot <= i && i + pivot < |h|
    ensures IsSwingHigh(h, pivot, i)
       <==> h[i].high > MaxHigh(h[i - pivot..i]) && h[i].high >= MaxHigh(h[i + 1..i + pivot + 1])
    ensures IsSwingLow(h, pivot, i)
       <==> h[i].low < MinLow(h[i - pivot..i]) && h[i].low <= MinLow(h[i + 1..i + pivot + 1])
  {
    var left, right := h[i - pivot..i], h[i + 1..i + pivot + 1];
    assert forall j :: i - pivot <= j < i ==> h[j] == left[j - (i - pivot)];
    assert forall j :: i < j <= i + pivot ==> h[j] == right[j - i - 1];
  }

  /** The swing highs at indexes pivot <= i < n, in order. */
  function HighsBefore(h: seq<Candle>, pivot: nat, n: nat): History
    requires 0 < pivot && (n <= pivot || n + pivot <= |h|)
  {
    if n <= pivot then []
    else
      HighsBefore(h, pivot, n - 1)
      + if IsSwingHigh(h, pivot, n - 1) then [SwingPoint(HIGH, h[n - 1].timestamp, h[n - 1].high, n - 1)] else []
  }

  function LowsBefore(h: seq<Candle>, pivot: nat, n: nat): History
    requires 0 < pivot && (n <= pivot || n + pivot <= |h|)
  {
    if n <= pivot then []
    else
      LowsBefore(h, pivot, n - 1)
      + if IsSwingLow(h, pivot, n - 1) then [SwingPoint(LOW, h[n - 1].timestamp, h[n - 1].low, n - 1)] else []
  }

  /** One past the last index whose right-hand pivot candles are all there. */
  function Confirmed(h: seq<Candle>, pivot: nat): (n: nat)
  {
    if |h| < pivot then 0 else |h| - pivot
  }

  function SwingHighs(h: seq<Candle>, pivot: nat): History
    requires pivot > 0
  {
    HighsBefore(h, pivot, Confirmed(h, pivot))
  }

  function SwingLows(h: seq<Candle>, pivot: nat): History
    requires pivot > 0
  {
    LowsBefore(h, pivot, Confirmed(h, pivot))
  }

  function SequenceTrend(highs: History, lows: History): Direction
  {
    if |highs| < 2 || |lows| < 2 then UNKNOWN
    else
      var h1, h2 := highs[|highs| - 1].price, highs[|highs| - 2].price;
      var l1, l2 := lows[|lows| - 1].price, lows[|lows| - 2].price;
      if h1 > h2 && l1 > l2 then BULLISH
      else if h1 < h2 && l1 < l2 then BEARISH
      else TRANSITION
  }

  function StructureScore(structure: StructureKind, trend: Direction): real
  {
    if structure == BOS then 90.0
    else if structure == CHOCH then 85.0
    else if trend == BULLISH || trend == BEARISH then 70.0
    else 50.0
  }

  /** Structure of a history that has swings and a last candle; S only carries the swing lists. */
  function AdvancedOf<S>(highs: History, lows: History, heldHighs: S, heldLows: S, last: Candle)
    : AdvancedStructure<S>
    requires highs != [] && lows != []
  {
    var trend := SequenceTrend(highs, lows);
    var top, bottom := highs[|highs| - 1].price, lows[|lows| - 1].price;
    if last.close > top then
      var kind := if trend == BULLISH then BOS else CHOCH;
      AdvancedStructure(heldHighs, heldLows, trend, kind,
                        Some(StructureBreak(true, kind, top, last.timestamp)),
                        Some(bottom), Some(top), StructureScore(kind, trend))
    else if last.close < bottom then
      var kind := if trend == BEARISH then BOS else CHOCH;
      AdvancedStructure(heldHighs, heldLows, trend, kind,
                        Some(StructureBreak(false, kind, bottom, last.timestamp)),
                        Some(bottom), Some(top), StructureScore(kind, trend))
    else
      var kind := if trend == BULLISH then HIGHER_HIGH_HIGHER_LOW
                  else if trend == BEARISH then LOWER_HIGH_LOWER_LOW else IN_TRANSITION;
      AdvancedStructure(heldHighs, heldLows, trend, kind, None,
                        Some(bottom), Some(top), StructureScore(kind, trend))
  }

  function LastPrice(swings: History): Option<real>
  {
    if swings == [] then None else Some(swings[|swings| - 1].price)
  }

  function AnalyzeAdvanced(h: seq<Candle>, pivot: nat): AdvancedStructure<History>
    requires pivot > 0
  {
    var highs, lows := SwingHighs(h, pivot), SwingLows(h, pivot);
    if highs == [] || lows == [] || h == [] then
      AdvancedStructure(highs, lows, SequenceTrend(highs, lows), NO_STRUCTURE, None,
                        LastPrice(lows), LastPrice(highs), 0.0)
    else AdvancedOf(highs, lows, highs, lows, h[|h| - 1])
  }

  // ------------------------------------------- structure, liquidity and regime

  const LOOKBACK := 20
  const PIVOT := 2

  function StateOf(a: AdvancedStructure<History>, last: real): StructureState
  {
    var up := a.lastBreak.Some? && a.lastBreak.value.up;
    if a.structure == BOS then (if up then BREAKOUT_UP else BREAKOUT_DOWN)
    else if a.structure == CHOCH then (if up then CHOCH_UP else CHOCH_DOWN)
    else if a.support.Some? && last <= a.support.value * 1.005 then NEAR_SUPPORT
    else if a.resistance.Some? && last >= a.resistance.value * 0.995 then NEAR_RESISTANCE
    else if a.trend == BULLISH then BULLISH_STRUCTURE
    else if a.trend == BEARISH then BEARISH_STRUCTURE
    else if a.trend == TRANSITION then STATE_TRANSITION
    else STATE_RANGE
  }

  function AnalyzeStructure(h: seq<Candle>): StructureResult
  {
    if |h| < LOOKBACK then StructureResult(STATE_UNKNOWN, None, None, 0.0)
    else
      var result := AnalyzeAdvanced(Last(h, LOOKBACK), PIVOT);
      StructureResult(StateOf(result, h[|h| - 1].close), result.support, result.resistance, result.score)
  }

  function AnalyzeLiquidity(h: seq<Candle>): LiquidityResult
  {
    if |h| < 21 then LiquidityResult(None, None, None, 0.0)
    else
      var baseline := Sum(Volumes(Last(h, 21)[..20])) / 20.0;
      var latest := h[|h| - 1].volume;
      if baseline <= 0.0 then LiquidityResult(Some(baseline), Some(latest), None, 0.0)
      else
        LiquidityResult(Some(baseline), Some(latest), Some(latest / baseline),
                        Min(100.0, latest / baseline * 50.0))
  }

  function NormalizedRange(c: Candle): real
    requires c.close > 0.0
  {
    (c.high - c.low) / c.close
  }

  /** The normalized ranges of the candles with a positive close. */
  function NormalizedRanges(h: seq<Candle>): seq<real>
  {
    if h == [] then []
    else
      var c := h[|h| - 1];
      NormalizedRanges(h[..|h| - 1]) + if c.close > 0.0 then [NormalizedRange(c)] else []
  }

  function ClassifyRegime(h: seq<Candle>, trend: TrendResult): RegimeResult
  {
    if h == [] || trend.direction == UNKNOWN then RegimeResult(REGIME_UNKNOWN, VOLATILITY_UNKNOWN, 0.0)
    else
      var ranges := NormalizedRanges(Last(h, 20));
      var average := if ranges == [] then 0.0 else Sum(ranges) / |ranges| as real;
      var volatility :=
        if average >= 0.03 then HIGH_VOLATILITY
        else if average <= 0.01 then LOW_VOLATILITY else NORMAL_VOLATILITY;
      var regime :=
        if trend.direction == BULLISH then TRENDING_BULL
        else if trend.direction == BEARISH then TRENDING_BEAR else RANGING;
      RegimeResult(regime, volatility,
                   if volatility == HIGH_VOLATILITY then Max(0.0, trend.score - 10.0) else trend.score)
  }

  // --------------------------------------------------------------- composition

  /** The analysis of a history in time order without repeated timestamps. */
  function Analyze(sqrt: Root, symbol: string, timeframe: Timeframe, h: seq<Candle>)
    : MarketSnapshot<History>
  {
    var trend := AnalyzeTrend(sqrt, h);
    var advanced := AnalyzeAdvanced(h, PIVOT);
    var liquidity := AnalyzeLiquidity(h);
    MarketSnapshot(
      symbol, timeframe, BuildSnapshot(sqrt, h), trend, AnalyzeStructure(h), ClassifyRegime(h, trend),
      liquidity, (trend.score + advanced.score + liquidity.score) / 3.0, advanced)
  }

  datatype AnalysisError = DuplicateTimestamps

  /** analyze_market: orders the candles and refuses a repeated timestamp. */
  function AnalyzeMarket(sqrt: Root, symbol: string, timeframe: Timeframe, candles: seq<Candle>)
    : Result<MarketSnapshot<History>, AnalysisError>
  {
    var h := Ordered(candles);
    if exists i :: 0 < i < |h| && h[i].timestamp == h[i - 1].timestamp then Err(DuplicateTimestamps)
    else Ok(Analyze(sqrt, symbol, timeframe, h))
  }

  /** In-order candles are analysed as they stand. */
  lemma AnalyzeMarketInOrder(sqrt: Root, symbol: string, timeframe: Timeframe, candles: seq<Candle>)
    requires Chronological(candles)
    ensures AnalyzeMarket(sqrt, symbol, timeframe, candles)
         == Ok(Analyze(sqrt, symbol, timeframe, candles))
  {
    OrderedFixpoint(candles);
    forall i | 0 < i < |candles|
      ensures candles[i].timestamp != candles[i - 1].timestamp
    {
      assert candles[i - 1].timestamp < candles[i].timestamp;
    }
  }

  /** It raises exactly when two candles share a time; otherwise the order they come in does not matter. */
  lemma AnalyzeMarketAnyOrder(
    sqrt: Root, symbol: string, timeframe: Timeframe, a: seq<Candle>, b: seq<Candle>)
    requires multiset(a) == multiset(b)
    ensures AnalyzeMarket(sqrt, symbol, timeframe, a) == AnalyzeMarket(sqrt, symbol, timeframe, b)
    ensures AnalyzeMarket(sqrt, symbol, timeframe, a).Err? <==> !DistinctTimes(a)
  {
    hide Analyze, Ordered;
    RepeatsExactly(a);
    RepeatsExactly(b);
    OrderedAnyOrder(a, b);
  }
}
