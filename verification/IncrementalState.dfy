/**
 * The incremental analysis state: streaming averages, bounded windows and an append-only
 * swing history, updated in place by one candle at a time.
 */
module IncrementalState {
  import opened Prelude
  import opened Candles
  import opened BatchAnalysis
  import opened StreamingFacts

  /** A streaming exponential average seeded with a plain one. */
  class EmaState {
    const period: nat
    var count: nat
    var seedSum: real
    var value: Option<real>
    ghost var consumed: seq<real>

    ghost predicate Valid()
      reads this
    {
      && period > 0
      && count == |consumed|
      && seedSum == Sum(if count <= period then consumed else consumed[..period])
      && value == Ema(consumed, period)
    }

    constructor (period: nat)
      requires period > 0
      ensures Valid() && consumed == [] && this.period == period
    {
      this.period := period;
      count, seedSum, value, consumed := 0, 0.0, None, [];
    }

    method Push(item: real) returns (r: Option<real>)
      requires Valid()
      modifies this
      ensures Valid() && consumed == old(consumed) + [item]
      ensures r == Ema(consumed, period)
    {
      ghost var before := consumed;
      consumed := consumed + [item];
      count := count + 1;
      if count <= period {
        SumSnoc(before, item);
        seedSum := seedSum + item;
        if count == period {
          value := Some(seedSum / period as real);
        }
        return value;
      }
      assert consumed[..|consumed| - 1] == before;
      assert consumed[..period] == before[..period];
      value := Some(Smooth(value.value, item, period));
      return value;
    }
  }

  /** The backing list of swing points; it only ever grows. */
  class SwingList {
    var items: History

    constructor ()
      ensures items == []
    {
      items := [];
    }

    method Append(point: SwingPoint)
      modifies this
      ensures items == old(items) + [point]
    {
      items := items + [point];
    }
  }

  /** A prefix of a swing list, frozen by its length and sharing the list. */
  datatype SwingView = SwingView(list: SwingList, length: nat)
  {
    function Contents(): History
      reads list
    {
      if length <= |list.items| then list.items[..length] else list.items
    }

    /** Indexing from either end; an index outside the frozen prefix is an error. */
    function At(index: int): (r: Option<SwingPoint>)
      reads list
      requires length <= |list.items|
      ensures r == if 0 <= index < length then Some(Contents()[index])
                   else if index < 0 && length + index >= 0 then Some(Contents()[length + index])
                   else None
    {
      var normalized := if index < 0 then index + length else index;
      if normalized < 0 || normalized >= length then None else Some(list.items[normalized])
    }
  }

  function ReadAdvanced(a: AdvancedStructure<SwingView>): AdvancedStructure<History>
    reads a.highs.list, a.lows.list
  {
    AdvancedStructure(a.highs.Contents(), a.lows.Contents(), a.trend, a.structure, a.lastBreak,
                      a.support, a.resistance, a.score)
  }

  /** What a reader of the snapshot sees through its views at this moment. */
  function Read(s: MarketSnapshot<SwingView>): MarketSnapshot<History>
    reads s.advanced.highs.list, s.advanced.lows.list
  {
    MarketSnapshot(
      s.symbol, s.timeframe, s.indicators, s.trend, s.structure, s.regime, s.liquidity, s.score,
      ReadAdvanced(s.advanced))
  }

  /** Every indicator of a history, from its last 21 candles and 50 closes. */
  lemma {:induction false} WindowsSuffice(sqrt: Root, h: seq<Candle>)
    requires h != []
    ensures var candles, closes := Last(h, RECENT_CANDLES), Last(Closes(h), RECENT_CLOSES);
      && Rsi(Last(closes, 15)) == Rsi(Closes(h))
      && Atr(candles) == Atr(h) && Adx(candles) == Adx(h)
      && candles != [] && candles[|candles| - 1] == h[|h| - 1]
      && VolumeAverage(Last(candles, 20)) == VolumeAverage(h)
      && Vwap(Last(candles, 20)) == Vwap(h)
      && Sma(closes, 50) == Sma(Closes(h), 50)
      && Bollinger(sqrt, Closes(Last(candles, 20))) == Bollinger(sqrt, Closes(h))
  {
    var v := Closes(h);
    LastOfLast(h, RECENT_CANDLES, 20);
    ClosesOfLast(h, 20);
    LastOfLast(v, RECENT_CLOSES, 15);
    RsiWindow(v, 15);
    AtrWindow(h, RECENT_CANDLES);
    AdxWindow(h, RECENT_CANDLES);
    VwapWindow(h);
    SmaWindow(v, RECENT_CLOSES, 50);
    BollingerWindow(sqrt, v);
  }

  datatype PushError = IdentityMismatch | DuplicateTimestamp | NotChronological

  const RECENT_CANDLES := 21
  const RECENT_CLOSES := 50

  /** The bookkeeping fields describe the history h. */
  ghost predicate WindowsMatch(
    count: nat, lastTimestamp: Option<int>, candles: seq<Candle>, closes: seq<real>, h: seq<Candle>)
  {
    && count == |h|
    && lastTimestamp == (if h == [] then None else Some(h[|h| - 1].timestamp))
    && candles == Last(h, RECENT_CANDLES)
    && closes == Last(Closes(h), RECENT_CLOSES)
  }

  lemma {:induction false} WindowsSnoc(
    count: nat, lastTimestamp: Option<int>, candles: seq<Candle>, closes: seq<real>, h: seq<Candle>, c: Candle)
    requires WindowsMatch(count, lastTimestamp, candles, closes, h)
    ensures WindowsMatch(count + 1, Some(c.timestamp), Last(candles + [c], RECENT_CANDLES),
                         Last(closes + [c.close], RECENT_CLOSES), h + [c])
  {
    LastSnoc(h, c, RECENT_CANDLES);
    ClosesSnoc(h, c);
    LastSnoc(Closes(h), c.close, RECENT_CLOSES);
  }

  ghost predicate MacdMatches(line: Option<real>, signal: Option<real>, v: seq<real>)
  {
    line == Macd(v).line && signal == Macd(v).signal
  }

  /** What a fresh state has to agree with. */
  lemma {:induction false} EmptyHistory()
    ensures Closes([]) == [] && MacdSeries([]) == [] && MacdMatches(None, None, [])
    ensures WindowsMatch(0, None, [], [], [])
    ensures SwingHighs([], PIVOT) == [] && SwingLows([], PIVOT) == []
  {
  }

  class IncrementalMarketState {
    const sqrt: Root
    const symbol: string
    const timeframe: Timeframe
    const ema12: EmaState
    const ema20: EmaState
    const ema26: EmaState
    const ema50: EmaState
    const ema200: EmaState
    const macdSignal: EmaState
    const swingHighs: SwingList
    const swingLows: SwingList
    var count: nat
    var lastTimestamp: Option<int>
    var recentCandles: seq<Candle>
    var recentCloses: seq<real>
    var macdLine: Option<real>
    var macdSignalValue: Option<real>
    var latest: Option<MarketSnapshot<SwingView>>

    /** Every candle accepted so far, and every snapshot handed out for them. */
    ghost var history: seq<Candle>
    ghost var issued: seq<MarketSnapshot<SwingView>>
    /** What each of those snapshots read as when it was handed out. */
    ghost var truths: seq<MarketSnapshot<History>>
    ghost const Repr: set<object>

    ghost predicate Shape()
    {
      && Repr == {this, ema12, ema20, ema26, ema50, ema200, macdSignal, swingHighs, swingLows}
      && ema12.period == FAST && ema20.period == 20 && ema26.period == SLOW && ema50.period == 50
      && ema200.period == 200 && macdSignal.period == SIGNAL
      && swingHighs != swingLows
    }

    /** The averages have consumed exactly the closes v. */
    ghost predicate AveragesOf(v: seq<real>)
      reads ema12, ema20, ema26, ema50, ema200
    {
      && ema12.Valid() && ema12.consumed == v
      && ema20.Valid() && ema20.consumed == v
      && ema26.Valid() && ema26.consumed == v
      && ema50.Valid() && ema50.consumed == v
      && ema200.Valid() && ema200.consumed == v
    }

    ghost predicate SignalOf(v: seq<real>)
      reads macdSignal
    {
      macdSignal.Valid() && macdSignal.consumed == MacdSeries(v)
    }

    ghost predicate SwingsOf(h: seq<Candle>)
      reads swingHighs, swingLows
    {
      swingHighs.items == SwingHighs(h, PIVOT) && swingLows.items == SwingLows(h, PIVOT)
    }

    /** A snapshot on this state's lists that reads as t now. */
    ghost predicate ReadsAs(s: MarketSnapshot<SwingView>, t: MarketSnapshot<History>)
      reads swingHighs, swingLows
    {
      && s.advanced.highs.list == swingHighs && s.advanced.highs.length <= |swingHighs.items|
      && s.advanced.lows.list == swingLows && s.advanced.lows.length <= |swingLows.items|
      && Read(s) == t
    }

    /** No snapshot handed out has changed since. */
    ghost predicate NoneChanged(ss: seq<MarketSnapshot<SwingView>>, ts: seq<MarketSnapshot<History>>)
      reads swingHighs, swingLows
    {
      |ss| == |ts| && forall i :: 0 <= i < |ss| ==> ReadsAs(ss[i], ts[i])
    }

    /** Element i of ts is the batch analysis of the first i + 1 candles of h. */
    ghost predicate AreAnalyses(ts: seq<MarketSnapshot<History>>, h: seq<Candle>)
    {
      if h == [] then ts == []
      else |ts| == |h| && ts[|h| - 1] == Analyze(sqrt, symbol, timeframe, h)
           && AreAnalyses(ts[..|h| - 1], h[..|h| - 1])
    }

    ghost predicate Accepted(h: seq<Candle>)
    {
      && Chronological(h)
      && (forall i :: 0 <= i < |h| ==> h[i].symbol == symbol && h[i].timeframe == timeframe)
    }

    /** Windows, averages and swing lists all describe h. */
    ghost predicate Tracks(h: seq<Candle>)
      reads this, Repr
    {
      && Shape()
      && AveragesOf(Closes(h)) && SignalOf(Closes(h))
      && MacdMatches(macdLine, macdSignalValue, Closes(h))
      && WindowsMatch(count, lastTimestamp, recentCandles, recentCloses, h)
      && SwingsOf(h)
    }

    ghost predicate Valid()
      reads this, Repr
    {
      && Tracks(history) && Accepted(history)
      && NoneChanged(issued, truths) && AreAnalyses(truths, history)
      && latest == (if issued == [] then None else Some(issued[|issued| - 1]))
    }

    constructor (sqrt: Root, symbol: string, timeframe: Timeframe)
      ensures Valid() && fresh(Repr) && this in Repr
      ensures this.sqrt == sqrt && this.symbol == symbol && this.timeframe == timeframe
      ensures history == [] && issued == []
    {
      hide Closes, MacdSeries, Macd, Ema, SwingHighs, SwingLows, Last, WindowsMatch, MacdMatches, EmaState.Valid, Sum,
        Analyze, ReadsAs;
      this.sqrt, this.symbol, this.timeframe := sqrt, symbol, timeframe;
      var highs := new SwingList();
      var lows := new SwingList();
      var e12, e20, e26, e50, e200 := FreshAverages();
      var signal := new EmaState(SIGNAL);
      ema12, ema20, ema26, ema50, ema200, macdSignal := e12, e20, e26, e50, e200, signal;
      swingHighs, swingLows := highs, lows;
      count, lastTimestamp, recentCandles, recentCloses := 0, None, [], [];
      macdLine, macdSignalValue, latest := None, None, None;
      history, issued, truths := [], [], [];
      EmptyHistory();
      Repr := {this, e12, e20, e26, e50, e200, signal, highs, lows};
    }

    static method FreshAverages() returns (e12: EmaState, e20: EmaState, e26: EmaState, e50: EmaState, e200: EmaState)
      ensures fresh({e12, e20, e26, e50, e200})
      ensures e12.period == FAST && e20.period == 20 && e26.period == SLOW && e50.period == 50 && e200.period == 200
      ensures forall e :: e in {e12, e20, e26, e50, e200} ==> e.Valid() && e.consumed == []
    {
      hide EmaState.Valid;
      e12 := new EmaState(FAST);
      e20 := new EmaState(20);
      e26 := new EmaState(SLOW);
      e50 := new EmaState(50);
      e200 := new EmaState(200);
    }

    /** The counters and the latest snapshot agree with what has happened. */
    lemma Counters()
      requires Valid()
      ensures count == |history| == |issued|
      ensures latest == if history == [] then None else Some(issued[|history| - 1])
    {
      hide AveragesOf, SignalOf, MacdMatches, SwingsOf, Analyze, ReadsAs, Closes, Last;
    }

    /**
     * No later push changes a snapshot already handed out: whatever has been appended to the
     * shared lists since, snapshot k reads as the batch analysis of the first k + 1 candles.
     */
    lemma SnapshotsNeverChange(k: nat)
      requires Valid() && k < |history|
      ensures k < |issued| && ReadsAs(issued[k], Analyze(sqrt, symbol, timeframe, history[..k + 1]))
    {
      hide AveragesOf, SignalOf, MacdMatches, SwingsOf, Analyze, ReadsAs, Closes, WindowsMatch;
      Counters();
      AnalysesAt(truths, history, k);
    }

    lemma {:induction false} AnalysesAt(ts: seq<MarketSnapshot<History>>, h: seq<Candle>, k: nat)
      requires AreAnalyses(ts, h) && k < |h|
      ensures |ts| == |h| && ts[k] == Analyze(sqrt, symbol, timeframe, h[..k + 1])
      decreases |h|
    {
      hide Analyze;
      if k == |h| - 1 {
        assert h[..|h|] == h;
      } else {
        AnalysesAt(ts[..|h| - 1], h[..|h| - 1], k);
        assert h[..|h| - 1][..k + 1] == h[..k + 1];
      }
    }

    /** The error the candle is refused with, if any. */
    function Refusal(candle: Candle): Option<PushError>
      reads this
    {
      if candle.symbol != symbol || candle.timeframe != timeframe then Some(IdentityMismatch)
      else if lastTimestamp.None? then None
      else if candle.timestamp == lastTimestamp.value then Some(DuplicateTimestamp)
      else if candle.timestamp < lastTimestamp.value then Some(NotChronological)
      else None
    }

    method Push(candle: Candle) returns (r: Result<MarketSnapshot<SwingView>, PushError>)
      requires Valid()
      modifies Repr
      ensures Valid()
      ensures old(Refusal(candle)).Some? <==> r.Err?
      ensures r.Err? ==> r.error == old(Refusal(candle)).value
                         && history == old(history) && issued == old(issued)
      ensures r.Ok? ==> history == old(history) + [candle] && issued == old(issued) + [r.value]
                        && ReadsAs(r.value, Analyze(sqrt, symbol, timeframe, history))
    {
      hide AveragesOf, SignalOf, MacdMatches, SwingsOf, NoneChanged, AreAnalyses, Analyze, Closes;
      if candle.symbol != symbol || candle.timeframe != timeframe {
        return Err(IdentityMismatch);
      }
      if lastTimestamp.Some? {
        if candle.timestamp == lastTimestamp.value {
          return Err(DuplicateTimestamp);
        }
        if candle.timestamp < lastTimestamp.value {
          return Err(NotChronological);
        }
      }
      var snapshot := Advance(candle);
      return Ok(snapshot);
    }

    method Advance(candle: Candle) returns (s: MarketSnapshot<SwingView>)
      requires Valid() && Refusal(candle).None?
      modifies Repr
      ensures Valid()
      ensures history == old(history) + [candle] && issued == old(issued) + [s]
      ensures ReadsAs(s, Analyze(sqrt, symbol, timeframe, history))
    {
      hide Analyze, Closes, Ema, SwingsOf, AveragesOf, SignalOf, NoneChanged, ReadsAs, AreAnalyses, Accepted,
        WindowsMatch, MacdMatches, EmaState.Valid, Read, Last;
      ghost var h := history + [candle];
      ghost var truth := Analyze(sqrt, symbol, timeframe, h);
      AcceptedSnoc(history, candle);
      AnalysesSnoc(truths, history, truth, candle);
      var ema20, ema50, ema200 := Absorb(candle);
      s := BuildLatest(ema20, ema50, ema200, h);
      NoneChangedSnoc(issued, truths, s, truth);
      history, issued, truths, latest := h, issued + [s], truths + [truth], Some(s);
    }

    /** Everything but the snapshot: windows, averages, signal and swings move on by one candle. */
    method Absorb(candle: Candle) returns (e20: Option<real>, e50: Option<real>, e200: Option<real>)
      requires Tracks(history) && NoneChanged(issued, truths)
      modifies Repr
      ensures Tracks(old(history) + [candle]) && NoneChanged(issued, truths)
      ensures history == old(history) && issued == old(issued) && truths == old(truths)
      ensures var v := Closes(history + [candle]); e20 == Ema(v, 20) && e50 == Ema(v, 50) && e200 == Ema(v, 200)
    {
      hide Closes, Ema, SwingsOf, AveragesOf, SignalOf, NoneChanged, WindowsMatch, MacdMatches, Last;
      ghost var v := Closes(history);
      ClosesSnoc(history, candle);
      WindowsSnoc(count, lastTimestamp, recentCandles, recentCloses, history, candle);
      count := count + 1;
      lastTimestamp := Some(candle.timestamp);
      recentCandles := Last(recentCandles + [candle], RECENT_CANDLES);
      recentCloses := Last(recentCloses + [candle.close], RECENT_CLOSES);
      var fast, slow;
      fast, e20, slow, e50, e200 := PushAverages(candle.close, v);
      PushMacd(fast, slow, v, candle.close);
      label before:
      UpdateSwings(history, candle);
      AppendingKeepsViews@before();
    }

    lemma AcceptedSnoc(h: seq<Candle>, c: Candle)
      requires Valid() && h == history && Refusal(c).None?
      ensures Accepted(h + [c])
    {
      hide AveragesOf, SignalOf, MacdMatches, SwingsOf, NoneChanged, AreAnalyses, Closes, Last;
    }

    lemma NoneChangedSnoc(
      ss: seq<MarketSnapshot<SwingView>>, ts: seq<MarketSnapshot<History>>, s: MarketSnapshot<SwingView>,
      t: MarketSnapshot<History>)
      requires NoneChanged(ss, ts) && ReadsAs(s, t)
      ensures NoneChanged(ss + [s], ts + [t])
    {
    }

    lemma AnalysesSnoc(ts: seq<MarketSnapshot<History>>, h: seq<Candle>, t: MarketSnapshot<History>, c: Candle)
      requires AreAnalyses(ts, h) && t == Analyze(sqrt, symbol, timeframe, h + [c])
      ensures AreAnalyses(ts + [t], h + [c])
    {
      assert (ts + [t])[..|h|] == ts && (h + [c])[..|h|] == h;
    }

    method PushAverages(close: real, ghost v: seq<real>)
      returns (fast: Option<real>, e20: Option<real>, slow: Option<real>, e50: Option<real>, e200: Option<real>)
      requires Shape() && AveragesOf(v)
      modifies ema12, ema20, ema26, ema50, ema200
      ensures AveragesOf(v + [close])
      ensures fast == Ema(v + [close], FAST) && slow == Ema(v + [close], SLOW)
      ensures e20 == Ema(v + [close], 20) && e50 == Ema(v + [close], 50) && e200 == Ema(v + [close], 200)
    {
      fast := ema12.Push(close);
      e20 := ema20.Push(close);
      slow := ema26.Push(close);
      e50 := ema50.Push(close);
      e200 := ema200.Push(close);
    }

    /** The signal average is fed from the 26th close on and speaks from the 34th. */
    method PushMacd(fast: Option<real>, slow: Option<real>, ghost v: seq<real>, ghost close: real)
      requires Shape() && SignalOf(v) && MacdMatches(macdLine, macdSignalValue, v)
      requires fast == Ema(v + [close], FAST) && slow == Ema(v + [close], SLOW)
      modifies this`macdLine, this`macdSignalValue, macdSignal
      ensures SignalOf(v + [close]) && MacdMatches(macdLine, macdSignalValue, v + [close])
    {
      MacdSeriesSnoc(v, close);
      if fast.Some? && slow.Some? {
        var currentMacd := fast.value - slow.value;
        var currentSignal := macdSignal.Push(currentMacd);
        if currentSignal.Some? {
          macdLine := Some(currentMacd);
          macdSignalValue := currentSignal;
        }
      }
    }

    method UpdateSwings(ghost h: seq<Candle>, ghost candle: Candle)
      requires Shape() && SwingsOf(h)
      requires WindowsMatch(count, lastTimestamp, recentCandles, recentCloses, h + [candle])
      modifies swingHighs, swingLows
      ensures SwingsOf(h + [candle])
      ensures old(swingHighs.items) <= swingHighs.items && old(swingLows.items) <= swingLows.items
    {
      hide SwingHighs, SwingLows, Closes, IsSwingHigh, IsSwingLow, MaxHigh, MinLow, Last;
      SwingsSnoc(h, candle);
      if count < PIVOT * 2 + 1 {
        return;
      }
      LastOfLast(h + [candle], RECENT_CANDLES, 5);
      var window := Last(recentCandles, PIVOT * 2 + 1);
      var current, left, right := window[PIVOT], window[..PIVOT], window[PIVOT + 1..];
      var index := count - PIVOT - 1;
      MaximaDecide(window, PIVOT, PIVOT);
      assert window[..PIVOT] == window[0..PIVOT] && window[PIVOT + 1..] == window[3..5];
      assert window == Last(h + [candle], 5) && index == |h| - 2;
      if current.high > MaxHigh(left) && current.high >= MaxHigh(right) {
        swingHighs.Append(SwingPoint(HIGH, current.timestamp, current.high, index));
      }
      assert swingHighs.items == SwingHighs(h + [candle], PIVOT);
      if current.low < MinLow(left) && current.low <= MinLow(right) {
        swingLows.Append(SwingPoint(LOW, current.timestamp, current.low, index));
      }
    }

    /** Whatever is appended to the lists, a frozen prefix reads the same. */
    twostate lemma AppendingKeepsViews()
      requires swingHighs != swingLows
      requires old(NoneChanged(issued, truths))
      requires old(swingHighs.items) <= swingHighs.items && old(swingLows.items) <= swingLows.items
      requires issued == old(issued) && truths == old(truths)
      ensures NoneChanged(issued, truths)
    {
      forall i | 0 <= i < |issued|
        ensures ReadsAs(issued[i], truths[i])
      {
        var a := issued[i].advanced;
        assert old(ReadsAs(issued[i], truths[i]));
        assert swingHighs.items[..a.highs.length] == old(swingHighs.items)[..a.highs.length];
        assert swingLows.items[..a.lows.length] == old(swingLows.items)[..a.lows.length];
      }
    }

    /** Assembles the snapshot of the windows, averages and swing lists that describe h. */
    method BuildLatest(e20: Option<real>, e50: Option<real>, e200: Option<real>, ghost h: seq<Candle>)
      returns (s: MarketSnapshot<SwingView>)
      requires Shape() && h != []
      requires WindowsMatch(count, lastTimestamp, recentCandles, recentCloses, h) && SwingsOf(h)
      requires MacdMatches(macdLine, macdSignalValue, Closes(h))
      requires e20 == Ema(Closes(h), 20) && e50 == Ema(Closes(h), 50) && e200 == Ema(Closes(h), 200)
      ensures ReadsAs(s, Analyze(sqrt, symbol, timeframe, h))
      ensures s.advanced.highs.length == |swingHighs.items| && s.advanced.lows.length == |swingLows.items|
    {
      hide BuildSnapshot, AnalyzeAdvanced, AnalyzeStructure, AnalyzeLiquidity, ClassifyRegime, TrendOf, Closes,
        Macd, Ema, SwingHighs, SwingLows;
      var indicators := IndicatorsNow(e20, e50, e200, h);
      var trend := TrendNow(indicators);
      var advanced := AdvancedNow(h);
      CompositeWindows(h, trend);
      LastOfLast(h, RECENT_CANDLES, 20);
      LastOfLast(h, RECENT_CANDLES, 21);
      var structure := AnalyzeStructure(Last(recentCandles, 20));
      var liquidity := AnalyzeLiquidity(Last(recentCandles, 21));
      var regime := ClassifyRegime(Last(recentCandles, 20), trend);
      s := MarketSnapshot(symbol, timeframe, indicators, trend, structure, regime, liquidity,
                          (trend.score + advanced.score + liquidity.score) / 3.0, advanced);
    }

    method IndicatorsNow(e20: Option<real>, e50: Option<real>, e200: Option<real>, ghost h: seq<Candle>)
      returns (s: IndicatorSnapshot)
      requires h != [] && WindowsMatch(count, lastTimestamp, recentCandles, recentCloses, h)
      requires MacdMatches(macdLine, macdSignalValue, Closes(h))
      requires e20 == Ema(Closes(h), 20) && e50 == Ema(Closes(h), 50) && e200 == Ema(Closes(h), 200)
      ensures s == BuildSnapshot(sqrt, h)
    {
      hide Rsi, Atr, Adx, VolumeAverage, Vwap, Sma, Bollinger, Closes, Ema, SupertrendOf;
      WindowsSuffice(sqrt, h);
      var last20 := Last(recentCandles, 20);
      var rsi14 := Rsi(Last(recentCloses, 15));
      var atr14 := Atr(recentCandles);
      var adx14 := WindowAdx(recentCandles);
      var supertrend := SupertrendOf(atr14, e20, e50, recentCandles[|recentCandles| - 1]);
      var histogram := if macdLine.Some? && macdSignalValue.Some?
                       then Some(macdLine.value - macdSignalValue.value) else None;
      s := IndicatorSnapshot(
        e20, e50, e200, rsi14, atr14, VolumeAverage(last20), Sma(recentCloses, 50),
        MacdResult(macdLine, macdSignalValue, histogram), adx14, supertrend, Vwap(last20),
        Bollinger(sqrt, Closes(last20)));
    }

    /** Unlike the batch form, looks only at the last period of neighbours. */
    static method WindowAdx(candles: seq<Candle>) returns (r: Option<real>)
      ensures r == Adx(candles)
    {
      if |candles| < PERIOD + 2 {
        return None;
      }
      hide PlusMove, MinusMove, TrueRange, DirectionalIndex, Sum;
      var first := |candles| - PERIOD;
      var plus, minus, ranges := [], [], [];
      for i := 0 to PERIOD
        invariant |plus| == |minus| == |ranges| == i
        invariant forall k :: 0 <= k < i ==> plus[k] == PlusMove(candles[first + k - 1], candles[first + k])
        invariant forall k :: 0 <= k < i ==> minus[k] == MinusMove(candles[first + k - 1], candles[first + k])
        invariant forall k :: 0 <= k < i ==> ranges[k] == TrueRange(candles[first + k - 1], candles[first + k])
      {
        var previous, current := candles[first + i - 1], candles[first + i];
        plus := plus + [PlusMove(previous, current)];
        minus := minus + [MinusMove(previous, current)];
        ranges := ranges + [TrueRange(previous, current)];
      }
      assert plus == Last(Pairwise(PlusMove, candles), PERIOD);
      assert minus == Last(Pairwise(MinusMove, candles), PERIOD);
      assert ranges == Last(Pairwise(TrueRange, candles), PERIOD);
      return Some(DirectionalIndex(Sum(ranges), Sum(plus), Sum(minus)));
    }

    /** The trend score, written out a second time for the incremental path. */
    method TrendNow(s: IndicatorSnapshot) returns (r: TrendResult)
      requires recentCandles != []
      ensures r == TrendOf(s, recentCandles[|recentCandles| - 1].close)
    {
      var last := recentCandles[|recentCandles| - 1].close;
      if s.ema20.None? || s.ema50.None? || s.ema200.None? {
        return TrendResult(UNKNOWN, UNKNOWN_STRENGTH, 0.0, s);
      }
      var direction := NEUTRAL;
      if last > s.ema20.value > s.ema50.value > s.ema200.value {
        direction := BULLISH;
      } else if last < s.ema20.value < s.ema50.value < s.ema200.value {
        direction := BEARISH;
      }
      if direction == NEUTRAL {
        return TrendResult(direction, WEAK, 45.0, s);
      }
      var bullish := direction == BULLISH;
      var score := 60.0;
      if s.rsi14.Some? && ((bullish && s.rsi14.value >= 50.0) || (!bullish && s.rsi14.value <= 50.0)) {
        score := score + 10.0;
      }
      assert score == 60.0 + RsiPoints(s, bullish);
      if s.macd.histogram.Some?
        && ((bullish && s.macd.histogram.value > 0.0) || (!bullish && s.macd.histogram.value < 0.0)) {
        score := score + 10.0;
      }
      assert score == 60.0 + RsiPoints(s, bullish) + MacdPoints(s, bullish);
      if s.adx14.Some? {
        if s.adx14.value >= 25.0 {
          score := score + 10.0;
        } else if s.adx14.value >= 18.0 {
          score := score + 5.0;
        }
      }
      assert score == 60.0 + RsiPoints(s, bullish) + MacdPoints(s, bullish) + AdxPoints(s);
      if s.supertrend == Some(direction) {
        score := score + 5.0;
      }
      if s.vwap20.Some? && ((bullish && last >= s.vwap20.value) || (!bullish && last <= s.vwap20.value)) {
        score := score + 5.0;
      }
      assert score == 60.0 + Evidence(s, direction, last);
      score := Min(score, 100.0);
      var strength := if score >= 85.0 then STRONG else if score >= 65.0 then MODERATE else WEAK;
      return TrendResult(direction, strength, score, s);
    }

    /** The swing structure read through views that freeze the present lengths. */
    method AdvancedNow(ghost h: seq<Candle>) returns (r: AdvancedStructure<SwingView>)
      requires Shape() && h != [] && SwingsOf(h)
      requires WindowsMatch(count, lastTimestamp, recentCandles, recentCloses, h)
      ensures r.highs == SwingView(swingHighs, |swingHighs.items|)
      ensures r.lows == SwingView(swingLows, |swingLows.items|)
      ensures ReadAdvanced(r) == AnalyzeAdvanced(h, PIVOT)
    {
      hide SwingHighs, SwingLows, Closes;
      ghost var hs, ls := SwingHighs(h, PIVOT), SwingLows(h, PIVOT);
      var highs := SwingView(swingHighs, |swingHighs.items|);
      var lows := SwingView(swingLows, |swingLows.items|);
      var topPoint, bottomPoint := highs.At(-1), lows.At(-1);
      var trend := UNKNOWN;
      if highs.length >= 2 && lows.length >= 2 {
        var high, higher := highs.At(-1).value.price, highs.At(-2).value.price;
        var low, lower := lows.At(-1).value.price, lows.At(-2).value.price;
        trend := if high > higher && low > lower then BULLISH
                 else if high < higher && low < lower then BEARISH else TRANSITION;
      }
      assert trend == SequenceTrend(hs, ls);
      assert highs.Contents() == hs && lows.Contents() == ls;
      if topPoint.None? || bottomPoint.None? {
        var top := if topPoint.None? then None else Some(topPoint.value.price);
        var bottom := if bottomPoint.None? then None else Some(bottomPoint.value.price);
        return AdvancedStructure(highs, lows, trend, NO_STRUCTURE, None, bottom, top, 0.0);
      }
      var last := recentCandles[|recentCandles| - 1];
      var top, bottom := topPoint.value.price, bottomPoint.value.price;
      var structure, lastBreak := IN_TRANSITION, None;
      if last.close > top {
        structure := if trend == BULLISH then BOS else CHOCH;
        lastBreak := Some(StructureBreak(true, structure, top, last.timestamp));
      } else if last.close < bottom {
        structure := if trend == BEARISH then BOS else CHOCH;
        lastBreak := Some(StructureBreak(false, structure, bottom, last.timestamp));
      } else if trend == BULLISH {
        structure := HIGHER_HIGH_HIGHER_LOW;
      } else if trend == BEARISH {
        structure := LOWER_HIGH_LOWER_LOW;
      }
      r := AdvancedStructure(highs, lows, trend, structure, lastBreak, Some(bottom), Some(top),
                             StructureScore(structure, trend));
      assert AnalyzeAdvanced(h, PIVOT) == AdvancedOf(hs, ls, hs, ls, last);
    }
  }
}
