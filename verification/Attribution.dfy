/** Attribution of a run to daily regimes and to directions, and why its checks never raise. */
module Attribution {
  import opened Prelude
  import opened Candles
  import opened Positions
  import opened BatchAnalysis
  import SnapshotCursor
  import opened BacktestTrades
  import opened BacktestEngine
  import opened Diagnostics

  datatype RegimePoint = RegimePoint(effectiveAt: int, regime: Regime, volatility: Volatility)

  const DAY := 86400

  /** The regime of a daily history, effective once its last candle is complete. */
  function PointOf(sqrt: Root, history: seq<Candle>): RegimePoint
    requires history != []
  {
    var r := ClassifyRegime(history, AnalyzeTrend(sqrt, history));
    RegimePoint(history[|history| - 1].timestamp + DAY, r.regime, r.volatility)
  }

  /** One point for every prefix of the history. */
  function Timeline(sqrt: Root, history: seq<Candle>): seq<RegimePoint>
  {
    if history == [] then [] else Timeline(sqrt, history[..|history| - 1]) + [PointOf(sqrt, history)]
  }

  method BuildDailyRegimeTimeline(sqrt: Root, daily: seq<Candle>) returns (points: seq<RegimePoint>)
    ensures points == Timeline(sqrt, Ordered(daily))
  {
    hide PointOf, Ordered;
    var ordered := Ordered(daily);
    points := [];
    for i := 0 to |ordered|
      invariant points == Timeline(sqrt, ordered[..i])
    {
      assert ordered[..i + 1][..i] == ordered[..i];
      points := points + [PointOf(sqrt, ordered[..i + 1])];
    }
    assert ordered[..|ordered|] == ordered;
  }

  predicate Sorted(timeline: seq<RegimePoint>)
  {
    forall i, j :: 0 <= i < j < |timeline| ==> timeline[i].effectiveAt <= timeline[j].effectiveAt
  }

  lemma {:induction false} TimelineAt(sqrt: Root, history: seq<Candle>, i: nat)
    requires i < |history|
    ensures |Timeline(sqrt, history)| == |history| && Timeline(sqrt, history)[i] == PointOf(sqrt, history[..i + 1])
  {
    hide PointOf;
    var init := history[..|history| - 1];
    if i < |init| {
      TimelineAt(sqrt, init, i);
      assert init[..i + 1] == history[..i + 1];
    } else {
      if init != [] { TimelineAt(sqrt, init, 0); }
      assert history[..i + 1] == history;
    }
  }

  lemma TimelineSorted(sqrt: Root, history: seq<Candle>)
    requires NonDecreasing(history)
    ensures Sorted(Timeline(sqrt, history))
  {
    hide ClassifyRegime, AnalyzeTrend;
    if history != [] { TimelineAt(sqrt, history, 0); }
    forall i, j | 0 <= i < j < |Timeline(sqrt, history)|
      ensures Timeline(sqrt, history)[i].effectiveAt <= Timeline(sqrt, history)[j].effectiveAt
    {
      TimelineAt(sqrt, history, i);
      TimelineAt(sqrt, history, j);
      assert history[i].timestamp <= history[j].timestamp;
    }
  }

  /** The latest point already effective. */
  function Bucket(timeline: seq<RegimePoint>, time: int): Option<RegimePoint>
  {
    if timeline == [] then None
    else if timeline[|timeline| - 1].effectiveAt <= time then Some(timeline[|timeline| - 1])
    else Bucket(timeline[..|timeline| - 1], time)
  }

  lemma {:induction false} BucketSkips(timeline: seq<RegimePoint>, time: int, n: nat)
    requires n <= |timeline| && forall i :: n <= i < |timeline| ==> timeline[i].effectiveAt > time
    ensures Bucket(timeline, time) == Bucket(timeline[..n], time)
    decreases |timeline|
  {
    if n < |timeline| {
      assert timeline[..|timeline| - 1][..n] == timeline[..n];
      BucketSkips(timeline[..|timeline| - 1], time, n);
    } else {
      assert timeline[..n] == timeline;
    }
  }

  /** Binary search for the insertion point after equal keys, then one step back. */
  method BucketFor(time: int, timeline: seq<RegimePoint>) returns (point: Option<RegimePoint>)
    requires Sorted(timeline)
    ensures point == Bucket(timeline, time)
  {
    var lo, hi := 0, |timeline|;
    while lo < hi
      invariant 0 <= lo <= hi <= |timeline|
      invariant forall i :: 0 <= i < lo ==> timeline[i].effectiveAt <= time
      invariant forall i :: hi <= i < |timeline| ==> timeline[i].effectiveAt > time
    {
      var mid := (lo + hi) / 2;
      if time < timeline[mid].effectiveAt { hi := mid; } else { lo := mid + 1; }
    }
    BucketSkips(timeline, time, lo);
    return if lo == 0 then None else Some(timeline[lo - 1]);
  }

  /** An event falls in the regime of exactly the daily candles completed by its time. */
  lemma {:induction false} BucketIsCompletedHistory(sqrt: Root, history: seq<Candle>, time: int)
    requires NonDecreasing(history)
    ensures var completed := SnapshotCursor.Completed(history, D1, time);
      Bucket(Timeline(sqrt, history), time) == if completed == [] then None else Some(PointOf(sqrt, completed))
  {
    hide PointOf;
    if history != [] {
      var init := history[..|history| - 1];
      BucketIsCompletedHistory(sqrt, init, time);
      LastPoint(sqrt, history);
      assert Timeline(sqrt, history)[|Timeline(sqrt, history)| - 1] == PointOf(sqrt, history);
      assert Timeline(sqrt, history)[..|Timeline(sqrt, history)| - 1] == Timeline(sqrt, init);
      assert SnapshotCursor.Completed(init, D1, time) + [] == SnapshotCursor.Completed(init, D1, time);
      if history[|history| - 1].timestamp + DAY <= time {
        AllCompleted(init, time, history[|history| - 1]);
        assert init + [history[|history| - 1]] == history;
      }
    }
  }

  lemma LastPoint(sqrt: Root, history: seq<Candle>)
    requires history != []
    ensures PointOf(sqrt, history).effectiveAt == history[|history| - 1].timestamp + DAY
  {
  }

  lemma {:induction false} AllCompleted(history: seq<Candle>, time: int, last: Candle)
    requires NonDecreasing(history) && last.timestamp + DAY <= time
    requires forall i :: 0 <= i < |history| ==> history[i].timestamp <= last.timestamp
    ensures SnapshotCursor.Completed(history, D1, time) == history
  {
    if history != [] {
      AllCompleted(history[..|history| - 1], time, last);
      assert history == history[..|history| - 1] + [history[|history| - 1]];
    }
  }

  // ------------------------------------------------------------ events by regime

  /** The three groupings of the report: by regime, by volatility and by both. */
  datatype Group = ForRegime(regime: Regime) | ForVolatility(volatility: Volatility) | ForBoth(r: Regime, v: Volatility)

  datatype Tally = Of(code: Code) | DecisionPoints

  predicate InGroup(p: RegimePoint, g: Group)
  {
    match g
    case ForRegime(regime) => p.regime == regime
    case ForVolatility(volatility) => p.volatility == volatility
    case ForBoth(r, v) => p.regime == r && p.volatility == v
  }

  predicate Tallied(e: Event, t: Tally)
  {
    match t
    case Of(code) => e.code == code
    case DecisionPoints =>
      e.code in {DECISION_NO_SNAPSHOT, STRATEGY_PRE_SIGNAL_REJECT, STRATEGY_SIGNAL_REJECT, READY_FOR_RISK_REVIEW}
  }

  predicate Falls(timeline: seq<RegimePoint>, time: int, g: Group)
  {
    Bucket(timeline, time).Some? && InGroup(Bucket(timeline, time).value, g)
  }

  function CountIn(events: seq<Event>, timeline: seq<RegimePoint>, g: Group, t: Tally): nat
  {
    if events == [] then 0
    else
      var e := events[|events| - 1];
      CountIn(events[..|events| - 1], timeline, g, t)
      + if Falls(timeline, e.timestamp, g) && Tallied(e, t) then 1 else 0
  }

  function CountTally(events: seq<Event>, t: Tally): nat
  {
    match t
    case Of(code) => CodeCount(events, code)
    case DecisionPoints => PayloadOf(events).decisionPoints
  }

  type Counts = Counter<(Group, Tally)>

  /** Every event adds one under its code, and one decision point if it is one, to all its groups. */
  method AttributeEvents(events: seq<Event>, timeline: seq<RegimePoint>) returns (counts: Option<Counts>)
    requires Sorted(timeline)
    ensures counts.None? <==> exists i :: 0 <= i < |events| && Bucket(timeline, events[i].timestamp).None?
    ensures counts.Some? ==> forall g, t :: Get(counts.value, (g, t)) == CountIn(events, timeline, g, t)
  {
    hide Bucket;
    var m: Counts := map[];
    assert forall g, t :: Get(m, (g, t)) == 0;
    hide Get;
    for i := 0 to |events|
      invariant forall j :: 0 <= j < i ==> Bucket(timeline, events[j].timestamp).Some?
      invariant forall g, t :: Get(m, (g, t)) == CountIn(events[..i], timeline, g, t)
    {
      var e := events[i];
      assert events[..i + 1][..i] == events[..i];
      var point := BucketFor(e.timestamp, timeline);
      if point.None? { return None; }
      m := AddEvent(m, point.value, e);
    }
    assert events[..|events|] == events;
    return Some(m);
  }

  method AddEvent(m: Counts, p: RegimePoint, e: Event) returns (r: Counts)
    ensures forall g, t :: Get(r, (g, t)) == Get(m, (g, t)) + if InGroup(p, g) && Tallied(e, t) then 1 else 0
  {
    hide Get;
    r := AddTo(m, ForRegime(p.regime), e);
    r := AddTo(r, ForVolatility(p.volatility), e);
    r := AddTo(r, ForBoth(p.regime, p.volatility), e);
  }

  method AddTo(m: Counts, g: Group, e: Event) returns (r: Counts)
    ensures forall h, t :: Get(r, (h, t)) == Get(m, (h, t)) + if h == g && Tallied(e, t) then 1 else 0
  {
    hide Get;
    r := Bump(m, (g, Of(e.code)));
    if e.code in {DECISION_NO_SNAPSHOT, STRATEGY_PRE_SIGNAL_REJECT, STRATEGY_SIGNAL_REJECT, READY_FOR_RISK_REVIEW} {
      r := Bump(r, (g, DecisionPoints));
    }
  }

  /** What the report's buckets add up to. */
  function EventsOverRegimes(events: seq<Event>, timeline: seq<RegimePoint>, t: Tally): nat
  {
    CountIn(events, timeline, ForRegime(REGIME_UNKNOWN), t) + CountIn(events, timeline, ForRegime(TRENDING_BULL), t)
    + CountIn(events, timeline, ForRegime(TRENDING_BEAR), t) + CountIn(events, timeline, ForRegime(RANGING), t)
  }

  ghost predicate Covered(events: seq<Event>, timeline: seq<RegimePoint>)
  {
    forall i :: 0 <= i < |events| ==> Bucket(timeline, events[i].timestamp).Some?
  }

  /** The regimes partition the events: whatever is tallied, the buckets add up to the total. */
  lemma {:induction false} RegimesPartitionEvents(events: seq<Event>, timeline: seq<RegimePoint>, t: Tally)
    requires Covered(events, timeline)
    ensures EventsOverRegimes(events, timeline, t) == CountTally(events, t)
  {
    hide Bucket;
    if events != [] {
      RegimesPartitionEvents(events[..|events| - 1], timeline, t);
    }
  }

  // ------------------------------------------------------------ trades by regime

  function TradesIn(trades: seq<TradeRecord>, timeline: seq<RegimePoint>, g: Group): seq<TradeRecord>
  {
    if trades == [] then []
    else
      var t := trades[|trades| - 1];
      TradesIn(trades[..|trades| - 1], timeline, g) + if Falls(timeline, t.entryTime, g) then [t] else []
  }

  function TradesOverRegimes(trades: seq<TradeRecord>, timeline: seq<RegimePoint>): nat
  {
    |TradesIn(trades, timeline, ForRegime(REGIME_UNKNOWN))| + |TradesIn(trades, timeline, ForRegime(TRENDING_BULL))|
    + |TradesIn(trades, timeline, ForRegime(TRENDING_BEAR))| + |TradesIn(trades, timeline, ForRegime(RANGING))|
  }

  function PnlOverRegimes(trades: seq<TradeRecord>, timeline: seq<RegimePoint>): real
  {
    TotalPnl(TradesIn(trades, timeline, ForRegime(REGIME_UNKNOWN)))
    + TotalPnl(TradesIn(trades, timeline, ForRegime(TRENDING_BULL)))
    + TotalPnl(TradesIn(trades, timeline, ForRegime(TRENDING_BEAR)))
    + TotalPnl(TradesIn(trades, timeline, ForRegime(RANGING)))
  }

  lemma {:induction false} RegimesPartitionTrades(trades: seq<TradeRecord>, timeline: seq<RegimePoint>)
    requires forall i :: 0 <= i < |trades| ==> Bucket(timeline, trades[i].entryTime).Some?
    ensures TradesOverRegimes(trades, timeline) == |trades|
    ensures PnlOverRegimes(trades, timeline) == TotalPnl(trades)
  {
    hide Bucket, TotalPnl;
    if trades == [] {
      NoPnl();
    } else {
      var init, last := trades[..|trades| - 1], trades[|trades| - 1];
      RegimesPartitionTrades(init, timeline);
      assert trades == init + [last];
      TotalPnlConcat(init, [last]);
      PnlIn(trades, timeline, ForRegime(REGIME_UNKNOWN));
      PnlIn(trades, timeline, ForRegime(TRENDING_BULL));
      PnlIn(trades, timeline, ForRegime(TRENDING_BEAR));
      PnlIn(trades, timeline, ForRegime(RANGING));
    }
  }

  lemma PnlIn(trades: seq<TradeRecord>, timeline: seq<RegimePoint>, g: Group)
    requires trades != []
    ensures TotalPnl(TradesIn(trades, timeline, g))
         == TotalPnl(TradesIn(trades[..|trades| - 1], timeline, g))
            + if Falls(timeline, trades[|trades| - 1].entryTime, g) then TotalPnl([trades[|trades| - 1]]) else 0.0
  {
    hide Falls, TotalPnl;
    var before := TradesIn(trades[..|trades| - 1], timeline, g);
    TotalPnlConcat(before, [trades[|trades| - 1]]);
    assert before + [] == before;
  }

  lemma NoPnl()
    ensures TotalPnl([]) == 0.0
  {
  }

  // ------------------------------------------------------------------ the checks

  datatype Mismatch = DecisionPointMismatch | ReadyMismatch | EntryRejectionMismatch | TradeOpenMismatch
                    | ClosedTradeMismatch | PnlMismatch

  /** What the regime report is checked against; none means nothing is raised. */
  function ValidateRegimes(events: seq<Event>, trades: seq<TradeRecord>, timeline: seq<RegimePoint>, d: Payload):
    Option<Mismatch>
  {
    if EventsOverRegimes(events, timeline, DecisionPoints) != d.decisionPoints then Some(DecisionPointMismatch)
    else if EventsOverRegimes(events, timeline, Of(READY_FOR_RISK_REVIEW)) != d.ready then Some(ReadyMismatch)
    else if EventsOverRegimes(events, timeline, Of(ENTRY_REJECT)) != d.entryRejections then Some(EntryRejectionMismatch)
    else if EventsOverRegimes(events, timeline, Of(TRADE_OPENED)) != |trades| then Some(TradeOpenMismatch)
    else if TradesOverRegimes(trades, timeline) != |trades| then Some(ClosedTradeMismatch)
    else if PnlOverRegimes(trades, timeline) != TotalPnl(trades) then Some(PnlMismatch)
    else None
  }

  ghost predicate OpenSince(open: seq<OpenTrade>, start: int)
  {
    forall i :: 0 <= i < |open| ==> open[i].entryTime >= start
  }

  ghost predicate BookedSince(trades: seq<TradeRecord>, start: int)
  {
    forall i :: 0 <= i < |trades| ==> trades[i].entryTime >= start
  }

  lemma BookedConcat(a: seq<TradeRecord>, b: seq<TradeRecord>, start: int)
    requires BookedSince(a, start) && BookedSince(b, start)
    ensures BookedSince(a + b, start)
  {
  }

  /** Nothing the run reports is earlier than the start of its evaluation. */
  ghost predicate Since(s: State, start: int)
  {
    && (forall i :: 0 <= i < |s.events| ==> s.events[i].timestamp >= start)
    && OpenSince(s.open, start) && BookedSince(s.trades, start)
  }

  lemma {:induction false} ExitsKeepEntryTimes(
    c: Config, symbol: string, open: seq<OpenTrade>, bar: Candle, exitTime: int, start: int)
    requires OpenSince(open, start)
    ensures OpenSince(Exits(c, symbol, open, bar, exitTime).open, start)
    ensures BookedSince(Exits(c, symbol, open, bar, exitTime).closed, start)
  {
    hide Funding, Gross, Commission, IntrabarExit, ExitPrice, NetPnl;
    if open != [] {
      ExitsKeepEntryTimes(c, symbol, open[..|open| - 1], bar, exitTime, start);
      var before := Exits(c, symbol, open[..|open| - 1], bar, exitTime);
      var t := Funded(c, open[|open| - 1]);
      if IntrabarExit(t, bar).Some? {
        var (raw, reason) := IntrabarExit(t, bar).value;
        var exit := ExitPrice(c, t.signal.direction, raw);
        BookedConcat(before.closed, [Record(c, symbol, t, exit, exitTime, reason)], start);
      }
    }
  }

  lemma {:induction false} LiquidateKeepsEntryTimes(
    c: Config, symbol: string, open: seq<OpenTrade>, bar: Candle, exitTime: int, start: int)
    requires OpenSince(open, start)
    ensures BookedSince(Liquidate(c, symbol, open, bar, exitTime).closed, start)
  {
    hide Gross, Commission, ExitPrice, NetPnl;
    if open != [] { LiquidateKeepsEntryTimes(c, symbol, open[..|open| - 1], bar, exitTime, start); }
  }

  lemma EnterSince(c: Config, s: State, bar: Candle, start: int)
    requires Since(s, start) && bar.timestamp >= start && Enter(c, s, bar).Ok?
    ensures Since(Enter(c, s, bar).value, start)
  {
    hide TryOpen;
    if s.pending.Some? && (s.pending.value.direction == LONG || c.allowShort)
       && TryOpen(c, s, s.pending.value, bar).value.Opened? {
      OpensFresh(c, s, s.pending.value, bar);
    }
  }

  lemma BarSince(c: Config, symbol: string, start: int, decide: Decider, s: State, bar: Candle)
    requires Since(s, start) && Bar(c, symbol, Some(start), decide, s, bar).Ok?
    ensures Since(Bar(c, symbol, Some(start), decide, s, bar).value, start)
  {
    hide Enter, Exits;
    if InTest(Some(start), bar) { EnterSince(c, s, bar, start); }
    var entered := if InTest(Some(start), bar) then Enter(c, s, bar).value else s;
    var o := Exits(c, symbol, entered.open, bar, bar.timestamp + M15.Seconds());
    ExitsKeepEntryTimes(c, symbol, entered.open, bar, bar.timestamp + M15.Seconds(), start);
    BookedConcat(entered.trades, o.closed, start);
  }

  lemma {:induction false} BarsSince(c: Config, symbol: string, start: int, decide: Decider, bars: seq<Candle>)
    requires Bars(c, symbol, Some(start), decide, bars).Ok?
    ensures Since(Bars(c, symbol, Some(start), decide, bars).value, start)
  {
    hide Bar;
    if bars != [] {
      var init := bars[..|bars| - 1];
      BarsSince(c, symbol, start, decide, init);
      BarSince(c, symbol, start, decide, Bars(c, symbol, Some(start), decide, init).value, bars[|bars| - 1]);
    }
  }

  /** A pending signal comes from a bar in the test, so with ordered bars the last one is in it too. */
  lemma {:induction false} PendingInTest(c: Config, symbol: string, start: int, decide: Decider, bars: seq<Candle>)
    requires NonDecreasing(bars) && Bars(c, symbol, Some(start), decide, bars).Ok?
    ensures Bars(c, symbol, Some(start), decide, bars).value.pending.Some? ==>
      bars != [] && bars[|bars| - 1].timestamp >= start
  {
    hide Enter, Exits, Judge;
    if bars != [] {
      var init, last := bars[..|bars| - 1], bars[|bars| - 1];
      PendingInTest(c, symbol, start, decide, init);
      if init != [] { assert bars[|init| - 1].timestamp <= last.timestamp; }
    }
  }

  lemma RunSince(c: Config, symbol: string, start: int, decide: Decider, bars: seq<Candle>)
    requires bars != [] && NonDecreasing(bars) && Run(c, symbol, Some(start), decide, bars).Ok?
    ensures Since(Run(c, symbol, Some(start), decide, bars).value, start)
  {
    hide Bars, Liquidate;
    BarsSince(c, symbol, start, decide, bars);
    PendingInTest(c, symbol, start, decide, bars);
    var s, bar := Bars(c, symbol, Some(start), decide, bars).value, bars[|bars| - 1];
    LiquidateKeepsEntryTimes(c, symbol, s.open, bar, bar.timestamp + M15.Seconds(), start);
    BookedConcat(s.trades, Liquidate(c, symbol, s.open, bar, bar.timestamp + M15.Seconds()).closed, start);
  }

  lemma {:induction false} EffectiveStays(timeline: seq<RegimePoint>, time: int, later: int)
    requires Bucket(timeline, time).Some? && time <= later
    ensures Bucket(timeline, later).Some?
  {
    if timeline != [] && timeline[|timeline| - 1].effectiveAt > later {
      EffectiveStays(timeline[..|timeline| - 1], time, later);
    }
  }

  /**
   * For every run over ordered bars that returns, evaluated from a time with a regime already
   * effective, every event and trade has its regime and the regime report never fails its checks.
   */
  lemma RegimeReportNeverRaises(
    c: Config, symbol: string, start: int, decide: Decider, bars: seq<Candle>, timeline: seq<RegimePoint>)
    requires bars != [] && NonDecreasing(bars) && Run(c, symbol, Some(start), decide, bars).Ok?
    requires Bucket(timeline, start).Some?
    ensures var s := Run(c, symbol, Some(start), decide, bars).value;
      && Covered(s.events, timeline)
      && (forall i :: 0 <= i < |s.trades| ==> Bucket(timeline, s.trades[i].entryTime).Some?)
      && ValidateRegimes(s.events, s.trades, timeline, PayloadOf(s.events)) == None
  {
    hide Bucket, Run, CountIn, TradesIn, TotalPnl, EventsOverRegimes, TradesOverRegimes, PnlOverRegimes, Count, Reasons;
    var s := Run(c, symbol, Some(start), decide, bars).value;
    RunSince(c, symbol, start, decide, bars);
    DiagnosticsNeverDiverge(c, symbol, Some(start), decide, bars);
    forall time | time >= start ensures Bucket(timeline, time).Some? {
      EffectiveStays(timeline, start, time);
    }
    RegimesPartitionEvents(s.events, timeline, DecisionPoints);
    RegimesPartitionEvents(s.events, timeline, Of(READY_FOR_RISK_REVIEW));
    RegimesPartitionEvents(s.events, timeline, Of(ENTRY_REJECT));
    RegimesPartitionEvents(s.events, timeline, Of(TRADE_OPENED));
    RegimesPartitionTrades(s.trades, timeline);
  }

  // --------------------------------------------------------------- by direction

  /** Refusals of one direction, one for every reason given. */
  function RefusalsOf(events: seq<Event>, d: Side): nat
  {
    if events == [] then 0
    else
      var e := events[|events| - 1];
      RefusalsOf(events[..|events| - 1], d)
      + if e.code == ENTRY_REJECT && e.signal.Some? && e.signal.value.direction == d then |e.reasons| else 0
  }

  function TradesOf(trades: seq<TradeRecord>, d: Side): seq<TradeRecord>
  {
    if trades == [] then []
    else
      TradesOf(trades[..|trades| - 1], d)
      + if trades[|trades| - 1].direction == d then [trades[|trades| - 1]] else []
  }

  datatype Flow = Flow(ready: nat, refused: nat, trades: seq<TradeRecord>)

  function FlowOf(events: seq<Event>, trades: seq<TradeRecord>, d: Side): Flow
  {
    Flow(Count(events, ByDirection(READY_FOR_RISK_REVIEW, d)), RefusalsOf(events, d), TradesOf(trades, d))
  }

  method BuildDirectionFlow(events: seq<Event>, trades: seq<TradeRecord>) returns (long: Flow, short: Flow)
    ensures long == FlowOf(events, trades, LONG) && short == FlowOf(events, trades, SHORT)
  {
    var ready: Counter<Side>, refused: Counter<Side> := map[], map[];
    for i := 0 to |events|
      invariant forall d :: Get(ready, d) == Count(events[..i], ByDirection(READY_FOR_RISK_REVIEW, d))
      invariant forall d :: Get(refused, d) == RefusalsOf(events[..i], d)
    {
      var e := events[i];
      assert events[..i + 1][..i] == events[..i];
      if e.code == READY_FOR_RISK_REVIEW && e.signal.Some? {
        ready := Bump(ready, e.signal.value.direction);
      } else if e.code == ENTRY_REJECT && e.signal.Some? {
        var d := e.signal.value.direction;
        refused := refused[d := Get(refused, d) + |e.reasons|];
      }
    }
    assert events[..|events|] == events;
    var longs, shorts := GroupByDirection(trades);
    long := Flow(Get(ready, LONG), Get(refused, LONG), longs);
    short := Flow(Get(ready, SHORT), Get(refused, SHORT), shorts);
  }

  method GroupByDirection(trades: seq<TradeRecord>) returns (longs: seq<TradeRecord>, shorts: seq<TradeRecord>)
    ensures longs == TradesOf(trades, LONG) && shorts == TradesOf(trades, SHORT)
  {
    longs, shorts := [], [];
    for i := 0 to |trades|
      invariant longs == TradesOf(trades[..i], LONG) && shorts == TradesOf(trades[..i], SHORT)
    {
      assert trades[..i + 1][..i] == trades[..i];
      if trades[i].direction == LONG { longs := longs + [trades[i]]; } else { shorts := shorts + [trades[i]]; }
    }
    assert trades[..|trades|] == trades;
  }

  function ValidateDirections(long: Flow, short: Flow, d: Payload, trades: seq<TradeRecord>): Option<Mismatch>
  {
    if long.ready + short.ready != d.ready then Some(ReadyMismatch)
    else if long.refused + short.refused != d.entryRejections then Some(EntryRejectionMismatch)
    else if |long.trades| + |short.trades| != |trades| then Some(TradeOpenMismatch)
    else if TotalPnl(long.trades) + TotalPnl(short.trades) != TotalPnl(trades) then Some(PnlMismatch)
    else None
  }

  lemma {:induction false} DirectionsPartitionEvents(events: seq<Event>)
    requires forall i :: 0 <= i < |events| ==> WellFormed(events[i])
    ensures Count(events, ByDirection(READY_FOR_RISK_REVIEW, LONG))
            + Count(events, ByDirection(READY_FOR_RISK_REVIEW, SHORT))
         == CodeCount(events, READY_FOR_RISK_REVIEW)
    ensures RefusalsOf(events, LONG) + RefusalsOf(events, SHORT) == CodeCount(events, ENTRY_REJECT)
  {
    if events != [] {
      DirectionsPartitionEvents(events[..|events| - 1]);
    }
  }

  lemma {:induction false} DirectionsPartitionTrades(trades: seq<TradeRecord>)
    ensures |TradesOf(trades, LONG)| + |TradesOf(trades, SHORT)| == |trades|
    ensures TotalPnl(TradesOf(trades, LONG)) + TotalPnl(TradesOf(trades, SHORT)) == TotalPnl(trades)
  {
    hide TotalPnl;
    NoPnl();
    if trades != [] {
      var init, last := trades[..|trades| - 1], trades[|trades| - 1];
      DirectionsPartitionTrades(init);
      assert trades == init + [last];
      TotalPnlConcat(init, [last]);
      TotalPnlConcat(TradesOf(init, last.direction), [last]);
      assert TradesOf(init, LONG) + [] == TradesOf(init, LONG) && TradesOf(init, SHORT) + [] == TradesOf(init, SHORT);
    }
  }

  /** For every run that returns, the direction report never fails its checks either. */
  lemma DirectionReportNeverRaises(c: Config, symbol: string, start: Option<int>, decide: Decider, bars: seq<Candle>)
    requires bars != [] && Run(c, symbol, start, decide, bars).Ok?
    ensures var s := Run(c, symbol, start, decide, bars).value;
      ValidateDirections(
        FlowOf(s.events, s.trades, LONG), FlowOf(s.events, s.trades, SHORT), PayloadOf(s.events), s.trades)
      == None
  {
    hide Run, Count, RefusalsOf, TradesOf, TotalPnl;
    var s := Run(c, symbol, start, decide, bars).value;
    DiagnosticsNeverDiverge(c, symbol, start, decide, bars);
    DirectionsPartitionEvents(s.events);
    DirectionsPartitionTrades(s.trades);
  }
}
