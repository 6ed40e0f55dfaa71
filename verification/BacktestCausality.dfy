/**
 * The backtest with the snapshots it really uses: run on the incremental cursor it computes what the
 * stateless reference would, and it cannot see a candle that is not closed yet.
 */
module BacktestCausality {
  import opened Prelude
  import opened Candles
  import opened BatchAnalysis
  import opened SnapshotCursor
  import BacktestTrades
  import opened BacktestEngine

  type Strategy = map<Timeframe, MarketSnapshot<History>> -> Decision

  /** The decision at a time: analyse what is complete by then and ask the strategy. */
  function StrategyAt(sqrt: Root, symbol: string, rows: Rows, strategy: Strategy, time: int):
    Result<Decision, BacktestTrades.BacktestError>
    requires FRAMES <= rows.Keys
  {
    match Reference(sqrt, symbol, rows, time)
    case Err(_) => Err(BacktestTrades.AnalysisFailed)
    case Ok(None) => Ok(NoSnapshot)
    case Ok(Some(snapshots)) => Ok(strategy(snapshots))
  }

  function DecideFrom(sqrt: Root, symbol: string, rows: Rows, strategy: Strategy): Decider
    requires FRAMES <= rows.Keys
  {
    time => StrategyAt(sqrt, symbol, rows, strategy, time)
  }

  /** Two histories with the same candles among those that have ended by the time of some bar's decision. */
  ghost predicate SamePast(rows: Rows, other: Rows, bars: seq<Candle>)
    requires FRAMES <= rows.Keys && FRAMES <= other.Keys
  {
    forall i :: 0 <= i < |bars| ==> SameEnded(rows, other, bars[i].timestamp + 15 * 60)
  }

  /**
   * Equity, trades and events after these bars are the same for every continuation: candles that
   * have not ended by the close of the bars have no influence, whatever they contain.
   */
  lemma NoCandleFromTheFuture(
    c: BacktestTrades.Config, sqrt: Root, symbol: string, start: Option<int>, rows: Rows, other: Rows,
    strategy: Strategy, bars: seq<Candle>)
    requires FRAMES <= rows.Keys && FRAMES <= other.Keys && SamePast(rows, other, bars)
    ensures Bars(c, symbol, start, DecideFrom(sqrt, symbol, rows, strategy), bars)
         == Bars(c, symbol, start, DecideFrom(sqrt, symbol, other, strategy), bars)
  {
    hide AnalyzeMarket, Bars, ReferenceFor, SameEnded;
    var decide, later := DecideFrom(sqrt, symbol, rows, strategy), DecideFrom(sqrt, symbol, other, strategy);
    forall i | 0 <= i < |bars|
      ensures decide(bars[i].timestamp + M15.Seconds()) == later(bars[i].timestamp + M15.Seconds())
    {
      var time := bars[i].timestamp + M15.Seconds();
      NoLookAhead(sqrt, symbol, rows, other, time);
      assert Reference(sqrt, symbol, rows, time) == Reference(sqrt, symbol, other, time);
    }
    BarsDependOnThePast(c, symbol, start, decide, later, bars);
  }

  // ------------------------------------------------------------ run on the cursor

  /** One decision: advance the cursor, and let the strategy read the snapshots through their views. */
  method Decide(cursor: IncrementalSnapshotCursor, strategy: Strategy, time: int)
    returns (r: Result<Decision, BacktestTrades.BacktestError>)
    requires cursor.Valid() && AllWellFormed(cursor.rows, cursor.symbol)
    modifies cursor.Repr()
    ensures cursor.Valid() && fresh(cursor.Repr() - old(cursor.Repr()))
    ensures r == StrategyAt(cursor.sqrt, cursor.symbol, cursor.rows, strategy, time)
  {
    hide IncrementalSnapshotCursor.Valid, AllWellFormed, Reference;
    var snapshots := cursor.SnapshotsAt(time);
    if snapshots.Err? { return Err(BacktestTrades.AnalysisFailed); }
    if snapshots.value.None? { return Ok(NoSnapshot); }
    return Ok(strategy(ReadAll(snapshots.value.value)));
  }

  method StepOnCursor(
    c: BacktestTrades.Config, start: Option<int>, strategy: Strategy, s: State, bar: Candle,
    cursor: IncrementalSnapshotCursor)
    returns (r: Result<State, BacktestTrades.BacktestError>)
    requires cursor.Valid() && AllWellFormed(cursor.rows, cursor.symbol)
    modifies cursor.Repr()
    ensures cursor.Valid() && fresh(cursor.Repr() - old(cursor.Repr()))
    ensures r == Bar(c, cursor.symbol, start, DecideFrom(cursor.sqrt, cursor.symbol, cursor.rows, strategy), s, bar)
  {
    hide IncrementalSnapshotCursor.Valid, AllWellFormed, StrategyAt, Enter, Trading, Judge;
    var traded := TradeBar(c, cursor.symbol, start, s, bar);
    if traded.Err? { return Err(traded.error); }
    var time := bar.timestamp + M15.Seconds();
    var decision := Decide(cursor, strategy, time);
    if decision.Err? { return Err(decision.error); }
    return Ok(if InTest(start, bar) then Judge(traded.value, time, decision.value) else traded.value);
  }

  /**
   * The whole backtest with one cursor advanced bar by bar.  Its result is that of the run which
   * filters and analyses the completed candles afresh at every decision.
   */
  method RunOnCursor(
    c: BacktestTrades.Config, sqrt: Root, symbol: string, start: Option<int>, rows: Rows, strategy: Strategy)
    returns (r: Result<State, BacktestTrades.BacktestError>)
    requires FRAMES <= rows.Keys && AllWellFormed(rows, symbol) && rows[M15] != []
    ensures r == Run(c, symbol, start, DecideFrom(sqrt, symbol, rows, strategy), rows[M15])
  {
    hide IncrementalSnapshotCursor.Valid, AllWellFormed, StrategyAt, Bar, Finish;
    var bars := rows[M15];
    var cursor := new IncrementalSnapshotCursor(sqrt, symbol, rows);
    var s := Start(c);
    for i := 0 to |bars|
      invariant cursor.Valid() && fresh(cursor.Repr())
      invariant Bars(c, symbol, start, DecideFrom(sqrt, symbol, rows, strategy), bars[..i]) == Ok(s)
    {
      assert bars[..i + 1][..i] == bars[..i];
      var next := StepOnCursor(c, start, strategy, s, bars[i], cursor);
      if next.Err? {
        StaysFailed(c, symbol, start, DecideFrom(sqrt, symbol, rows, strategy), bars, i + 1);
        return Err(next.error);
      }
      s := next.value;
    }
    assert bars[..|bars|] == bars;
    s := Conclude(c, symbol, s, bars[|bars| - 1]);
    return Ok(s);
  }
}
