/** The multi-symbol event loop: one shared equity, at most one open trade per symbol. */
module PortfolioBacktest {
  import opened Prelude
  import opened Candles
  import opened Positions
  import opened BacktestTrades
  import opened BacktestEngine

  datatype SymbolState = SymbolState(
    bars: seq<Candle>, pending: Option<Signal>, open: seq<OpenTrade>, trades: seq<TradeRecord>, rejected: nat,
    maxConcurrent: nat)

  datatype Book = Book(equity: real, curve: seq<real>, states: map<string, SymbolState>, entries: nat)

  /** Correlations as given; order is the order the symbols were given in. */
  datatype Setup = Setup(config: Config, correlations: map<(string, string), real>, order: seq<string>)

  type SymbolDecider = (string, int) -> Result<Decision, BacktestError>

  ghost predicate ValidSetup(u: Setup)
  {
    forall i, j :: 0 <= i < j < |u.order| ==> u.order[i] != u.order[j]
  }

  ghost predicate Covers(u: Setup, states: map<string, SymbolState>)
  {
    ValidSetup(u) && forall s :: s in u.order <==> s in states
  }

  function BarAt(bars: seq<Candle>, time: int): Option<Candle>
  {
    if bars == [] then None else if bars[0].timestamp == time then Some(bars[0]) else BarAt(bars[1..], time)
  }

  // ------------------------------------------------------------------ opening a trade

  function RiskOver(states: map<string, SymbolState>, symbols: seq<string>): real
    requires forall s :: s in symbols ==> s in states
  {
    if symbols == [] then 0.0
    else RiskOver(states, symbols[..|symbols| - 1]) + TotalRisk(states[symbols[|symbols| - 1]].open)
  }

  function CapitalOver(states: map<string, SymbolState>, symbols: seq<string>): real
    requires forall s :: s in symbols ==> s in states
  {
    if symbols == [] then 0.0
    else CapitalOver(states, symbols[..|symbols| - 1]) + TotalCapital(states[symbols[|symbols| - 1]].open)
  }

  /** The correlation of two symbols, given either way round, clamped; only positive ones count. */
  function Correlation(u: Setup, symbol: string, other: string): real
  {
    var raw := if (symbol, other) in u.correlations then u.correlations[(symbol, other)]
               else if (other, symbol) in u.correlations then u.correlations[(other, symbol)] else 0.0;
    Max(0.0, Max(-1.0, Min(1.0, raw)))
  }

  function CorrelatedRisk(
    u: Setup, symbol: string, newRisk: real, states: map<string, SymbolState>, symbols: seq<string>): real
    requires forall s :: s in symbols ==> s in states
  {
    if symbols == [] then newRisk
    else
      var other := symbols[|symbols| - 1];
      var before := CorrelatedRisk(u, symbol, newRisk, states, symbols[..|symbols| - 1]);
      if other == symbol then before else before + TotalRisk(states[other].open) * Correlation(u, symbol, other)
  }

  const CORRELATED_PERCENT := 2.0

  /** The sized trade, nothing when a limit refuses it, or what raises. */
  function TryOpenShared(u: Setup, book: Book, symbol: string, signal: Signal, bar: Candle):
    Result<Option<OpenTrade>, BacktestError>
    requires symbol in book.states && forall s :: s in u.order ==> s in book.states
  {
    var c := u.config;
    var entry := EntryPrice(c, signal.direction, bar.open);
    if book.states[symbol].open != [] || book.equity <= 0.0 then Ok(None)
    else if entry == 0.0 then Err(DivisionByZero)
    else
      var distance := Distance(entry, signal.stopLoss);
      if distance <= 0.0 || signal.stopLoss <= 0.0 then Ok(None)
      else
        match RiskBudget(book.equity, c.riskPerTradePercent)
        case Err(e) => Err(e)
        case Ok(risk) =>
          match RiskBudget(book.equity, c.maxAggregateRiskPercent)
          case Err(e) => Err(e)
          case Ok(budget) =>
            if RiskOver(book.states, u.order) + risk > budget then Ok(None)
            else if CorrelatedRisk(u, symbol, risk, book.states, u.order) > book.equity * CORRELATED_PERCENT / 100.0
            then Ok(None)
            else
              var amount := PerDistance(risk, distance);
              match RiskBudget(book.equity, c.maxFuturesCapitalPercent)
              case Err(e) => Err(e)
              case Ok(capital) =>
                if CapitalOver(book.states, u.order) + amount > capital then Ok(None)
                else Ok(Some(NewTrade(c, book.entries, signal, bar, entry, amount)))
  }

  // -------------------------------------------------------------- one symbol, one bar

  function EnterSymbol(u: Setup, book: Book, symbol: string, bar: Candle): (r: Result<Book, BacktestError>)
    requires symbol in book.states && forall s :: s in u.order ==> s in book.states
    ensures r.Ok? ==> r.value.states.Keys == book.states.Keys
  {
    var state := book.states[symbol];
    var idle := state.(pending := None);
    if state.pending.None? then Ok(book)
    else if state.pending.value.direction == SHORT && !u.config.allowShort then
      Ok(book.(states := book.states[symbol := idle.(rejected := state.rejected + 1)]))
    else
      match TryOpenShared(u, book, symbol, state.pending.value, bar)
      case Err(e) => Err(e)
      case Ok(None) => Ok(book.(states := book.states[symbol := idle]))
      case Ok(Some(trade)) =>
        var open := state.open + [trade];
        Ok(book.(equity := book.equity - trade.entryCommission, entries := book.entries + 1,
                 states := book.states[symbol := idle.(open := open,
                             maxConcurrent := if |open| > state.maxConcurrent then |open| else state.maxConcurrent)]))
  }

  function ExitSymbol(u: Setup, book: Book, symbol: string, bar: Candle): Book
    requires symbol in book.states
  {
    var state := book.states[symbol];
    var o := Exits(u.config, symbol, state.open, bar, bar.timestamp);
    book.(equity := book.equity + o.flow,
          states := book.states[symbol := state.(open := o.open, trades := state.trades + o.closed)])
  }

  function DecideSymbol(book: Book, symbol: string, decision: Decision): (r: Book)
    requires symbol in book.states
    ensures r.states.Keys == book.states.Keys
  {
    var state := book.states[symbol];
    match decision
    case NoSnapshot => book
    case Ready(signal) => book.(states := book.states[symbol := state.(pending := Some(signal))])
    case _ => book.(states := book.states[symbol := state.(rejected := state.rejected + 1)])
  }

  // --------------------------------------------------- the three passes over a timestamp

  datatype Pass = Entering | Exiting | Deciding

  /** What one pass does for one symbol; a symbol without a bar at this time is left alone. */
  function PassSymbol(u: Setup, decide: SymbolDecider, pass: Pass, book: Book, symbol: string, time: int):
    Result<Book, BacktestError>
    requires symbol in book.states && forall s :: s in u.order ==> s in book.states
  {
    match BarAt(book.states[symbol].bars, time)
    case None => Ok(book)
    case Some(bar) =>
      match pass
      case Entering => EnterSymbol(u, book, symbol, bar)
      case Exiting => Ok(ExitSymbol(u, book, symbol, bar))
      case Deciding =>
        match decide(symbol, time + M15.Seconds())
        case Err(e) => Err(e)
        case Ok(decision) => Ok(DecideSymbol(book, symbol, decision))
  }

  /** One pass over the symbols, in sorted order. */
  function PassOver(u: Setup, decide: SymbolDecider, pass: Pass, book: Book, sorted: seq<string>, time: int):
    (r: Result<Book, BacktestError>)
    requires (forall s :: s in sorted ==> s in book.states) && forall s :: s in u.order ==> s in book.states
    ensures r.Ok? ==> r.value.states.Keys == book.states.Keys
  {
    if sorted == [] then Ok(book)
    else
      match PassOver(u, decide, pass, book, sorted[..|sorted| - 1], time)
      case Err(e) => Err(e)
      case Ok(before) => PassSymbol(u, decide, pass, before, sorted[|sorted| - 1], time)
  }

  function Noted(book: Book): Book
  {
    book.(curve := book.curve + [book.equity])
  }

  /** Entries of all symbols, then funding and exits of all, then the equity point, then decisions. */
  function Moment(u: Setup, decide: SymbolDecider, book: Book, sorted: seq<string>, time: int):
    (r: Result<Book, BacktestError>)
    requires (forall s :: s in sorted ==> s in book.states) && forall s :: s in u.order ==> s in book.states
    ensures r.Ok? ==> r.value.states.Keys == book.states.Keys
  {
    match PassOver(u, decide, Entering, book, sorted, time)
    case Err(e) => Err(e)
    case Ok(entered) =>
      match PassOver(u, decide, Exiting, entered, sorted, time)
      case Err(e) => Err(e)
      case Ok(exited) => PassOver(u, decide, Deciding, Noted(exited), sorted, time)
  }

  function Moments(u: Setup, decide: SymbolDecider, start: Book, sorted: seq<string>, timeline: seq<int>):
    (r: Result<Book, BacktestError>)
    requires (forall s :: s in sorted ==> s in start.states) && forall s :: s in u.order ==> s in start.states
    ensures r.Ok? ==> r.value.states.Keys == start.states.Keys
  {
    if timeline == [] then Ok(start)
    else
      match Moments(u, decide, start, sorted, timeline[..|timeline| - 1])
      case Err(e) => Err(e)
      case Ok(book) => Moment(u, decide, book, sorted, timeline[|timeline| - 1])
  }

  function CloseSymbol(u: Setup, book: Book, symbol: string): Book
    requires symbol in book.states
  {
    var state := book.states[symbol];
    if state.open == [] || state.bars == [] then book
    else
      var bar := state.bars[|state.bars| - 1];
      var o := Liquidate(u.config, symbol, state.open, bar, bar.timestamp);
      Noted(book.(equity := book.equity + o.flow,
                  states := book.states[symbol := state.(open := [], trades := state.trades + o.closed)]))
  }

  /** After the last timestamp whatever is open is closed, symbol by symbol. */
  function CloseOver(u: Setup, book: Book, symbols: seq<string>): (r: Book)
    requires forall s :: s in symbols ==> s in book.states
    ensures r.states.Keys == book.states.Keys
  {
    if symbols == [] then book
    else CloseSymbol(u, CloseOver(u, book, symbols[..|symbols| - 1]), symbols[|symbols| - 1])
  }

  function RunPortfolio(u: Setup, decide: SymbolDecider, start: Book, sorted: seq<string>, timeline: seq<int>):
    Result<Book, BacktestError>
    requires (forall s :: s in sorted ==> s in start.states) && forall s :: s in u.order ==> s in start.states
  {
    match Moments(u, decide, start, sorted, timeline)
    case Err(e) => Err(e)
    case Ok(book) => Ok(CloseOver(u, book, u.order))
  }

  // --------------------------------------------------------------------- the invariant

  /** What a symbol has contributed: its booked results minus what its open trade has cost. */
  function Own(state: SymbolState): real
  {
    TotalPnl(state.trades) - Held(state.open)
  }

  function Contributed(states: map<string, SymbolState>, symbols: seq<string>): real
    requires forall s :: s in symbols ==> s in states
  {
    if symbols == [] then 0.0
    else Contributed(states, symbols[..|symbols| - 1]) + Own(states[symbols[|symbols| - 1]])
  }

  ghost predicate Conserved(u: Setup, book: Book)
  {
    && Covers(u, book.states)
    && book.equity == u.config.initialEquity + Contributed(book.states, u.order)
    && (forall s :: s in book.states ==> |book.states[s].open| <= 1 && book.states[s].bars != [])
  }

  lemma {:induction false} ContributedFrame(
    states: map<string, SymbolState>, next: map<string, SymbolState>, symbols: seq<string>)
    requires forall s :: s in symbols ==> s in states && s in next && next[s] == states[s]
    ensures Contributed(next, symbols) == Contributed(states, symbols)
  {
    hide Own;
    if symbols != [] { ContributedFrame(states, next, symbols[..|symbols| - 1]); }
  }

  /** Changing one symbol changes the total by the change of its own contribution. */
  lemma {:induction false} ContributedUpdate(
    states: map<string, SymbolState>, symbols: seq<string>, symbol: string, state: SymbolState)
    requires forall s :: s in symbols ==> s in states
    requires symbol in symbols && forall i, j :: 0 <= i < j < |symbols| ==> symbols[i] != symbols[j]
    ensures Contributed(states[symbol := state], symbols)
         == Contributed(states, symbols) - Own(states[symbol]) + Own(state)
  {
    hide Own;
    var init, last := symbols[..|symbols| - 1], symbols[|symbols| - 1];
    if last == symbol {
      ContributedFrame(states, states[symbol := state], init);
    } else {
      assert symbol in init;
      ContributedUpdate(states, init, symbol, state);
    }
  }

  /** A step that changes one symbol and moves equity by the change of its contribution. */
  lemma UpdateConserves(u: Setup, book: Book, next: Book, symbol: string, state: SymbolState)
    requires Conserved(u, book) && symbol in book.states
    requires next.states == book.states[symbol := state]
    requires next.equity - book.equity == Own(state) - Own(book.states[symbol])
    requires |state.open| <= 1 && state.bars != []
    ensures Conserved(u, next)
  {
    hide Own;
    ContributedUpdate(book.states, u.order, symbol, state);
  }

  lemma SharedOpensFresh(u: Setup, book: Book, symbol: string, signal: Signal, bar: Candle)
    requires symbol in book.states && forall s :: s in u.order ==> s in book.states
    requires TryOpenShared(u, book, symbol, signal, bar).Ok? && TryOpenShared(u, book, symbol, signal, bar).value.Some?
    ensures TryOpenShared(u, book, symbol, signal, bar).value.value.fundingCost == 0.0
    ensures book.states[symbol].open == []
  {
    hide EntryPrice, Commission, RiskOver, CapitalOver, CorrelatedRisk, RiskBudget, Distance, PerDistance;
  }

  lemma EnterConserves(u: Setup, book: Book, symbol: string, bar: Candle)
    requires Conserved(u, book) && symbol in book.states
    requires EnterSymbol(u, book, symbol, bar).Ok?
    ensures Conserved(u, EnterSymbol(u, book, symbol, bar).value)
  {
    hide TryOpenShared, Conserved, TotalPnl, Held;
    KnownSymbol(u, book, symbol);
    var state, next := book.states[symbol], EnterSymbol(u, book, symbol, bar).value;
    if state.pending.Some? {
      if (state.pending.value.direction == LONG || u.config.allowShort)
         && TryOpenShared(u, book, symbol, state.pending.value, bar).value.Some? {
        SharedOpensFresh(u, book, symbol, state.pending.value, bar);
        HeldSnoc(state.open, TryOpenShared(u, book, symbol, state.pending.value, bar).value.value);
      }
      UpdateConserves(u, book, next, symbol, next.states[symbol]);
    }
  }

  lemma KnownSymbol(u: Setup, book: Book, symbol: string)
    requires Conserved(u, book) && symbol in book.states
    ensures |book.states[symbol].open| <= 1 && book.states[symbol].bars != []
    ensures forall s :: s in u.order <==> s in book.states
  {
  }

  lemma PassSymbolConserves(
    u: Setup, decide: SymbolDecider, pass: Pass, book: Book, symbol: string, time: int)
    requires Conserved(u, book) && symbol in book.states
    requires PassSymbol(u, decide, pass, book, symbol, time).Ok?
    ensures Conserved(u, PassSymbol(u, decide, pass, book, symbol, time).value)
  {
    hide Exits, Conserved, EnterSymbol, TotalPnl, Held;
    KnownSymbol(u, book, symbol);
    var found := BarAt(book.states[symbol].bars, time);
    if found.Some? {
      var state, next := book.states[symbol], PassSymbol(u, decide, pass, book, symbol, time).value;
      match pass
      case Entering => EnterConserves(u, book, symbol, found.value);
      case Exiting =>
        ExitsConserve(u.config, symbol, state.open, found.value, found.value.timestamp);
        TotalPnlConcat(state.trades, Exits(u.config, symbol, state.open, found.value, found.value.timestamp).closed);
        UpdateConserves(u, book, next, symbol, next.states[symbol]);
      case Deciding =>
        if next != book { UpdateConserves(u, book, next, symbol, next.states[symbol]); }
    }
  }

  lemma {:induction false} PassConserves(
    u: Setup, decide: SymbolDecider, pass: Pass, book: Book, sorted: seq<string>, time: int)
    requires Conserved(u, book) && forall s :: s in sorted ==> s in book.states
    requires PassOver(u, decide, pass, book, sorted, time).Ok?
    ensures Conserved(u, PassOver(u, decide, pass, book, sorted, time).value)
  {
    hide PassSymbol, Contributed;
    if sorted != [] {
      PassConserves(u, decide, pass, book, sorted[..|sorted| - 1], time);
      PassSymbolConserves(u, decide, pass, PassOver(u, decide, pass, book, sorted[..|sorted| - 1], time).value,
                          sorted[|sorted| - 1], time);
    }
  }

  /** After every timestamp of every run, equity is conserved and no symbol holds two trades. */
  lemma {:induction false} MomentsConserve(
    u: Setup, decide: SymbolDecider, start: Book, sorted: seq<string>, timeline: seq<int>)
    requires Conserved(u, start) && forall s :: s in sorted ==> s in start.states
    requires Moments(u, decide, start, sorted, timeline).Ok?
    ensures Conserved(u, Moments(u, decide, start, sorted, timeline).value)
  {
    hide PassOver, Contributed;
    if timeline != [] {
      var time := timeline[|timeline| - 1];
      MomentsConserve(u, decide, start, sorted, timeline[..|timeline| - 1]);
      var book := Moments(u, decide, start, sorted, timeline[..|timeline| - 1]).value;
      PassConserves(u, decide, Entering, book, sorted, time);
      var entered := PassOver(u, decide, Entering, book, sorted, time).value;
      PassConserves(u, decide, Exiting, entered, sorted, time);
      var exited := PassOver(u, decide, Exiting, entered, sorted, time).value;
      PassConserves(u, decide, Deciding, Noted(exited), sorted, time);
    }
  }

  lemma {:induction false} CloseConserves(u: Setup, book: Book, symbols: seq<string>)
    requires Conserved(u, book) && forall s :: s in symbols ==> s in book.states
    ensures Conserved(u, CloseOver(u, book, symbols))
    ensures forall s :: s in symbols ==> CloseOver(u, book, symbols).states[s].open == []
  {
    hide Liquidate, Conserved, TotalPnl;
    if symbols != [] {
      var init, symbol := symbols[..|symbols| - 1], symbols[|symbols| - 1];
      CloseConserves(u, book, init);
      var before := CloseOver(u, book, init);
      KnownSymbol(u, before, symbol);
      var state := before.states[symbol];
      if state.open != [] {
        var bar := state.bars[|state.bars| - 1];
        LiquidateConserves(u.config, symbol, state.open, bar, bar.timestamp);
        TotalPnlConcat(state.trades, Liquidate(u.config, symbol, state.open, bar, bar.timestamp).closed);
        var next := CloseSymbol(u, before, symbol);
        UpdateConserves(u, before, next, symbol, next.states[symbol]);
      }
    }
  }

  function GainsOver(states: map<string, SymbolState>, symbols: seq<string>): real
    requires forall s :: s in symbols ==> s in states
  {
    if symbols == [] then 0.0
    else GainsOver(states, symbols[..|symbols| - 1]) + TotalPnl(states[symbols[|symbols| - 1]].trades)
  }

  lemma {:induction false} GainsAreContributions(states: map<string, SymbolState>, symbols: seq<string>)
    requires forall s :: s in symbols ==> s in states && states[s].open == []
    ensures Contributed(states, symbols) == GainsOver(states, symbols)
  {
    hide TotalPnl;
    if symbols != [] { GainsAreContributions(states, symbols[..|symbols| - 1]); }
  }

  /** At the end nothing is open, and the portfolio gain is the sum of the per-symbol gains. */
  lemma PortfolioConserves(
    u: Setup, decide: SymbolDecider, start: Book, sorted: seq<string>, timeline: seq<int>)
    requires Conserved(u, start) && forall s :: s in sorted ==> s in start.states
    requires RunPortfolio(u, decide, start, sorted, timeline).Ok?
    ensures var book := RunPortfolio(u, decide, start, sorted, timeline).value;
      && Covers(u, book.states)
      && (forall s :: s in book.states ==> book.states[s].open == [])
      && book.equity == u.config.initialEquity + GainsOver(book.states, u.order)
  {
    hide Moments, CloseOver, GainsOver;
    MomentsConserve(u, decide, start, sorted, timeline);
    var book := Moments(u, decide, start, sorted, timeline).value;
    CloseConserves(u, book, u.order);
    GainsAreContributions(CloseOver(u, book, u.order).states, u.order);
  }

  /** The book a run starts from: no trades, and the configured equity. */
  lemma StartConserves(u: Setup, book: Book)
    requires Covers(u, book.states) && book.equity == u.config.initialEquity
    requires forall s :: s in book.states ==>
      book.states[s].open == [] && book.states[s].trades == [] && book.states[s].bars != []
    ensures Conserved(u, book)
  {
    NothingContributed(book.states, u.order);
  }

  lemma {:induction false} NothingContributed(states: map<string, SymbolState>, symbols: seq<string>)
    requires forall s :: s in symbols ==> s in states && states[s].open == [] && states[s].trades == []
    ensures Contributed(states, symbols) == 0.0
  {
    if symbols != [] { NothingContributed(states, symbols[..|symbols| - 1]); }
  }

  lemma {:induction false} RiskOverUpdate(
    states: map<string, SymbolState>, symbols: seq<string>, symbol: string, state: SymbolState)
    requires forall s :: s in symbols ==> s in states
    requires symbol in symbols && forall i, j :: 0 <= i < j < |symbols| ==> symbols[i] != symbols[j]
    ensures RiskOver(states[symbol := state], symbols)
         == RiskOver(states, symbols) - TotalRisk(states[symbol].open) + TotalRisk(state.open)
    ensures CapitalOver(states[symbol := state], symbols)
         == CapitalOver(states, symbols) - TotalCapital(states[symbol].open) + TotalCapital(state.open)
  {
    hide TotalRisk, TotalCapital;
    var init, last := symbols[..|symbols| - 1], symbols[|symbols| - 1];
    if last == symbol {
      RiskOverFrame(states, states[symbol := state], init);
    } else {
      assert symbol in init;
      RiskOverUpdate(states, init, symbol, state);
    }
  }

  lemma {:induction false} RiskOverFrame(
    states: map<string, SymbolState>, next: map<string, SymbolState>, symbols: seq<string>)
    requires forall s :: s in symbols ==> s in states && s in next && next[s] == states[s]
    ensures RiskOver(next, symbols) == RiskOver(states, symbols)
    ensures CapitalOver(next, symbols) == CapitalOver(states, symbols)
  {
    hide TotalRisk, TotalCapital;
    if symbols != [] { RiskOverFrame(states, next, symbols[..|symbols| - 1]); }
  }

  /** A shared entry keeps the whole portfolio within its risk, capital and correlation limits. */
  lemma SharedOpensWithinLimits(u: Setup, book: Book, symbol: string, signal: Signal, bar: Candle)
    requires Covers(u, book.states) && symbol in book.states
    requires TryOpenShared(u, book, symbol, signal, bar).Ok? && TryOpenShared(u, book, symbol, signal, bar).value.Some?
    ensures var trade := TryOpenShared(u, book, symbol, signal, bar).value.value;
      var after := book.states[symbol := book.states[symbol].(open := [trade])];
      && RiskBudget(book.equity, u.config.riskPerTradePercent) == Ok(RiskCash(trade))
      && RiskOver(after, u.order) <= book.equity * u.config.maxAggregateRiskPercent / 100.0
      && CapitalOver(after, u.order) <= book.equity * u.config.maxFuturesCapitalPercent / 100.0
      && CorrelatedRisk(u, symbol, RiskCash(trade), book.states, u.order) <= book.equity * 2.0 / 100.0
  {
    hide EntryPrice, Commission, RiskOver, CapitalOver, CorrelatedRisk, TotalRisk, TotalCapital, RiskCash;
    var trade := TryOpenShared(u, book, symbol, signal, bar).value.value;
    var risk := RiskBudget(book.equity, u.config.riskPerTradePercent).value;
    RiskIsBudget(trade, Distance(trade.entryPrice, signal.stopLoss), risk);
    RiskOverUpdate(book.states, u.order, symbol, book.states[symbol].(open := [trade]));
    OneTrade(trade);
  }

  lemma OneTrade(trade: OpenTrade)
    ensures TotalRisk([trade]) == RiskCash(trade) && TotalCapital([trade]) == trade.totalAmount
    ensures TotalRisk([]) == 0.0 && TotalCapital([]) == 0.0
  {
    hide RiskCash;
  }

  // ------------------------------------------------------------------- the loops

  method Sweep(u: Setup, decide: SymbolDecider, pass: Pass, start: Book, sorted: seq<string>, time: int)
    returns (r: Result<Book, BacktestError>)
    requires (forall s :: s in sorted ==> s in start.states) && forall s :: s in u.order ==> s in start.states
    ensures r == PassOver(u, decide, pass, start, sorted, time)
  {
    hide EnterSymbol, Exits, DecideSymbol;
    var book := start;
    var i := 0;
    while i < |sorted|
      invariant 0 <= i <= |sorted| && book.states.Keys == start.states.Keys
      invariant PassOver(u, decide, pass, start, sorted[..i], time) == Ok(book)
    {
      assert sorted[..i + 1][..i] == sorted[..i];
      var symbol := sorted[i];
      var found := BarAt(book.states[symbol].bars, time);
      if found.Some? {
        match pass {
          case Entering =>
            var entered := EnterSymbol(u, book, symbol, found.value);
            if entered.Err? {
              PassStaysFailed(u, decide, pass, start, sorted, time, i + 1);
              return entered;
            }
            book := entered.value;
          case Exiting =>
            var state := book.states[symbol];
            var open, closed, equity :=
              ProcessExits(u.config, symbol, state.open, found.value, found.value.timestamp, book.equity);
            book := book.(equity := equity,
                          states := book.states[symbol := state.(open := open, trades := state.trades + closed)]);
          case Deciding =>
            var decision := decide(symbol, time + M15.Seconds());
            if decision.Err? {
              PassStaysFailed(u, decide, pass, start, sorted, time, i + 1);
              return Err(decision.error);
            }
            book := DecideSymbol(book, symbol, decision.value);
        }
      }
      i := i + 1;
    }
    assert sorted[..i] == sorted;
    return Ok(book);
  }

  lemma {:induction false} PassStaysFailed(
    u: Setup, decide: SymbolDecider, pass: Pass, book: Book, sorted: seq<string>, time: int, k: nat)
    requires (forall s :: s in sorted ==> s in book.states) && forall s :: s in u.order ==> s in book.states
    requires k <= |sorted| && PassOver(u, decide, pass, book, sorted[..k], time).Err?
    ensures PassOver(u, decide, pass, book, sorted, time) == PassOver(u, decide, pass, book, sorted[..k], time)
    decreases |sorted|
  {
    hide PassSymbol;
    if k == |sorted| {
      assert sorted[..k] == sorted;
    } else {
      assert sorted[..|sorted| - 1][..k] == sorted[..k];
      PassStaysFailed(u, decide, pass, book, sorted[..|sorted| - 1], time, k);
    }
  }

  lemma {:induction false} MomentsStayFailed(
    u: Setup, decide: SymbolDecider, start: Book, sorted: seq<string>, timeline: seq<int>, k: nat)
    requires (forall s :: s in sorted ==> s in start.states) && forall s :: s in u.order ==> s in start.states
    requires k <= |timeline| && Moments(u, decide, start, sorted, timeline[..k]).Err?
    ensures Moments(u, decide, start, sorted, timeline) == Moments(u, decide, start, sorted, timeline[..k])
    decreases |timeline|
  {
    hide Moment;
    if k == |timeline| {
      assert timeline[..k] == timeline;
    } else {
      assert timeline[..|timeline| - 1][..k] == timeline[..k];
      MomentsStayFailed(u, decide, start, sorted, timeline[..|timeline| - 1], k);
    }
  }

  method Step(u: Setup, decide: SymbolDecider, book: Book, sorted: seq<string>, time: int)
    returns (r: Result<Book, BacktestError>)
    requires (forall s :: s in sorted ==> s in book.states) && forall s :: s in u.order ==> s in book.states
    ensures r == Moment(u, decide, book, sorted, time)
  {
    hide PassOver;
    r := Sweep(u, decide, Entering, book, sorted, time);
    if r.Err? { return; }
    r := Sweep(u, decide, Exiting, r.value, sorted, time);
    if r.Err? { return; }
    r := Sweep(u, decide, Deciding, Noted(r.value), sorted, time);
  }

  method RunLoop(u: Setup, decide: SymbolDecider, start: Book, sorted: seq<string>, timeline: seq<int>)
    returns (r: Result<Book, BacktestError>)
    requires (forall s :: s in sorted ==> s in start.states) && forall s :: s in u.order ==> s in start.states
    ensures r == RunPortfolio(u, decide, start, sorted, timeline)
  {
    hide Moment, Liquidate;
    var book := start;
    var i := 0;
    while i < |timeline|
      invariant 0 <= i <= |timeline| && book.states.Keys == start.states.Keys
      invariant Moments(u, decide, start, sorted, timeline[..i]) == Ok(book)
    {
      assert timeline[..i + 1][..i] == timeline[..i];
      var next := Step(u, decide, book, sorted, timeline[i]);
      if next.Err? {
        MomentsStayFailed(u, decide, start, sorted, timeline, i + 1);
        return next;
      }
      book := next.value;
      i := i + 1;
    }
    assert timeline[..i] == timeline;
    book := CloseLoop(u, book);
    return Ok(book);
  }

  method CloseLoop(u: Setup, start: Book) returns (book: Book)
    requires forall s :: s in u.order ==> s in start.states
    ensures book == CloseOver(u, start, u.order)
  {
    hide Liquidate;
    book := start;
    var i := 0;
    while i < |u.order|
      invariant 0 <= i <= |u.order| && book == CloseOver(u, start, u.order[..i])
    {
      assert u.order[..i + 1][..i] == u.order[..i];
      var symbol := u.order[i];
      var state := book.states[symbol];
      if state.open != [] && state.bars != [] {
        var bar := state.bars[|state.bars| - 1];
        var closed, equity := CloseAll(u.config, symbol, state.open, bar, bar.timestamp, book.equity);
        book := Noted(book.(equity := equity,
                            states := book.states[symbol := state.(open := [], trades := state.trades + closed)]));
      }
      i := i + 1;
    }
    assert u.order[..i] == u.order;
  }
}
