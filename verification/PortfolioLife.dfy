/** Where every trade of the portfolio comes from: the same life as in the single-symbol loop. */
module PortfolioLife {
  import opened Prelude
  import opened Candles
  import opened Positions
  import opened BacktestTrades
  import opened BacktestEngine
  import opened TradeLife
  import opened PortfolioBacktest

  // --------------------------------------------------------------------- shared entries

  /**
   * What a shared entry comes to, in plain arithmetic: nothing while the symbol has a trade or nothing is
   * left, for an unusable stop or a limit passed, the correlated one being 2 percent; otherwise exactly the
   * amount that risks its share of the shared equity.
   */
  lemma SharedEntrySays(u: Setup, book: Book, symbol: string, signal: Signal, bar: Candle)
    requires symbol in book.states && forall s :: s in u.order ==> s in book.states
    ensures var (c, r) := (u.config, TryOpenShared(u, book, symbol, signal, bar));
      var entry := EntryPrice(c, signal.direction, bar.open);
      && MovedAgainst(c, signal.direction == LONG, bar.open, entry)
      && (book.states[symbol].open != [] || book.equity <= 0.0 ==> r == Ok(None))
      && (book.states[symbol].open == [] && book.equity > 0.0 ==>
            && (entry == 0.0 ==> r == Err(DivisionByZero))
            && (entry != 0.0 && !StopUsable(entry, signal.stopLoss) ==> r == Ok(None))
            && (entry != 0.0 && StopUsable(entry, signal.stopLoss) && Budgeted(c, book.equity) ==>
                  var cash := Share(book.equity, c.riskPerTradePercent);
                  var amount := AmountRisking(cash, entry, signal.stopLoss);
                  r.Ok?
                  && if || RiskOver(book.states, u.order) + cash > Share(book.equity, c.maxAggregateRiskPercent)
                        || CorrelatedRisk(u, symbol, cash, book.states, u.order) > Share(book.equity, 2.0)
                        || CapitalOver(book.states, u.order) + amount > Share(book.equity, c.maxFuturesCapitalPercent)
                     then r.value == None
                     else
                       && r.value.Some? && r.value.value.entryPrice == entry && r.value.value.totalAmount == amount
                       && r.value.value.signal == signal && r.value.value.positionId == book.entries))
  {
    var c := u.config;
    hide EntryPrice, MovedAgainst, RiskOver, CapitalOver, CorrelatedRisk;
    EntryMoved(c, signal.direction, bar.open);
    var entry := EntryPrice(c, signal.direction, bar.open);
    if entry != 0.0 { DistanceIs(entry, signal.stopLoss, Share(book.equity, c.riskPerTradePercent)); }
    hide Distance, PerDistance, AmountRisking, Commission;
  }

  lemma SharedOpensAt(u: Setup, book: Book, symbol: string, signal: Signal, bar: Candle)
    requires symbol in book.states && forall s :: s in u.order ==> s in book.states
    requires TryOpenShared(u, book, symbol, signal, bar).Ok? && TryOpenShared(u, book, symbol, signal, bar).value.Some?
    requires signal.direction == SHORT ==> u.config.allowShort
    ensures var t := TryOpenShared(u, book, symbol, signal, bar).value.value;
      OpenedAt(u.config, bar, t) && t.signal == signal
  {
    hide OpenedAt, MovedAgainst, RiskOver, CapitalOver, CorrelatedRisk;
    EntryMoved(u.config, signal.direction, bar.open);
    hide EntryPrice;
    var t := TryOpenShared(u, book, symbol, signal, bar).value.value;
    NewTradeOpened(u.config, book.entries, signal, bar, t.entryPrice, t.totalAmount);
  }

  /** A shared entry sees nothing of its bar but the time and the open. */
  lemma SharedEntrySeesTheOpen(u: Setup, book: Book, symbol: string, bar: Candle, other: Candle)
    requires symbol in book.states && forall s :: s in u.order ==> s in book.states
    requires bar.timestamp == other.timestamp && bar.open == other.open
    ensures EnterSymbol(u, book, symbol, bar) == EnterSymbol(u, book, symbol, other)
  {
    hide RiskOver, CapitalOver, CorrelatedRisk;
  }

  /** A new trade of this symbol fits beside everything that is open. */
  predicate SharedFits(u: Setup, book: Book, symbol: string, entry: real, stop: real)
    requires entry != stop && forall s :: s in u.order ==> s in book.states
  {
    var cash := Share(book.equity, u.config.riskPerTradePercent);
    && RiskOver(book.states, u.order) + cash <= Share(book.equity, u.config.maxAggregateRiskPercent)
    && CorrelatedRisk(u, symbol, cash, book.states, u.order) <= Share(book.equity, 2.0)
    && CapitalOver(book.states, u.order) + AmountRisking(cash, entry, stop)
       <= Share(book.equity, u.config.maxFuturesCapitalPercent)
  }

  /**
   * What becomes of a symbol's waiting signal at its next bar: exactly one that can be taken and fits is
   * opened, unless the symbol has a trade already; otherwise nothing is opened or paid.
   */
  lemma SharedEnterSays(u: Setup, book: Book, symbol: string, bar: Candle, signal: Signal)
    requires symbol in book.states && forall s :: s in u.order ==> s in book.states
    requires book.states[symbol].pending == Some(signal) && Budgeted(u.config, book.equity)
    requires EntryPrice(u.config, signal.direction, bar.open) != 0.0
    ensures EnterSymbol(u, book, symbol, bar).Ok?
    ensures var (c, entry) := (u.config, EntryPrice(u.config, signal.direction, bar.open));
      var (next, state) := (EnterSymbol(u, book, symbol, bar).value, book.states[symbol]);
      && next.states.Keys == book.states.Keys && next.curve == book.curve
      && (forall s :: s in book.states && s != symbol ==> next.states[s] == book.states[s])
      && next.states[symbol].pending == None && next.states[symbol].trades == state.trades
      && if state.open == [] && Takable(c, signal, entry) && SharedFits(u, book, symbol, entry, signal.stopLoss)
         then
           && |next.states[symbol].open| == 1 && next.entries == book.entries + 1
           && var t := next.states[symbol].open[0];
              && OpenedAt(c, bar, t) && t.signal == signal && t.positionId == book.entries
              && t.totalAmount == AmountRisking(Share(book.equity, c.riskPerTradePercent), entry, signal.stopLoss)
              && next.equity == book.equity - t.entryCommission
         else next.states[symbol].open == state.open && next.equity == book.equity && next.entries == book.entries
  {
    SharedEntrySays(u, book, symbol, signal, bar);
    if TryOpenShared(u, book, symbol, signal, bar).Ok? && TryOpenShared(u, book, symbol, signal, bar).value.Some?
       && (signal.direction == SHORT ==> u.config.allowShort) {
      SharedOpensAt(u, book, symbol, signal, bar);
    }
    hide TryOpenShared, OpenedAt, EntryPrice, MovedAgainst, RiskOver, CapitalOver, CorrelatedRisk, AmountRisking, Share;
  }

  /** Over symbols, risk and capital are the totals of their trades. */
  lemma OverOneSymbol(states: map<string, SymbolState>, symbols: seq<string>, symbol: string)
    requires symbol in states && forall s :: s in symbols ==> s in states
    ensures RiskOver(states, []) == 0.0 && CapitalOver(states, []) == 0.0
    ensures RiskOver(states, symbols + [symbol]) == RiskOver(states, symbols) + TotalRisk(states[symbol].open)
    ensures CapitalOver(states, symbols + [symbol]) == CapitalOver(states, symbols) + TotalCapital(states[symbol].open)
  {
    assert (symbols + [symbol])[..|symbols|] == symbols;
  }

  /** The coefficient of two symbols as it was given, whichever of them was named first. */
  function Given(u: Setup, a: string, b: string): real
  {
    if (a, b) in u.correlations then u.correlations[(a, b)]
    else if (b, a) in u.correlations then u.correlations[(b, a)] else 0.0
  }

  /** Every other symbol adds its risk times the positive part of its coefficient, at most once the risk itself. */
  lemma CorrelatedWithOne(
    u: Setup, symbol: string, cash: real, states: map<string, SymbolState>, symbols: seq<string>, other: string,
    k: real)
    requires other in states && forall s :: s in symbols ==> s in states
    requires k == Given(u, symbol, other)
    ensures CorrelatedRisk(u, symbol, cash, states, []) == cash
    ensures var before := CorrelatedRisk(u, symbol, cash, states, symbols);
      CorrelatedRisk(u, symbol, cash, states, symbols + [other])
      == if other == symbol || k <= 0.0 then before
         else if k > 1.0 then before + TotalRisk(states[other].open)
         else before + TotalRisk(states[other].open) * k
  {
    hide TotalRisk;
    assert (symbols + [other])[..|symbols|] == symbols;
    var m := Correlation(u, symbol, other);
    assert m == if k <= 0.0 then 0.0 else if k > 1.0 then 1.0 else k;
    var risk := TotalRisk(states[other].open);
    assert risk * m == if k <= 0.0 then 0.0 else if k > 1.0 then risk else risk * k;
  }

  // -------------------------------------------------------------- the life of every trade

  /** The bars of a symbol that the timeline has met. */
  function Met(bars: seq<Candle>, timeline: seq<int>): seq<Candle>
  {
    if timeline == [] then []
    else
      Met(bars, timeline[..|timeline| - 1])
      + match BarAt(bars, timeline[|timeline| - 1]) case Some(bar) => [bar] case None => []
  }

  function ForSymbol(decide: SymbolDecider, symbol: string): Decider { time => decide(symbol, time) }

  ghost predicate KnownState(
    u: Setup, decide: SymbolDecider, symbol: string, bars: seq<Candle>, state: SymbolState)
  {
    Known(u.config, symbol, None, ForSymbol(decide, symbol), bars, 0, state.pending, state.open, state.trades)
  }

  /** Where a symbol stands within a timestamp: before, entered, exited, and decided. */
  ghost predicate Stands(
    u: Setup, decide: SymbolDecider, symbol: string, bars: seq<Candle>, bar: Candle, passed: nat, state: SymbolState)
  {
    var (c, d) := (u.config, ForSymbol(decide, symbol));
    match passed
    case 0 => KnownState(u, decide, symbol, bars, state)
    case 1 =>
      && state.pending.None?
      && (forall t :: t in state.open ==> Meets(c, None, d, bars, bar, t))
      && (forall r :: r in state.trades ==> Explained(c, symbol, None, d, bars, 0, r))
    case 2 =>
      && state.pending.None?
      && (forall t :: t in state.open ==> Running(c, None, d, bars + [bar], t))
      && (forall r :: r in state.trades ==> Explained(c, symbol, None, d, bars + [bar], 0, r))
    case _ => KnownState(u, decide, symbol, bars + [bar], state)
  }

  function PassOf(passed: nat): Pass
    requires passed < 3
  {
    if passed == 0 then Entering else if passed == 1 then Exiting else Deciding
  }

  lemma EnteredStands(
    u: Setup, decide: SymbolDecider, book: Book, symbol: string, bars: seq<Candle>, bar: Candle)
    requires symbol in book.states && forall s :: s in u.order ==> s in book.states
    requires Stands(u, decide, symbol, bars, bar, 0, book.states[symbol]) && EnterSymbol(u, book, symbol, bar).Ok?
    ensures Stands(u, decide, symbol, bars, bar, 1, EnterSymbol(u, book, symbol, bar).value.states[symbol])
  {
    hide Running, Explained, TryOpenShared, Signalled, OpenedAt;
    var (state, next) := (book.states[symbol], EnterSymbol(u, book, symbol, bar).value.states[symbol]);
    forall t | t in next.open ensures Meets(u.config, None, ForSymbol(decide, symbol), bars, bar, t) {
      if t !in state.open { SharedOpensAt(u, book, symbol, state.pending.value, bar); }
    }
  }

  lemma ExitedStands(
    u: Setup, decide: SymbolDecider, book: Book, symbol: string, bars: seq<Candle>, bar: Candle)
    requires symbol in book.states && Stands(u, decide, symbol, bars, bar, 1, book.states[symbol])
    ensures Stands(u, decide, symbol, bars, bar, 2, ExitSymbol(u, book, symbol, bar).states[symbol])
  {
    hide Running, Explained, Meets, Exits;
    var (c, d, state) := (u.config, ForSymbol(decide, symbol), book.states[symbol]);
    ExitsExplained(c, symbol, None, d, bars, bar, 0, state.open);
    forall r | r in state.trades ensures Explained(c, symbol, None, d, bars + [bar], 0, r) {
      ExplainedStays(c, symbol, None, d, bars, bar, 0, r);
    }
  }

  lemma DecidedStands(
    u: Setup, decide: SymbolDecider, book: Book, symbol: string, bars: seq<Candle>, bar: Candle)
    requires symbol in book.states && Stands(u, decide, symbol, bars, bar, 2, book.states[symbol])
    requires decide(symbol, bar.timestamp + 15 * 60).Ok?
    ensures var decision := decide(symbol, bar.timestamp + 15 * 60).value;
      Stands(u, decide, symbol, bars, bar, 3, DecideSymbol(book, symbol, decision).states[symbol])
  {
    hide Running, Explained, Signalled;
    var decision := decide(symbol, bar.timestamp + 15 * 60).value;
    if decision.Ready? { SignalGiven(None, ForSymbol(decide, symbol), bars, bar, decision.signal); }
  }

  /** How a symbol stands before or after a pass at this time, with or without a bar. */
  ghost predicate StandsAt(
    u: Setup, decide: SymbolDecider, symbol: string, met: seq<Candle>, time: int, passed: nat, state: SymbolState)
  {
    match BarAt(state.bars, time)
    case Some(bar) => bar.timestamp == time && Stands(u, decide, symbol, met, bar, passed, state)
    case None => KnownState(u, decide, symbol, met, state)
  }

  lemma {:induction false} BarAtTime(bars: seq<Candle>, time: int)
    ensures BarAt(bars, time).Some? ==> BarAt(bars, time).value.timestamp == time && BarAt(bars, time).value in bars
    ensures BarAt(bars, time).None? <==> forall bar :: bar in bars ==> bar.timestamp != time
  {
    if bars != [] { BarAtTime(bars[1..], time); }
  }

  /** One symbol's part of a pass: it gets one pass further, and no other symbol is touched. */
  lemma OneSymbolPasses(
    u: Setup, decide: SymbolDecider, passed: nat, book: Book, symbol: string, met: seq<Candle>, time: int)
    requires passed < 3 && symbol in book.states && forall s :: s in u.order ==> s in book.states
    requires StandsAt(u, decide, symbol, met, time, passed, book.states[symbol])
    requires PassSymbol(u, decide, PassOf(passed), book, symbol, time).Ok?
    ensures var next := PassSymbol(u, decide, PassOf(passed), book, symbol, time).value;
      && next.states.Keys == book.states.Keys
      && (forall s :: s in book.states ==> next.states[s].bars == book.states[s].bars)
      && (forall s :: s in book.states && s != symbol ==> next.states[s] == book.states[s])
      && StandsAt(u, decide, symbol, met, time, passed + 1, next.states[symbol])
  {
    hide Stands, KnownState, TryOpenShared, Exits;
    match BarAt(book.states[symbol].bars, time)
    case None =>
    case Some(bar) =>
      if passed == 0 {
        EnteredStands(u, decide, book, symbol, met, bar);
      } else if passed == 1 {
        ExitedStands(u, decide, book, symbol, met, bar);
      } else {
        DecidedStands(u, decide, book, symbol, met, bar);
      }
  }

  ghost predicate NoRepeats(symbols: seq<string>)
  {
    forall i, j :: 0 <= i < j < |symbols| ==> symbols[i] != symbols[j]
  }

  /** Every symbol stands where it should, the ones of this list one pass further. */
  ghost predicate AllStand(
    u: Setup, decide: SymbolDecider, book: Book, timeline: seq<int>, time: int, passed: nat, further: seq<string>)
  {
    forall s :: s in book.states ==>
      StandsAt(u, decide, s, Met(book.states[s].bars, timeline), time,
               if s in further then passed + 1 else passed, book.states[s])
  }

  lemma {:induction false} PassStands(
    u: Setup, decide: SymbolDecider, passed: nat, book: Book, sorted: seq<string>, timeline: seq<int>, time: int)
    requires passed < 3 && NoRepeats(sorted)
    requires (forall s :: s in sorted ==> s in book.states) && forall s :: s in u.order ==> s in book.states
    requires AllStand(u, decide, book, timeline, time, passed, [])
    requires PassOver(u, decide, PassOf(passed), book, sorted, time).Ok?
    ensures var next := PassOver(u, decide, PassOf(passed), book, sorted, time).value;
      && (forall s :: s in book.states ==> next.states[s].bars == book.states[s].bars)
      && AllStand(u, decide, next, timeline, time, passed, sorted)
  {
    hide StandsAt, PassSymbol, PassOf;
    if sorted != [] {
      var init, symbol := sorted[..|sorted| - 1], sorted[|sorted| - 1];
      PassStands(u, decide, passed, book, init, timeline, time);
      var before := PassOver(u, decide, PassOf(passed), book, init, time).value;
      assert symbol !in init && forall s :: s in sorted <==> s in init || s == symbol;
      OneSymbolPasses(u, decide, passed, before, symbol, Met(before.states[symbol].bars, timeline), time);
    }
  }

  /** Every symbol is known by the bars of it that the timeline has met. */
  ghost predicate AllKnown(u: Setup, decide: SymbolDecider, book: Book, timeline: seq<int>)
  {
    forall s :: s in book.states ==> KnownState(u, decide, s, Met(book.states[s].bars, timeline), book.states[s])
  }

  lemma BeforeMoment(u: Setup, decide: SymbolDecider, book: Book, timeline: seq<int>, time: int)
    requires AllKnown(u, decide, book, timeline)
    ensures AllStand(u, decide, book, timeline, time, 0, [])
  {
    hide KnownState;
    forall s | s in book.states
      ensures StandsAt(u, decide, s, Met(book.states[s].bars, timeline), time, 0, book.states[s])
    {
      BarAtTime(book.states[s].bars, time);
    }
  }

  lemma AfterMoment(u: Setup, decide: SymbolDecider, book: Book, timeline: seq<int>, time: int, sorted: seq<string>)
    requires AllStand(u, decide, book, timeline, time, 2, sorted) && forall s :: s in book.states ==> s in sorted
    ensures AllKnown(u, decide, book, timeline + [time])
  {
    hide KnownState;
    var all := timeline + [time];
    assert all[..|all| - 1] == timeline;
    forall s | s in book.states
      ensures KnownState(u, decide, s, Met(book.states[s].bars, all), book.states[s])
    {
      var met := Met(book.states[s].bars, timeline);
      assert StandsAt(u, decide, s, met, time, 3, book.states[s]);
      assert Met(book.states[s].bars, all)
          == met + match BarAt(book.states[s].bars, time) case Some(bar) => [bar] case None => [];
      assert met + [] == met;
    }
  }

  lemma NextPass(
    u: Setup, decide: SymbolDecider, book: Book, timeline: seq<int>, time: int, passed: nat, sorted: seq<string>)
    requires AllStand(u, decide, book, timeline, time, passed, sorted) && forall s :: s in book.states ==> s in sorted
    ensures AllStand(u, decide, book, timeline, time, passed + 1, [])
    ensures AllStand(u, decide, Noted(book), timeline, time, passed + 1, [])
  {
    hide StandsAt;
  }

  lemma MomentKnown(
    u: Setup, decide: SymbolDecider, book: Book, sorted: seq<string>, timeline: seq<int>, time: int)
    requires NoRepeats(sorted) && forall s :: s in sorted <==> s in book.states
    requires forall s :: s in u.order ==> s in book.states
    requires AllKnown(u, decide, book, timeline) && Moment(u, decide, book, sorted, time).Ok?
    ensures var next := Moment(u, decide, book, sorted, time).value;
      && AllKnown(u, decide, next, timeline + [time])
      && forall s :: s in book.states ==> next.states[s].bars == book.states[s].bars
  {
    hide AllKnown, AllStand, PassOver, NoRepeats;
    BeforeMoment(u, decide, book, timeline, time);
    PassStands(u, decide, 0, book, sorted, timeline, time);
    var entered := PassOver(u, decide, Entering, book, sorted, time).value;
    NextPass(u, decide, entered, timeline, time, 0, sorted);
    PassStands(u, decide, 1, entered, sorted, timeline, time);
    var exited := PassOver(u, decide, Exiting, entered, sorted, time).value;
    NextPass(u, decide, exited, timeline, time, 1, sorted);
    PassStands(u, decide, 2, Noted(exited), sorted, timeline, time);
    AfterMoment(u, decide, PassOver(u, decide, Deciding, Noted(exited), sorted, time).value, timeline, time, sorted);
  }

  /** A book that has seen nothing yet. */
  ghost predicate Untraded(book: Book)
  {
    forall s :: s in book.states ==>
      book.states[s].pending.None? && book.states[s].open == [] && book.states[s].trades == []
  }

  /** After any timeline every symbol is known. */
  lemma {:induction false} MomentsKnown(
    u: Setup, decide: SymbolDecider, start: Book, sorted: seq<string>, timeline: seq<int>)
    requires NoRepeats(sorted) && forall s :: s in sorted <==> s in start.states
    requires forall s :: s in u.order ==> s in start.states
    requires Untraded(start) && Moments(u, decide, start, sorted, timeline).Ok?
    ensures var book := Moments(u, decide, start, sorted, timeline).value;
      && AllKnown(u, decide, book, timeline)
      && forall s :: s in start.states ==> book.states[s].bars == start.states[s].bars
  {
    hide Moment, NoRepeats;
    if timeline == [] {
      forall s | s in start.states ensures KnownState(u, decide, s, Met(start.states[s].bars, []), start.states[s]) {
        NothingKnown(u.config, s, None, ForSymbol(decide, s), 0);
      }
    } else {
      var init, time := timeline[..|timeline| - 1], timeline[|timeline| - 1];
      hide AllKnown;
      MomentsKnown(u, decide, start, sorted, init);
      assert timeline == init + [time];
      MomentKnown(u, decide, Moments(u, decide, start, sorted, init).value, sorted, init, time);
    }
  }

  // --------------------------------------------------------------------- the whole run

  /** Every record of this symbol is that of a trade closed on the way or at the symbol's last bar. */
  ghost predicate RecordsExplained(
    u: Setup, decide: SymbolDecider, symbol: string, met: seq<Candle>, state: SymbolState)
  {
    forall r :: r in state.trades ==>
      || Explained(u.config, symbol, None, ForSymbol(decide, symbol), met, 0, r)
      || ClosedAtEnd(u.config, symbol, None, ForSymbol(decide, symbol), met, 0, r)
  }

  /** The timeline has met every bar of the symbol, in their order. */
  ghost predicate AllMet(bars: seq<Candle>, timeline: seq<int>) { Met(bars, timeline) == bars }

  lemma ClosedExplained(
    u: Setup, decide: SymbolDecider, book: Book, symbol: string, timeline: seq<int>)
    requires symbol in book.states && AllMet(book.states[symbol].bars, timeline)
    requires KnownState(u, decide, symbol, book.states[symbol].bars, book.states[symbol])
    ensures RecordsExplained(u, decide, symbol, book.states[symbol].bars, CloseSymbol(u, book, symbol).states[symbol])
  {
    hide Running, Explained, ClosedAtEnd, Liquidate, Signalled;
    var (state, d) := (book.states[symbol], ForSymbol(decide, symbol));
    if state.open != [] && state.bars != [] {
      LiquidationExplained(u.config, symbol, None, d, state.bars, 0, state.open);
    }
  }

  lemma {:induction false} CloseExplained(
    u: Setup, decide: SymbolDecider, book: Book, symbols: seq<string>, timeline: seq<int>, symbol: string)
    requires NoRepeats(symbols) && (forall s :: s in symbols ==> s in book.states) && symbol in book.states
    requires AllMet(book.states[symbol].bars, timeline)
    requires KnownState(u, decide, symbol, book.states[symbol].bars, book.states[symbol])
    ensures var after := CloseOver(u, book, symbols);
      && after.states[symbol].bars == book.states[symbol].bars
      && (symbol !in symbols ==> after.states[symbol] == book.states[symbol])
      && (symbol in symbols ==> RecordsExplained(u, decide, symbol, book.states[symbol].bars, after.states[symbol]))
  {
    hide KnownState, RecordsExplained, Liquidate;
    if symbols != [] {
      var init, last := symbols[..|symbols| - 1], symbols[|symbols| - 1];
      assert last !in init && forall s :: s in symbols <==> s in init || s == last;
      CloseExplained(u, decide, book, init, timeline, symbol);
      if last == symbol { ClosedExplained(u, decide, CloseOver(u, book, init), symbol, timeline); }
    }
  }

  /**
   * Every trade a portfolio run reports, of whatever symbol, was signalled at one bar of its symbol, bought
   * at the open of the next one, paid funding for every bar it was held, and was closed at the first level
   * touched, or at the last close of its symbol.
   */
  lemma EveryPortfolioTradeExplained(
    u: Setup, decide: SymbolDecider, start: Book, sorted: seq<string>, timeline: seq<int>, symbol: string)
    requires Covers(u, start.states) && NoRepeats(sorted) && forall s :: s in sorted <==> s in start.states
    requires Untraded(start) && RunPortfolio(u, decide, start, sorted, timeline).Ok?
    requires symbol in start.states && AllMet(start.states[symbol].bars, timeline)
    ensures var end := RunPortfolio(u, decide, start, sorted, timeline).value;
      symbol in end.states
      && RecordsExplained(u, decide, symbol, start.states[symbol].bars, end.states[symbol])
  {
    hide KnownState, RecordsExplained, CloseOver, Moments;
    MomentsKnown(u, decide, start, sorted, timeline);
    var book := Moments(u, decide, start, sorted, timeline).value;
    CloseExplained(u, decide, book, u.order, timeline, symbol);
  }

  // ------------------------------------------------------------- counts and the curve

  function TradeCount(state: SymbolState): nat { |state.open| + |state.trades| }

  lemma {:induction false} ExitsCount(c: Config, symbol: string, open: seq<OpenTrade>, bar: Candle, time: int)
    ensures var o := Exits(c, symbol, open, bar, time); |o.open| + |o.closed| == |open|
  {
    hide IntrabarExit, Funded, Record, ExitPrice, Gross, Commission;
    if open != [] { ExitsCount(c, symbol, open[..|open| - 1], bar, time); }
  }

  /**
   * What one pass counts for one symbol.  Entries grow by the trades that appear, no trade ever vanishes
   * without its record, and a refusal is counted for a forbidden short and for a rejecting decision.
   */
  lemma PassCounts(u: Setup, decide: SymbolDecider, pass: Pass, book: Book, symbol: string, time: int)
    requires symbol in book.states && forall s :: s in u.order ==> s in book.states
    requires PassSymbol(u, decide, pass, book, symbol, time).Ok?
    ensures var next := PassSymbol(u, decide, pass, book, symbol, time).value;
      && symbol in next.states && next.curve == book.curve
      && var (before, after) := (book.states[symbol], next.states[symbol]);
         && next.entries - book.entries == TradeCount(after) - TradeCount(before)
         && (pass != Entering ==> next.entries == book.entries && after.maxConcurrent == before.maxConcurrent)
         && (pass == Deciding ==>
               next.equity == book.equity && after.open == before.open && after.trades == before.trades)
         && (pass == Exiting ==> after.pending == before.pending)
         && match BarAt(before.bars, time)
            case None => next == book
            case Some(bar) =>
              && (pass == Entering ==>
                    after.pending == None && after.trades == before.trades
                    && (after.maxConcurrent == before.maxConcurrent || after.maxConcurrent == |after.open|)
                    && (before.maxConcurrent >= |before.open| ==> after.maxConcurrent >= |after.open|)
                    && after.rejected == before.rejected
                         + if before.pending.Some? && before.pending.value.direction == SHORT && !u.config.allowShort
                           then 1 else 0)
              && (pass == Exiting ==> after.rejected == before.rejected)
              && (pass == Deciding ==>
                    var decision := decide(symbol, time + 15 * 60);
                    && decision.Ok?
                    && after.rejected == before.rejected
                         + (if decision.value.PreReject? || decision.value.SignalReject? then 1 else 0)
                    && after.pending == if decision.value.Ready? then Some(decision.value.signal) else before.pending)
  {
    hide TryOpenShared, Exits;
    var found := BarAt(book.states[symbol].bars, time);
    if found.Some? {
      ExitsCount(u.config, symbol, book.states[symbol].open, found.value, found.value.timestamp);
      if pass == Entering { OpensOne(u, book, symbol); }
    }
  }

  /** A shared entry is refused while the symbol has a trade. */
  lemma OpensOne(u: Setup, book: Book, symbol: string)
    requires symbol in book.states && forall s :: s in u.order ==> s in book.states
    ensures forall signal, bar ::
      book.states[symbol].open != [] ==> TryOpenShared(u, book, symbol, signal, bar) == Ok(None)
  {
  }

  lemma {:induction false} PassKeepsCurve(
    u: Setup, decide: SymbolDecider, pass: Pass, book: Book, sorted: seq<string>, time: int)
    requires (forall s :: s in sorted ==> s in book.states) && forall s :: s in u.order ==> s in book.states
    requires PassOver(u, decide, pass, book, sorted, time).Ok?
    ensures var next := PassOver(u, decide, pass, book, sorted, time).value;
      next.curve == book.curve && (pass == Deciding ==> next.equity == book.equity)
  {
    hide PassSymbol;
    if sorted != [] {
      PassKeepsCurve(u, decide, pass, book, sorted[..|sorted| - 1], time);
      PassCounts(u, decide, pass, PassOver(u, decide, pass, book, sorted[..|sorted| - 1], time).value,
                 sorted[|sorted| - 1], time);
    }
  }

  /** One point a timestamp: the equity once all entries and exits of that time are done. */
  lemma MomentNotes(u: Setup, decide: SymbolDecider, book: Book, sorted: seq<string>, time: int)
    requires (forall s :: s in sorted ==> s in book.states) && forall s :: s in u.order ==> s in book.states
    requires Moment(u, decide, book, sorted, time).Ok?
    ensures var next := Moment(u, decide, book, sorted, time).value; next.curve == book.curve + [next.equity]
  {
    hide PassOver;
    var entered := PassOver(u, decide, Entering, book, sorted, time).value;
    var exited := PassOver(u, decide, Exiting, entered, sorted, time).value;
    PassKeepsCurve(u, decide, Entering, book, sorted, time);
    PassKeepsCurve(u, decide, Exiting, entered, sorted, time);
    PassKeepsCurve(u, decide, Deciding, Noted(exited), sorted, time);
  }

  /** The curve of a run: its i-th point is the shared equity after the i-th timestamp. */
  lemma {:induction false} CurveSays(
    u: Setup, decide: SymbolDecider, start: Book, sorted: seq<string>, timeline: seq<int>, i: nat)
    requires (forall s :: s in sorted ==> s in start.states) && forall s :: s in u.order ==> s in start.states
    requires Moments(u, decide, start, sorted, timeline).Ok? && i < |timeline|
    ensures var book := Moments(u, decide, start, sorted, timeline).value;
      && |book.curve| == |start.curve| + |timeline| && book.curve[..|start.curve|] == start.curve
      && Moments(u, decide, start, sorted, timeline[..i + 1]).Ok?
      && book.curve[|start.curve| + i] == Moments(u, decide, start, sorted, timeline[..i + 1]).value.equity
  {
    hide Moment;
    var init, time := timeline[..|timeline| - 1], timeline[|timeline| - 1];
    var before := Moments(u, decide, start, sorted, init).value;
    MomentNotes(u, decide, before, sorted, time);
    if i < |init| {
      assert init[..i + 1] == timeline[..i + 1];
      CurveSays(u, decide, start, sorted, init, i);
    } else {
      assert timeline[..i + 1] == timeline;
      if init != [] { CurveSays(u, decide, start, sorted, init, 0); }
    }
  }

  /** At the end the curve stands at the final equity, with one more point for every symbol closed then. */
  lemma {:induction false} CurveEnds(u: Setup, book: Book, symbols: seq<string>)
    requires forall s :: s in symbols ==> s in book.states
    requires book.curve != [] && book.curve[|book.curve| - 1] == book.equity
    ensures var end := CloseOver(u, book, symbols);
      && book.curve <= end.curve && end.curve[|end.curve| - 1] == end.equity && end.entries == book.entries
  {
    hide Liquidate;
    if symbols != [] { CurveEnds(u, book, symbols[..|symbols| - 1]); }
  }

  // ------------------------------------------------------------- what the timeline meets

  lemma {:induction false} BarAtPlace(bars: seq<Candle>, i: nat)
    requires Chronological(bars) && i < |bars|
    ensures BarAt(bars, bars[i].timestamp) == Some(bars[i])
  {
    if i > 0 { BarAtPlace(bars[1..], i - 1); }
  }

  /** The timeline is in order, and names the times of exactly the first n bars. */
  ghost predicate Names(bars: seq<Candle>, timeline: seq<int>, n: nat)
  {
    && Chronological(bars) && n <= |bars|
    && (forall i, j :: 0 <= i < j < |timeline| ==> timeline[i] < timeline[j])
    && (forall i :: 0 <= i < n ==> bars[i].timestamp in timeline)
    && (forall i :: n <= i < |bars| ==> bars[i].timestamp !in timeline)
  }

  lemma LatestTime(timeline: seq<int>, time: int)
    requires timeline != [] && time in timeline
    requires forall i, j :: 0 <= i < j < |timeline| ==> timeline[i] < timeline[j]
    ensures time <= timeline[|timeline| - 1] && timeline[|timeline| - 1] !in timeline[..|timeline| - 1]
  {
    var i :| 0 <= i < |timeline| && timeline[i] == time;
  }

  /** The last time of the timeline is that of bar n - 1, or of none. */
  lemma LastTime(bars: seq<Candle>, timeline: seq<int>, n: nat, i: nat)
    requires Names(bars, timeline, n) && timeline != [] && i < |bars|
    requires bars[i].timestamp == timeline[|timeline| - 1]
    ensures i + 1 == n
  {
    assert i < n;
    if i + 1 < n { LatestTime(timeline, bars[i + 1].timestamp); }
  }

  lemma NothingNamed(bars: seq<Candle>, n: nat)
    requires Names(bars, [], n)
    ensures n == 0
  {
    var first := if |bars| > 0 then bars[0].timestamp else 0;
    assert n > 0 ==> first in [];
  }

  lemma NamesBefore(bars: seq<Candle>, timeline: seq<int>, n: nat)
    requires Names(bars, timeline, n) && timeline != []
    ensures var (init, time) := (timeline[..|timeline| - 1], timeline[|timeline| - 1]);
      if n > 0 && bars[n - 1].timestamp == time then Names(bars, init, n - 1)
      else Names(bars, init, n) && forall i :: 0 <= i < |bars| ==> bars[i].timestamp != time
  {
    var init, time := timeline[..|timeline| - 1], timeline[|timeline| - 1];
    assert forall x :: x in timeline <==> x in init || x == time;
    LatestTime(timeline, time);
    if n > 0 && bars[n - 1].timestamp == time {
      assert forall i :: 0 <= i < n - 1 ==> bars[i].timestamp < bars[n - 1].timestamp;
    } else {
      forall i: nat | i < |bars| ensures bars[i].timestamp != time {
        if bars[i].timestamp == time { LastTime(bars, timeline, n, i); }
      }
    }
  }

  /** A timeline in order that names the first bars of an ordered symbol meets exactly those. */
  lemma {:induction false} OrderedTimelineMeets(bars: seq<Candle>, timeline: seq<int>, n: nat)
    requires Names(bars, timeline, n)
    ensures n <= |bars| && Met(bars, timeline) == bars[..n]
  {
    if timeline == [] {
      NothingNamed(bars, n);
    } else {
      var init, time := timeline[..|timeline| - 1], timeline[|timeline| - 1];
      NamesBefore(bars, timeline, n);
      BarAtTime(bars, time);
      if n > 0 && bars[n - 1].timestamp == time {
        BarAtPlace(bars, n - 1);
        hide Names, BarAt;
        OrderedTimelineMeets(bars, init, n - 1);
        assert bars[..n] == bars[..n - 1] + [bars[n - 1]];
      } else {
        hide Names, BarAt;
        OrderedTimelineMeets(bars, init, n);
        assert bars[..n] + [] == bars[..n];
      }
    }
  }

  /** The timeline of a run names the bars of every symbol, so every one is met. */
  lemma EveryBarMet(bars: seq<Candle>, timeline: seq<int>)
    requires Names(bars, timeline, |bars|)
    ensures AllMet(bars, timeline)
  {
    OrderedTimelineMeets(bars, timeline, |bars|);
    assert bars[..|bars|] == bars;
  }
}
