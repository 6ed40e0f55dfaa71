/**
 * Where every trade of a backtest comes from and what became of it, in plain arithmetic: decided at one
 * bar, entered at the open of the next, held while no level is touched, and closed at the level that was.
 */
module TradeLife {
  import opened Prelude
  import opened Candles
  import opened Positions
  import opened BacktestTrades
  import opened BacktestEngine

  // ------------------------------------------------------------------------ the costs

  /** The price moved against a buyer or a seller by half the spread and the slippage, both in percent. */
  predicate MovedAgainst(c: Config, buys: bool, raw: real, price: real)
  {
    200.0 * price == raw * (if buys then 200.0 + c.spreadPercent + 2.0 * c.slippagePercent
                            else 200.0 - c.spreadPercent - 2.0 * c.slippagePercent)
  }

  /** Funding of so many bars of 15 minutes, 96 of them a day; longs pay what shorts receive. */
  predicate FundedFor(c: Config, direction: Side, amount: real, bars: nat, cost: real)
  {
    9600.0 * cost == (if direction == LONG then 1.0 else -1.0) * (bars as real * (amount * c.fundingPercentPerDay))
  }

  lemma EntryMoved(c: Config, direction: Side, raw: real)
    ensures MovedAgainst(c, direction == LONG, raw, EntryPrice(c, direction, raw))
    ensures MovedAgainst(c, direction == SHORT, raw, ExitPrice(c, direction, raw))
  {
    var f := Friction(c);
    assert 200.0 * f == c.spreadPercent + 2.0 * c.slippagePercent;
    assert 200.0 * (raw * (1.0 + f)) == raw * (200.0 + 200.0 * f);
    assert 200.0 * (raw * (1.0 - f)) == raw * (200.0 - 200.0 * f);
  }

  lemma CommissionIs(c: Config, amount: real)
    ensures 100.0 * Commission(c, amount) == amount * c.commissionPercent
  {
  }

  lemma OneMoreBar(c: Config, direction: Side, amount: real, bars: nat, cost: real)
    requires FundedFor(c, direction, amount, bars, cost)
    ensures FundedFor(c, direction, amount, bars + 1, cost + Funding(c, direction, amount))
  {
    var daily := amount * c.fundingPercentPerDay;
    assert 9600.0 * (daily / 100.0 * 15.0 / 1440.0) == daily;
    assert (bars + 1) as real * daily == bars as real * daily + daily;
  }

  lemma GrossIs(t: OpenTrade, exit: real)
    ensures Gross(t, exit) * t.entryPrice
         == t.totalAmount * (if t.signal.direction == LONG then exit - t.entryPrice else t.entryPrice - exit)
  {
    var gap := exit - t.entryPrice;
    var move := gap / t.entryPrice;
    assert move * t.entryPrice == gap;
    assert t.totalAmount * move * t.entryPrice == t.totalAmount * (move * t.entryPrice);
    assert t.totalAmount * -move * t.entryPrice == t.totalAmount * -(move * t.entryPrice);
  }

  // ----------------------------------------------------------------- the life of a trade

  /** What is bought at the open of this bar: the whole amount at the moved price, without leverage. */
  ghost predicate OpenedAt(c: Config, bar: Candle, t: OpenTrade)
  {
    && MovedAgainst(c, t.signal.direction == LONG, bar.open, t.entryPrice)
    && t.entryTime == bar.timestamp && t.quantity * t.entryPrice == t.totalAmount && t.leverage == 1.0
    && 100.0 * t.entryCommission == t.totalAmount * c.commissionPercent && t.fundingCost == 0.0
    && (t.signal.direction == SHORT ==> c.allowShort)
  }

  /** The signal was given at an earlier bar, and no bar of the test lies between that one and bar e. */
  ghost predicate Signalled(start: Option<int>, decide: Decider, bars: seq<Candle>, e: nat, signal: Signal)
  {
    exists d: nat :: d < e <= |bars| && SignalledAt(start, decide, bars, e, signal, d)
  }

  ghost predicate SignalledAt(
    start: Option<int>, decide: Decider, bars: seq<Candle>, e: nat, signal: Signal, d: nat)
    requires d < e <= |bars|
  {
    && InTest(start, bars[d]) && decide(bars[d].timestamp + 15 * 60) == Ok(Ready(signal))
    && forall k :: d < k < e ==> !InTest(start, bars[k])
  }

  /** None of these bars touches a level of the trade. */
  ghost predicate Untouched(t: OpenTrade, bars: seq<Candle>, from: nat, to: nat)
    requires to <= |bars|
  {
    forall k :: from <= k < to ==> IntrabarExit(t, bars[k]).None?
  }

  /** Signalled before bar e, opened at bar e, and untouched from there up to bar x. */
  ghost predicate Lived(
    c: Config, start: Option<int>, decide: Decider, bars: seq<Candle>, t: OpenTrade, e: nat, x: nat)
  {
    && e < |bars| && e <= x <= |bars| && InTest(start, bars[e])
    && Signalled(start, decide, bars, e, t.signal)
    && OpenedAt(c, bars[e], t.(fundingCost := 0.0)) && Untouched(t, bars, e, x)
  }

  /** A trade still open after these bars. */
  ghost predicate Running(c: Config, start: Option<int>, decide: Decider, bars: seq<Candle>, t: OpenTrade)
  {
    exists e: nat ::
      e < |bars| && Lived(c, start, decide, bars, t, e, |bars|)
      && FundedFor(c, t.signal.direction, t.totalAmount, |bars| - e, t.fundingCost)
  }

  /** The record of a trade closed at this raw price after so many bars. */
  ghost predicate RecordOf(
    c: Config, symbol: string, t: OpenTrade, raw: real, reason: string, time: int, held: nat, r: TradeRecord)
  {
    && r.positionId == t.positionId && r.symbol == symbol && r.direction == t.signal.direction
    && r.setup == t.signal.setup && r.entryTime == t.entryTime && r.entryPrice == t.entryPrice
    && r.stopLoss == t.signal.stopLoss && r.target == t.signal.target && r.quantity == t.quantity
    && r.totalAmount == t.totalAmount && r.leverage == t.leverage && r.exitTime == time && r.exitReason == reason
    && MovedAgainst(c, t.signal.direction == SHORT, raw, r.exitPrice)
    && 100.0 * r.commission == 2.0 * (t.totalAmount * c.commissionPercent)
    && FundedFor(c, t.signal.direction, t.totalAmount, held, r.fundingCost)
    && (r.realizedPnl + r.commission + r.fundingCost) * t.entryPrice
       == t.totalAmount * (if t.signal.direction == LONG then r.exitPrice - t.entryPrice
                           else t.entryPrice - r.exitPrice)
  }

  /** The trade behind a record was closed within bar x, at the level that bar touched. */
  ghost predicate ClosedWithin(
    c: Config, symbol: string, start: Option<int>, decide: Decider, bars: seq<Candle>, delay: int, r: TradeRecord,
    t: OpenTrade, e: nat, x: nat)
  {
    && e <= x < |bars| && Lived(c, start, decide, bars, t, e, x)
    && IntrabarExit(t, bars[x]).Some?
    && var (level, reason) := IntrabarExit(t, bars[x]).value;
       RecordOf(c, symbol, t, level, reason, bars[x].timestamp + delay, x - e + 1, r)
  }

  ghost predicate Explained(
    c: Config, symbol: string, start: Option<int>, decide: Decider, bars: seq<Candle>, delay: int, r: TradeRecord)
  {
    exists t: OpenTrade, e: nat, x: nat :: ClosedWithin(c, symbol, start, decide, bars, delay, r, t, e, x)
  }

  /** The trade behind a record was still open after the last bar and closed at its close. */
  ghost predicate ClosedAtEnd(
    c: Config, symbol: string, start: Option<int>, decide: Decider, bars: seq<Candle>, delay: int, r: TradeRecord)
  {
    exists t: OpenTrade, e: nat ::
      e < |bars| && Lived(c, start, decide, bars, t, e, |bars|)
      && RecordOf(c, symbol, t, bars[|bars| - 1].close, "END_OF_TEST", bars[|bars| - 1].timestamp + delay,
                  |bars| - e, r)
  }

  /** Everything known about one symbol after these bars. */
  ghost predicate Known(
    c: Config, symbol: string, start: Option<int>, decide: Decider, bars: seq<Candle>, delay: int,
    pending: Option<Signal>, open: seq<OpenTrade>, trades: seq<TradeRecord>)
  {
    && (pending.Some? ==> Signalled(start, decide, bars, |bars|, pending.value))
    && (forall t :: t in open ==> Running(c, start, decide, bars, t))
    && (forall r :: r in trades ==> Explained(c, symbol, start, decide, bars, delay, r))
  }

  // ------------------------------------------------------------------- one bar further

  lemma SignalledStays(
    start: Option<int>, decide: Decider, bars: seq<Candle>, bar: Candle, e: nat, signal: Signal)
    requires e <= |bars| && Signalled(start, decide, bars, e, signal)
    ensures Signalled(start, decide, bars + [bar], e, signal)
  {
    var d: nat :| d < e <= |bars| && SignalledAt(start, decide, bars, e, signal, d);
    assert SignalledAt(start, decide, bars + [bar], e, signal, d);
  }

  /** A bar outside the test leaves a signal waiting. */
  lemma SignalWaits(start: Option<int>, decide: Decider, bars: seq<Candle>, bar: Candle, signal: Signal)
    requires Signalled(start, decide, bars, |bars|, signal) && !InTest(start, bar)
    ensures Signalled(start, decide, bars + [bar], |bars| + 1, signal)
  {
    var d: nat :| d < |bars| && SignalledAt(start, decide, bars, |bars|, signal, d);
    assert SignalledAt(start, decide, bars + [bar], |bars| + 1, signal, d);
  }

  lemma SignalGiven(start: Option<int>, decide: Decider, bars: seq<Candle>, bar: Candle, signal: Signal)
    requires InTest(start, bar) && decide(bar.timestamp + 15 * 60) == Ok(Ready(signal))
    ensures Signalled(start, decide, bars + [bar], |bars| + 1, signal)
  {
    assert SignalledAt(start, decide, bars + [bar], |bars| + 1, signal, |bars|);
  }

  lemma LivedStays(
    c: Config, start: Option<int>, decide: Decider, bars: seq<Candle>, bar: Candle, t: OpenTrade, e: nat, x: nat)
    requires x <= |bars| && Lived(c, start, decide, bars, t, e, x)
    ensures Lived(c, start, decide, bars + [bar], t, e, x)
  {
    hide OpenedAt;
    SignalledStays(start, decide, bars, bar, e, t.signal);
    hide Signalled;
    forall k | e <= k < x ensures IntrabarExit(t, (bars + [bar])[k]).None? {
      assert (bars + [bar])[k] == bars[k];
    }
  }

  lemma ExplainedStays(
    c: Config, symbol: string, start: Option<int>, decide: Decider, bars: seq<Candle>, bar: Candle, delay: int,
    r: TradeRecord)
    requires Explained(c, symbol, start, decide, bars, delay, r)
    ensures Explained(c, symbol, start, decide, bars + [bar], delay, r)
  {
    var t: OpenTrade, e: nat, x: nat :| ClosedWithin(c, symbol, start, decide, bars, delay, r, t, e, x);
    LivedStays(c, start, decide, bars, bar, t, e, x);
    hide Lived, RecordOf;
    assert (bars + [bar])[x] == bars[x];
    assert ClosedWithin(c, symbol, start, decide, bars + [bar], delay, r, t, e, x);
  }

  /** A trade that may meet this bar: running already, or opened at its open. */
  ghost predicate Meets(
    c: Config, start: Option<int>, decide: Decider, bars: seq<Candle>, bar: Candle, t: OpenTrade)
  {
    || Running(c, start, decide, bars, t)
    || (InTest(start, bar) && OpenedAt(c, bar, t) && Signalled(start, decide, bars, |bars|, t.signal))
  }

  /** Such a trade has lived up to this bar, and has paid funding for the bars before it. */
  lemma MeetsLived(
    c: Config, start: Option<int>, decide: Decider, bars: seq<Candle>, bar: Candle, t: OpenTrade)
    requires Meets(c, start, decide, bars, bar, t)
    ensures exists e: nat ::
      e <= |bars| && Lived(c, start, decide, bars + [bar], t, e, |bars|)
      && FundedFor(c, t.signal.direction, t.totalAmount, |bars| - e, t.fundingCost)
  {
    if Running(c, start, decide, bars, t) {
      var e: nat :| e < |bars| && Lived(c, start, decide, bars, t, e, |bars|)
        && FundedFor(c, t.signal.direction, t.totalAmount, |bars| - e, t.fundingCost);
      LivedStays(c, start, decide, bars, bar, t, e, |bars|);
    } else {
      SignalledStays(start, decide, bars, bar, |bars|, t.signal);
      assert t.(fundingCost := 0.0) == t;
      assert Lived(c, start, decide, bars + [bar], t, |bars|, |bars|);
    }
  }

  lemma FundedKeeps(c: Config, t: OpenTrade, bar: Candle)
    ensures var f := Funded(c, t);
      && f.signal == t.signal && f.totalAmount == t.totalAmount && f.(fundingCost := 0.0) == t.(fundingCost := 0.0)
      && f.fundingCost == t.fundingCost + Funding(c, t.signal.direction, t.totalAmount)
      && IntrabarExit(f, bar) == IntrabarExit(t, bar)
  {
  }

  lemma SameLife(
    c: Config, start: Option<int>, decide: Decider, bars: seq<Candle>, t: OpenTrade, f: OpenTrade, e: nat, x: nat)
    requires Lived(c, start, decide, bars, t, e, x)
    requires f.signal == t.signal && f.(fundingCost := 0.0) == t.(fundingCost := 0.0)
    ensures Lived(c, start, decide, bars, f, e, x)
  {
    hide OpenedAt, Signalled;
    forall k | e <= k < x ensures IntrabarExit(f, bars[k]).None? {
      assert IntrabarExit(t, bars[k]).None?;
    }
  }

  /** What the bar makes of one trade: it goes on running, or its record is explained. */
  lemma OneTrade(
    c: Config, symbol: string, start: Option<int>, decide: Decider, bars: seq<Candle>, bar: Candle, delay: int,
    t: OpenTrade)
    requires Meets(c, start, decide, bars, bar, t)
    ensures var (f, all) := (Funded(c, t), bars + [bar]);
      match IntrabarExit(f, bar)
      case None => Running(c, start, decide, all, f)
      case Some((raw, reason)) =>
        Explained(c, symbol, start, decide, all, delay,
                  Record(c, symbol, f, ExitPrice(c, f.signal.direction, raw), bar.timestamp + delay, reason))
  {
    MeetsLived(c, start, decide, bars, bar, t);
    FundedKeeps(c, t, bar);
    var (f, all) := (Funded(c, t), bars + [bar]);
    var e: nat :| e <= |bars| && Lived(c, start, decide, all, t, e, |bars|)
      && FundedFor(c, t.signal.direction, t.totalAmount, |bars| - e, t.fundingCost);
    OneMoreBar(c, t.signal.direction, t.totalAmount, |bars| - e, t.fundingCost);
    SameLife(c, start, decide, all, t, f, e, |bars|);
    assert FundedFor(c, f.signal.direction, f.totalAmount, |all| - e, f.fundingCost);
    assert all[|bars|] == bar;
    if IntrabarExit(f, bar).None? {
      OneBarMore(c, start, decide, all, f, e);
    } else {
      var (raw, reason) := IntrabarExit(f, bar).value;
      var r := Record(c, symbol, f, ExitPrice(c, f.signal.direction, raw), bar.timestamp + delay, reason);
      var paid := OpenCommission(c, start, decide, all, f, e);
      RecordExplains(c, symbol, f, raw, reason, bar.timestamp + delay, |all| - e, paid);
      hide Lived, RecordOf;
      assert ClosedWithin(c, symbol, start, decide, all, delay, r, f, e, |bars|);
    }
  }

  /** The commission a lived trade paid at its entry. */
  ghost function OpenCommission(
    c: Config, start: Option<int>, decide: Decider, bars: seq<Candle>, t: OpenTrade, e: nat): (paid: real)
    requires e < |bars| && Lived(c, start, decide, bars, t, e, |bars| - 1)
    ensures paid == t.entryCommission && 100.0 * paid == t.totalAmount * c.commissionPercent
  {
    assert OpenedAt(c, bars[e], t.(fundingCost := 0.0));
    t.entryCommission
  }

  lemma OneBarMore(
    c: Config, start: Option<int>, decide: Decider, bars: seq<Candle>, t: OpenTrade, e: nat)
    requires e < |bars| && Lived(c, start, decide, bars, t, e, |bars| - 1)
    requires IntrabarExit(t, bars[|bars| - 1]).None?
    requires FundedFor(c, t.signal.direction, t.totalAmount, |bars| - e, t.fundingCost)
    ensures Running(c, start, decide, bars, t)
  {
    hide OpenedAt, Signalled, FundedFor;
    assert Lived(c, start, decide, bars, t, e, |bars|);
  }

  lemma RecordExplains(
    c: Config, symbol: string, t: OpenTrade, raw: real, reason: string, time: int, held: nat, paid: real)
    requires FundedFor(c, t.signal.direction, t.totalAmount, held, t.fundingCost)
    requires paid == t.entryCommission && 100.0 * paid == t.totalAmount * c.commissionPercent
    ensures RecordOf(c, symbol, t, raw, reason, time, held,
                     Record(c, symbol, t, ExitPrice(c, t.signal.direction, raw), time, reason))
  {
    hide FundedFor;
    var exit := ExitPrice(c, t.signal.direction, raw);
    EntryMoved(c, t.signal.direction, raw);
    CommissionIs(c, t.totalAmount);
    GrossIs(t, exit);
    hide Gross, ExitPrice, MovedAgainst, Commission;
    var r := Record(c, symbol, t, exit, time, reason);
    assert r.realizedPnl + r.commission + r.fundingCost == Gross(t, exit);
  }

  /** The exit pass over a bar: what stays open runs on, what is closed is explained. */
  lemma {:induction false} ExitsExplained(
    c: Config, symbol: string, start: Option<int>, decide: Decider, bars: seq<Candle>, bar: Candle, delay: int,
    open: seq<OpenTrade>)
    requires forall t :: t in open ==> Meets(c, start, decide, bars, bar, t)
    ensures var o := Exits(c, symbol, open, bar, bar.timestamp + delay);
      && (forall t :: t in o.open ==> Running(c, start, decide, bars + [bar], t))
      && (forall r :: r in o.closed ==> Explained(c, symbol, start, decide, bars + [bar], delay, r))
  {
    hide Meets, Running, Explained, IntrabarExit, Gross, Commission, Record, Funding;
    if open != [] {
      var n := |open| - 1;
      ExitsExplained(c, symbol, start, decide, bars, bar, delay, open[..n]);
      OneTrade(c, symbol, start, decide, bars, bar, delay, open[n]);
    }
  }

  /** Closing at the end explains every record it makes. */
  lemma {:induction false} LiquidationExplained(
    c: Config, symbol: string, start: Option<int>, decide: Decider, bars: seq<Candle>, delay: int,
    open: seq<OpenTrade>)
    requires bars != [] && forall t :: t in open ==> Running(c, start, decide, bars, t)
    ensures var last := bars[|bars| - 1];
      forall r :: r in Liquidate(c, symbol, open, last, last.timestamp + delay).closed ==>
        ClosedAtEnd(c, symbol, start, decide, bars, delay, r)
  {
    hide Running, ClosedAtEnd, Gross, Commission, Record;
    if open != [] {
      LiquidationExplained(c, symbol, start, decide, bars, delay, open[..|open| - 1]);
      OneLiquidated(c, symbol, start, decide, bars, delay, open[|open| - 1]);
    }
  }

  lemma OneLiquidated(
    c: Config, symbol: string, start: Option<int>, decide: Decider, bars: seq<Candle>, delay: int, t: OpenTrade)
    requires bars != [] && Running(c, start, decide, bars, t)
    ensures var last := bars[|bars| - 1];
      var exit := ExitPrice(c, t.signal.direction, last.close);
      ClosedAtEnd(c, symbol, start, decide, bars, delay,
                  Record(c, symbol, t, exit, last.timestamp + delay, "END_OF_TEST"))
  {
    var last := bars[|bars| - 1];
    var e: nat :| e < |bars| && Lived(c, start, decide, bars, t, e, |bars|)
      && FundedFor(c, t.signal.direction, t.totalAmount, |bars| - e, t.fundingCost);
    assert OpenedAt(c, bars[e], t.(fundingCost := 0.0));
    RecordExplains(c, symbol, t, last.close, "END_OF_TEST", last.timestamp + delay, |bars| - e, t.entryCommission);
    hide Lived, RecordOf;
  }

  // -------------------------------------------------------------------- entering a trade

  /** The stop can be used: both prices are positive and differ. */
  predicate StopUsable(entry: real, stop: real)
  {
    entry > 0.0 && stop > 0.0 && entry != stop
  }

  /** The risk an entry at this equity has to carry, and the two limits it has to keep, in cash. */
  function Share(equity: real, percent: real): real { equity * percent / 100.0 }

  /** The amount that loses this much cash between entry and stop. */
  function AmountRisking(cash: real, entry: real, stop: real): real
    requires entry != stop
  {
    cash * entry / Abs(entry - stop)
  }

  predicate Percentage(x: real) { 0.0 <= x <= 100.0 }

  lemma DistanceIs(entry: real, stop: real, cash: real)
    requires entry != 0.0
    ensures Distance(entry, stop) <= 0.0 || stop <= 0.0 <==> !StopUsable(entry, stop)
    ensures StopUsable(entry, stop) ==>
      Distance(entry, stop) > 0.0 && PerDistance(cash, Distance(entry, stop)) == AmountRisking(cash, entry, stop)
  {
    var gap := Abs(entry - stop);
    if entry > 0.0 && gap > 0.0 {
      var distance, amount := gap / entry, cash / (gap / entry);
      assert amount * distance == cash;
      assert amount * distance * entry == amount * (distance * entry);
      assert distance * entry == gap;
      assert amount * gap == cash * entry;
      assert amount == cash * entry / gap;
    } else if entry < 0.0 {
      assert gap / entry <= 0.0;
    }
  }

  /** Equity and percentages for which every budget can be computed. */
  predicate Budgeted(c: Config, equity: real)
  {
    equity > 0.0 && Percentage(c.riskPerTradePercent) && Percentage(c.maxAggregateRiskPercent)
    && Percentage(c.maxFuturesCapitalPercent)
  }

  /**
   * What an entry comes to, in plain arithmetic.  It can raise for a zero entry price only, or with a usable
   * stop for equity or percentages out of range; it is refused exactly for an unusable stop or a limit
   * passed; otherwise it is opened with exactly the amount that risks its share of the equity.
   */
  lemma EntrySays(c: Config, s: State, signal: Signal, bar: Candle)
    ensures var (entry, r) := (EntryPrice(c, signal.direction, bar.open), TryOpen(c, s, signal, bar));
      && MovedAgainst(c, signal.direction == LONG, bar.open, entry)
      && (entry == 0.0 ==> r == Err(DivisionByZero))
      && (entry != 0.0 && !StopUsable(entry, signal.stopLoss) ==> r == Ok(Refused("INVALID_STOP_DISTANCE")))
      && (entry != 0.0 && StopUsable(entry, signal.stopLoss) && Budgeted(c, s.equity) ==>
            var cash := Share(s.equity, c.riskPerTradePercent);
            var amount := AmountRisking(cash, entry, signal.stopLoss);
            r.Ok?
            && if TotalRisk(s.open) + cash > Share(s.equity, c.maxAggregateRiskPercent)
               then r.value == Refused("AGGREGATE_RISK_LIMIT")
               else if TotalCapital(s.open) + amount > Share(s.equity, c.maxFuturesCapitalPercent)
               then r.value == Refused("FUTURES_CAPITAL_LIMIT")
               else
                 && r.value.Opened? && r.value.trade.entryPrice == entry && r.value.trade.totalAmount == amount
                 && r.value.trade.signal == signal && r.value.trade.positionId == s.entries)
  {
    hide EntryPrice, MovedAgainst, TotalRisk, TotalCapital;
    EntryMoved(c, signal.direction, bar.open);
    var entry := EntryPrice(c, signal.direction, bar.open);
    if entry != 0.0 { DistanceIs(entry, signal.stopLoss, Share(s.equity, c.riskPerTradePercent)); }
    hide Distance, PerDistance, AmountRisking, Commission;
  }

  /** The signal waiting is one the run may take and size. */
  predicate Takable(c: Config, signal: Signal, entry: real)
  {
    (signal.direction == LONG || c.allowShort) && StopUsable(entry, signal.stopLoss)
  }

  /** A new trade of this risk fits beside what is open. */
  predicate Fits(c: Config, equity: real, open: seq<OpenTrade>, entry: real, stop: real)
    requires entry != stop
  {
    var cash := Share(equity, c.riskPerTradePercent);
    && TotalRisk(open) + cash <= Share(equity, c.maxAggregateRiskPercent)
    && TotalCapital(open) + AmountRisking(cash, entry, stop) <= Share(equity, c.maxFuturesCapitalPercent)
  }

  /**
   * What becomes of the signal waiting at a bar of the test: exactly one that can be taken and fits is
   * opened, at the moved open and for the amount its stop may lose; otherwise nothing is opened or paid.
   */
  lemma EnterSays(c: Config, s: State, bar: Candle, signal: Signal)
    requires s.pending == Some(signal) && Budgeted(c, s.equity)
    requires EntryPrice(c, signal.direction, bar.open) != 0.0
    ensures Enter(c, s, bar).Ok?
    ensures var (entry, next) := (EntryPrice(c, signal.direction, bar.open), Enter(c, s, bar).value);
      && next.pending == None && next.trades == s.trades && next.curve == s.curve
      && if Takable(c, signal, entry) && Fits(c, s.equity, s.open, entry, signal.stopLoss)
         then
           && |next.open| == |s.open| + 1 && next.open[..|s.open|] == s.open && next.entries == s.entries + 1
           && var t := next.open[|s.open|];
              && OpenedAt(c, bar, t) && t.signal == signal && t.positionId == s.entries
              && t.totalAmount == AmountRisking(Share(s.equity, c.riskPerTradePercent), entry, signal.stopLoss)
              && next.equity == s.equity - t.entryCommission
              && next.maxConcurrent == (if s.maxConcurrent > |s.open| then s.maxConcurrent else |s.open| + 1)
         else
           next.open == s.open && next.equity == s.equity && next.entries == s.entries
           && next.maxConcurrent == s.maxConcurrent
  {
    EntrySays(c, s, signal, bar);
    if TryOpen(c, s, signal, bar).Ok? && TryOpen(c, s, signal, bar).value.Opened?
       && (signal.direction == SHORT ==> c.allowShort) {
      OpensAt(c, s, signal, bar);
    }
    hide TryOpen, OpenedAt, EntryPrice, MovedAgainst, TotalRisk, TotalCapital, AmountRisking, Share;
  }

  /** Open risk and capital add up over the open trades; each counts what its stop costs, and its amount. */
  lemma RiskAndCapitalOfOne(open: seq<OpenTrade>, t: OpenTrade)
    ensures TotalRisk([]) == 0.0 && TotalCapital([]) == 0.0
    ensures TotalCapital(open + [t]) == TotalCapital(open) + t.totalAmount
    ensures TotalRisk(open + [t]) == TotalRisk(open) + RiskCash(t)
    ensures RiskCash(t) * t.entryPrice == t.totalAmount * Abs(t.entryPrice - t.signal.stopLoss)
  {
    assert (open + [t])[..|open|] == open;
    assert t.totalAmount * Abs(t.entryPrice - t.signal.stopLoss) / t.entryPrice * t.entryPrice
        == t.totalAmount * Abs(t.entryPrice - t.signal.stopLoss);
  }

  /** A newly opened trade is what OpenedAt says, and its stop costs exactly the share of equity it risks. */
  lemma NewTradeOpened(c: Config, id: nat, signal: Signal, bar: Candle, entry: real, amount: real)
    requires entry > 0.0 && amount >= 0.0 && signal.stopLoss > 0.0
    requires MovedAgainst(c, signal.direction == LONG, bar.open, entry)
    requires signal.direction == SHORT ==> c.allowShort
    ensures var t := NewTrade(c, id, signal, bar, entry, amount);
      && OpenedAt(c, bar, t) && t.signal == signal && t.positionId == id && t.totalAmount == amount
      && t.entryPrice == entry
  {
    CommissionIs(c, amount);
    assert amount / entry * entry == amount;
  }

  lemma OpensAt(c: Config, s: State, signal: Signal, bar: Candle)
    requires TryOpen(c, s, signal, bar).Ok? && TryOpen(c, s, signal, bar).value.Opened?
    requires signal.direction == SHORT ==> c.allowShort
    ensures var t := TryOpen(c, s, signal, bar).value.trade;
      OpenedAt(c, bar, t) && t.signal == signal && t.positionId == s.entries
  {
    hide OpenedAt, MovedAgainst;
    EntryMoved(c, signal.direction, bar.open);
    hide EntryPrice;
    var t := TryOpen(c, s, signal, bar).value.trade;
    NewTradeOpened(c, s.entries, signal, bar, t.entryPrice, t.totalAmount);
  }

  /** An entry sees nothing of its bar but the time and the open. */
  lemma EntrySeesTheOpen(c: Config, s: State, bar: Candle, other: Candle)
    requires bar.timestamp == other.timestamp && bar.open == other.open
    ensures Enter(c, s, bar) == Enter(c, s, other)
  {
  }

  // -------------------------------------------------------------------- the whole run

  /** Before its decision a bar takes what is waiting, opens at most one trade and closes what it touches. */
  lemma TradingKnown(
    c: Config, symbol: string, start: Option<int>, decide: Decider, bars: seq<Candle>, s: State, bar: Candle)
    requires Known(c, symbol, start, decide, bars, 15 * 60, s.pending, s.open, s.trades)
    requires (if InTest(start, bar) then Enter(c, s, bar) else Ok(s)).Ok?
    ensures var entered := if InTest(start, bar) then Enter(c, s, bar).value else s;
      var traded := Trading(c, symbol, entered, bar);
      && (InTest(start, bar) ==> traded.pending.None?)
      && (!InTest(start, bar) ==> traded.pending == s.pending)
      && (forall t :: t in traded.open ==> Running(c, start, decide, bars + [bar], t))
      && (forall r :: r in traded.trades ==> Explained(c, symbol, start, decide, bars + [bar], 15 * 60, r))
  {
    hide Running, Explained, TryOpen, Signalled, OpenedAt, Exits;
    var entered := if InTest(start, bar) then Enter(c, s, bar).value else s;
    forall t | t in entered.open ensures Meets(c, start, decide, bars, bar, t) {
      if t !in s.open { OpensAt(c, s, s.pending.value, bar); }
    }
    ExitsExplained(c, symbol, start, decide, bars, bar, 15 * 60, entered.open);
    forall r | r in s.trades ensures Explained(c, symbol, start, decide, bars + [bar], 15 * 60, r) {
      ExplainedStays(c, symbol, start, decide, bars, bar, 15 * 60, r);
    }
  }

  lemma BarKnown(
    c: Config, symbol: string, start: Option<int>, decide: Decider, bars: seq<Candle>, s: State, bar: Candle)
    requires Known(c, symbol, start, decide, bars, 15 * 60, s.pending, s.open, s.trades)
    requires Bar(c, symbol, start, decide, s, bar).Ok?
    ensures var next := Bar(c, symbol, start, decide, s, bar).value;
      Known(c, symbol, start, decide, bars + [bar], 15 * 60, next.pending, next.open, next.trades)
  {
    hide Running, Explained, Enter, Trading, Signalled;
    TradingKnown(c, symbol, start, decide, bars, s, bar);
    if InTest(start, bar) {
      var decision := decide(bar.timestamp + M15.Seconds()).value;
      if decision.Ready? { SignalGiven(start, decide, bars, bar, decision.signal); }
    } else if s.pending.Some? {
      SignalWaits(start, decide, bars, bar, s.pending.value);
    }
  }

  /** After any bars: what is open is running, what is waiting was signalled, every record is explained. */
  lemma {:induction false} BarsKnown(
    c: Config, symbol: string, start: Option<int>, decide: Decider, bars: seq<Candle>)
    requires Bars(c, symbol, start, decide, bars).Ok?
    ensures var s := Bars(c, symbol, start, decide, bars).value;
      Known(c, symbol, start, decide, bars, 15 * 60, s.pending, s.open, s.trades)
  {
    hide Bar, Known;
    if bars == [] {
      NothingKnown(c, symbol, start, decide, 15 * 60);
    } else {
      var init, bar := bars[..|bars| - 1], bars[|bars| - 1];
      assert bars == init + [bar];
      BarsKnown(c, symbol, start, decide, init);
      BarKnown(c, symbol, start, decide, init, Bars(c, symbol, start, decide, init).value, bar);
    }
  }

  lemma NothingKnown(c: Config, symbol: string, start: Option<int>, decide: Decider, delay: int)
    ensures Known(c, symbol, start, decide, [], delay, None, [], [])
  {
  }

  /**
   * Every trade a run reports was signalled at one bar of the test, bought at the open of the next, paid
   * funding for every bar it was held, and was closed at the first level touched, or at the last close.
   */
  lemma EveryTradeExplained(
    c: Config, symbol: string, start: Option<int>, decide: Decider, bars: seq<Candle>, r: TradeRecord)
    requires bars != [] && Run(c, symbol, start, decide, bars).Ok?
    requires r in Run(c, symbol, start, decide, bars).value.trades
    ensures Explained(c, symbol, start, decide, bars, 15 * 60, r)
            || ClosedAtEnd(c, symbol, start, decide, bars, 15 * 60, r)
  {
    hide Explained, ClosedAtEnd, Running, Bars, Liquidate, Signalled;
    BarsKnown(c, symbol, start, decide, bars);
    LiquidationExplained(c, symbol, start, decide, bars, 15 * 60, Bars(c, symbol, start, decide, bars).value.open);
  }

  /** Outside the test a bar asks for no entry and judges nothing; inside, nothing is left undone. */
  lemma BarSays(c: Config, symbol: string, start: Option<int>, decide: Decider, s: State, bar: Candle)
    requires Bar(c, symbol, start, decide, s, bar).Ok?
    ensures var (next, time) := (Bar(c, symbol, start, decide, s, bar).value, bar.timestamp + 15 * 60);
      && decide(time).Ok? && |next.curve| == |s.curve| + 1 && next.curve[|s.curve|] == next.equity
      && next.curve[..|s.curve|] == s.curve
      && (!InTest(start, bar) ==>
            next.pending == s.pending && next.events == s.events && next.entries == s.entries
            && next.rejected == s.rejected)
      && (InTest(start, bar) ==>
            var decision := decide(time).value;
            && next.pending == (if decision.Ready? then Some(decision.signal) else None)
            && next.rejected == s.rejected
                 + (if s.pending.Some? && s.pending.value.direction == SHORT && !c.allowShort then 1 else 0)
                 + (if decision.PreReject? || decision.SignalReject? then 1 else 0)
            && |next.events| == |s.events| + (if s.pending.Some? then 2 else 1) && s.events <= next.events
            && (s.pending.Some? ==>
                  next.events[|s.events|].timestamp == bar.timestamp && next.events[|s.events|].signal == s.pending
                  && next.events[|s.events|].code == (if next.entries > s.entries then TRADE_OPENED else ENTRY_REJECT))
            && var judged := next.events[|next.events| - 1];
               && judged.timestamp == time
               && judged.code == (match decision
                                  case NoSnapshot => DECISION_NO_SNAPSHOT
                                  case PreReject(_) => STRATEGY_PRE_SIGNAL_REJECT
                                  case SignalReject(_, _) => STRATEGY_SIGNAL_REJECT
                                  case Ready(_) => READY_FOR_RISK_REVIEW)
               && judged.signal == (match decision
                                    case Ready(signal) => Some(signal)
                                    case SignalReject(signal, _) => Some(signal)
                                    case _ => None))
  {
    hide TryOpen, Exits;
  }
}
