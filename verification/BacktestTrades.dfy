/** What the single-symbol and the portfolio backtests share: costs, open trades and their exits. */
module BacktestTrades {
  import opened Prelude
  import opened Candles
  import opened Positions

  datatype Config = Config(
    initialEquity: real, riskPerTradePercent: real, maxAggregateRiskPercent: real,
    maxFuturesCapitalPercent: real, commissionPercent: real, slippagePercent: real, spreadPercent: real,
    fundingPercentPerDay: real, allowShort: bool)

  datatype Signal = Signal(
    direction: Side, setup: string, stopLoss: real, target: real, rr: real, score: real, confidence: real)

  datatype Trade = Trade(
    positionId: nat, signal: Signal, entryTime: int, entryPrice: real, quantity: real, totalAmount: real,
    leverage: real, entryCommission: real, fundingCost: real)

  /** A trade that was really opened: its risk can always be computed. */
  type OpenTrade = t: Trade |
    t.entryPrice > 0.0 && t.signal.stopLoss > 0.0 && t.totalAmount >= 0.0 && t.leverage == 1.0
    witness Trade(0, Signal(LONG, "", 1.0, 0.0, 0.0, 0.0, 0.0), 0, 1.0, 0.0, 0.0, 1.0, 0.0, 0.0)

  datatype TradeRecord = TradeRecord(
    positionId: nat, symbol: string, direction: Side, setup: string, entryTime: int, entryPrice: real,
    exitTime: int, exitPrice: real, stopLoss: real, target: real, quantity: real, totalAmount: real,
    leverage: real, realizedPnl: real, commission: real, exitReason: string, fundingCost: real)

  datatype BacktestError = EquityNotPositive | PercentOutOfRange | DivisionByZero | AnalysisFailed

  // --------------------------------------------------------------------- costs

  function Friction(c: Config): real { c.spreadPercent / 200.0 + c.slippagePercent / 100.0 }

  function EntryPrice(c: Config, direction: Side, raw: real): real
  {
    if direction == LONG then raw * (1.0 + Friction(c)) else raw * (1.0 - Friction(c))
  }

  function ExitPrice(c: Config, direction: Side, raw: real): real
  {
    if direction == LONG then raw * (1.0 - Friction(c)) else raw * (1.0 + Friction(c))
  }

  function Commission(c: Config, notional: real): real { notional * c.commissionPercent / 100.0 }

  /** Signed funding of one 15 minute bar: longs pay what shorts receive. */
  function Funding(c: Config, direction: Side, notional: real): real
  {
    var amount := notional * c.fundingPercentPerDay / 100.0 * 15.0 / 1440.0;
    if direction == LONG then amount else -amount
  }

  function RiskBudget(equity: real, percent: real): Result<real, BacktestError>
  {
    if equity <= 0.0 then Err(EquityNotPositive)
    else if percent < 0.0 || percent > 100.0 then Err(PercentOutOfRange)
    else Ok(equity * percent / 100.0)
  }

  function RiskCash(t: OpenTrade): real
  {
    t.totalAmount * Abs(t.entryPrice - t.signal.stopLoss) / t.entryPrice * t.leverage
  }

  function Gross(t: OpenTrade, exit: real): real
  {
    var move := (exit - t.entryPrice) / t.entryPrice;
    t.totalAmount * (if t.signal.direction == SHORT then -move else move) * t.leverage
  }

  /** What one side pays in funding the other side receives. */
  lemma FundingIsTransfer(c: Config, notional: real)
    ensures Funding(c, LONG, notional) + Funding(c, SHORT, notional) == 0.0
    ensures c.fundingPercentPerDay >= 0.0 && notional >= 0.0 ==> Funding(c, LONG, notional) >= 0.0
  {
    assert c.fundingPercentPerDay >= 0.0 && notional >= 0.0 ==> notional * c.fundingPercentPerDay >= 0.0;
  }

  /** A long gains exactly above its entry, a short exactly below it. */
  lemma GrossSign(t: OpenTrade, exit: real)
    requires t.totalAmount > 0.0
    ensures Gross(t, exit) > 0.0 <==> if t.signal.direction == LONG then exit > t.entryPrice else exit < t.entryPrice
    ensures Gross(t, t.entryPrice) == 0.0
  {
    var gap := exit - t.entryPrice;
    var move := gap / t.entryPrice;
    assert move * t.entryPrice == gap;
    SameSign(move, t.entryPrice);
    SameSign(move, t.totalAmount);
    SameSign(-move, t.totalAmount);
  }

  lemma SameSign(a: real, b: real)
    requires b > 0.0
    ensures a * b > 0.0 <==> a > 0.0
    ensures a * b < 0.0 <==> a < 0.0
  {
    if a > 0.0 { assert a * b > 0.0; } else if a < 0.0 { assert (-a) * b > 0.0; }
  }

  /** Spread and slippage only ever cost: in and out at one market price never gains. */
  lemma RoundTripCosts(c: Config, t: OpenTrade, raw: real)
    requires c.spreadPercent >= 0.0 && c.slippagePercent >= 0.0 && raw > 0.0 && t.totalAmount > 0.0
    requires t.entryPrice == EntryPrice(c, t.signal.direction, raw)
    ensures Gross(t, ExitPrice(c, t.signal.direction, raw)) <= 0.0
  {
    var f := Friction(c);
    assert f >= 0.0 && raw * f >= 0.0;
    assert raw * (1.0 + f) == raw + raw * f && raw * (1.0 - f) == raw - raw * f;
    GrossSign(t, ExitPrice(c, t.signal.direction, raw));
  }

  // --------------------------------------------------------------------- one bar

  /** The stop is looked at before the target; a target of zero or less is none. */
  function IntrabarExit(t: OpenTrade, bar: Candle): Option<(real, string)>
  {
    var sl, tp := t.signal.stopLoss, t.signal.target;
    if t.signal.direction == LONG then
      if bar.low <= sl then Some((sl, "STOP_LOSS"))
      else if tp > 0.0 && bar.high >= tp then Some((tp, "TAKE_PROFIT")) else None
    else
      if bar.high >= sl then Some((sl, "STOP_LOSS"))
      else if tp > 0.0 && bar.low <= tp then Some((tp, "TAKE_PROFIT")) else None
  }

  /** A price at or past the stop. */
  predicate HitsStop(t: OpenTrade, price: real)
  {
    if t.signal.direction == LONG then price <= t.signal.stopLoss else price >= t.signal.stopLoss
  }

  /** A price at or past the target; a target of zero or less is none. */
  predicate HitsTarget(t: OpenTrade, price: real)
  {
    t.signal.target > 0.0
    && if t.signal.direction == LONG then price >= t.signal.target else price <= t.signal.target
  }

  ghost predicate StopReached(t: OpenTrade, bar: Candle)
  {
    exists price :: bar.low <= price <= bar.high && HitsStop(t, price)
  }

  ghost predicate TargetReached(t: OpenTrade, bar: Candle)
  {
    exists price :: bar.low <= price <= bar.high && HitsTarget(t, price)
  }

  /** A level at which some price of the bar's range could have closed the trade. */
  ghost predicate Reachable(t: OpenTrade, bar: Candle, level: real)
  {
    (level == t.signal.stopLoss && StopReached(t, bar)) || (level == t.signal.target && TargetReached(t, bar))
  }

  /** Leaving at the stop is no better than leaving at the target. */
  predicate StopNotBetter(t: OpenTrade)
  {
    if t.signal.direction == LONG then t.signal.stopLoss <= t.signal.target
    else t.signal.stopLoss >= t.signal.target
  }

  /** The worst of everything the bar makes possible. */
  ghost predicate LeastGross(t: OpenTrade, bar: Candle, level: real)
  {
    forall other :: Reachable(t, bar, other) ==> Gross(t, level) <= Gross(t, other)
  }

  /** The result follows the price in the direction of the trade. */
  lemma GrossMonotone(t: OpenTrade, worse: real, better: real)
    requires if t.signal.direction == LONG then worse <= better else worse >= better
    ensures Gross(t, worse) <= Gross(t, better)
    ensures t.totalAmount > 0.0 && worse != better ==> Gross(t, worse) < Gross(t, better)
  {
    var a, b := (worse - t.entryPrice) / t.entryPrice, (better - t.entryPrice) / t.entryPrice;
    var gap := if t.signal.direction == LONG then b - a else a - b;
    assert gap == (if t.signal.direction == LONG then better - worse else worse - better) / t.entryPrice;
    SameSign(gap, t.entryPrice);
    assert gap >= 0.0 && (worse != better ==> gap > 0.0);
    assert t.totalAmount * gap >= 0.0;
    if t.totalAmount > 0.0 { SameSign(gap, t.totalAmount); }
    if t.signal.direction == LONG {
      assert t.totalAmount * b - t.totalAmount * a == t.totalAmount * gap;
    } else {
      assert t.totalAmount * -b - t.totalAmount * -a == t.totalAmount * gap;
    }
  }

  /**
   * A trade stays open exactly while no price of the bar touches a level.  The exit taken is a level
   * the bar reaches, and of all those it gives the least result, except exactly when both are reached
   * and the stop is the better one.
   */
  lemma ExitIsWorstCase(t: OpenTrade, bar: Candle)
    requires bar.low <= bar.high
    ensures IntrabarExit(t, bar).None? <==> forall level :: !Reachable(t, bar, level)
    ensures IntrabarExit(t, bar).Some? ==>
      var (level, reason) := IntrabarExit(t, bar).value;
      && Reachable(t, bar, level)
      && level == (if reason == "STOP_LOSS" then t.signal.stopLoss else t.signal.target)
      && (StopNotBetter(t) ==> LeastGross(t, bar, level))
      && (t.totalAmount > 0.0 && !StopNotBetter(t) ==>
            (LeastGross(t, bar, level) <==> !(StopReached(t, bar) && TargetReached(t, bar))))
  {
    hide Gross;
    var sl, tp := t.signal.stopLoss, t.signal.target;
    var (near, far) := if t.signal.direction == LONG then (bar.low, bar.high) else (bar.high, bar.low);
    assert HitsStop(t, near) <==> StopReached(t, bar);
    assert HitsTarget(t, far) <==> TargetReached(t, bar);
    assert StopReached(t, bar) ==> Reachable(t, bar, sl);
    assert TargetReached(t, bar) ==> Reachable(t, bar, tp);
    assert "STOP_LOSS"[0] != "TAKE_PROFIT"[0];
    if StopNotBetter(t) { GrossMonotone(t, sl, tp); } else { GrossMonotone(t, tp, sl); }
  }

  function Funded(c: Config, t: OpenTrade): OpenTrade
  {
    t.(fundingCost := t.fundingCost + Funding(c, t.signal.direction, t.totalAmount))
  }

  /** Entry commission, funding and exit commission all come off the gross result. */
  function NetPnl(c: Config, t: OpenTrade, exit: real): real
  {
    Gross(t, exit) - t.entryCommission - Commission(c, t.totalAmount) - t.fundingCost
  }

  function Record(c: Config, symbol: string, t: OpenTrade, exit: real, exitTime: int, reason: string): TradeRecord
  {
    TradeRecord(t.positionId, symbol, t.signal.direction, t.signal.setup, t.entryTime, t.entryPrice, exitTime,
                exit, t.signal.stopLoss, t.signal.target, t.quantity, t.totalAmount, t.leverage,
                NetPnl(c, t, exit), t.entryCommission + Commission(c, t.totalAmount), reason, t.fundingCost)
  }

  /** What a bar does to the open trades: who stays, who is closed, and the change of equity. */
  datatype Outcome = Outcome(open: seq<OpenTrade>, closed: seq<TradeRecord>, flow: real)

  /** The trades in their order: funding first, then the exit test. */
  function Exits(c: Config, symbol: string, open: seq<OpenTrade>, bar: Candle, exitTime: int): Outcome
  {
    if open == [] then Outcome([], [], 0.0)
    else
      var before := Exits(c, symbol, open[..|open| - 1], bar, exitTime);
      var t := Funded(c, open[|open| - 1]);
      var paid := before.flow - Funding(c, t.signal.direction, t.totalAmount);
      match IntrabarExit(t, bar)
      case None => Outcome(before.open + [t], before.closed, paid)
      case Some((raw, reason)) =>
        var exit := ExitPrice(c, t.signal.direction, raw);
        Outcome(before.open, before.closed + [Record(c, symbol, t, exit, exitTime, reason)],
                paid + (Gross(t, exit) - Commission(c, t.totalAmount)))
  }

  /** Closing everything at the final close; no funding is charged. */
  function Liquidate(c: Config, symbol: string, open: seq<OpenTrade>, bar: Candle, exitTime: int): Outcome
  {
    if open == [] then Outcome([], [], 0.0)
    else
      var before := Liquidate(c, symbol, open[..|open| - 1], bar, exitTime);
      var t := open[|open| - 1];
      var exit := ExitPrice(c, t.signal.direction, bar.close);
      Outcome([], before.closed + [Record(c, symbol, t, exit, exitTime, "END_OF_TEST")],
              before.flow + (Gross(t, exit) - Commission(c, t.totalAmount)))
  }

  // ---------------------------------------------------------------- conservation

  function TotalPnl(trades: seq<TradeRecord>): real
  {
    if trades == [] then 0.0 else TotalPnl(trades[..|trades| - 1]) + trades[|trades| - 1].realizedPnl
  }

  /** What the open trades have cost so far: entry commission and accrued funding. */
  function Held(open: seq<OpenTrade>): real
  {
    if open == [] then 0.0
    else Held(open[..|open| - 1]) + open[|open| - 1].entryCommission + open[|open| - 1].fundingCost
  }

  lemma {:induction false} TotalPnlConcat(a: seq<TradeRecord>, b: seq<TradeRecord>)
    ensures TotalPnl(a + b) == TotalPnl(a) + TotalPnl(b)
  {
    if b == [] {
      assert a + b == a;
    } else {
      TotalPnlConcat(a, b[..|b| - 1]);
      assert (a + b)[..|a + b| - 1] == a + b[..|b| - 1];
    }
  }

  lemma HeldSnoc(open: seq<OpenTrade>, t: OpenTrade)
    ensures Held(open + [t]) == Held(open) + t.entryCommission + t.fundingCost
  {
    assert (open + [t])[..|open|] == open;
  }

  /** A bar moves equity by exactly the results it books and the change of what is held. */
  lemma {:induction false} ExitsConserve(c: Config, symbol: string, open: seq<OpenTrade>, bar: Candle, exitTime: int)
    ensures var o := Exits(c, symbol, open, bar, exitTime);
      && o.flow == TotalPnl(o.closed) - Held(o.open) + Held(open)
      && |o.open| + |o.closed| == |open|
  {
    hide Funding, Gross, Commission, IntrabarExit, ExitPrice;
    if open != [] {
      ExitsConserve(c, symbol, open[..|open| - 1], bar, exitTime);
      var before := Exits(c, symbol, open[..|open| - 1], bar, exitTime);
      var t := Funded(c, open[|open| - 1]);
      match IntrabarExit(t, bar)
      case None => HeldSnoc(before.open, t);
      case Some((raw, reason)) =>
        TotalPnlConcat(before.closed, [Record(c, symbol, t, ExitPrice(c, t.signal.direction, raw), exitTime, reason)]);
    }
  }

  lemma {:induction false} LiquidateConserves(
    c: Config, symbol: string, open: seq<OpenTrade>, bar: Candle, exitTime: int)
    ensures var o := Liquidate(c, symbol, open, bar, exitTime);
      && o.flow == TotalPnl(o.closed) + Held(open)
      && o.open == [] && |o.closed| == |open|
  {
    hide Gross, Commission, ExitPrice;
    if open != [] {
      LiquidateConserves(c, symbol, open[..|open| - 1], bar, exitTime);
      var before := Liquidate(c, symbol, open[..|open| - 1], bar, exitTime);
      var t := open[|open| - 1];
      TotalPnlConcat(before.closed,
                     [Record(c, symbol, t, ExitPrice(c, t.signal.direction, bar.close), exitTime, "END_OF_TEST")]);
    }
  }

  // ------------------------------------------------- the loops that compute them

  method ProcessExits(c: Config, symbol: string, open: seq<OpenTrade>, bar: Candle, exitTime: int, equity: real)
    returns (remaining: seq<OpenTrade>, closed: seq<TradeRecord>, after: real)
    ensures Outcome(remaining, closed, after - equity) == Exits(c, symbol, open, bar, exitTime)
  {
    hide Funding, Gross, Commission, IntrabarExit, ExitPrice;
    remaining, closed, after := [], [], equity;
    var i := 0;
    while i < |open|
      invariant 0 <= i <= |open|
      invariant Outcome(remaining, closed, after - equity) == Exits(c, symbol, open[..i], bar, exitTime)
    {
      assert open[..i + 1][..i] == open[..i];
      var trade := Funded(c, open[i]);
      after := after - Funding(c, trade.signal.direction, trade.totalAmount);
      var exit := IntrabarExit(trade, bar);
      if exit.None? {
        remaining := remaining + [trade];
      } else {
        var price := ExitPrice(c, trade.signal.direction, exit.value.0);
        after := after + (Gross(trade, price) - Commission(c, trade.totalAmount));
        closed := closed + [Record(c, symbol, trade, price, exitTime, exit.value.1)];
      }
      i := i + 1;
    }
    assert open[..i] == open;
  }

  method CloseAll(c: Config, symbol: string, open: seq<OpenTrade>, bar: Candle, exitTime: int, equity: real)
    returns (closed: seq<TradeRecord>, after: real)
    ensures Outcome([], closed, after - equity) == Liquidate(c, symbol, open, bar, exitTime)
  {
    hide Gross, Commission, ExitPrice;
    closed, after := [], equity;
    var i := 0;
    while i < |open|
      invariant 0 <= i <= |open|
      invariant Outcome([], closed, after - equity) == Liquidate(c, symbol, open[..i], bar, exitTime)
    {
      assert open[..i + 1][..i] == open[..i];
      var price := ExitPrice(c, open[i].signal.direction, bar.close);
      after := after + (Gross(open[i], price) - Commission(c, open[i].totalAmount));
      closed := closed + [Record(c, symbol, open[i], price, exitTime, "END_OF_TEST")];
      i := i + 1;
    }
    assert open[..i] == open;
  }
}
