/**
 * The single-symbol event loop: entry at the open, funding and exits within the bar, then a
 * decision for the next bar.  The strategy is an arbitrary function of the decision time.
 */
module BacktestEngine {
  import opened Prelude
  import opened Candles
  import opened Positions
  import opened BacktestTrades

  datatype Code =
    | DECISION_NO_SNAPSHOT | STRATEGY_PRE_SIGNAL_REJECT | STRATEGY_SIGNAL_REJECT | READY_FOR_RISK_REVIEW
    | ENTRY_REJECT | TRADE_OPENED | PENDING_SIGNAL_END_OF_TEST

  datatype Event = Event(timestamp: int, code: Code, reasons: seq<string>, signal: Option<Signal>)

  /** What the snapshots and the strategy make of a decision time. */
  datatype Decision =
    | NoSnapshot
    | PreReject(reason: string)
    | SignalReject(rejected: Signal, reasons: seq<string>)
    | Ready(signal: Signal)

  type Decider = int -> Result<Decision, BacktestError>

  datatype State = State(
    equity: real, curve: seq<real>, trades: seq<TradeRecord>, open: seq<OpenTrade>, pending: Option<Signal>,
    rejected: nat, entries: nat, maxConcurrent: nat, events: seq<Event>)

  function Start(c: Config): State
  {
    State(c.initialEquity, [c.initialEquity], [], [], None, 0, 0, 0, [])
  }

  function TotalRisk(open: seq<OpenTrade>): real
  {
    if open == [] then 0.0 else TotalRisk(open[..|open| - 1]) + RiskCash(open[|open| - 1])
  }

  function TotalCapital(open: seq<OpenTrade>): real
  {
    if open == [] then 0.0 else TotalCapital(open[..|open| - 1]) + open[|open| - 1].totalAmount
  }

  datatype Entry = Opened(trade: OpenTrade) | Refused(reason: string)

  function Distance(entry: real, stop: real): (d: real)
    requires entry != 0.0
    ensures d > 0.0 ==> entry > 0.0
  {
    Abs(entry - stop) / entry
  }

  function PerDistance(risk: real, distance: real): (amount: real)
    requires distance > 0.0
    ensures risk >= 0.0 ==> amount >= 0.0
  {
    risk / distance
  }

  /** Size the entry so that its stop risks the per-trade budget, within both portfolio limits. */
  function TryOpen(c: Config, s: State, signal: Signal, bar: Candle): Result<Entry, BacktestError>
  {
    var entry := EntryPrice(c, signal.direction, bar.open);
    if entry == 0.0 then Err(DivisionByZero)
    else
      var distance := Distance(entry, signal.stopLoss);
      if distance <= 0.0 || signal.stopLoss <= 0.0 then Ok(Refused("INVALID_STOP_DISTANCE"))
      else
        match RiskBudget(s.equity, c.riskPerTradePercent)
        case Err(e) => Err(e)
        case Ok(risk) =>
          match RiskBudget(s.equity, c.maxAggregateRiskPercent)
          case Err(e) => Err(e)
          case Ok(budget) =>
            if TotalRisk(s.open) + risk > budget then Ok(Refused("AGGREGATE_RISK_LIMIT"))
            else
              var amount := PerDistance(risk, distance);
              match RiskBudget(s.equity, c.maxFuturesCapitalPercent)
              case Err(e) => Err(e)
              case Ok(capital) =>
                if TotalCapital(s.open) + amount > capital then Ok(Refused("FUTURES_CAPITAL_LIMIT"))
                else Ok(Opened(NewTrade(c, s.entries, signal, bar, entry, amount)))
  }

  function NewTrade(c: Config, id: nat, signal: Signal, bar: Candle, entry: real, amount: real): OpenTrade
    requires entry > 0.0 && amount >= 0.0 && signal.stopLoss > 0.0
  {
    Trade(id, signal, bar.timestamp, entry, amount / entry, amount, 1.0, Commission(c, amount), 0.0)
  }

  function Emit(s: State, event: Event): State
  {
    s.(events := s.events + [event])
  }

  /** The signal of the previous bar is entered or refused at this bar's open, and then forgotten. */
  function Enter(c: Config, s: State, bar: Candle): Result<State, BacktestError>
  {
    if s.pending.None? then Ok(s)
    else
      var signal, idle := s.pending.value, s.(pending := None);
      if signal.direction == SHORT && !c.allowShort then
        Ok(Emit(idle, Event(bar.timestamp, ENTRY_REJECT, ["SHORT_DISABLED"], Some(signal))).(
             rejected := s.rejected + 1))
      else
        match TryOpen(c, s, signal, bar)
        case Err(e) => Err(e)
        case Ok(Refused(reason)) => Ok(Emit(idle, Event(bar.timestamp, ENTRY_REJECT, [reason], Some(signal))))
        case Ok(Opened(trade)) =>
          Ok(Emit(idle, Event(bar.timestamp, TRADE_OPENED, [], Some(signal))).(
               equity := s.equity - trade.entryCommission,
               open := s.open + [trade],
               entries := s.entries + 1,
               maxConcurrent := if |s.open| + 1 > s.maxConcurrent then |s.open| + 1 else s.maxConcurrent))
  }

  function Trading(c: Config, symbol: string, s: State, bar: Candle): State
  {
    var o := Exits(c, symbol, s.open, bar, bar.timestamp + M15.Seconds());
    s.(equity := s.equity + o.flow, open := o.open, trades := s.trades + o.closed,
       curve := s.curve + [s.equity + o.flow])
  }

  function Judge(s: State, time: int, decision: Decision): State
  {
    match decision
    case NoSnapshot => Emit(s, Event(time, DECISION_NO_SNAPSHOT, [], None))
    case PreReject(reason) =>
      Emit(s, Event(time, STRATEGY_PRE_SIGNAL_REJECT, [reason], None)).(rejected := s.rejected + 1)
    case SignalReject(signal, reasons) =>
      Emit(s, Event(time, STRATEGY_SIGNAL_REJECT, reasons, Some(signal))).(rejected := s.rejected + 1)
    case Ready(signal) => Emit(s, Event(time, READY_FOR_RISK_REVIEW, [], Some(signal))).(pending := Some(signal))
  }

  predicate InTest(start: Option<int>, bar: Candle)
  {
    start.None? || bar.timestamp >= start.value
  }

  /** One bar; a raising entry, analysis or budget ends the run. */
  function Bar(c: Config, symbol: string, start: Option<int>, decide: Decider, s: State, bar: Candle):
    Result<State, BacktestError>
  {
    match (if InTest(start, bar) then Enter(c, s, bar) else Ok(s))
    case Err(e) => Err(e)
    case Ok(entered) =>
      var traded, time := Trading(c, symbol, entered, bar), bar.timestamp + M15.Seconds();
      match decide(time)
      case Err(e) => Err(e)
      case Ok(decision) => Ok(if InTest(start, bar) then Judge(traded, time, decision) else traded)
  }

  function Bars(c: Config, symbol: string, start: Option<int>, decide: Decider, bars: seq<Candle>):
    Result<State, BacktestError>
  {
    if bars == [] then Ok(Start(c))
    else
      match Bars(c, symbol, start, decide, bars[..|bars| - 1])
      case Err(e) => Err(e)
      case Ok(s) => Bar(c, symbol, start, decide, s, bars[|bars| - 1])
  }

  function NotePending(s: State, time: int): State
  {
    if s.pending.None? then s else Emit(s, Event(time, PENDING_SIGNAL_END_OF_TEST, [], s.pending))
  }

  /** After the last bar: a leftover signal is noted and open trades are closed at its close. */
  function Finish(c: Config, symbol: string, s: State, bar: Candle): State
  {
    var noted := NotePending(s, bar.timestamp + M15.Seconds());
    if s.open == [] then noted
    else
      var o := Liquidate(c, symbol, s.open, bar, bar.timestamp + M15.Seconds());
      noted.(equity := s.equity + o.flow, open := [], trades := s.trades + o.closed,
             curve := s.curve + [s.equity + o.flow])
  }

  /** The whole run; nothing is returned when anything raises. */
  function Run(c: Config, symbol: string, start: Option<int>, decide: Decider, bars: seq<Candle>):
    Result<State, BacktestError>
    requires bars != []
  {
    match Bars(c, symbol, start, decide, bars)
    case Err(e) => Err(e)
    case Ok(s) => Ok(Finish(c, symbol, s, bars[|bars| - 1]))
  }

  // ------------------------------------------------------------ money conservation

  /** Equity is what came in, plus every booked result, minus what the open trades have cost. */
  ghost predicate Conserved(c: Config, s: State)
  {
    && s.equity == c.initialEquity + TotalPnl(s.trades) - Held(s.open)
    && |s.trades| + |s.open| == s.entries
    && s.curve != [] && s.curve[|s.curve| - 1] == s.equity
  }

  lemma EnterConserves(c: Config, s: State, bar: Candle)
    requires s.equity == c.initialEquity + TotalPnl(s.trades) - Held(s.open) && |s.trades| + |s.open| == s.entries
    requires Enter(c, s, bar).Ok?
    ensures var t := Enter(c, s, bar).value;
      t.equity == c.initialEquity + TotalPnl(t.trades) - Held(t.open) && |t.trades| + |t.open| == t.entries
  {
    hide TryOpen;
    if s.pending.Some? && (s.pending.value.direction == LONG || c.allowShort)
       && TryOpen(c, s, s.pending.value, bar).value.Opened? {
      var trade := TryOpen(c, s, s.pending.value, bar).value.trade;
      assert trade.fundingCost == 0.0 by { OpensFresh(c, s, s.pending.value, bar); }
      HeldSnoc(s.open, trade);
    }
  }

  lemma OpensFresh(c: Config, s: State, signal: Signal, bar: Candle)
    requires TryOpen(c, s, signal, bar).Ok? && TryOpen(c, s, signal, bar).value.Opened?
    ensures TryOpen(c, s, signal, bar).value.trade.fundingCost == 0.0
    ensures TryOpen(c, s, signal, bar).value.trade.signal == signal
    ensures TryOpen(c, s, signal, bar).value.trade.entryTime == bar.timestamp
  {
    hide EntryPrice, Commission;
  }

  lemma BarConserves(c: Config, symbol: string, start: Option<int>, decide: Decider, s: State, bar: Candle)
    requires Conserved(c, s) && Bar(c, symbol, start, decide, s, bar).Ok?
    ensures Conserved(c, Bar(c, symbol, start, decide, s, bar).value)
  {
    hide Enter, Exits, TotalPnl, Held;
    if InTest(start, bar) { EnterConserves(c, s, bar); }
    var entered := if InTest(start, bar) then Enter(c, s, bar).value else s;
    ExitsConserve(c, symbol, entered.open, bar, bar.timestamp + M15.Seconds());
    TotalPnlConcat(entered.trades, Exits(c, symbol, entered.open, bar, bar.timestamp + M15.Seconds()).closed);
  }

  /** At every bar of every run money is conserved. */
  lemma {:induction false} BarsConserve(
    c: Config, symbol: string, start: Option<int>, decide: Decider, bars: seq<Candle>)
    requires Bars(c, symbol, start, decide, bars).Ok?
    ensures Conserved(c, Bars(c, symbol, start, decide, bars).value)
  {
    hide Bar;
    if bars != [] {
      BarsConserve(c, symbol, start, decide, bars[..|bars| - 1]);
      var before := Bars(c, symbol, start, decide, bars[..|bars| - 1]).value;
      BarConserves(c, symbol, start, decide, before, bars[|bars| - 1]);
    }
  }

  /** At the end nothing is open: final equity is the initial one plus every recorded result. */
  lemma RunConserves(c: Config, symbol: string, start: Option<int>, decide: Decider, bars: seq<Candle>)
    requires bars != [] && Run(c, symbol, start, decide, bars).Ok?
    ensures var s := Run(c, symbol, start, decide, bars).value;
      && s.open == [] && s.equity == c.initialEquity + TotalPnl(s.trades)
      && |s.trades| == s.entries && s.curve != [] && s.curve[|s.curve| - 1] == s.equity
  {
    hide Bars, Liquidate, TotalPnl;
    BarsConserve(c, symbol, start, decide, bars);
    var s, bar := Bars(c, symbol, start, decide, bars).value, bars[|bars| - 1];
    LiquidateConserves(c, symbol, s.open, bar, bar.timestamp + M15.Seconds());
    TotalPnlConcat(s.trades, Liquidate(c, symbol, s.open, bar, bar.timestamp + M15.Seconds()).closed);
  }

  /** An entry never takes the open trades over the aggregate risk or the capital limit. */
  lemma OpensWithinLimits(c: Config, s: State, signal: Signal, bar: Candle)
    requires TryOpen(c, s, signal, bar).Ok? && TryOpen(c, s, signal, bar).value.Opened?
    ensures var trade := TryOpen(c, s, signal, bar).value.trade;
      && RiskBudget(s.equity, c.riskPerTradePercent) == Ok(RiskCash(trade))
      && TotalRisk(s.open + [trade]) <= s.equity * c.maxAggregateRiskPercent / 100.0
      && TotalCapital(s.open + [trade]) <= s.equity * c.maxFuturesCapitalPercent / 100.0
  {
    hide EntryPrice, Commission;
    var trade := TryOpen(c, s, signal, bar).value.trade;
    assert (s.open + [trade])[..|s.open|] == s.open;
    var entry := trade.entryPrice;
    var risk := RiskBudget(s.equity, c.riskPerTradePercent).value;
    RiskIsBudget(trade, Distance(entry, signal.stopLoss), risk);
  }

  lemma RiskIsBudget(trade: OpenTrade, distance: real, risk: real)
    requires distance == Abs(trade.entryPrice - trade.signal.stopLoss) / trade.entryPrice && distance > 0.0
    requires trade.totalAmount == risk / distance
    ensures RiskCash(trade) == risk
  {
    var gap := Abs(trade.entryPrice - trade.signal.stopLoss);
    assert trade.totalAmount * distance == risk;
    assert trade.totalAmount * gap / trade.entryPrice == trade.totalAmount * (gap / trade.entryPrice);
  }

  // ---------------------------------------------------------------- no look-ahead

  /** The state after some bars depends on those bars and on the decisions taken by then, on nothing later. */
  lemma {:induction false} BarsDependOnThePast(
    c: Config, symbol: string, start: Option<int>, decide: Decider, other: Decider, bars: seq<Candle>)
    requires forall i :: 0 <= i < |bars| ==>
      decide(bars[i].timestamp + M15.Seconds()) == other(bars[i].timestamp + M15.Seconds())
    ensures Bars(c, symbol, start, decide, bars) == Bars(c, symbol, start, other, bars)
  {
    hide Enter, Trading, Judge;
    if bars != [] {
      BarsDependOnThePast(c, symbol, start, decide, other, bars[..|bars| - 1]);
      assert decide(bars[|bars| - 1].timestamp + M15.Seconds()) == other(bars[|bars| - 1].timestamp + M15.Seconds());
    }
  }

  // --------------------------------------------------------------- the loop itself

  /** The part of a bar before its decision: the entry when it is in the test, then funding and exits. */
  method TradeBar(c: Config, symbol: string, start: Option<int>, s: State, bar: Candle)
    returns (r: Result<State, BacktestError>)
    ensures r == match (if InTest(start, bar) then Enter(c, s, bar) else Ok(s))
                 case Err(e) => Err(e)
                 case Ok(entered) => Ok(Trading(c, symbol, entered, bar))
  {
    hide Enter, Exits;
    var state := s;
    if InTest(start, bar) {
      var entered := Enter(c, s, bar);
      if entered.Err? { return Err(entered.error); }
      state := entered.value;
    }
    var remaining, closed, equity :=
      ProcessExits(c, symbol, state.open, bar, bar.timestamp + M15.Seconds(), state.equity);
    return Ok(state.(equity := equity, open := remaining, trades := state.trades + closed,
                     curve := state.curve + [equity]));
  }

  method StepBar(c: Config, symbol: string, start: Option<int>, decide: Decider, s: State, bar: Candle)
    returns (r: Result<State, BacktestError>)
    ensures r == Bar(c, symbol, start, decide, s, bar)
  {
    hide Enter, Exits, Judge;
    var traded := TradeBar(c, symbol, start, s, bar);
    if traded.Err? { return Err(traded.error); }
    var time := bar.timestamp + M15.Seconds();
    var decision := decide(time);
    if decision.Err? { return Err(decision.error); }
    return Ok(if InTest(start, bar) then Judge(traded.value, time, decision.value) else traded.value);
  }

  method Conclude(c: Config, symbol: string, s: State, bar: Candle) returns (t: State)
    ensures t == Finish(c, symbol, s, bar)
  {
    t := NotePending(s, bar.timestamp + M15.Seconds());
    if s.open != [] {
      var closed, equity := CloseAll(c, symbol, s.open, bar, bar.timestamp + M15.Seconds(), s.equity);
      t := t.(equity := equity, open := [], trades := s.trades + closed, curve := s.curve + [equity]);
    }
  }

  method RunBacktest(c: Config, symbol: string, start: Option<int>, decide: Decider, bars: seq<Candle>)
    returns (r: Result<State, BacktestError>)
    requires bars != []
    ensures r == Run(c, symbol, start, decide, bars)
  {
    hide Bar, Finish;
    var s := Start(c);
    for i := 0 to |bars|
      invariant Bars(c, symbol, start, decide, bars[..i]) == Ok(s)
    {
      assert bars[..i + 1][..i] == bars[..i];
      var next := StepBar(c, symbol, start, decide, s, bars[i]);
      if next.Err? {
        StaysFailed(c, symbol, start, decide, bars, i + 1);
        return Err(next.error);
      }
      s := next.value;
    }
    assert bars[..|bars|] == bars;
    s := Conclude(c, symbol, s, bars[|bars| - 1]);
    return Ok(s);
  }

  lemma {:induction false} StaysFailed(
    c: Config, symbol: string, start: Option<int>, decide: Decider, bars: seq<Candle>, k: nat)
    requires k <= |bars| && Bars(c, symbol, start, decide, bars[..k]).Err?
    ensures Bars(c, symbol, start, decide, bars) == Bars(c, symbol, start, decide, bars[..k])
    decreases |bars|
  {
    hide Bar;
    if k == |bars| {
      assert bars[..k] == bars;
    } else {
      assert bars[..|bars| - 1][..k] == bars[..k];
      StaysFailed(c, symbol, start, decide, bars[..|bars| - 1], k);
    }
  }
}
