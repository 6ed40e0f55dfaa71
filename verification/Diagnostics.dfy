/** The signal attrition counters, and why they always agree with the run they observed. */
module Diagnostics {
  import opened Prelude
  import opened Candles
  import opened Positions
  import opened BacktestTrades
  import opened BacktestEngine

  type Counter<!K(!new)> = map<K, nat>

  function Get<K(!new)>(m: Counter<K>, k: K): nat
  {
    if k in m then m[k] else 0
  }

  function Bump<K(!new)>(m: Counter<K>, k: K): (r: Counter<K>)
    ensures forall j :: Get(r, j) == Get(m, j) + if j == k then 1 else 0
  {
    m[k := Get(m, k) + 1]
  }

  /** The questions the report asks of the events. */
  datatype Query =
    | ByCode(code: Code)
    | ByDirection(code: Code, direction: Side)
    | BySetup(code: Code, setup: string)
    | SeveralReasons

  predicate Matches(q: Query, e: Event)
  {
    match q
    case ByCode(code) => e.code == code
    case ByDirection(code, direction) => e.code == code && e.signal.Some? && e.signal.value.direction == direction
    case BySetup(code, setup) => e.code == code && e.signal.Some? && e.signal.value.setup == setup
    case SeveralReasons => e.code == STRATEGY_SIGNAL_REJECT && |e.reasons| > 1
  }

  function Hit(q: Query, e: Event): nat
  {
    if Matches(q, e) then 1 else 0
  }

  function Count(events: seq<Event>, q: Query): nat
  {
    if events == [] then 0
    else Count(events[..|events| - 1], q) + Hit(q, events[|events| - 1])
  }

  function Occurs(reasons: seq<string>, reason: string): nat
  {
    multiset(reasons)[reason]
  }

  /** How often an event of this code gives this reason. */
  function Given(e: Event, code: Code, reason: string): nat
  {
    if e.code == code then Occurs(e.reasons, reason) else 0
  }

  function Reasons(events: seq<Event>, code: Code, reason: string): nat
  {
    if events == [] then 0
    else Reasons(events[..|events| - 1], code, reason) + Given(events[|events| - 1], code, reason)
  }

  lemma CountSnoc(events: seq<Event>, e: Event, q: Query)
    ensures Count(events + [e], q) == Count(events, q) + Hit(q, e)
  {
    assert (events + [e])[..|events|] == events;
  }

  lemma ReasonsSnoc(events: seq<Event>, e: Event, code: Code, reason: string)
    ensures Reasons(events + [e], code, reason)
         == Reasons(events, code, reason) + Given(e, code, reason)
  {
    assert (events + [e])[..|events|] == events;
  }

  // --------------------------------------------------------------------- the report

  datatype Payload = Payload(
    decisionPoints: nat, preSignalRejections: nat, postSignalRejections: nat, severalReasons: nat, ready: nat,
    entryAttempts: nat, entryRejections: nat, tradesOpened: nat, pendingAtEnd: nat, legacyRejected: nat)

  function CodeCount(events: seq<Event>, code: Code): nat
  {
    Count(events, ByCode(code))
  }

  function PayloadOf(events: seq<Event>): Payload
  {
    Payload(
      CodeCount(events, DECISION_NO_SNAPSHOT) + CodeCount(events, STRATEGY_PRE_SIGNAL_REJECT)
        + CodeCount(events, STRATEGY_SIGNAL_REJECT) + CodeCount(events, READY_FOR_RISK_REVIEW),
      CodeCount(events, STRATEGY_PRE_SIGNAL_REJECT), CodeCount(events, STRATEGY_SIGNAL_REJECT),
      Count(events, SeveralReasons), CodeCount(events, READY_FOR_RISK_REVIEW),
      CodeCount(events, ENTRY_REJECT) + CodeCount(events, TRADE_OPENED), CodeCount(events, ENTRY_REJECT),
      CodeCount(events, TRADE_OPENED), CodeCount(events, PENDING_SIGNAL_END_OF_TEST),
      CodeCount(events, STRATEGY_PRE_SIGNAL_REJECT) + CodeCount(events, STRATEGY_SIGNAL_REJECT)
        + Reasons(events, ENTRY_REJECT, "SHORT_DISABLED"))
  }

  class SignalAttritionDiagnostics {
    ghost var seen: seq<Event>
    var eventCounts: Counter<Code>
    var preSignalReasons: Counter<string>
    var postSignalReasons: Counter<string>
    var entryReasons: Counter<string>
    var readyDirections: Counter<Side>
    var readySetups: Counter<string>
    var tradeDirections: Counter<Side>
    var tradeSetups: Counter<string>
    var severalReasons: nat

    /** Every counter holds the number of recorded events, or reasons, it stands for. */
    ghost predicate Valid()
      reads this
    {
      && (forall code :: Get(eventCounts, code) == Count(seen, ByCode(code)))
      && (forall r :: Get(preSignalReasons, r) == Reasons(seen, STRATEGY_PRE_SIGNAL_REJECT, r))
      && (forall r :: Get(postSignalReasons, r) == Reasons(seen, STRATEGY_SIGNAL_REJECT, r))
      && (forall r :: Get(entryReasons, r) == Reasons(seen, ENTRY_REJECT, r))
      && (forall d :: Get(readyDirections, d) == Count(seen, ByDirection(READY_FOR_RISK_REVIEW, d)))
      && (forall s :: Get(readySetups, s) == Count(seen, BySetup(READY_FOR_RISK_REVIEW, s)))
      && (forall d :: Get(tradeDirections, d) == Count(seen, ByDirection(TRADE_OPENED, d)))
      && (forall s :: Get(tradeSetups, s) == Count(seen, BySetup(TRADE_OPENED, s)))
      && severalReasons == Count(seen, SeveralReasons)
    }

    constructor ()
      ensures Valid() && seen == []
    {
      seen := [];
      eventCounts, preSignalReasons, postSignalReasons, entryReasons := map[], map[], map[], map[];
      readyDirections, readySetups, tradeDirections, tradeSetups := map[], map[], map[], map[];
      severalReasons := 0;
    }

    method Record(e: Event)
      requires Valid()
      modifies this
      ensures Valid() && seen == old(seen) + [e]
    {
      hide Count, Reasons, Get, Occurs, Matches;
      forall q ensures Count(seen + [e], q) == Count(seen, q) + Hit(q, e) {
        CountSnoc(seen, e, q);
      }
      forall code, r
        ensures Reasons(seen + [e], code, r)
             == Reasons(seen, code, r) + Given(e, code, r)
      {
        ReasonsSnoc(seen, e, code, r);
      }
      seen := seen + [e];
      eventCounts := Bump(eventCounts, e.code);
      TallyReasons(e);
      TallySignal(e);
      MatchesCode(e);
    }

    /** Reasons are counted under the code that gave them. */
    method TallyReasons(e: Event)
      modifies this`preSignalReasons, this`postSignalReasons, this`entryReasons, this`severalReasons
      ensures forall r ::
        Get(preSignalReasons, r) == Get(old(preSignalReasons), r) + Given(e, STRATEGY_PRE_SIGNAL_REJECT, r)
      ensures forall r ::
        Get(postSignalReasons, r) == Get(old(postSignalReasons), r) + Given(e, STRATEGY_SIGNAL_REJECT, r)
      ensures forall r :: Get(entryReasons, r) == Get(old(entryReasons), r) + Given(e, ENTRY_REJECT, r)
      ensures severalReasons == old(severalReasons) + Hit(SeveralReasons, e)
    {
      match e.code {
        case STRATEGY_PRE_SIGNAL_REJECT => preSignalReasons := BumpAll(preSignalReasons, e.reasons);
        case STRATEGY_SIGNAL_REJECT =>
          if |e.reasons| > 1 { severalReasons := severalReasons + 1; }
          postSignalReasons := BumpAll(postSignalReasons, e.reasons);
        case ENTRY_REJECT => entryReasons := BumpAll(entryReasons, e.reasons);
        case _ =>
      }
    }

    /** Ready signals and opened trades are counted by direction and by setup. */
    method TallySignal(e: Event)
      modifies this`readyDirections, this`readySetups, this`tradeDirections, this`tradeSetups
      ensures forall d ::
        Get(readyDirections, d) == Get(old(readyDirections), d) + Hit(ByDirection(READY_FOR_RISK_REVIEW, d), e)
      ensures forall s :: Get(readySetups, s) == Get(old(readySetups), s) + Hit(BySetup(READY_FOR_RISK_REVIEW, s), e)
      ensures forall d :: Get(tradeDirections, d) == Get(old(tradeDirections), d) + Hit(ByDirection(TRADE_OPENED, d), e)
      ensures forall s :: Get(tradeSetups, s) == Get(old(tradeSetups), s) + Hit(BySetup(TRADE_OPENED, s), e)
    {
      if e.signal.None? { return; }
      match e.code {
        case READY_FOR_RISK_REVIEW =>
          readyDirections := Bump(readyDirections, e.signal.value.direction);
          readySetups := Bump(readySetups, e.signal.value.setup);
        case TRADE_OPENED =>
          tradeDirections := Bump(tradeDirections, e.signal.value.direction);
          tradeSetups := Bump(tradeSetups, e.signal.value.setup);
        case _ =>
      }
    }

    method ToPayload() returns (p: Payload)
      requires Valid()
      ensures p == PayloadOf(seen)
    {
      var pre, post := Get(eventCounts, STRATEGY_PRE_SIGNAL_REJECT), Get(eventCounts, STRATEGY_SIGNAL_REJECT);
      var ready, refused := Get(eventCounts, READY_FOR_RISK_REVIEW), Get(eventCounts, ENTRY_REJECT);
      var entered := Get(eventCounts, TRADE_OPENED);
      p := Payload(
        Get(eventCounts, DECISION_NO_SNAPSHOT) + pre + post + ready, pre, post, severalReasons, ready,
        refused + entered, refused, entered, Get(eventCounts, PENDING_SIGNAL_END_OF_TEST),
        pre + post + Get(entryReasons, "SHORT_DISABLED"));
    }
  }

  lemma MatchesCode(e: Event)
    ensures forall code :: Matches(ByCode(code), e) <==> code == e.code
  {
  }

  method BumpAll(m: Counter<string>, reasons: seq<string>) returns (r: Counter<string>)
    ensures forall k :: Get(r, k) == Get(m, k) + Occurs(reasons, k)
  {
    r := m;
    for i := 0 to |reasons|
      invariant forall k :: Get(r, k) == Get(m, k) + Occurs(reasons[..i], k)
    {
      assert reasons[..i + 1] == reasons[..i] + [reasons[i]];
      r := Bump(r, reasons[i]);
    }
    assert reasons[..|reasons|] == reasons;
  }

  datatype Divergence = RejectedDiverged | TradesDiverged | ReadyDiverged

  /** The three checks every baseline makes on its own counters; none means nothing is raised. */
  function ValidateDiagnostics(d: Payload, s: State): Option<Divergence>
  {
    if d.legacyRejected != s.rejected then Some(RejectedDiverged)
    else if d.tradesOpened != |s.trades| then Some(TradesDiverged)
    else if d.ready != d.entryAttempts + d.pendingAtEnd then Some(ReadyDiverged)
    else None
  }

  // ------------------------------------------------------------ why they agree

  /** An entry event names its signal, and a refusal its one reason. */
  predicate WellFormed(e: Event)
  {
    && (e.code in {READY_FOR_RISK_REVIEW, TRADE_OPENED, ENTRY_REJECT} ==> e.signal.Some?)
    && (e.code == ENTRY_REJECT ==> |e.reasons| == 1)
  }

  ghost predicate Counted(s: State)
  {
    && s.rejected == CodeCount(s.events, STRATEGY_PRE_SIGNAL_REJECT) + CodeCount(s.events, STRATEGY_SIGNAL_REJECT)
                     + Reasons(s.events, ENTRY_REJECT, "SHORT_DISABLED")
    && s.entries == CodeCount(s.events, TRADE_OPENED)
    && CodeCount(s.events, READY_FOR_RISK_REVIEW)
       == CodeCount(s.events, ENTRY_REJECT) + s.entries + (if s.pending.Some? then 1 else 0)
    && CodeCount(s.events, PENDING_SIGNAL_END_OF_TEST) == 0
    && forall i :: 0 <= i < |s.events| ==> WellFormed(s.events[i])
  }

  lemma EmitCounts(events: seq<Event>, e: Event)
    ensures forall code :: CodeCount(events + [e], code) == CodeCount(events, code) + if e.code == code then 1 else 0
    ensures forall code, r :: Reasons(events + [e], code, r)
                           == Reasons(events, code, r) + Given(e, code, r)
  {
    forall code
      ensures CodeCount(events + [e], code) == CodeCount(events, code) + if e.code == code then 1 else 0
    {
      CountSnoc(events, e, ByCode(code));
    }
    forall code, r
      ensures Reasons(events + [e], code, r)
           == Reasons(events, code, r) + Given(e, code, r)
    {
      ReasonsSnoc(events, e, code, r);
    }
  }

  lemma RefusalIsNotShort(c: Config, s: State, signal: Signal, bar: Candle)
    requires TryOpen(c, s, signal, bar).Ok? && TryOpen(c, s, signal, bar).value.Refused?
    ensures TryOpen(c, s, signal, bar).value.reason != "SHORT_DISABLED"
  {
    hide EntryPrice;
    assert "SHORT_DISABLED"[0] == 'S';
    assert "INVALID_STOP_DISTANCE"[0] == 'I' && "AGGREGATE_RISK_LIMIT"[0] == 'A' && "FUTURES_CAPITAL_LIMIT"[0] == 'F';
  }

  lemma EnterCounts(c: Config, s: State, bar: Candle)
    requires Counted(s) && Enter(c, s, bar).Ok?
    ensures Counted(Enter(c, s, bar).value) && Enter(c, s, bar).value.pending.None?
  {
    hide TryOpen, Count, Reasons, CodeCount;
    if s.pending.Some? {
      var signal := s.pending.value;
      var t := Enter(c, s, bar).value;
      var e := t.events[|s.events|];
      EmitCounts(s.events, e);
      assert t.events == s.events + [e];
      if e.code == ENTRY_REJECT && !(signal.direction == SHORT && !c.allowShort) {
        RefusalIsNotShort(c, s, signal, bar);
        assert Occurs(e.reasons, "SHORT_DISABLED") == 0;
      } else if e.code == ENTRY_REJECT {
        assert Occurs(["SHORT_DISABLED"], "SHORT_DISABLED") == 1;
      }
    }
  }

  lemma JudgeCounts(s: State, time: int, decision: Decision)
    requires Counted(s) && s.pending.None?
    ensures Counted(Judge(s, time, decision))
  {
    hide Count, Reasons, CodeCount;
    var t := Judge(s, time, decision);
    var e := t.events[|s.events|];
    EmitCounts(s.events, e);
  }

  lemma BarCounts(c: Config, symbol: string, start: Option<int>, decide: Decider, s: State, bar: Candle)
    requires Counted(s) && Bar(c, symbol, start, decide, s, bar).Ok?
    ensures Counted(Bar(c, symbol, start, decide, s, bar).value)
  {
    hide Enter, Exits, Judge, Count, Reasons, CodeCount;
    if InTest(start, bar) {
      EnterCounts(c, s, bar);
      var traded := Trading(c, symbol, Enter(c, s, bar).value, bar);
      var time := bar.timestamp + M15.Seconds();
      JudgeCounts(traded, time, decide(time).value);
    }
  }

  lemma {:induction false} BarsCount(c: Config, symbol: string, start: Option<int>, decide: Decider, bars: seq<Candle>)
    requires Bars(c, symbol, start, decide, bars).Ok?
    ensures Counted(Bars(c, symbol, start, decide, bars).value)
  {
    hide Bar;
    if bars != [] {
      BarsCount(c, symbol, start, decide, bars[..|bars| - 1]);
      BarCounts(c, symbol, start, decide, Bars(c, symbol, start, decide, bars[..|bars| - 1]).value, bars[|bars| - 1]);
    }
  }

  lemma NotePendingCounts(s: State, time: int)
    requires Counted(s)
    ensures var t := NotePending(s, time);
      && ValidCounts(PayloadOf(t.events), s.rejected, s.entries)
      && forall i :: 0 <= i < |t.events| ==> WellFormed(t.events[i])
  {
    hide Count, Reasons, CodeCount;
    if s.pending.Some? {
      EmitCounts(s.events, Event(time, PENDING_SIGNAL_END_OF_TEST, [], s.pending));
    }
  }

  predicate ValidCounts(d: Payload, rejected: nat, entries: nat)
  {
    d.legacyRejected == rejected && d.tradesOpened == entries && d.ready == d.entryAttempts + d.pendingAtEnd
  }

  lemma FinishCounts(c: Config, symbol: string, s: State, bar: Candle)
    requires Counted(s) && |s.trades| + |s.open| == s.entries
    ensures var f := Finish(c, symbol, s, bar);
      && ValidateDiagnostics(PayloadOf(f.events), f) == None
      && forall i :: 0 <= i < |f.events| ==> WellFormed(f.events[i])
  {
    hide Counted, PayloadOf, Liquidate, WellFormed;
    var time := bar.timestamp + M15.Seconds();
    NotePendingCounts(s, time);
    LiquidateConserves(c, symbol, s.open, bar, time);
    assert Finish(c, symbol, s, bar).events == NotePending(s, time).events;
  }

  /** For every run that returns, the counters never diverge from its result. */
  lemma DiagnosticsNeverDiverge(c: Config, symbol: string, start: Option<int>, decide: Decider, bars: seq<Candle>)
    requires bars != [] && Run(c, symbol, start, decide, bars).Ok?
    ensures var s := Run(c, symbol, start, decide, bars).value;
      && ValidateDiagnostics(PayloadOf(s.events), s) == None
      && forall i :: 0 <= i < |s.events| ==> WellFormed(s.events[i])
  {
    hide Counted, Bars, PayloadOf, Finish, WellFormed, ValidateDiagnostics;
    BarsCount(c, symbol, start, decide, bars);
    BarsConserve(c, symbol, start, decide, bars);
    FinishCounts(c, symbol, Bars(c, symbol, start, decide, bars).value, bars[|bars| - 1]);
  }
}
