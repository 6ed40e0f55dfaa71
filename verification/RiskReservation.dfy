/** Risk reserved for pending orders, and how a fill turns it into open risk. */
module RiskReservation {
  import opened Prelude
  import opened Positions
  import opened PaperOrders
  import opened PaperSafety
  import opened RiskGates

  datatype ReserveError = BadOrder | BadPrice

  /** The price an order's risk is reserved at: its own, or the market's when it names none. */
  function EntryOf(order: OrderRequest, market: Option<real>): Option<real>
  {
    if order.requestedPrice.Some? then order.requestedPrice else market
  }

  function Collateral(price: real, quantity: real, leverage: real): real
    requires leverage > 0.0
  {
    price * quantity / leverage
  }

  /** The reserved risk of one order; nothing when no price is known, an error for bad inputs. */
  function Reserved(order: OrderRequest, market: Option<real>): Result<Option<real>, ReserveError>
  {
    if order.leverage <= 0.0 || order.quantity <= 0.0 || order.stopLoss <= 0.0 then Err(BadOrder)
    else
      match EntryOf(order, market)
      case None => Ok(None)
      case Some(entry) =>
        if entry <= 0.0 then Err(BadPrice)
        else
          var collateral := Collateral(entry, order.quantity, order.leverage);
          Ok(Some(RiskAmount(collateral, entry, order.stopLoss, order.leverage)))
  }

  function AmountOf(r: Option<real>): real { if r.Some? then r.value else 0.0 }

  /** The risk reserved for all the orders; the orders without a price are reported, not priced at zero. */
  function TotalReserved(orders: seq<OrderRequest>, market: map<string, real>): Result<real, ReserveError>
  {
    if orders == [] then Ok(0.0)
    else
      match TotalReserved(orders[..|orders| - 1], market)
      case Err(e) => Err(e)
      case Ok(total) =>
        match Reserved(orders[|orders| - 1], MarketPrice(market, orders[|orders| - 1].symbol))
        case Err(e) => Err(e)
        case Ok(risk) => Ok(total + AmountOf(risk))
  }

  function MarketPrice(market: map<string, real>, symbol: string): Option<real>
  {
    if symbol in market then Some(market[symbol]) else None
  }

  method ReservePendingOrderRisk(orders: seq<OrderRequest>, market: map<string, real>)
    returns (total: real, unresolved: seq<string>, error: Option<ReserveError>)
    ensures error.None? ==> TotalReserved(orders, market) == Ok(total)
    ensures error.Some? ==> TotalReserved(orders, market) == Err(error.value)
    ensures error.None? ==> forall id :: id in unresolved <==>
      exists i :: 0 <= i < |orders| && orders[i].orderId == id
                  && EntryOf(orders[i], MarketPrice(market, orders[i].symbol)).None?
  {
    hide RiskAmount, Collateral;
    total, unresolved, error := 0.0, [], None;
    for i := 0 to |orders|
      invariant TotalReserved(orders[..i], market) == Ok(total) && error.None?
      invariant forall id :: id in unresolved <==>
        exists k :: 0 <= k < i && orders[k].orderId == id
                    && EntryOf(orders[k], MarketPrice(market, orders[k].symbol)).None?
    {
      assert orders[..i + 1][..i] == orders[..i];
      var risk := Reserved(orders[i], MarketPrice(market, orders[i].symbol));
      if risk.Err? {
        StaysFailed(orders, market, i + 1);
        return total, unresolved, Some(risk.error);
      }
      if risk.value.None? { unresolved := unresolved + [orders[i].orderId]; }
      total := total + AmountOf(risk.value);
    }
    assert orders[..|orders|] == orders;
  }

  lemma {:induction false} StaysFailed(orders: seq<OrderRequest>, market: map<string, real>, k: nat)
    requires k <= |orders| && TotalReserved(orders[..k], market).Err?
    ensures TotalReserved(orders, market) == TotalReserved(orders[..k], market)
    decreases |orders|
  {
    hide Reserved;
    if k == |orders| {
      assert orders[..k] == orders;
    } else {
      assert orders[..|orders| - 1][..k] == orders[..k];
      StaysFailed(orders[..|orders| - 1], market, k);
    }
  }

  // ---------------------------------------------------------------- moved by a fill

  /** The position a filled limit order opens carries exactly the risk reserved for the order. */
  lemma FillMovesReservedRisk(order: OrderRequest, quote: Quote, now: int, market: Option<real>)
    requires CheckLimit(order, quote, now).status == FILLED
    ensures var r := PositionFromFill(order, CheckLimit(order, quote, now));
      && r.Ok? && Reserved(order, market).Ok? && Reserved(order, market).value.Some?
      && PositionRisk(r.value) == Ok(Reserved(order, market).value.value)
  {
    hide Blank, RiskAmount;
    var price := order.requestedPrice.value;
    assert price * order.quantity > 0.0;
    assert price * order.quantity / order.leverage > 0.0;
    var p := PositionFromFill(order, CheckLimit(order, quote, now)).value;
    assert p.totalAmount == Collateral(price, order.quantity, order.leverage) && p.totalAmount > 0.0;
    hide Collateral, CheckLimit;
    assert p.entryPrice == price && p.stopLoss == order.stopLoss && p.leverage == order.leverage && p.status == OPEN;
    hide PositionFromFill;
  }

  lemma {:induction false} ReservedConcat(a: seq<OrderRequest>, b: seq<OrderRequest>, market: map<string, real>)
    requires TotalReserved(a, market).Ok? && TotalReserved(b, market).Ok?
    ensures TotalReserved(a + b, market) == Ok(TotalReserved(a, market).value + TotalReserved(b, market).value)
  {
    hide Reserved;
    if b == [] {
      assert a + b == a;
    } else {
      ReservedConcat(a, b[..|b| - 1], market);
      assert (a + b)[..|a + b| - 1] == a + b[..|b| - 1];
    }
  }

  /** Committed risk, reserved and open together, is the same before and after the fill. */
  lemma CommittedRiskUnchanged(
    before: seq<OrderRequest>, order: OrderRequest, after: seq<OrderRequest>, positions: seq<Position>,
    market: map<string, real>, quote: Quote, now: int)
    requires CheckLimit(order, quote, now).status == FILLED && OpenRisk(positions).Ok?
    requires TotalReserved(before, market).Ok? && TotalReserved(after, market).Ok?
    ensures var filled := PositionFromFill(order, CheckLimit(order, quote, now));
      && filled.Ok?
      && TotalReserved(before + [order] + after, market).Ok? && TotalReserved(before + after, market).Ok?
      && OpenRisk(positions + [filled.value]).Ok?
      && TotalReserved(before + [order] + after, market).value + OpenRisk(positions).value
         == TotalReserved(before + after, market).value + OpenRisk(positions + [filled.value]).value
  {
    FillMovesReservedRisk(order, quote, now, MarketPrice(market, order.symbol));
    var position := PositionFromFill(order, CheckLimit(order, quote, now)).value;
    hide CheckLimit, PositionFromFill, Reserved, PositionRisk;
    assert [order][..0] == [] && TotalReserved([], market) == Ok(0.0);
    assert TotalReserved([order], market).Ok?;
    ReservedConcat(before, [order], market);
    ReservedConcat(before + [order], after, market);
    ReservedConcat(before, after, market);
    assert (positions + [position])[..|positions|] == positions;
  }

  // ------------------------------------------------- through the states of a recheck

  /** The pending entry of an id while it is active. */
  function PendingAt(db: Db, id: string): seq<OrderRequest>
  {
    if id in db.pending && db.pending[id].status == ACCEPTED then [db.pending[id].order] else []
  }

  function PositionAt(db: Db, id: string): seq<Position>
  {
    if id in db.positions then [db.positions[id]] else []
  }

  function ActiveOrders(db: Db, ids: seq<string>): seq<OrderRequest>
  {
    if ids == [] then [] else ActiveOrders(db, ids[..|ids| - 1]) + PendingAt(db, ids[|ids| - 1])
  }

  function PositionsOf(db: Db, ids: seq<string>): seq<Position>
  {
    if ids == [] then [] else PositionsOf(db, ids[..|ids| - 1]) + PositionAt(db, ids[|ids| - 1])
  }

  /** The risk of every listed pending order and position can be computed. */
  predicate Quantified(db: Db, ids: seq<string>, market: map<string, real>)
  {
    TotalReserved(ActiveOrders(db, ids), market).Ok? && OpenRisk(PositionsOf(db, ids)).Ok?
  }

  function Committed(db: Db, ids: seq<string>, market: map<string, real>): real
    requires Quantified(db, ids, market)
  {
    TotalReserved(ActiveOrders(db, ids), market).value + OpenRisk(PositionsOf(db, ids)).value
  }

  /** The two stores agree about the pending entries and positions of every other id. */
  ghost predicate SameOutside(db: Db, next: Db, id: string)
  {
    forall other :: other != id ==>
      PendingAt(db, other) == PendingAt(next, other) && PositionAt(db, other) == PositionAt(next, other)
  }

  lemma {:induction false} Elsewhere(db: Db, next: Db, ids: seq<string>, id: string)
    requires SameOutside(db, next, id) && id !in ids
    ensures ActiveOrders(next, ids) == ActiveOrders(db, ids) && PositionsOf(next, ids) == PositionsOf(db, ids)
  {
    if ids != [] { Elsewhere(db, next, ids[..|ids| - 1], id); }
  }

  lemma ReservedSnoc(orders: seq<OrderRequest>, last: seq<OrderRequest>, market: map<string, real>)
    requires |last| <= 1
    ensures TotalReserved(orders, market).Ok? ==>
      (TotalReserved(orders + last, market).Ok? <==> TotalReserved(last, market).Ok?)
    ensures TotalReserved(orders + last, market).Ok? ==>
      && TotalReserved(orders, market).Ok? && TotalReserved(last, market).Ok?
      && TotalReserved(orders + last, market).value
         == TotalReserved(orders, market).value + TotalReserved(last, market).value
  {
    hide Reserved;
    if last == [] {
      assert orders + last == orders;
    } else {
      assert (orders + last)[..|orders|] == orders && (orders + last)[|orders|] == last[0];
      assert last[..0] == [] && TotalReserved([], market) == Ok(0.0);
    }
  }

  lemma OpenSnoc(positions: seq<Position>, last: seq<Position>)
    requires |last| <= 1
    ensures OpenRisk(positions).Ok? ==> (OpenRisk(positions + last).Ok? <==> OpenRisk(last).Ok?)
    ensures OpenRisk(positions + last).Ok? ==>
      && OpenRisk(positions).Ok? && OpenRisk(last).Ok?
      && OpenRisk(positions + last).value == OpenRisk(positions).value + OpenRisk(last).value
  {
    hide PositionRisk;
    if last == [] {
      assert positions + last == positions;
    } else {
      assert (positions + last)[..|positions|] == positions && (positions + last)[|positions|] == last[0];
      assert last[..0] == [] && OpenRisk([]) == Ok(0.0);
    }
  }

  ghost predicate NoRepeats(ids: seq<string>)
  {
    forall i, j :: 0 <= i < j < |ids| ==> ids[i] != ids[j]
  }

  /** What one id contributes to the committed risk. */
  function Share(db: Db, id: string, market: map<string, real>): real
    requires Quantified(db, [id], market)
  {
    Committed(db, [id], market)
  }

  lemma ShareOf(db: Db, id: string, market: map<string, real>)
    ensures ActiveOrders(db, [id]) == PendingAt(db, id) && PositionsOf(db, [id]) == PositionAt(db, id)
  {
    assert [id][..0] == [];
  }

  /** Changing one id's entries changes the committed risk by the change of that id's share. */
  lemma {:induction false} CommittedMoves(db: Db, next: Db, ids: seq<string>, id: string, market: map<string, real>)
    requires NoRepeats(ids) && id in ids && SameOutside(db, next, id)
    requires Quantified(db, ids, market) && Quantified(next, [id], market)
    ensures Quantified(db, [id], market) && Quantified(next, ids, market)
    ensures Committed(next, ids, market) - Share(next, id, market) == Committed(db, ids, market) - Share(db, id, market)
  {
    hide TotalReserved, OpenRisk, PendingAt, PositionAt, NoRepeats;
    var init, last := ids[..|ids| - 1], ids[|ids| - 1];
    ShareOf(db, id, market);
    ShareOf(next, id, market);
    AtMostOne(db, last);
    AtMostOne(next, last);
    ReservedSnoc(ActiveOrders(db, init), PendingAt(db, last), market);
    ReservedSnoc(ActiveOrders(next, init), PendingAt(next, last), market);
    OpenSnoc(PositionsOf(db, init), PositionAt(db, last));
    OpenSnoc(PositionsOf(next, init), PositionAt(next, last));
    LastOnce(ids, id);
    if last == id {
      Elsewhere(db, next, init, id);
    } else {
      CommittedMoves(db, next, init, id, market);
    }
  }

  lemma AtMostOne(db: Db, id: string)
    ensures |PendingAt(db, id)| <= 1 && |PositionAt(db, id)| <= 1
  {
  }

  lemma LastOnce(ids: seq<string>, id: string)
    requires NoRepeats(ids) && id in ids
    ensures var n := |ids| - 1; NoRepeats(ids[..n]) && if ids[n] == id then id !in ids[..n] else id in ids[..n]
  {
  }

  /** The entry and the position of this id after a recheck. */
  ghost predicate Leaves(db: Db, next: Db, id: string, pending: seq<OrderRequest>, positions: seq<Position>)
  {
    SameOutside(db, next, id) && PendingAt(next, id) == pending && PositionAt(next, id) == positions
  }

  /** An active pending order of a consistent store, between two readings of the clock. */
  ghost predicate ActiveEntry(db: Db, pending: PendingOrder, before: int, now: int)
  {
    var id := pending.order.orderId;
    && Inv(db, now) && Untouched(db, id, before)
    && id in db.pending && db.pending[id] == pending && pending.status == ACCEPTED
    && id in db.results && db.results[id].status == ACCEPTED
  }

  lemma ActiveFacts(db: Db, pending: PendingOrder, before: int, now: int)
    requires ActiveEntry(db, pending, before, now)
    ensures var id := pending.order.orderId;
      && Inv(db, now) && Untouched(db, id, before)
      && id in db.pending && db.pending[id] == pending && id in db.results && db.results[id].status == ACCEPTED
      && id in db.requests && db.requests[id] == pending.order
      && PendingAt(db, id) == [pending.order] && PositionAt(db, id) == []
  {
    InvFor(db, pending.order.orderId, now);
  }

  /** A fill writes one position and no pending entry. */
  lemma FillShape(db: Db, order: OrderRequest, result: OrderResult, position: Position)
    requires ApplyFill(db, order, result).Ok? && PositionFromFill(order, result) == Ok(position)
    requires position.positionId == order.orderId
    ensures var next := ApplyFill(db, order, result).value;
      next.pending == db.pending && next.positions == db.positions[order.orderId := position]
  {
    hide PositionFromFill, FillOf;
  }

  lemma FillStates(db: Db, pending: PendingOrder, verdict: OrderResult, before: int, now: int)
    requires ActiveEntry(db, pending, before, now) && Verdict(pending.order, verdict, before, now)
    requires verdict.status == FILLED && pending.order.orderType == LIMIT
    ensures var order := pending.order;
      && PositionFromFill(order, verdict).Ok? && PositionFromFill(order, verdict).value.positionId == order.orderId
      && ApplyFill(db, order, verdict).Ok?
      && RecheckPlan(db, pending, verdict).0
         == [ApplyFill(db, order, verdict).value, RemovePending(ApplyFill(db, order, verdict).value, order.orderId)]
  {
    hide ActiveEntry, Inv, ApplyFill, PositionFromFill, FillOf, Completed, Good, OnlyOrder;
    ActiveFacts(db, pending, before, now);
    FillKeeps(db, pending.order, verdict, before, now);
    PositionBuilds(pending.order, verdict);
  }

  lemma StoredLeaves(db: Db, next: Db, id: string, position: Position)
    requires next.pending == db.pending && next.positions == db.positions[id := position]
    ensures Leaves(db, next, id, PendingAt(db, id), [position])
    ensures Leaves(db, RemovePending(next, id), id, [], [position])
  {
  }

  lemma EntryLeaves(db: Db, next: Db, entry: PendingOrder)
    requires next == SavePending(db, entry) && entry.status != ACCEPTED
    ensures Leaves(db, next, entry.order.orderId, [], PositionAt(db, entry.order.orderId))
  {
  }

  lemma FillLeaves(db: Db, pending: PendingOrder, verdict: OrderResult, before: int, now: int)
    requires ActiveEntry(db, pending, before, now) && Verdict(pending.order, verdict, before, now)
    requires verdict.status == FILLED && pending.order.orderType == LIMIT
    ensures var (order, states) := (pending.order, RecheckPlan(db, pending, verdict).0);
      && PositionFromFill(order, verdict).Ok? && |states| == 2
      && Leaves(db, states[0], order.orderId, [order], [PositionFromFill(order, verdict).value])
      && Leaves(db, states[1], order.orderId, [], [PositionFromFill(order, verdict).value])
  {
    hide ActiveEntry, Verdict, Leaves, Inv, ApplyFill, PositionFromFill, RecheckPlan, Untouched;
    FillStates(db, pending, verdict, before, now);
    ActiveFacts(db, pending, before, now);
    var (order, position) := (pending.order, PositionFromFill(pending.order, verdict).value);
    FillShape(db, order, verdict, position);
    StoredLeaves(db, ApplyFill(db, order, verdict).value, order.orderId, position);
  }

  lemma OtherLeaves(db: Db, pending: PendingOrder, verdict: OrderResult, before: int, now: int)
    requires ActiveEntry(db, pending, before, now) && Verdict(pending.order, verdict, before, now)
    requires verdict.status != FILLED
    ensures var (order, states) := (pending.order, RecheckPlan(db, pending, verdict).0);
      |states| == 1 && if verdict.status == REJECTED || order.orderType != LIMIT
                       then Leaves(db, states[0], order.orderId, [], []) else states[0] == db
  {
    hide ActiveEntry, Verdict, Leaves, Inv, ApplyFill, Untouched;
    ActiveFacts(db, pending, before, now);
    var next := RecheckPlan(db, pending, verdict).0[0];
    if verdict.status == REJECTED || pending.order.orderType != LIMIT {
      EntryLeaves(db, next, next.pending[pending.order.orderId]);
    } else {
      assert db.pending[pending.order.orderId := pending] == db.pending;
    }
  }

  lemma ShareLeft(
    db: Db, next: Db, id: string, pending: seq<OrderRequest>, positions: seq<Position>, ids: seq<string>,
    market: map<string, real>)
    requires Leaves(db, next, id, pending, positions) && NoRepeats(ids) && id in ids && Quantified(db, ids, market)
    requires TotalReserved(pending, market).Ok? && OpenRisk(positions).Ok?
    ensures Quantified(next, ids, market) && Quantified(db, [id], market)
    ensures Committed(next, ids, market) == Committed(db, ids, market) - Share(db, id, market)
                                            + TotalReserved(pending, market).value + OpenRisk(positions).value
  {
    hide TotalReserved, OpenRisk, NoRepeats, PendingAt, PositionAt, ActiveOrders, PositionsOf;
    ShareOf(next, id, market);
    CommittedMoves(db, next, ids, id, market);
  }

  lemma OneOrder(order: OrderRequest, market: map<string, real>)
    ensures TotalReserved([], market) == Ok(0.0) && OpenRisk([]) == Ok(0.0)
    ensures var r := Reserved(order, MarketPrice(market, order.symbol));
      TotalReserved([order], market) == if r.Err? then Err(r.error) else Ok(AmountOf(r.value))
  {
    hide Reserved;
    assert [order][..0] == [];
  }

  lemma OnePosition(position: Position)
    ensures OpenRisk([position]) == PositionRisk(position)
  {
    hide PositionRisk;
    assert [position][..0] == [];
  }

  lemma {:induction false} QuantifiedEach(db: Db, ids: seq<string>, id: string, market: map<string, real>)
    requires Quantified(db, ids, market) && id in ids
    ensures Quantified(db, [id], market)
  {
    hide TotalReserved, OpenRisk, PendingAt, PositionAt;
    var init, last := ids[..|ids| - 1], ids[|ids| - 1];
    ShareOf(db, id, market);
    AtMostOne(db, last);
    ReservedSnoc(ActiveOrders(db, init), PendingAt(db, last), market);
    OpenSnoc(PositionsOf(db, init), PositionAt(db, last));
    if last != id { QuantifiedEach(db, init, id, market); }
  }

  lemma LimitAnswers(order: OrderRequest, quote: Quote, before: int, now: int)
    requires before < now
    ensures var verdict := CheckLimit(order, quote, now);
      && Verdict(order, verdict, before, now) && verdict.status in {ACCEPTED, FILLED, REJECTED}
      && (verdict.status != REJECTED ==> order.orderType == LIMIT)
  {
    ExecutorAnswers({}, order, quote, before, now);
  }

  /** The risk the store holds for an active order that the market may still fill. */
  lemma ShareReserved(
    db: Db, pending: PendingOrder, before: int, now: int, ids: seq<string>, market: map<string, real>)
    requires ActiveEntry(db, pending, before, now)
    requires pending.order.orderId in ids && Quantified(db, ids, market)
    ensures var reserved := Reserved(pending.order, MarketPrice(market, pending.order.symbol));
      && reserved.Ok? && TotalReserved([pending.order], market) == Ok(AmountOf(reserved.value))
      && Quantified(db, [pending.order.orderId], market)
      && Share(db, pending.order.orderId, market) == AmountOf(reserved.value)
  {
    hide ActiveEntry, Inv, Untouched, PendingAt, PositionAt, Reserved, TotalReserved, OpenRisk;
    ActiveFacts(db, pending, before, now);
    OneOrder(pending.order, market);
    ShareOf(db, pending.order.orderId, market);
    QuantifiedEach(db, ids, pending.order.orderId, market);
  }

  lemma FilledCommits(
    db: Db, pending: PendingOrder, quote: Quote, before: int, now: int, ids: seq<string>, market: map<string, real>)
    requires ActiveEntry(db, pending, before, now) && before < now
    requires NoRepeats(ids) && pending.order.orderId in ids && Quantified(db, ids, market)
    requires CheckLimit(pending.order, quote, now).status == FILLED
    ensures var states := RecheckPlan(db, pending, CheckLimit(pending.order, quote, now)).0;
      var reserved := Reserved(pending.order, MarketPrice(market, pending.order.symbol));
      && reserved.Ok? && |states| == 2 && Quantified(states[0], ids, market) && Quantified(states[1], ids, market)
      && Committed(states[0], ids, market) == Committed(db, ids, market) + AmountOf(reserved.value)
      && Committed(states[1], ids, market) == Committed(db, ids, market)
  {
    hide Share, ActiveEntry, Verdict, RecheckPlan, Inv, Untouched, Quantified, Committed, NoRepeats, Leaves, Reserved,
      TotalReserved, OpenRisk, PositionRisk, PositionFromFill, CheckLimit, MarketPrice;
    var (order, verdict) := (pending.order, CheckLimit(pending.order, quote, now));
    LimitAnswers(order, quote, before, now);
    ShareReserved(db, pending, before, now, ids, market);
    FillMovesReservedRisk(order, quote, now, MarketPrice(market, order.symbol));
    FillLeaves(db, pending, verdict, before, now);
    var position, states := PositionFromFill(order, verdict).value, RecheckPlan(db, pending, verdict).0;
    OnePosition(position);
    OneOrder(order, market);
    ShareLeft(db, states[0], order.orderId, [order], [position], ids, market);
    ShareLeft(db, states[1], order.orderId, [], [position], ids, market);
  }

  lemma RefusedCommits(
    db: Db, pending: PendingOrder, verdict: OrderResult, before: int, now: int, ids: seq<string>,
    market: map<string, real>)
    requires ActiveEntry(db, pending, before, now) && Verdict(pending.order, verdict, before, now)
    requires NoRepeats(ids) && pending.order.orderId in ids && Quantified(db, ids, market)
    requires verdict.status == REJECTED
    ensures var states := RecheckPlan(db, pending, verdict).0;
      var reserved := Reserved(pending.order, MarketPrice(market, pending.order.symbol));
      && reserved.Ok? && |states| == 1 && Quantified(states[0], ids, market)
      && Committed(states[0], ids, market) == Committed(db, ids, market) - AmountOf(reserved.value)
  {
    hide *;
    ShareReserved(db, pending, before, now, ids, market);
    OneOrder(pending.order, market);
    OtherLeaves(db, pending, verdict, before, now);
    ShareLeft(db, RecheckPlan(db, pending, verdict).0[0], pending.order.orderId, [], [], ids, market);
  }

  /**
   * The committed risk of every durable state of a recheck.  A fill is counted twice while its pending
   * entry is still there and exactly as before once it is removed, so at no state is its risk missing;
   * a refusal releases what was reserved; an order that waits changes nothing.
   */
  lemma RecheckCommits(
    db: Db, pending: PendingOrder, quote: Quote, before: int, now: int, ids: seq<string>, market: map<string, real>)
    requires ActiveEntry(db, pending, before, now) && before < now
    requires NoRepeats(ids) && pending.order.orderId in ids && Quantified(db, ids, market)
    ensures var order := pending.order;
      var verdict := CheckLimit(order, quote, now);
      var states := RecheckPlan(db, pending, verdict).0;
      var reserved := Reserved(order, MarketPrice(market, order.symbol));
      && reserved.Ok? && (forall i :: 0 <= i < |states| ==> Quantified(states[i], ids, market))
      && (verdict.status == FILLED ==>
            && |states| == 2
            && Committed(states[0], ids, market) == Committed(db, ids, market) + AmountOf(reserved.value)
            && Committed(states[1], ids, market) == Committed(db, ids, market))
      && (verdict.status == REJECTED ==>
            |states| == 1 && Committed(states[0], ids, market) == Committed(db, ids, market) - AmountOf(reserved.value))
      && (verdict.status == ACCEPTED ==> states == [db])
  {
    hide *;
    var verdict := CheckLimit(pending.order, quote, now);
    LimitAnswers(pending.order, quote, before, now);
    ShareReserved(db, pending, before, now, ids, market);
    if verdict.status == FILLED {
      FilledCommits(db, pending, quote, before, now, ids, market);
    } else {
      OtherLeaves(db, pending, verdict, before, now);
      if verdict.status == REJECTED { RefusedCommits(db, pending, verdict, before, now, ids, market); }
    }
  }

  // ----------------------------------------------------------------- prepared orders

  datatype PrepareError = NotReadyForReview | GatesNotPassed | InvalidOrder

  /** The order a fully gated candidate becomes. */
  function PrepareOrder(
    c: Candidate, a: Assessment, portfolioApproved: bool, side: Side, target: real, orderType: OrderType,
    orderId: string, now: int): Result<OrderRequest, PrepareError>
  {
    if !c.ready then Err(NotReadyForReview)
    else if !a.Approved() || !portfolioApproved then Err(GatesNotPassed)
    else
      var order := OrderRequest(orderId, c.symbol, side, orderType, a.quantity,
                                if orderType == LIMIT then Some(c.entry) else None, c.stopLoss, Some(target),
                                c.leverage, now, None);
      if ValidOrder(order) then Ok(order) else Err(InvalidOrder)
  }

  /** The risk later reserved for a prepared limit order, times its leverage, is the risk the gate assessed. */
  lemma PreparedReserve(
    policy: RiskPolicy, equity: real, positions: seq<Position>, c: Candidate, correlated: real, reserved: real,
    side: Side, target: real, orderId: string, now: int, market: Option<real>)
    requires AssessRisk(policy, equity, positions, c, correlated, reserved).Ok?
    requires var a := AssessRisk(policy, equity, positions, c, correlated, reserved).value;
      PrepareOrder(c, a, true, side, target, LIMIT, orderId, now).Ok?
    ensures var a := AssessRisk(policy, equity, positions, c, correlated, reserved).value;
      var r := Reserved(PrepareOrder(c, a, true, side, target, LIMIT, orderId, now).value, market);
      && r.Ok? && r.value.Some? && r.value.value * c.leverage == a.newRisk
  {
    hide AssessRisk, PrepareOrder, Reserved, RiskAmount, Budget;
    var a := AssessRisk(policy, equity, positions, c, correlated, reserved).value;
    SizedNeverOverBudget(policy, equity, positions, c, correlated, reserved);
    PreparedPassed(c, a, side, target, orderId, now);
    ApprovedLevels(policy, equity, positions, c, correlated, reserved);
    SizedOrderReserve(c, a, side, target, orderId, now, market);
  }

  lemma PreparedPassed(c: Candidate, a: Assessment, side: Side, target: real, orderId: string, now: int)
    requires PrepareOrder(c, a, true, side, target, LIMIT, orderId, now).Ok?
    ensures a.Approved()
  {
  }

  lemma SizedOrderReserve(
    c: Candidate, a: Assessment, side: Side, target: real, orderId: string, now: int, market: Option<real>)
    requires c.entry > 0.0 && c.leverage > 0.0 && c.stopLoss > 0.0 && a.totalAmount == a.quantity * c.entry
    requires a.newRisk == RiskAmount(a.totalAmount, c.entry, c.stopLoss, c.leverage)
    requires PrepareOrder(c, a, true, side, target, LIMIT, orderId, now).Ok?
    ensures var r := Reserved(PrepareOrder(c, a, true, side, target, LIMIT, orderId, now).value, market);
      && r.Ok? && r.value.Some? && r.value.value * c.leverage == a.newRisk
  {
    hide Blank, Collateral, RiskAmount;
    CollateralScales(c.entry, a.quantity, c.stopLoss, c.leverage);
    var order := PrepareOrder(c, a, true, side, target, LIMIT, orderId, now).value;
    assert order.requestedPrice == Some(c.entry) && order.quantity == a.quantity > 0.0;
    assert Reserved(order, market)
        == Ok(Some(RiskAmount(Collateral(c.entry, a.quantity, c.leverage), c.entry, c.stopLoss, c.leverage)));
  }

  lemma ApprovedLevels(
    policy: RiskPolicy, equity: real, positions: seq<Position>, c: Candidate, correlated: real, reserved: real)
    requires AssessRisk(policy, equity, positions, c, correlated, reserved).Ok?
    requires AssessRisk(policy, equity, positions, c, correlated, reserved).value.Approved()
    ensures c.entry > 0.0 && c.leverage > 0.0 && c.stopLoss > 0.0
  {
    hide SizedAssessment, OpenRisk, Budget;
  }

  lemma CollateralScales(entry: real, quantity: real, stop: real, leverage: real)
    requires entry > 0.0 && leverage > 0.0
    ensures RiskAmount(Collateral(entry, quantity, leverage), entry, stop, leverage) * leverage
         == RiskAmount(quantity * entry, entry, stop, leverage)
  {
    var collateral, whole, gap := Collateral(entry, quantity, leverage), quantity * entry, Abs(entry - stop);
    assert collateral * leverage == whole;
    assert collateral * gap / entry * leverage == collateral * leverage * gap / entry;
  }
}
