/** What holds of the paper trading stores in every run, whatever fails or crashes in between. */
module PaperSafety {
  import opened Prelude
  import opened Positions
  import opened PaperOrders

  /** The stores agree about every order; no stored fill is later than the clock. */
  ghost predicate Inv(db: Db, clock: int)
  {
    && (forall id :: id in db.requests ==> db.requests[id].orderId == id)
    && (forall id :: id in db.results ==> ResultOk(db, id, clock))
    && (forall k :: k in db.fills ==> FillOk(db, k))
    && (forall id :: id in db.positions ==> PositionOk(db, id))
    && (forall id :: id in db.pending ==> PendingOk(db, id))
  }

  ghost predicate ResultOk(db: Db, id: string, clock: int)
    requires id in db.results
  {
    var r := db.results[id];
    && id in db.requests && r.orderId == id && r.symbol == db.requests[id].symbol && r.status != PENDING
    && (r.status == FILLED ==>
          && Fillable(db.requests[id], r)
          && r.filledAt.value <= clock
          && FillId(id) in db.fills && id in db.positions)
  }

  /** The result is one a position can be built from. */
  ghost predicate Fillable(order: OrderRequest, r: OrderResult)
  {
    && ValidOrder(order) && r.orderId == order.orderId && r.symbol == order.symbol && r.status == FILLED
    && r.filledPrice.Some? && r.filledPrice.value > 0.0 && r.filledAt.Some?
  }

  /** A fill is the one its filled order and stored result make, filed under that order's fill id. */
  ghost predicate FillOk(db: Db, k: string)
    requires k in db.fills
  {
    var id := db.fills[k].orderId;
    && k == FillId(id)
    && id in db.results && id in db.requests && Fillable(db.requests[id], db.results[id])
    && FillOf(db.requests[id], db.results[id]) == Ok(db.fills[k])
  }

  ghost predicate PositionOk(db: Db, id: string)
    requires id in db.positions
  {
    db.positions[id].positionId == id && id in db.results && db.results[id].status == FILLED
  }

  ghost predicate PendingOk(db: Db, id: string)
    requires id in db.pending
  {
    && db.pending[id].order.orderId == id && id in db.requests && db.requests[id] == db.pending[id].order
    && id in db.results && db.results[id].status in {ACCEPTED, FILLED}
  }

  lemma InvIntro(db: Db, clock: int)
    requires forall id :: id in db.requests ==> db.requests[id].orderId == id
    requires forall id :: id in db.results ==> ResultOk(db, id, clock)
    requires forall k :: k in db.fills ==> FillOk(db, k)
    requires forall id :: id in db.positions ==> PositionOk(db, id)
    requires forall id :: id in db.pending ==> PendingOk(db, id)
    ensures Inv(db, clock)
  {
  }

  lemma InvFor(db: Db, id: string, clock: int)
    requires Inv(db, clock)
    ensures id in db.requests ==> db.requests[id].orderId == id
    ensures id in db.results ==> ResultOk(db, id, clock)
    ensures id in db.fills ==> FillOk(db, id)
    ensures id in db.positions ==> PositionOk(db, id)
    ensures id in db.pending ==> PendingOk(db, id)
  {
  }

  // ------------------------------------------------------------------------- runs

  datatype Event =
    | Submit(order: OrderRequest, verdict: OrderResult)
    | Check(active: seq<PendingOrder>, verdicts: seq<OrderResult>)
    | Reconcile(ids: seq<string>)
    | Manage(position: Position)

  ghost predicate ActiveList(db: Db, active: seq<PendingOrder>)
  {
    && (forall i :: 0 <= i < |active| ==>
          active[i].order.orderId in db.pending && db.pending[active[i].order.orderId] == active[i]
          && active[i].status == ACCEPTED)
    && (forall i, j :: 0 <= i < j < |active| ==> active[i].order.orderId != active[j].order.orderId)
  }

  /** The event is one the runtime can raise in this state between the two times. */
  ghost predicate Legal(db: Db, event: Event, before: int, now: int)
  {
    && before <= now
    && match event
       case Submit(order, verdict) => Verdict(order, verdict, before, now)
       case Check(active, verdicts) =>
         && |active| == |verdicts| && ActiveList(db, active)
         && forall i :: 0 <= i < |active| ==> Verdict(active[i].order, verdicts[i], before, now)
       case Reconcile(ids) => true
       case Manage(position) => position.positionId in db.positions
  }

  function Plan(db: Db, event: Event): seq<Db>
  {
    match event
    case Submit(order, verdict) => SubmitPlan(db, order, verdict)
    case Check(active, verdicts) => if |active| == |verdicts| then CheckPlan(db, active, verdicts) else []
    case Reconcile(ids) => ReconcilePlan(db, ids)
    case Manage(position) => [SavePosition(db, position)]
  }

  /** The operation stopped, completed or not, in the state it started in or a durable one it reached. */
  ghost predicate Next(db: Db, event: Event, next: Db)
  {
    next == db || next in Plan(db, event)
  }

  /** A run: operations one after another, each possibly cut short and followed by a restart. */
  ghost predicate Run(states: seq<Db>, events: seq<Event>, times: seq<int>)
  {
    && |states| == |events| + 1 == |times|
    && states[0] == Db(map[], map[], map[], map[], map[])
    && forall i :: 0 <= i < |events| ==>
         Legal(states[i], events[i], times[i], times[i + 1]) && Next(states[i], events[i], states[i + 1])
  }

  // ---------------------------------------------------- what a durable step preserves

  /** From one durable state to a later one nothing decided is undone. */
  ghost predicate Grows(a: Db, b: Db)
  {
    && (forall id :: id in a.requests ==> id in b.requests && b.requests[id] == a.requests[id])
    && (forall id :: id in a.results ==> id in b.results)
    && (forall id :: id in a.results && Terminal(a.results[id].status) ==> b.results[id] == a.results[id])
    && (forall k :: k in a.fills ==> k in b.fills && b.fills[k] == a.fills[k])
    && (forall id :: id in a.positions ==> id in b.positions)
  }

  /** No position that was there is replaced. */
  ghost predicate PositionsKept(a: Db, b: Db)
  {
    forall id :: id in a.positions ==> id in b.positions && b.positions[id] == a.positions[id]
  }

  ghost predicate Good(a: Db, b: Db, clock: int)
  {
    Inv(b, clock) && Grows(a, b) && PositionsKept(a, b)
  }

  /** Only the result, the fill, the position and the pending entry of this order may change. */
  ghost predicate OnlyOrder(a: Db, b: Db, orderId: string)
  {
    && a.requests == b.requests
    && forall id :: id != orderId ==> && (id in a.results <==> id in b.results)
                                        && (id in a.results ==> a.results[id] == b.results[id])
  }

  lemma GrowsReflexive(db: Db)
    ensures Grows(db, db)
  {
  }

  lemma GrowsTransitive(a: Db, b: Db, c: Db)
    requires Grows(a, b) && Grows(b, c)
    ensures Grows(a, c)
  {
  }

  lemma LaterClock(db: Db, before: int, after: int)
    requires Inv(db, before) && before <= after
    ensures Inv(db, after)
  {
    forall id | id in db.results
      ensures ResultOk(db, id, after)
    {
      assert ResultOk(db, id, before);
    }
  }

  /** A fillable result has a fill and a position for that order. */
  lemma PositionBuilds(order: OrderRequest, result: OrderResult)
    requires Fillable(order, result)
    ensures PositionFromFill(order, result).Ok? && FillOf(order, result).Ok?
    ensures PositionFromFill(order, result).value.positionId == order.orderId
    ensures FillOf(order, result).value.fillId == FillId(order.orderId)
    ensures FillOf(order, result).value.orderId == order.orderId
  {
    var price := result.filledPrice.value;
    assert price * order.quantity > 0.0;
    assert price * order.quantity / order.leverage > 0.0;
    assert Blank("");
  }

  /** Fill and position of one result describe the same trade. */
  lemma FillAndPositionAgree(order: OrderRequest, result: OrderResult)
    requires Fillable(order, result)
    ensures PositionFromFill(order, result).Ok? && FillOf(order, result).Ok?
    ensures var (p, f) := (PositionFromFill(order, result).value, FillOf(order, result).value);
      && p.entryPrice == f.price && Some(f.price) == result.filledPrice && p.quantity == f.quantity
      && p.totalAmount * p.leverage == f.price * f.quantity && p.totalAmount > 0.0
      && p.openedAt == f.filledAt && p.symbol == f.symbol && p.side == f.side && p.status == OPEN
      && p.stopLoss == order.stopLoss && p.takeProfit == order.takeProfit
      && p.positionId == order.orderId && p.symbol == order.symbol && p.side == order.side
      && p.quantity == order.quantity && p.leverage == order.leverage && p.evidence == order.evidence
      && p.closedAt == None && p.exitPrice == None && p.realizedPnl == None && p.closeReason == None
      && f.fillId == "fill:" + order.orderId && f.orderId == order.orderId && f.commission == 0.0
      && Some(f.filledAt) == result.filledAt
  {
    PositionBuilds(order, result);
    var price := result.filledPrice.value;
    assert price * order.quantity / order.leverage * order.leverage == price * order.quantity;
  }

  /**
   * A fill is applied at most once: for an order already filled, the transaction rolls back
   * exactly when the new result differs from the stored one, as it does under an advancing clock.
   */
  lemma SecondFillRefused(db: Db, order: OrderRequest, result: OrderResult, clock: int)
    requires Inv(db, clock) && order.orderId in db.results && db.results[order.orderId].status == FILLED
    requires db.requests[order.orderId] == order && Fillable(order, result)
    ensures ApplyFill(db, order, result).Err? <==> result != db.results[order.orderId]
    ensures result.filledAt.value > clock ==> ApplyFill(db, order, result).Err?
    ensures result == db.results[order.orderId] && PositionFromFill(order, result).Ok? ==>
      ApplyFill(db, order, result) == Ok(SavePosition(db, PositionFromFill(order, result).value))
  {
    assert ResultOk(db, order.orderId, clock);
    var k := FillId(order.orderId);
    assert FillOk(db, k);
    FillIdInjective(order.orderId, db.fills[k].orderId);
    PositionBuilds(order, result);
    hide Inv, PositionFromFill, FillOf, FillId;
    if result == db.results[order.orderId] {
      assert db.fills[k := db.fills[k]] == db.fills;
    }
  }

  predicate Reopened(outcome: Result<Db, Error>, id: string)
  {
    outcome.Ok? && id in outcome.value.positions && outcome.value.positions[id].status == OPEN
  }

  /** Without an advancing clock the same result is accepted again and reopens a closed position. */
  lemma SameInstantReopens(db: Db, order: OrderRequest, closed: Position, clock: int)
    requires Inv(db, clock) && order.orderId in db.results && db.results[order.orderId].status == FILLED
    requires order.orderId in db.requests && db.requests[order.orderId] == order
    requires closed.positionId == order.orderId && closed.status == CLOSED
    ensures Inv(SavePosition(db, closed), clock)
    ensures Reopened(ApplyFill(SavePosition(db, closed), order, db.results[order.orderId]), order.orderId)
  {
    hide Inv;
    var after := SavePosition(db, closed);
    var result := db.results[order.orderId];
    InvFor(db, order.orderId, clock);
    ManageKeeps(db, closed, clock);
    PositionBuilds(order, result);
    assert PositionFromFill(order, result).value.status == OPEN;
    hide FillOf, Fillable, ApplyFill, PositionFromFill, FillId, ValidOrder;
    SecondFillRefused(after, order, result, clock);
  }

  // ------------------------------------------------------------ one write at a time

  lemma ManageKeeps(db: Db, position: Position, clock: int)
    requires Inv(db, clock) && position.positionId in db.results
    requires db.results[position.positionId].status == FILLED
    ensures Inv(SavePosition(db, position), clock) && Grows(db, SavePosition(db, position))
  {
    hide FillOf, Fillable, FillId, Inv;
    var next := SavePosition(db, position);
    forall id | id in next.requests ensures next.requests[id].orderId == id { InvFor(db, id, clock); }
    forall id | id in next.results ensures ResultOk(next, id, clock) { InvFor(db, id, clock); }
    forall k | k in next.fills ensures FillOk(next, k) { InvFor(db, k, clock); }
    forall id | id in next.positions ensures PositionOk(next, id) { InvFor(db, id, clock); }
    forall id | id in next.pending ensures PendingOk(next, id) { InvFor(db, id, clock); }
    InvIntro(next, clock);
  }

  lemma PendingKeeps(db: Db, pending: PendingOrder, clock: int)
    requires Inv(db, clock) && pending.order.orderId in db.requests
    requires db.requests[pending.order.orderId] == pending.order
    requires pending.order.orderId in db.results && db.results[pending.order.orderId].status in {ACCEPTED, FILLED}
    ensures Good(db, SavePending(db, pending), clock)
    ensures Good(db, RemovePending(db, pending.order.orderId), clock)
  {
    hide Inv, FillOf, Fillable, FillId;
    PendingInv(db, SavePending(db, pending), clock);
    PendingInv(db, RemovePending(db, pending.order.orderId), clock);
  }

  lemma PendingInv(db: Db, next: Db, clock: int)
    requires Inv(db, clock) && next == db.(pending := next.pending)
    requires forall id :: id in next.pending && !(id in db.pending && next.pending[id] == db.pending[id]) ==>
      PendingOk(next, id)
    ensures Inv(next, clock)
  {
    hide Inv, FillOf, Fillable, FillId;
    forall id
      ensures id in next.requests ==> next.requests[id].orderId == id
      ensures id in next.results ==> ResultOk(next, id, clock)
      ensures id in next.fills ==> FillOk(next, id)
      ensures id in next.positions ==> PositionOk(next, id)
      ensures id in next.pending ==> PendingOk(next, id)
    {
      InvFor(db, id, clock);
    }
    InvIntro(next, clock);
  }

  lemma RequestKeeps(db: Db, order: OrderRequest, clock: int)
    requires Inv(db, clock) && order.orderId !in db.requests
    ensures Good(db, db.(requests := db.requests[order.orderId := order]), clock)
  {
    hide FillOf, Fillable, FillId, Inv;
    var next := db.(requests := db.requests[order.orderId := order]);
    forall id | id in next.requests ensures next.requests[id].orderId == id { InvFor(db, id, clock); }
    forall id | id in next.results ensures ResultOk(next, id, clock) { InvFor(db, id, clock); }
    forall k | k in next.fills ensures FillOk(next, k) { InvFor(db, k, clock); }
    forall id | id in next.positions ensures PositionOk(next, id) { InvFor(db, id, clock); }
    forall id | id in next.pending ensures PendingOk(next, id) { InvFor(db, id, clock); }
    InvIntro(next, clock);
  }

  /** A first answer that is not a fill. */
  lemma AnswerKeeps(db: Db, order: OrderRequest, result: OrderResult, clock: int)
    requires Inv(db, clock) && order.orderId in db.requests && db.requests[order.orderId] == order
    requires order.orderId !in db.results
    requires result.orderId == order.orderId && result.symbol == order.symbol
    requires result.status in {ACCEPTED, REJECTED}
    ensures SaveResult(db, result).Ok? && Good(db, SaveResult(db, result).value, clock)
  {
    hide FillOf, Fillable, FillId, Inv;
    var next := SaveResult(db, result).value;
    forall id | id in next.requests ensures next.requests[id].orderId == id { InvFor(db, id, clock); }
    forall id | id in next.results ensures ResultOk(next, id, clock) {
      InvFor(db, id, clock);
    }
    forall k | k in next.fills ensures FillOk(next, k) { InvFor(db, k, clock); }
    forall id | id in next.positions ensures PositionOk(next, id) { InvFor(db, id, clock); }
    forall id | id in next.pending ensures PendingOk(next, id) { InvFor(db, id, clock); }
    InvIntro(next, clock);
  }

  /** An applied fill completes the order: result, fill and position appear together. */
  lemma FillKeeps(db: Db, order: OrderRequest, result: OrderResult, before: int, now: int)
    requires Inv(db, now) && order.orderId in db.requests && db.requests[order.orderId] == order
    requires Verdict(order, result, before, now) && result.status == FILLED
    requires Untouched(db, order.orderId, before)
    ensures var r := ApplyFill(db, order, result);
      && (r.Ok? <==> order.orderId in db.results ==> db.results[order.orderId].status == ACCEPTED)
      && (r.Ok? ==>
            Good(db, r.value, now) && OnlyOrder(db, r.value, order.orderId) && Completed(r.value, order, result))
  {
    var id := order.orderId;
    PositionBuilds(order, result);
    if id in db.results && db.results[id].status != ACCEPTED {
      InvFor(db, id, now);
    } else {
      assert FillId(id) !in db.fills by {
        if FillId(id) in db.fills {
          assert FillOk(db, FillId(id));
          FillIdInjective(id, db.fills[FillId(id)].orderId);
        }
      }
      assert id !in db.positions by { InvFor(db, id, now); }
      FillCompletes(db, order, result, now);
    }
  }

  /** The order's stored fill, if there is one, is not later than the given time. */
  ghost predicate Untouched(db: Db, id: string, before: int)
  {
    id in db.results && db.results[id].status == FILLED ==>
      db.results[id].filledAt.Some? && db.results[id].filledAt.value <= before
  }

  ghost predicate Completed(db: Db, order: OrderRequest, result: OrderResult)
    requires Fillable(order, result)
  {
    var id := order.orderId;
    && id in db.results && db.results[id] == result
    && FillId(id) in db.fills && FillOf(order, result) == Ok(db.fills[FillId(id)])
    && id in db.positions && PositionFromFill(order, result) == Ok(db.positions[id])
  }

  function FilledDb(db: Db, result: OrderResult, fill: Fill, position: Position): Db
  {
    db.(results := db.results[result.orderId := result],
        fills := db.fills[fill.fillId := fill],
        positions := db.positions[position.positionId := position])
  }

  lemma FillWrites(db: Db, order: OrderRequest, result: OrderResult)
    requires order.orderId in db.requests && Fillable(order, result)
    requires order.orderId in db.results ==> db.results[order.orderId].status == ACCEPTED
    requires FillId(order.orderId) !in db.fills
    ensures PositionFromFill(order, result).Ok? && FillOf(order, result).Ok?
    ensures ApplyFill(db, order, result)
         == Ok(FilledDb(db, result, FillOf(order, result).value, PositionFromFill(order, result).value))
  {
    PositionBuilds(order, result);
    hide FillOf, PositionFromFill, FillId;
  }

  lemma FilledDbGrows(db: Db, result: OrderResult, fill: Fill, position: Position)
    requires result.orderId in db.results ==> db.results[result.orderId].status == ACCEPTED
    requires fill.fillId !in db.fills && position.positionId !in db.positions
    ensures Grows(db, FilledDb(db, result, fill, position))
    ensures PositionsKept(db, FilledDb(db, result, fill, position))
    ensures OnlyOrder(db, FilledDb(db, result, fill, position), result.orderId)
  {
  }

  lemma FilledDbAt(
    db: Db, order: OrderRequest, result: OrderResult, fill: Fill, position: Position, now: int, id: string)
    requires Inv(db, now) && order.orderId in db.requests && db.requests[order.orderId] == order
    requires Fillable(order, result) && result.filledAt.value <= now
    requires order.orderId in db.results ==> db.results[order.orderId].status == ACCEPTED
    requires FillOf(order, result) == Ok(fill) && fill.fillId == FillId(order.orderId) && fill.orderId == order.orderId
    requires position.positionId == order.orderId
    requires fill.fillId !in db.fills && position.positionId !in db.positions
    ensures var next := FilledDb(db, result, fill, position);
      && (id in next.requests ==> next.requests[id].orderId == id)
      && (id in next.results ==> ResultOk(next, id, now))
      && (id in next.fills ==> FillOk(next, id))
      && (id in next.positions ==> PositionOk(next, id))
      && (id in next.pending ==> PendingOk(next, id))
  {
    hide FillOf, FillId, Inv;
    assert result.status == FILLED && result.orderId == order.orderId && result.symbol == order.symbol;
    InvFor(db, id, now);
  }

  lemma FilledDbGood(
    db: Db, order: OrderRequest, result: OrderResult, fill: Fill, position: Position, now: int)
    requires Inv(db, now) && order.orderId in db.requests && db.requests[order.orderId] == order
    requires Fillable(order, result) && result.filledAt.value <= now
    requires order.orderId in db.results ==> db.results[order.orderId].status == ACCEPTED
    requires FillOf(order, result) == Ok(fill) && fill.fillId == FillId(order.orderId) && fill.orderId == order.orderId
    requires position.positionId == order.orderId
    requires fill.fillId !in db.fills && position.positionId !in db.positions
    ensures Inv(FilledDb(db, result, fill, position), now)
  {
    hide *;
    var next := FilledDb(db, result, fill, position);
    forall id
      ensures id in next.requests ==> next.requests[id].orderId == id
      ensures id in next.results ==> ResultOk(next, id, now)
      ensures id in next.fills ==> FillOk(next, id)
      ensures id in next.positions ==> PositionOk(next, id)
      ensures id in next.pending ==> PendingOk(next, id)
    {
      FilledDbAt(db, order, result, fill, position, now, id);
    }
    InvIntro(next, now);
  }

  lemma FillCompletes(db: Db, order: OrderRequest, result: OrderResult, now: int)
    requires Inv(db, now) && order.orderId in db.requests && db.requests[order.orderId] == order
    requires Fillable(order, result) && result.filledAt.value <= now
    requires order.orderId in db.results ==> db.results[order.orderId].status == ACCEPTED
    requires FillId(order.orderId) !in db.fills && order.orderId !in db.positions
    ensures ApplyFill(db, order, result).Ok?
    ensures Good(db, ApplyFill(db, order, result).value, now)
    ensures OnlyOrder(db, ApplyFill(db, order, result).value, order.orderId)
    ensures Completed(ApplyFill(db, order, result).value, order, result)
  {
    PositionBuilds(order, result);
    FillWrites(db, order, result);
    hide Inv, FillOf, PositionFromFill, FillId, ApplyFill, Grows, PositionsKept, OnlyOrder;
    var fill, position := FillOf(order, result).value, PositionFromFill(order, result).value;
    FilledDbGrows(db, result, fill, position);
    FilledDbGood(db, order, result, fill, position, now);
  }
}
