/** Every run of the paper runtime is safe, and recovery restores exactly what a fill wrote. */
module PaperRuns {
  import opened Prelude
  import opened Positions
  import opened PaperOrders
  import opened PaperSafety

  /** Every durable state of an operation is good, seen from the state it started in. */
  ghost predicate AllGood(db: Db, states: seq<Db>, now: int)
  {
    forall i :: 0 <= i < |states| ==> Good(db, states[i], now)
  }

  lemma GoodTransitive(a: Db, b: Db, c: Db, now: int)
    requires Good(a, b, now) && Good(b, c, now)
    ensures Good(a, c, now)
  {
    hide Inv;
    GrowsTransitive(a, b, c);
  }

  lemma GoodChain(a: Db, b: Db, states: seq<Db>, now: int)
    requires Good(a, b, now) && AllGood(b, states, now)
    ensures AllGood(a, states, now)
  {
    hide Inv, Grows, PositionsKept;
    forall i | 0 <= i < |states| ensures Good(a, states[i], now) {
      GoodTransitive(a, b, states[i], now);
    }
  }

  lemma SubmitGood(db: Db, order: OrderRequest, verdict: OrderResult, before: int, now: int)
    requires Inv(db, now) && Verdict(order, verdict, before, now)
    ensures AllGood(db, SubmitPlan(db, order, verdict), now)
  {
    hide Inv, Grows, PositionsKept, ApplyFill, Fillable, ValidOrder, OnlyOrder, Completed;
    var id := order.orderId;
    InvFor(db, id, now);
    if id in db.requests {
      if id in db.results && db.requests[id] == order && db.results[id].status == ACCEPTED {
        PendingKeeps(db, PendingOrder(order, ACCEPTED, None), now);
      }
    } else {
      var requested := db.(requests := db.requests[id := order]);
      RequestKeeps(db, order, now);
      assert id !in db.results;
      if verdict.status == FILLED {
        FillKeeps(requested, order, verdict, before, now);
        if ApplyFill(requested, order, verdict).Ok? {
          GoodTransitive(db, requested, ApplyFill(requested, order, verdict).value, now);
        }
      } else {
        AnswerKeeps(requested, order, verdict, now);
        var answered := SaveResult(requested, verdict).value;
        GoodTransitive(db, requested, answered, now);
        if verdict.status == ACCEPTED {
          PendingKeeps(answered, PendingOrder(order, ACCEPTED, None), now);
          GoodTransitive(db, answered, SavePending(answered, PendingOrder(order, ACCEPTED, None)), now);
        }
      }
    }
  }

  /** A pending order of the sweep that this sweep has not answered yet. */
  ghost predicate Waiting(db: Db, pending: PendingOrder, before: int)
  {
    var id := pending.order.orderId;
    && id in db.requests && db.requests[id] == pending.order
    && id in db.results && db.results[id].status in {ACCEPTED, FILLED}
    && Untouched(db, id, before)
  }

  lemma RecheckGood(db: Db, pending: PendingOrder, verdict: OrderResult, before: int, now: int)
    requires Inv(db, now) && Waiting(db, pending, before) && Verdict(pending.order, verdict, before, now)
    ensures AllGood(db, RecheckPlan(db, pending, verdict).0, now)
    ensures forall i :: 0 <= i < |RecheckPlan(db, pending, verdict).0| ==>
      OnlyOrder(db, RecheckPlan(db, pending, verdict).0[i], pending.order.orderId)
    ensures RecheckPlan(db, pending, verdict).1 ==> RecheckPlan(db, pending, verdict).0 != []
  {
    hide Inv, Grows, PositionsKept, ApplyFill, Fillable, ValidOrder;
    var order := pending.order;
    if order.orderType == LIMIT && verdict.status == FILLED {
      FillKeeps(db, order, verdict, before, now);
      if ApplyFill(db, order, verdict).Ok? {
        var filled := ApplyFill(db, order, verdict).value;
        PendingKeeps(filled, pending, now);
        GoodTransitive(db, filled, RemovePending(filled, order.orderId), now);
      }
    } else {
      PendingKeeps(db, pending, now);
      PendingKeeps(db, pending.(status := REJECTED, reason := Some("only limit orders")), now);
      PendingKeeps(db, pending.(status := REJECTED, reason := verdict.reason), now);
    }
  }

  lemma {:induction false} CheckGood(
    db: Db, active: seq<PendingOrder>, verdicts: seq<OrderResult>, before: int, now: int)
    requires Inv(db, now) && |active| == |verdicts|
    requires forall i :: 0 <= i < |active| ==>
      Waiting(db, active[i], before) && Verdict(active[i].order, verdicts[i], before, now)
    requires forall i, j :: 0 <= i < j < |active| ==> active[i].order.orderId != active[j].order.orderId
    ensures AllGood(db, CheckPlan(db, active, verdicts), now)
    decreases |active|
  {
    hide Inv, Grows, PositionsKept, ApplyFill, Verdict, RecheckPlan;
    if active != [] {
      RecheckGood(db, active[0], verdicts[0], before, now);
      var (states, goesOn) := RecheckPlan(db, active[0], verdicts[0]);
      if goesOn {
        var next := LastOr(states, db);
        assert Good(db, next, now) && OnlyOrder(db, next, active[0].order.orderId);
        forall i | 0 <= i < |active[1..]|
          ensures Waiting(next, active[1..][i], before) && Verdict(active[1..][i].order, verdicts[1..][i], before, now)
        {
          assert Waiting(db, active[i + 1], before);
        }
        CheckGood(next, active[1..], verdicts[1..], before, now);
        GoodChain(db, next, CheckPlan(next, active[1..], verdicts[1..]), now);
      }
    }
  }

  ghost predicate HasFill(db: Db, id: string)
  {
    exists k :: k in db.fills && db.fills[k].orderId == id
  }

  ghost predicate HasTwoFills(db: Db, id: string)
  {
    exists k, m :: k in db.fills && m in db.fills && k != m && db.fills[k].orderId == id && db.fills[m].orderId == id
  }

  predicate IsFilled(db: Db, id: string)
  {
    id in db.results && db.results[id].status == FILLED
  }

  /**
   * What recovery makes of an order, exactly.  It repairs one thing only: the missing position of a
   * filled order with exactly one fill.
   */
  lemma InspectExactly(db: Db, id: string)
    ensures Inspect(db, id) == Problem(MissingOrder) <==> id !in db.requests
    ensures Inspect(db, id) == Problem(NonFilledWithFill) <==>
      id in db.requests && id in db.results && !IsFilled(db, id) && HasFill(db, id)
    ensures Inspect(db, id) == Problem(FilledWithoutFill) <==>
      id in db.requests && IsFilled(db, id) && !HasFill(db, id)
    ensures Inspect(db, id) == Problem(MultipleFills) <==>
      id in db.requests && IsFilled(db, id) && HasTwoFills(db, id)
    ensures Inspect(db, id).Repair? || Inspect(db, id).Fails? <==>
      && id in db.requests && IsFilled(db, id) && HasFill(db, id) && !HasTwoFills(db, id) && id !in db.positions
    ensures Inspect(db, id).Repair? ==>
      PositionFromFill(db.requests[id], db.results[id]) == Ok(Inspect(db, id).position)
    ensures Inspect(db, id).Fails? ==>
      PositionFromFill(db.requests[id], db.results[id]) == Err(Inspect(db, id).error)
  {
    hide PositionFromFill;
    var fills := FillsFor(db, id);
    assert HasFill(db, id) <==> fills != {} by {
      if HasFill(db, id) {
        var k :| k in db.fills && db.fills[k].orderId == id;
        assert k in fills;
      }
    }
    if HasTwoFills(db, id) {
      var k, m :| k in db.fills && m in db.fills && k != m && db.fills[k].orderId == id && db.fills[m].orderId == id;
      assert {k, m} <= fills && |{k, m}| == 2;
      SubsetSize({k, m}, fills);
    }
    if |fills| > 1 {
      var k :| k in fills;
      assert |fills - {k}| > 0;
      var m :| m in fills - {k};
      assert HasTwoFills(db, id);
    }
  }

  lemma SubsetSize(a: set<string>, b: set<string>)
    requires a <= b
    ensures |a| <= |b|
  {
    assert |b| == |a| + |b - a| by { assert b == a + (b - a); }
  }

  /** In a reachable state recovery finds no position to rebuild: every fill came with its position. */
  lemma {:induction false} NothingToRepair(db: Db, ids: seq<string>, clock: int)
    requires Inv(db, clock)
    ensures ReconcilePlan(db, ids) == []
  {
    if ids != [] {
      InvFor(db, ids[0], clock);
      hide Inv;
      NothingToRepair(db, ids[1..], clock);
    }
  }

  lemma PlanGood(db: Db, event: Event, before: int, now: int)
    requires Inv(db, before) && Legal(db, event, before, now)
    ensures forall i :: 0 <= i < |Plan(db, event)| ==> Inv(Plan(db, event)[i], now) && Grows(db, Plan(db, event)[i])
    ensures !event.Manage? ==> AllGood(db, Plan(db, event), now)
  {
    hide Inv, Grows, PositionsKept, SubmitPlan, CheckPlan, ReconcilePlan, Verdict;
    LaterClock(db, before, now);
    match event
    case Submit(order, verdict) => SubmitGood(db, order, verdict, before, now);
    case Check(active, verdicts) =>
      forall i | 0 <= i < |active| ensures Waiting(db, active[i], before) {
        InvFor(db, active[i].order.orderId, before);
      }
      CheckGood(db, active, verdicts, before, now);
    case Reconcile(ids) => NothingToRepair(db, ids, now);
    case Manage(position) =>
      InvFor(db, position.positionId, now);
      ManageKeeps(db, position, now);
  }

  /** Every state of every run satisfies the invariant. */
  lemma {:induction false} RunInvariant(states: seq<Db>, events: seq<Event>, times: seq<int>, n: nat)
    requires Run(states, events, times) && n < |states|
    ensures Inv(states[n], times[n])
  {
    if n > 0 {
      RunInvariant(states, events, times, n - 1);
      hide Inv, Plan, Legal;
      PlanGood(states[n - 1], events[n - 1], times[n - 1], times[n]);
      LegalTimes(states[n - 1], events[n - 1], times[n - 1], times[n]);
      LaterClock(states[n - 1], times[n - 1], times[n]);
    }
  }

  lemma LegalTimes(db: Db, event: Event, before: int, now: int)
    requires Legal(db, event, before, now)
    ensures before <= now
  {
  }

  /** Nothing decided is ever undone: requests, terminal results and fills stay, positions do not vanish. */
  lemma {:induction false} RunGrows(states: seq<Db>, events: seq<Event>, times: seq<int>, m: nat, n: nat)
    requires Run(states, events, times) && m <= n < |states|
    ensures Grows(states[m], states[n])
    decreases n - m
  {
    hide Inv, Plan, Legal, Grows;
    if m == n {
      GrowsReflexive(states[m]);
    } else {
      RunGrows(states, events, times, m, n - 1);
      RunInvariant(states, events, times, n - 1);
      PlanGood(states[n - 1], events[n - 1], times[n - 1], times[n]);
      GrowsTransitive(states[m], states[n - 1], states[n]);
    }
  }

  /** An order has one fill and one position when it is filled, and otherwise neither. */
  lemma OneFillOnePosition(states: seq<Db>, events: seq<Event>, times: seq<int>, n: nat, id: string)
    requires Run(states, events, times) && n < |states|
    ensures var db := states[n];
      var filled := id in db.results && db.results[id].status == FILLED;
      && FillsFor(db, id) == (if filled then {FillId(id)} else {})
      && (id in db.positions <==> filled)
      && (filled ==> id in db.requests && PositionFromFill(db.requests[id], db.results[id]).Ok?)
  {
    var db := states[n];
    RunInvariant(states, events, times, n);
    hide Run;
    InvFor(db, id, times[n]);
    InvFor(db, FillId(id), times[n]);
    forall k | k in FillsFor(db, id) ensures k == FillId(id) && id in db.results && db.results[id].status == FILLED {
      InvFor(db, k, times[n]);
    }
    if id in db.results && db.results[id].status == FILLED {
      PositionBuilds(db.requests[id], db.results[id]);
      FillIdInjective(id, db.fills[FillId(id)].orderId);
    }
  }

  /** Only position management replaces a position, so no fill ever overwrites or reopens one. */
  lemma PositionsOnlyManaged(states: seq<Db>, events: seq<Event>, times: seq<int>, n: nat)
    requires Run(states, events, times) && n < |events| && !events[n].Manage?
    ensures PositionsKept(states[n], states[n + 1])
  {
    RunInvariant(states, events, times, n);
    hide Inv, Plan, Legal;
    PlanGood(states[n], events[n], times[n], times[n + 1]);
  }

  lemma {:induction false} SweepEndsAt(
    db: Db, active: seq<PendingOrder>, verdicts: seq<OrderResult>, before: int, now: int, k: nat)
    requires Inv(db, now) && |active| == |verdicts| && k < |active|
    requires forall i :: 0 <= i < |active| ==>
      Waiting(db, active[i], before) && Verdict(active[i].order, verdicts[i], before, now)
    requires forall i, j :: 0 <= i < j < |active| ==> active[i].order.orderId != active[j].order.orderId
    requires active[k].order.orderId in db.results && db.results[active[k].order.orderId].status == FILLED
    requires verdicts[k].status == FILLED && active[k].order.orderType == LIMIT
    ensures CheckPlan(db, active, verdicts) == CheckPlan(db, active[..k], verdicts[..k])
    decreases k
  {
    hide Inv, Grows, PositionsKept, ApplyFill, Verdict, RecheckPlan;
    if k == 0 {
      FilledAgain(db, active[0], verdicts[0], before, now);
    } else {
      RecheckGood(db, active[0], verdicts[0], before, now);
      var (states, goesOn) := RecheckPlan(db, active[0], verdicts[0]);
      var rest, answers := active[1..], verdicts[1..];
      assert active[..k][1..] == rest[..k - 1] && verdicts[..k][1..] == answers[..k - 1];
      if goesOn {
        var next := LastOr(states, db);
        assert Good(db, next, now) && OnlyOrder(db, next, active[0].order.orderId);
        forall i | 0 <= i < |rest|
          ensures Waiting(next, rest[i], before) && Verdict(rest[i].order, answers[i], before, now)
        {
          assert Waiting(db, active[i + 1], before);
        }
        SweepEndsAt(next, rest, answers, before, now, k - 1);
      }
    }
  }

  lemma FilledAgain(db: Db, pending: PendingOrder, verdict: OrderResult, before: int, now: int)
    requires Inv(db, now) && Waiting(db, pending, before) && Verdict(pending.order, verdict, before, now)
    requires db.results[pending.order.orderId].status == FILLED && verdict.status == FILLED
    requires pending.order.orderType == LIMIT
    ensures RecheckPlan(db, pending, verdict) == ([], false)
  {
    hide Inv, ApplyFill;
    FillKeeps(db, pending.order, verdict, before, now);
  }

  /**
   * After a crash between a fill and the removal of its pending entry, a sweep that would fill it
   * again does with the entries before it what it would do without it, and then stops: neither this
   * order nor any entry behind it is touched.
   */
  lemma {:induction false} RefillLeavesStores(
    db: Db, active: seq<PendingOrder>, verdicts: seq<OrderResult>, before: int, now: int, k: nat)
    requires Inv(db, before) && Legal(db, Check(active, verdicts), before, now) && k < |active|
    requires db.results[active[k].order.orderId].status == FILLED && verdicts[k].status == FILLED
    requires active[k].order.orderType == LIMIT
    ensures CheckPlan(db, active, verdicts) == CheckPlan(db, active[..k], verdicts[..k])
  {
    hide Inv, CheckPlan, Verdict;
    LaterClock(db, before, now);
    forall i | 0 <= i < |active| ensures Waiting(db, active[i], before) {
      InvFor(db, active[i].order.orderId, before);
    }
    SweepEndsAt(db, active, verdicts, before, now, k);
  }

  // ----------------------------------------------------------------------- recovery

  /** Requests are filed under their own id, and a result under the id it names. */
  predicate Keyed(db: Db)
  {
    forall id :: id in db.requests ==> db.requests[id].orderId == id
  }

  /** A position lost after a fill is rebuilt exactly as the fill wrote it. */
  lemma RebuildsTheFill(db: Db, order: OrderRequest, result: OrderResult, before: int, now: int)
    requires Inv(db, now) && order.orderId in db.requests && db.requests[order.orderId] == order
    requires Verdict(order, result, before, now) && result.status == FILLED && Untouched(db, order.orderId, before)
    requires ApplyFill(db, order, result).Ok?
    ensures var filled := ApplyFill(db, order, result).value;
      var lost := filled.(positions := filled.positions - {order.orderId});
      && Inspect(lost, order.orderId) == Repair(filled.positions[order.orderId])
      && ReconcilePlan(lost, [order.orderId]) == [filled]
  {
    FillKeeps(db, order, result, before, now);
    hide ApplyFill;
    RebuildsCompleted(ApplyFill(db, order, result).value, order, result, now);
  }

  lemma RebuildsCompleted(filled: Db, order: OrderRequest, result: OrderResult, now: int)
    requires Inv(filled, now) && order.orderId in filled.requests && filled.requests[order.orderId] == order
    requires Fillable(order, result) && Completed(filled, order, result)
    ensures var lost := filled.(positions := filled.positions - {order.orderId});
      && Inspect(lost, order.orderId) == Repair(filled.positions[order.orderId])
      && ReconcilePlan(lost, [order.orderId]) == [filled]
  {
    hide Inv, FillOf, PositionFromFill, FillId, ValidOrder, Inspect, ReconcilePlan;
    var id := order.orderId;
    PositionBuilds(order, result);
    var lost := filled.(positions := filled.positions - {id});
    FillIdInjective(id, filled.fills[FillId(id)].orderId);
    SingleFill(filled, id, now);
    assert FillsFor(lost, id) == FillsFor(filled, id);
    hide FillsFor;
    RepairsMissing(lost, id, filled.positions[id]);
    assert filled == SavePosition(lost, filled.positions[id]);
  }

  lemma RepairsMissing(db: Db, id: string, position: Position)
    requires id in db.requests && id in db.results && db.results[id].status == FILLED
    requires FillsFor(db, id) == {FillId(id)} && id !in db.positions
    requires PositionFromFill(db.requests[id], db.results[id]) == Ok(position)
    ensures Inspect(db, id) == Repair(position)
    ensures ReconcilePlan(db, [id]) == [SavePosition(db, position)]
  {
    hide PositionFromFill, FillsFor, FillId;
    assert |{FillId(id)}| == 1;
    assert ReconcilePlan(SavePosition(db, position), []) == [];
  }

  lemma SingleFill(db: Db, id: string, clock: int)
    requires Inv(db, clock) && FillId(id) in db.fills && db.fills[FillId(id)].orderId == id
    ensures FillsFor(db, id) == {FillId(id)}
  {
    hide Inv, FillOf, FillId;
    forall k | k in FillsFor(db, id) ensures k == FillId(id) {
      InvFor(db, k, clock);
    }
  }

  /**
   * What recovery may do, in any state and however far it got: the fact stores and every existing
   * position stay, and each position added is the one its order and stored result make.
   */
  ghost predicate Recovered(db: Db, ids: seq<string>, next: Db)
  {
    && next == db.(positions := next.positions)
    && PositionsKept(db, next)
    && forall id :: id in next.positions && id !in db.positions ==>
         id in ids && Inspect(db, id) == Repair(next.positions[id])
  }

  lemma {:induction false} ReconcileOnlyAdds(db: Db, ids: seq<string>, i: nat)
    requires Keyed(db) && i < |ReconcilePlan(db, ids)|
    ensures Recovered(db, ids, ReconcilePlan(db, ids)[i])
    decreases |ids|
  {
    hide Inspect;
    var f := Inspect(db, ids[0]);
    if f.Repair? {
      RepairNamesOrder(db, ids[0]);
      var next := SavePosition(db, f.position);
      if i > 0 {
        ReconcileOnlyAdds(next, ids[1..], i - 1);
        var last := ReconcilePlan(db, ids)[i];
        assert last == ReconcilePlan(next, ids[1..])[i - 1];
        forall id | id in last.positions && id !in db.positions
          ensures id in ids && Inspect(db, id) == Repair(last.positions[id])
        {
          if id != ids[0] {
            InspectFrame(db, next, id);
          } else {
            assert last.positions[id] == next.positions[id];
          }
        }
      }
    } else {
      ReconcileOnlyAdds(db, ids[1..], i);
    }
  }

  lemma RepairNamesOrder(db: Db, id: string)
    requires Keyed(db) && Inspect(db, id).Repair?
    ensures Inspect(db, id).position.positionId == id && id !in db.positions
  {
  }

  lemma RepairSettles(db: Db, id: string)
    requires Keyed(db) && Inspect(db, id).Repair?
    ensures var next := SavePosition(db, Inspect(db, id).position);
      !Inspect(next, id).Repair? && !Inspect(next, id).Fails?
  {
    hide PositionFromFill;
    assert FillsFor(SavePosition(db, Inspect(db, id).position), id) == FillsFor(db, id);
    RepairNamesOrder(db, id);
  }

  /** What is found about an order depends on the facts and on whether it has a position. */
  lemma InspectFrame(a: Db, b: Db, id: string)
    requires b == a.(positions := b.positions) && (id in a.positions <==> id in b.positions)
    ensures Inspect(a, id) == Inspect(b, id)
  {
    hide PositionFromFill;
    assert FillsFor(a, id) == FillsFor(b, id);
  }

  lemma InspectSettled(a: Db, b: Db, id: string)
    requires b == a.(positions := b.positions) && PositionsKept(a, b)
    requires !Inspect(a, id).Repair? && !Inspect(a, id).Fails?
    ensures !Inspect(b, id).Repair? && !Inspect(b, id).Fails?
  {
    hide PositionFromFill;
    assert FillsFor(a, id) == FillsFor(b, id);
  }

  /** A repair neither hides nor raises an issue, nor turns one order's check into an exception. */
  lemma {:induction false} RepairKeepsIssues(db: Db, id: string, ids: seq<string>)
    requires Keyed(db) && Inspect(db, id).Repair?
    ensures IssuesOf(SavePosition(db, Inspect(db, id).position), ids) == IssuesOf(db, ids)
    decreases |ids|
  {
    hide PositionFromFill;
    var next := SavePosition(db, Inspect(db, id).position);
    RepairNamesOrder(db, id);
    if ids != [] {
      RepairKeepsIssues(db, id, ids[1..]);
      if ids[0] == id {
        InspectSettled(next, next, id);
        assert FillsFor(db, id) == FillsFor(next, id);
      } else {
        InspectFrame(db, next, ids[0]);
      }
    }
  }

  /** The state recovery has reached after its first i repairs. */
  function ReconciledTo(db: Db, ids: seq<string>, i: nat): Db
    requires i <= |ReconcilePlan(db, ids)|
  {
    if i == 0 then db else ReconcilePlan(db, ids)[i - 1]
  }

  /**
   * Recovery interrupted after any repair and started again makes exactly the remaining repairs;
   * after the last one it makes none, so it is idempotent.
   */
  lemma {:induction false} ReconcileResumes(db: Db, ids: seq<string>, i: nat)
    requires Keyed(db) && i <= |ReconcilePlan(db, ids)|
    ensures ReconcilePlan(ReconciledTo(db, ids, i), ids) == ReconcilePlan(db, ids)[i..]
    decreases |ids|
  {
    hide Inspect;
    if ids != [] && i > 0 {
      var f, s := Inspect(db, ids[0]), ReconciledTo(db, ids, i);
      if f.Repair? {
        RepairNamesOrder(db, ids[0]);
        var next := SavePosition(db, f.position);
        ReconcileResumes(next, ids[1..], i - 1);
        assert s == ReconciledTo(next, ids[1..], i - 1);
        if i > 1 { ReconcileOnlyAdds(next, ids[1..], i - 2); }
        RepairSettles(db, ids[0]);
        InspectSettled(next, s, ids[0]);
      } else {
        ReconcileResumes(db, ids[1..], i);
        ReconcileOnlyAdds(db, ids[1..], i - 1);
        InspectSettled(db, s, ids[0]);
      }
    }
  }
}
