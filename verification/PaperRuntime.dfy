/**
 * The paper runtime step by step: each repository write may fail, a transaction is rolled back as
 * a whole, and every operation leaves one of the durable states its plan lists.
 */
module PaperRuntime {
  import opened Prelude
  import opened Positions
  import opened PaperOrders
  import opened PaperSafety
  import opened PaperRuns

  datatype Submission = Submission(result: OrderResult, filled: bool, pending: bool)

  /** Why a submission raises although the storage works. */
  function Refusal(db: Db, order: OrderRequest, verdict: OrderResult): Option<Error>
  {
    if order.orderId == "" then Some(MissingOrderId)
    else if order.orderId in db.requests then
      if db.requests[order.orderId] != order then Some(ConflictingRequest)
      else if order.orderId !in db.results then Some(NoResultYet) else None
    else
      var requested := db.(requests := db.requests[order.orderId := order]);
      if verdict.status == FILLED then
        match PaperOrders.ApplyFill(requested, order, verdict) case Err(e) => Some(e) case Ok(_) => None
      else
        match SaveResult(requested, verdict) case Err(e) => Some(e) case Ok(_) => None
  }

  /**
   * What a returned submission has made of the stores.  A known order is answered with its stored result
   * and at most put back among the pending ones; of a new one the request and the result are stored, with
   * the fill and the position of a filled one, or the pending entry of an accepted one, and nothing else.
   */
  ghost predicate Submitted(before: Db, after: Db, order: OrderRequest, s: Submission)
  {
    var (id, r) := (order.orderId, s.result);
    var waiting := before.pending[id := PendingOrder(order, ACCEPTED, None)];
    && after.pending == (if r.status == ACCEPTED then waiting else before.pending)
    && s.pending == (r.status == ACCEPTED)
    && if id in before.requests then
         id in before.results && r == before.results[id] && after == before.(pending := after.pending)
       else
         && after.requests == before.requests[id := order] && after.results == before.results[id := r]
         && if r.status == FILLED then
              && s.filled && r.filledPrice.Some? && r.filledAt.Some?
              && after.fills
                 == before.fills[FillId(id) := Fill(FillId(id), id, order.symbol, order.side, order.quantity,
                                                    r.filledPrice.value, 0.0, r.filledAt.value)]
              && PositionFromFill(order, r).Ok?
              && after.positions == before.positions[id := PositionFromFill(order, r).value]
            else after.fills == before.fills && after.positions == before.positions
  }

  lemma FilledSubmission(before: Db, order: OrderRequest, result: OrderResult)
    requires order.orderId !in before.requests && result.orderId == order.orderId && result.status == FILLED
    ensures var requested := before.(requests := before.requests[order.orderId := order]);
      var filled := PaperOrders.ApplyFill(requested, order, result);
      filled.Ok? ==> Submitted(before, filled.value, order, Submission(result, true, false))
  {
    hide Blank;
  }

  lemma OtherSubmission(before: Db, order: OrderRequest, result: OrderResult)
    requires order.orderId !in before.requests && result.orderId == order.orderId && result.status != FILLED
    ensures var answered := SaveResult(before.(requests := before.requests[order.orderId := order]), result);
      answered.Ok? ==>
        var after := if result.status == ACCEPTED then SavePending(answered.value, PendingOrder(order, ACCEPTED, None))
                     else answered.value;
        Submitted(before, after, order, Submission(result, false, result.status == ACCEPTED))
  {
  }

  lemma Replayed(before: Db, order: OrderRequest)
    requires order.orderId in before.requests && order.orderId in before.results
    ensures var stored := before.results[order.orderId];
      var waiting := SavePending(before, PendingOrder(order, ACCEPTED, None));
      var after := if stored.status == ACCEPTED then waiting else before;
      Submitted(before, after, order, Submission(stored, false, stored.status == ACCEPTED))
  {
  }

  class PaperTradingRuntime {
    /** What this connection sees, open transaction included. */
    var working: Db
    /** What survives a crash. */
    var committed: Db
    /** Order ids the paper executor has filled since the process started. */
    var seen: set<string>
    /** How many writes the storage has refused. */
    ghost var failures: nat

    ghost predicate Idle()
      reads this
    {
      working == committed
    }

    constructor (stored: Db)
      ensures Idle() && committed == stored && seen == {}
    {
      working, committed, seen, failures := stored, stored, {}, 0;
    }

    /** One auto-committed write: it lands as a whole or the storage raises. */
    method Store(next: Db) returns (ok: bool)
      requires Idle()
      modifies this`working, this`committed, this`failures
      ensures Idle()
      ensures committed == if ok then next else old(committed)
      ensures failures == old(failures) + if ok then 0 else 1
    {
      ok := *;
      if ok {
        working := next;
        committed := next;
      } else {
        failures := failures + 1;
      }
    }

    method Rollback()
      modifies this`working
      ensures Idle()
    {
      working := committed;
    }

    /** One write inside the transaction: it is accepted, or the storage raises. */
    method Write() returns (up: bool)
      modifies this`failures
      ensures failures == old(failures) + if up then 0 else 1
    {
      up := *;
      if !up { failures := failures + 1; }
    }

    /** Three writes in one transaction; whatever raises, nothing of it remains. */
    method ApplyFill(order: OrderRequest, result: OrderResult) returns (r: Result<Position, Error>)
      requires Idle()
      modifies this`working, this`committed, this`failures
      ensures Idle() && failures >= old(failures)
      ensures failures == old(failures) ==>
        if PaperOrders.ApplyFill(old(committed), order, result).Ok? then r.Ok?
        else r == Err(PaperOrders.ApplyFill(old(committed), order, result).error)
      ensures r.Err? && r.error != StorageFailure ==>
        PaperOrders.ApplyFill(old(committed), order, result) == Err(r.error)
      ensures r.Ok? ==> PaperOrders.ApplyFill(old(committed), order, result) == Ok(committed)
                        && r == PositionFromFill(order, result)
      ensures r.Err? ==> committed == old(committed)
      ensures PaperOrders.ApplyFill(old(committed), order, result).Err? ==> r.Err?
    {
      if result.status != FILLED { return Err(NotFilled); }
      if result.filledPrice.None? { return Err(MissingFillPrice); }
      if result.filledAt.None? { return Err(MissingFillTime); }
      var position := PositionFromFill(order, result);
      if position.Err? { return position; }
      var fill := FillOf(order, result);
      if fill.Err? { return Err(fill.error); }
      var up := Write();
      var withResult := SaveResult(working, result);
      if !up || withResult.Err? {
        Rollback();
        return Err(if up then withResult.error else StorageFailure);
      }
      working := withResult.value;
      up := Write();
      var withFill := SaveFill(working, fill.value);
      if !up || withFill.Err? {
        Rollback();
        return Err(if up then withFill.error else StorageFailure);
      }
      working := withFill.value;
      up := Write();
      if !up { Rollback(); return Err(StorageFailure); }
      working := SavePosition(working, position.value);
      up := Write();
      if !up { Rollback(); return Err(StorageFailure); }
      committed := working;
      return position;
    }

    /** A first submission; a fill is remembered, and a remembered order is never filled again. */
    method Execute(order: OrderRequest, quote: Quote, now: int) returns (result: OrderResult)
      modifies this`seen
      ensures result == PaperOrders.Execute(old(seen), order, quote, now)
      ensures seen == if result.status == FILLED then old(seen) + {order.orderId} else old(seen)
      ensures order.orderId in old(seen) ==> result.status == REJECTED
    {
      result := PaperOrders.Execute(seen, order, quote, now);
      if ValidOrder(order) && order.orderId !in seen && quote.Some? && result.status != ACCEPTED {
        seen := seen + {order.orderId};
      }
    }

    method Submit(order: OrderRequest, quote: Quote, now: int) returns (r: Result<Submission, Error>)
      requires Idle()
      modifies this
      ensures Idle()
      ensures var event := Event.Submit(order, PaperOrders.Execute(old(seen), order, quote, now));
        && Next(old(committed), event, committed)
        && (r.Ok? ==> committed == LastOr(Plan(old(committed), event), old(committed)))
      ensures r.Ok? ==> order.orderId in committed.requests && committed.requests[order.orderId] == order
      ensures r.Ok? ==> order.orderId in committed.results && committed.results[order.orderId] == r.value.result
      ensures r.Ok? ==> (r.value.pending <==> r.value.result.status == ACCEPTED)
      ensures r.Ok? && r.value.pending ==> order.orderId in committed.pending
      ensures r.Ok? ==> Submitted(old(committed), committed, order, r.value)
      ensures r.Ok? && order.orderId !in old(committed).requests ==>
        r.value.result == PaperOrders.Execute(old(seen), order, quote, now)
      ensures order.orderId in old(committed).requests ==> seen == old(seen)
      ensures var refusal := Refusal(old(committed), order, PaperOrders.Execute(old(seen), order, quote, now));
        && (r.Err? && r.error != StorageFailure ==> refusal == Some(r.error))
        && (failures == old(failures) ==> if refusal.None? then r.Ok? else r == Err(refusal.value))
    {
      hide ValidOrder, Submitted;
      if order.orderId == "" { return Err(MissingOrderId); }
      ghost var first := PaperOrders.Execute(seen, order, quote, now);
      ghost var plan := SubmitPlan(committed, order, first);
      if order.orderId in working.requests {
        if working.requests[order.orderId] != order { return Err(ConflictingRequest); }
        if order.orderId !in working.results { return Err(NoResultYet); }
        var stored := working.results[order.orderId];
        Replayed(committed, order);
        if stored.status == ACCEPTED {
          assert plan == [SavePending(committed, PendingOrder(order, ACCEPTED, None))];
          var ok := Store(SavePending(working, PendingOrder(order, ACCEPTED, None)));
          if !ok { return Err(StorageFailure); }
          assert committed == plan[0];
          return Ok(Submission(stored, false, true));
        }
        return Ok(Submission(stored, false, false));
      }
      ghost var before := committed;
      ghost var requested := before.(requests := before.requests[order.orderId := order]);
      assert plan[0] == requested;
      var ok := Store(working.(requests := working.requests[order.orderId := order]));
      if !ok { return Err(StorageFailure); }
      var result := Execute(order, quote, now);
      r := Answer(order, result, before);
    }

    /** The second half of a first submission: the order is stored, its answer is not. */
    method Answer(order: OrderRequest, result: OrderResult, ghost before: Db)
      returns (r: Result<Submission, Error>)
      requires Idle() && order.orderId != "" && order.orderId !in before.requests
      requires committed == before.(requests := before.requests[order.orderId := order])
      requires result.orderId == order.orderId
      modifies this`working, this`committed, this`failures
      ensures Idle() && failures >= old(failures) && committed in SubmitPlan(before, order, result)
      ensures r.Ok? ==> committed == LastOr(SubmitPlan(before, order, result), before)
      ensures r.Ok? ==> r.value.result == result && (r.value.pending <==> result.status == ACCEPTED)
      ensures r.Ok? ==> order.orderId in committed.requests && committed.requests[order.orderId] == order
      ensures r.Ok? ==> order.orderId in committed.results && committed.results[order.orderId] == result
      ensures r.Ok? && r.value.pending ==> order.orderId in committed.pending
      ensures r.Ok? ==> Submitted(before, committed, order, r.value)
      ensures var refusal := Refusal(before, order, result);
        && (r.Err? && r.error != StorageFailure ==> refusal == Some(r.error))
        && (failures == old(failures) ==> if refusal.None? then r.Ok? else r == Err(refusal.value))
    {
      ghost var plan := SubmitPlan(before, order, result);
      assert plan[0] == committed;
      hide Submitted, PaperOrders.ApplyFill;
      if result.status == FILLED {
        FilledSubmission(before, order, result);
        var filled := ApplyFill(order, result);
        if filled.Err? { return Err(filled.error); }
        assert plan[1] == committed;
        return Ok(Submission(result, true, false));
      }
      OtherSubmission(before, order, result);
      var answered := SaveResult(working, result);
      if answered.Err? { return Err(answered.error); }
      assert plan[1] == answered.value;
      var ok := Store(answered.value);
      if !ok { return Err(StorageFailure); }
      if result.status == ACCEPTED {
        assert plan[2] == SavePending(committed, PendingOrder(order, ACCEPTED, None));
        ok := Store(SavePending(working, PendingOrder(order, ACCEPTED, None)));
        if !ok { return Err(StorageFailure); }
        return Ok(Submission(result, false, true));
      }
      return Ok(Submission(result, false, false));
    }

    /** One pending order: recheck its limit, hand a fill on, and keep or remove the entry. */
    method Recheck(pending: PendingOrder, verdict: OrderResult) returns (goesOn: bool)
      requires Idle()
      modifies this`working, this`committed, this`failures
      ensures Idle()
      ensures var (states, on) := RecheckPlan(old(committed), pending, verdict);
        && (committed == old(committed) || committed in states)
        && (goesOn ==> on && committed == LastOr(states, old(committed)))
        && failures >= old(failures)
        && (failures == old(failures) ==> goesOn == on && committed == LastOr(states, old(committed)))
    {
      var order := pending.order;
      ghost var states := RecheckPlan(committed, pending, verdict).0;
      if order.orderType == LIMIT && verdict.status == FILLED {
        var filled := ApplyFill(order, verdict);
        if filled.Err? { return false; }
        assert states[0] == committed;
        goesOn := Store(RemovePending(working, order.orderId));
        if goesOn { assert states[1] == committed; }
      } else {
        var next := if order.orderType != LIMIT then pending.(status := REJECTED, reason := Some("only limit orders"))
                    else if verdict.status == REJECTED then pending.(status := REJECTED, reason := verdict.reason)
                    else pending;
        assert states == [SavePending(committed, next)];
        goesOn := Store(SavePending(working, next));
        if goesOn { assert states[0] == committed; }
      }
    }

    /** A sweep over the listed orders, in their order; an exception ends it. */
    method Check(active: seq<PendingOrder>, quotes: seq<Quote>, now: int, ghost verdicts: seq<OrderResult>)
      returns (filled: seq<OrderResult>, completed: bool)
      requires Idle() && |active| == |quotes| == |verdicts|
      requires forall i :: 0 <= i < |active| ==> verdicts[i] == CheckLimit(active[i].order, quotes[i], now)
      modifies this`working, this`committed, this`failures
      ensures Idle() && Next(old(committed), Event.Check(active, verdicts), committed)
      ensures completed ==>
        committed == LastOr(Plan(old(committed), Event.Check(active, verdicts)), old(committed))
      ensures forall r :: r in filled ==> r in verdicts && r.status == FILLED
      ensures completed ==> filled == FillsOf(active, verdicts)
      ensures failures == old(failures) ==>
        committed == LastOr(Plan(old(committed), Event.Check(active, verdicts)), old(committed))
    {
      hide CheckLimit, RecheckPlan, CheckPlan, FillsOf, Inspect, PaperOrders.ApplyFill;
      NothingChecked(committed, active, verdicts);
      filled := [];
      var k := 0;
      ghost var done: seq<Db> := [];
      ghost var before := committed;
      while k < |active|
        invariant 0 <= k <= |active|
        invariant Idle() && committed == LastOr(done, before)
        invariant CheckPlan(before, active, verdicts) == done + CheckPlan(committed, active[k..], verdicts[k..])
        invariant forall r :: r in filled ==> r in verdicts && r.status == FILLED
        invariant filled == FillsOf(active[..k], verdicts[..k]) && failures >= old(failures)
      {
        OneChecked(committed, active, verdicts, k);
        var verdict := CheckLimit(active[k].order, quotes[k], now);
        ghost var from := committed;
        ghost var states := RecheckPlan(from, active[k], verdict).0;
        var goesOn := Recheck(active[k], verdict);
        if !goesOn {
          StoppedInside(done, states, CheckPlan(from, active[k..], verdicts[k..]), committed, before, from);
          return filled, false;
        }
        if active[k].order.orderType == LIMIT && verdict.status == FILLED {
          filled := filled + [verdict];
        }
        done := done + states;
        k := k + 1;
      }
      assert CheckPlan(before, active, verdicts) == done;
      assert active[..k] == active && verdicts[..k] == verdicts;
      completed := true;
    }

    /** Recovery over the listed orders; existing positions are never written. */
    method Reconcile(ids: seq<string>) returns (repaired: nat, issues: seq<(string, Issue)>, completed: bool)
      requires Idle()
      modifies this`working, this`committed, this`failures
      ensures Idle() && Next(old(committed), Event.Reconcile(ids), committed)
      ensures completed ==> committed == LastOr(ReconcilePlan(old(committed), ids), old(committed))
      ensures completed ==> repaired == |ReconcilePlan(old(committed), ids)|
      ensures failures == old(failures) ==>
        committed == LastOr(ReconcilePlan(old(committed), ids), old(committed))
      ensures Keyed(old(committed)) && completed ==> issues == IssuesOf(old(committed), ids)
    {
      hide Inspect, PaperOrders.ApplyFill, SubmitPlan, CheckPlan, Submitted, ReconcilePlan, IssuesOf, Keyed, LastOr;
      repaired, issues := 0, [];
      var k := 0;
      ghost var done: seq<Db> := [];
      ghost var before := committed;
      NothingDone(before);
      while k < |ids|
        invariant 0 <= k <= |ids|
        invariant Idle() && committed == LastOr(done, before) && repaired == |done|
        invariant failures >= old(failures)
        invariant ReconcilePlan(before, ids) == done + ReconcilePlan(committed, ids[k..])
        invariant Keyed(before) ==> Keyed(committed) && IssuesOf(before, ids) == issues + IssuesOf(committed, ids[k..])
      {
        PlanStep(committed, ids, k);
        DoneSoFar(before, ids, done, ReconcilePlan(committed, ids[k..]));
        var finding := Inspect(working, ids[k]);
        match finding {
          case Nothing =>
          case Problem(issue) => issues := issues + [(ids[k], issue)];
          case Fails(_) => return repaired, issues, false;
          case Repair(position) =>
            ghost var unrepaired := committed;
            var ok := Store(SavePosition(working, position));
            if !ok { return repaired, issues, false; }
            if Keyed(before) {
              RepairKeepsIssues(unrepaired, ids[k], ids[k + 1..]);
              StillKeyed(unrepaired, position);
            }
            OneMoreDone(done, committed, ReconcilePlan(committed, ids[k + 1..]), before);
            done := done + [committed];
            repaired := repaired + 1;
        }
        k := k + 1;
      }
      PlanEnds(committed, ids);
      DoneSoFar(before, ids, done, []);
      completed := true;
    }

    /** The process dies and starts again: what was not committed is gone. */
    method Restart()
      modifies this
      ensures Idle() && committed == old(committed) && seen == {}
    {
      Rollback();
      seen := {};
    }
  }

  /** The answers of a sweep that are reported as fills, in the order of the entries. */
  function FillsOf(active: seq<PendingOrder>, verdicts: seq<OrderResult>): seq<OrderResult>
    requires |active| == |verdicts|
  {
    if active == [] then []
    else
      var n := |active| - 1;
      FillsOf(active[..n], verdicts[..n])
      + if active[n].order.orderType == LIMIT && verdicts[n].status == FILLED then [verdicts[n]] else []
  }

  lemma NothingChecked(db: Db, active: seq<PendingOrder>, verdicts: seq<OrderResult>)
    requires |active| == |verdicts|
    ensures FillsOf(active[..0], verdicts[..0]) == []
    ensures CheckPlan(db, active, verdicts) == [] + CheckPlan(db, active[0..], verdicts[0..])
    ensures forall after :: CheckPlan(after, active[|active|..], verdicts[|active|..]) == []
  {
    assert active[0..] == active && verdicts[0..] == verdicts;
  }

  /** The plan and the fills of a sweep, one entry further. */
  lemma OneChecked(db: Db, active: seq<PendingOrder>, verdicts: seq<OrderResult>, k: nat)
    requires k < |active| == |verdicts|
    ensures var (states, on) := RecheckPlan(db, active[k], verdicts[k]);
      CheckPlan(db, active[k..], verdicts[k..])
      == if on then states + CheckPlan(LastOr(states, db), active[k + 1..], verdicts[k + 1..]) else states
    ensures FillsOf(active[..k + 1], verdicts[..k + 1])
         == FillsOf(active[..k], verdicts[..k])
            + if active[k].order.orderType == LIMIT && verdicts[k].status == FILLED then [verdicts[k]] else []
  {
    hide RecheckPlan;
    assert active[..k + 1][..k] == active[..k] && verdicts[..k + 1][..k] == verdicts[..k];
    assert active[k..][1..] == active[k + 1..] && verdicts[k..][1..] == verdicts[k + 1..];
  }

  lemma StoppedInside(done: seq<Db>, states: seq<Db>, rest: seq<Db>, at: Db, before: Db, from: Db)
    requires from == LastOr(done, before)
    requires at == from || at in states
    requires forall s :: s in states ==> s in rest
    ensures at == before || at in done + rest
  {
  }

  /** One more order of a recovery, and what the plan and the issues are from there. */
  lemma PlanStep(db: Db, ids: seq<string>, k: nat)
    requires k < |ids|
    ensures var (finding, rest) := (Inspect(db, ids[k]), ids[k + 1..]);
      && ReconcilePlan(db, ids[k..])
         == (if finding.Repair? then
               var next := SavePosition(db, finding.position); [next] + ReconcilePlan(next, rest)
             else if finding.Fails? then [] else ReconcilePlan(db, rest))
      && IssuesOf(db, ids[k..])
         == (if finding.Problem? then [(ids[k], finding.issue)] + IssuesOf(db, rest)
             else if finding.Fails? then [] else IssuesOf(db, rest))
  {
    hide Inspect;
    assert ids[k..][0] == ids[k] && ids[k..][1..] == ids[k + 1..];
  }

  lemma NothingDone(before: Db)
    ensures LastOr([], before) == before
  {
  }

  lemma OneMoreDone(done: seq<Db>, next: Db, rest: seq<Db>, before: Db)
    ensures done + ([next] + rest) == (done + [next]) + rest && LastOr(done + [next], before) == next
  {
  }

  /** Where a recovery stands is a durable state of its plan, the last one when nothing is left. */
  lemma DoneSoFar(before: Db, ids: seq<string>, done: seq<Db>, rest: seq<Db>)
    requires ReconcilePlan(before, ids) == done + rest
    ensures Next(before, Event.Reconcile(ids), LastOr(done, before))
    ensures rest == [] ==> ReconcilePlan(before, ids) == done
  {
    hide ReconcilePlan;
    if done != [] { assert LastOr(done, before) == ReconcilePlan(before, ids)[|done| - 1]; }
  }

  lemma PlanEnds(db: Db, ids: seq<string>)
    ensures ReconcilePlan(db, ids[|ids|..]) == [] && IssuesOf(db, ids[|ids|..]) == []
  {
  }

  lemma StillKeyed(db: Db, position: Position)
    requires Keyed(db)
    ensures Keyed(SavePosition(db, position))
  {
  }
}
