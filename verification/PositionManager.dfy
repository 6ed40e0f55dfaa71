/** Exits and trailing stops: one price at a time, and over whole price sequences. */
module PositionManager {
  import opened Prelude
  import opened Positions

  datatype ExitPolicy = ExitPolicy(trailing: bool, distancePercent: real)

  /** What the policy's own constructor accepts. */
  predicate ValidPolicy(policy: ExitPolicy)
  {
    0.0 <= policy.distancePercent < 100.0 && (policy.trailing ==> policy.distancePercent > 0.0)
  }

  datatype ManageError = InvalidPrice | InvalidPosition | PriceUnavailable

  function RealizedPnl(p: Position, exit: real): Result<real, ManageError>
  {
    if p.entryPrice <= 0.0 || p.totalAmount < 0.0 || p.leverage <= 0.0 then Err(InvalidPosition)
    else Ok(LinearPnl(p.side, p.entryPrice, p.totalAmount, p.leverage, exit))
  }

  function LinearPnl(side: Side, entry: real, amount: real, leverage: real, exit: real): real
    requires entry > 0.0
  {
    var change := (exit - entry) / entry;
    amount * (if side == SHORT then -change else change) * leverage
  }

  /** A long gains exactly above its entry, a short exactly below it; what one gains the other loses. */
  lemma PnlSign(entry: real, amount: real, leverage: real, exit: real)
    requires entry > 0.0 && amount > 0.0 && leverage > 0.0
    ensures LinearPnl(LONG, entry, amount, leverage, exit) > 0.0 <==> exit > entry
    ensures LinearPnl(SHORT, entry, amount, leverage, exit) > 0.0 <==> exit < entry
    ensures LinearPnl(LONG, entry, amount, leverage, exit) == -LinearPnl(SHORT, entry, amount, leverage, exit)
  {
    var change := (exit - entry) / entry;
    assert change * entry == exit - entry;
    PositiveProduct(change, entry);
    PositiveProduct(-change, entry);
    PositiveProduct(change, amount);
    PositiveProduct(-change, amount);
    PositiveProduct(amount * change, leverage);
    PositiveProduct(amount * -change, leverage);
  }

  lemma PositiveProduct(a: real, b: real)
    requires b > 0.0
    ensures a * b > 0.0 <==> a > 0.0
  {
    if a > 0.0 { assert a * b > 0.0; } else { assert (-a) * b >= 0.0; }
  }

  predicate StopCrossed(p: Position, price: real)
  {
    if p.side == LONG then price <= p.stopLoss else price >= p.stopLoss
  }

  predicate TakeProfitCrossed(p: Position, price: real)
  {
    p.takeProfit.Some? && if p.side == LONG then price >= p.takeProfit.value else price <= p.takeProfit.value
  }

  /** Where the trailing distance puts the stop for this price. */
  function Candidate(side: Side, price: real, policy: ExitPolicy): real
  {
    var distance := policy.distancePercent / 100.0;
    if side == LONG then price * (1.0 - distance) else price * (1.0 + distance)
  }

  function Trailed(p: Position, price: real, policy: ExitPolicy): Position
  {
    var candidate := Candidate(p.side, price, policy);
    if !policy.trailing then p
    else if p.side == LONG && candidate > p.stopLoss && candidate < price then p.(stopLoss := candidate)
    else if p.side == SHORT && candidate < p.stopLoss && candidate > price then p.(stopLoss := candidate)
    else p
  }

  function Close(p: Position, price: real, reason: string, now: int): Result<Position, ManageError>
  {
    match RealizedPnl(p, price)
    case Err(e) => Err(e)
    case Ok(pnl) => Ok(p.(status := if reason == "TAKE_PROFIT" then CLOSED else STOPPED_OUT,
                          exitPrice := Some(price), realizedPnl := Some(pnl), closedAt := Some(now),
                          closeReason := Some(reason)))
  }

  /** What one live price makes of a position. */
  function Tick(p: Position, price: real, policy: ExitPolicy, now: int): Result<Position, ManageError>
  {
    if p.status != OPEN then Ok(p)
    else if price <= 0.0 then Err(InvalidPrice)
    else if StopCrossed(p, price) then Close(p, price, "STOP_LOSS", now)
    else if TakeProfitCrossed(p, price) then Close(p, price, "TAKE_PROFIT", now)
    else Ok(Trailed(p, price, policy))
  }

  /** What managing a position once did, read from the position before and after. */
  datatype Deed = Idle | StopMoved | StopExit | TargetExit

  function DeedOf(before: Position, after: Position): Deed
  {
    if before.status != OPEN then Idle
    else if after.status == CLOSED then TargetExit
    else if after.status == STOPPED_OUT then StopExit
    else if after != before then StopMoved
    else Idle
  }

  // ------------------------------------------------------------- what one price means

  lemma ProductOfQuotient(a: real, c: real, l: real, e: real, d: real)
    requires c * e == d
    ensures (a * c * l) * e == (a * l) * d
  {
    assert a * c * l == (a * l) * c;
    assert ((a * l) * c) * e == (a * l) * (c * e);
  }

  /** The result is the collateral times the leverage times the relative move in the trader's favour. */
  lemma PnlMagnitude(side: Side, entry: real, amount: real, leverage: real, exit: real)
    requires entry > 0.0
    ensures LinearPnl(side, entry, amount, leverage, exit) * entry
         == (amount * leverage) * (if side == LONG then exit - entry else entry - exit)
  {
    var change := (exit - entry) / entry;
    assert change * entry == exit - entry;
    ProductOfQuotient(amount, if side == SHORT then -change else change, leverage, entry,
                      if side == LONG then exit - entry else entry - exit);
  }

  /** The trailing stop lies the policy's percentage from the price, on the losing side. */
  lemma CandidateIs(side: Side, price: real, policy: ExitPolicy)
    ensures Candidate(side, price, policy) * 100.0
         == price * (if side == LONG then 100.0 - policy.distancePercent else 100.0 + policy.distancePercent)
  {
    var distance := policy.distancePercent / 100.0;
    assert distance * 100.0 == policy.distancePercent;
    var factor := if side == LONG then 1.0 - distance else 1.0 + distance;
    assert (price * factor) * 100.0 == price * (factor * 100.0);
  }

  /** The price is at the stop or beyond it; at the target or beyond it. */
  predicate AtStop(p: Position, price: real)
  {
    match p.side
    case LONG => price <= p.stopLoss
    case SHORT => price >= p.stopLoss
  }

  predicate AtTarget(p: Position, price: real)
  {
    match p.side
    case LONG => p.takeProfit.Some? && price >= p.takeProfit.value
    case SHORT => p.takeProfit.Some? && price <= p.takeProfit.value
  }

  predicate Computable(p: Position) { p.entryPrice > 0.0 && p.totalAmount >= 0.0 && p.leverage > 0.0 }

  /** Closed at this price now, with the result the move gives, and otherwise as it was. */
  ghost predicate ClosedAs(
    p: Position, q: Position, price: real, now: int, status: PositionStatus, reason: string)
  {
    && q.realizedPnl.Some?
    && q == p.(status := status, exitPrice := Some(price), closedAt := Some(now), closeReason := Some(reason),
               realizedPnl := q.realizedPnl)
    && q.realizedPnl.value * p.entryPrice
       == (p.totalAmount * p.leverage) * (if p.side == LONG then price - p.entryPrice else p.entryPrice - price)
  }

  /** The stop now lies exactly the distance from the price. */
  ghost predicate TrailedAs(p: Position, q: Position, price: real, policy: ExitPolicy)
  {
    && q == p.(stopLoss := q.stopLoss)
    && q.stopLoss * 100.0
       == price * (if p.side == LONG then 100.0 - policy.distancePercent else 100.0 + policy.distancePercent)
  }

  /** Whether that stop is tighter than the present one. */
  ghost predicate Tightens(p: Position, price: real, policy: ExitPolicy)
  {
    match p.side
    case LONG => price * (100.0 - policy.distancePercent) > p.stopLoss * 100.0
    case SHORT => price * (100.0 + policy.distancePercent) < p.stopLoss * 100.0
  }

  /** One price, exactly: the stop first, then the target, then the trailing stop. */
  lemma TickSays(p: Position, price: real, policy: ExitPolicy, now: int)
    requires ValidPolicy(policy)
    ensures p.status != OPEN ==> Tick(p, price, policy, now) == Ok(p)
    ensures p.status == OPEN ==>
      (Tick(p, price, policy, now).Err?
       <==> price <= 0.0 || ((AtStop(p, price) || AtTarget(p, price)) && !Computable(p)))
    ensures p.status == OPEN && Tick(p, price, policy, now).Ok? ==>
      var q := Tick(p, price, policy, now).value;
      if AtStop(p, price) then ClosedAs(p, q, price, now, STOPPED_OUT, "STOP_LOSS")
      else if AtTarget(p, price) then ClosedAs(p, q, price, now, CLOSED, "TAKE_PROFIT")
      else if policy.trailing && Tightens(p, price, policy) then TrailedAs(p, q, price, policy)
      else q == p
  {
    hide LinearPnl, Candidate;
    assert "STOP_LOSS"[0] != "TAKE_PROFIT"[0];
    if p.entryPrice > 0.0 { PnlMagnitude(p.side, p.entryPrice, p.totalAmount, p.leverage, price); }
    CandidateIs(p.side, price, policy);
    if price > 0.0 && policy.trailing { DistanceIsSafe(price, policy.distancePercent); }
  }

  lemma DistanceIsSafe(price: real, percent: real)
    requires price > 0.0 && percent > 0.0
    ensures price * (100.0 - percent) < price * 100.0 < price * (100.0 + percent)
  {
    assert price * percent > 0.0;
  }

  // ------------------------------------------------------------- the mutable position

  /** A position record; basis holds the fields management never touches. */
  class OpenPosition {
    const basis: Position
    var status: PositionStatus
    var stopLoss: real
    var closedAt: Option<int>
    var exitPrice: Option<real>
    var realizedPnl: Option<real>
    var closeReason: Option<string>

    constructor (p: Position)
      ensures basis == p && View() == p
    {
      basis := p;
      status, stopLoss, closedAt := p.status, p.stopLoss, p.closedAt;
      exitPrice, realizedPnl, closeReason := p.exitPrice, p.realizedPnl, p.closeReason;
    }

    function View(): Position
      reads this
    {
      basis.(status := status, stopLoss := stopLoss, closedAt := closedAt, exitPrice := exitPrice,
              realizedPnl := realizedPnl, closeReason := closeReason)
    }

    method UpdateTrailingStop(price: real, policy: ExitPolicy) returns (moved: bool)
      modifies this`stopLoss
      ensures View() == Trailed(old(View()), price, policy)
      ensures moved <==> View() != old(View())
    {
      if !policy.trailing { return false; }
      var candidate := Candidate(basis.side, price, policy);
      if basis.side == LONG {
        if candidate > stopLoss && candidate < price { stopLoss := candidate; return true; }
      } else {
        if candidate < stopLoss && candidate > price { stopLoss := candidate; return true; }
      }
      return false;
    }

    method CloseAt(price: real, reason: string, now: int) returns (r: Result<real, ManageError>)
      modifies this
      ensures r == RealizedPnl(old(View()), price)
      ensures if r.Ok? then Close(old(View()), price, reason, now) == Ok(View()) else View() == old(View())
    {
      r := RealizedPnl(View(), price);
      if r.Ok? {
        status := if reason == "TAKE_PROFIT" then CLOSED else STOPPED_OUT;
        exitPrice, realizedPnl, closedAt, closeReason := Some(price), Some(r.value), Some(now), Some(reason);
      }
    }

    /** The current stop is checked before it is moved. */
    method Manage(price: real, policy: ExitPolicy, now: int) returns (r: Result<Deed, ManageError>)
      modifies this
      ensures r.Ok? ==> Tick(old(View()), price, policy, now) == Ok(View())
      ensures r.Ok? ==> r.value == DeedOf(old(View()), View())
      ensures r.Err? ==> Tick(old(View()), price, policy, now) == Err(r.error) && View() == old(View())
    {
      if status != OPEN { return Ok(Idle); }
      if price <= 0.0 { return Err(InvalidPrice); }
      if StopCrossed(View(), price) {
        assert "STOP_LOSS"[0] != "TAKE_PROFIT"[0];
        var pnl := CloseAt(price, "STOP_LOSS", now);
        return if pnl.Ok? then Ok(StopExit) else Err(pnl.error);
      }
      if TakeProfitCrossed(View(), price) {
        var pnl := CloseAt(price, "TAKE_PROFIT", now);
        return if pnl.Ok? then Ok(TargetExit) else Err(pnl.error);
      }
      var moved := UpdateTrailingStop(price, policy);
      return Ok(if moved then StopMoved else Idle);
    }
  }

  /** A position before and after it was managed. */
  datatype Move = Move(before: Position, after: Position)

  datatype Report = Report(
    monitored: nat, stopExits: nat, targetExits: nat, trailingUpdates: nat, closed: seq<Position>)

  /** One more position in the report: monitored when it was open, and counted under what was done to it. */
  function Noted(r: Report, open: bool, deed: Deed, after: Position): Report
  {
    var seen := r.(monitored := r.monitored + if open then 1 else 0);
    match deed
    case Idle => seen
    case StopMoved => seen.(trailingUpdates := r.trailingUpdates + 1)
    case StopExit => seen.(stopExits := r.stopExits + 1, closed := r.closed + [after])
    case TargetExit => seen.(targetExits := r.targetExits + 1, closed := r.closed + [after])
  }

  function ReportOf(moves: seq<Move>): Report
  {
    if moves == [] then Report(0, 0, 0, 0, [])
    else
      var m := moves[|moves| - 1];
      Noted(ReportOf(moves[..|moves| - 1]), m.before.status == OPEN, DeedOf(m.before, m.after), m.after)
  }

  predicate Closes(m: Move, p: Position)
  {
    m.before.status == OPEN && m.after.status != OPEN && m.after == p
  }

  /** The report fits together: every closing is one exit, no position is counted twice, none that closed is missing. */
  lemma {:induction false} ReportAddsUp(moves: seq<Move>)
    ensures var r := ReportOf(moves);
      |r.closed| == r.stopExits + r.targetExits && |r.closed| + r.trailingUpdates <= r.monitored <= |moves|
    ensures forall p :: p in ReportOf(moves).closed <==> exists m :: m in moves && Closes(m, p)
  {
    if moves != [] {
      var init, m := moves[..|moves| - 1], moves[|moves| - 1];
      ReportAddsUp(init);
      assert moves == init + [m];
      assert forall x :: x in moves <==> x in init || x == m;
      assert ReportOf(moves).closed == ReportOf(init).closed + if Closes(m, m.after) then [m.after] else [];
    }
  }

  /** What the provider answers when it is asked about a position; it may raise. */
  type PriceAnswer = Option<real>

  /** One position of the sweep: a closed one is passed over, an open one needs a price. */
  function SweepTick(p: Position, answer: PriceAnswer, policy: ExitPolicy, now: int): Result<Position, ManageError>
  {
    if p.status == OPEN && answer.None? then Err(PriceUnavailable)
    else Tick(p, if answer.Some? then answer.value else 0.0, policy, now)
  }

  /**
   * Every open position once, in order, each at the price the provider gives when asked for it; a
   * missing or bad price or a bad position stops the sweep where it is.
   */
  method ManageOpenPositions(
    positions: seq<OpenPosition>, answers: seq<PriceAnswer>, policy: ExitPolicy, now: int)
    returns (report: Report, done: nat, error: Option<ManageError>, ghost moves: seq<Move>)
    requires forall i, j :: 0 <= i < j < |positions| ==> positions[i] != positions[j]
    requires |answers| == |positions|
    modifies positions
    ensures done <= |positions| && (error.None? <==> done == |positions|)
    ensures |moves| == done && report == ReportOf(moves)
    ensures forall i :: 0 <= i < done ==>
      moves[i] == Move(old(positions[i].View()), positions[i].View())
      && SweepTick(moves[i].before, answers[i], policy, now) == Ok(moves[i].after)
    ensures error.Some? ==>
      SweepTick(old(positions[done].View()), answers[done], policy, now) == Err(error.value)
    ensures forall i :: done <= i < |positions| ==> positions[i].View() == old(positions[i].View())
  {
    hide Tick, DeedOf, Noted;
    report, done, error, moves := Report(0, 0, 0, 0, []), 0, None, [];
    while done < |positions|
      invariant 0 <= done <= |positions|
      invariant |moves| == done && report == ReportOf(moves)
      invariant forall i :: 0 <= i < done ==>
        moves[i] == Move(old(positions[i].View()), positions[i].View())
        && SweepTick(moves[i].before, answers[i], policy, now) == Ok(moves[i].after)
      invariant forall i :: done <= i < |positions| ==> positions[i].View() == old(positions[i].View())
    {
      var p := positions[done];
      ghost var before := p.View();
      if p.status == OPEN && answers[done].None? { return report, done, Some(PriceUnavailable), moves; }
      var open := p.status == OPEN;
      var r := p.Manage(if answers[done].Some? then answers[done].value else 0.0, policy, now);
      if r.Err? { return report, done, Some(r.error), moves; }
      moves := moves + [Move(before, p.View())];
      assert moves[..done] == moves[..|moves| - 1];
      report := Noted(report, open, r.value, p.View());
      done := done + 1;
    }
  }

  // ------------------------------------------------------- whole price sequences

  /** The position after these prices, observed one per time unit from the given time. */
  function Ticks(p: Position, prices: seq<real>, policy: ExitPolicy): Result<Position, ManageError>
  {
    if prices == [] then Ok(p)
    else
      match Ticks(p, prices[..|prices| - 1], policy)
      case Err(e) => Err(e)
      case Ok(q) => Tick(q, prices[|prices| - 1], policy, |prices|)
  }

  /** At least as protective: not below for a long, not above for a short. */
  predicate Tighter(side: Side, a: real, b: real)
  {
    if side == LONG then a >= b else a <= b
  }

  /**
   * The bound trailing promises after these prices: the tightest of the initial stop and every
   * price moved away by the distance.
   */
  ghost predicate IsBound(p: Position, prices: seq<real>, policy: ExitPolicy, stop: real)
  {
    && Tighter(p.side, stop, p.stopLoss)
    && (policy.trailing ==>
          forall i :: 0 <= i < |prices| ==> Tighter(p.side, stop, Candidate(p.side, prices[i], policy)))
    && (stop == p.stopLoss
        || (policy.trailing && exists i :: 0 <= i < |prices| && stop == Candidate(p.side, prices[i], policy)))
  }

  lemma BoundUnique(p: Position, prices: seq<real>, policy: ExitPolicy, a: real, b: real)
    requires IsBound(p, prices, policy, a) && IsBound(p, prices, policy, b)
    ensures a == b
  {
  }

  predicate Sound(p: Position)
  {
    p.status == OPEN && p.entryPrice > 0.0 && p.totalAmount >= 0.0 && p.leverage > 0.0
  }

  lemma CandidateBehind(side: Side, price: real, policy: ExitPolicy)
    requires ValidPolicy(policy) && policy.trailing && price > 0.0
    ensures side == LONG ==> 0.0 < Candidate(side, price, policy) < price
    ensures side == SHORT ==> Candidate(side, price, policy) > price
  {
    var d := policy.distancePercent / 100.0;
    assert 0.0 < d < 1.0;
    assert price * d > 0.0 && price * (1.0 - d) > 0.0;
    assert price * (1.0 - d) == price - price * d;
    assert price * (1.0 + d) == price + price * d;
  }

  /**
   * While the position stays open its stop is exactly the bound, it only ever tightened, nothing
   * else changed, and the last price is strictly on the safe side of it.
   */
  lemma {:induction false} TrailingStopIsBound(p: Position, prices: seq<real>, policy: ExitPolicy)
    requires Sound(p) && ValidPolicy(policy)
    requires Ticks(p, prices, policy).Ok? && Ticks(p, prices, policy).value.status == OPEN
    ensures var q := Ticks(p, prices, policy).value;
      && q == p.(stopLoss := q.stopLoss)
      && IsBound(p, prices, policy, q.stopLoss)
      && (prices != [] ==> !StopCrossed(q, prices[|prices| - 1]) && !TakeProfitCrossed(q, prices[|prices| - 1]))
  {
    if prices != [] {
      var init, last := prices[..|prices| - 1], prices[|prices| - 1];
      StaysClosed(p, init, policy, last);
      TrailingStopIsBound(p, init, policy);
      var before := Ticks(p, init, policy).value;
      assert !StopCrossed(before, last) && last > 0.0;
      if policy.trailing { CandidateBehind(p.side, last, policy); }
      var q := Ticks(p, prices, policy).value;
      hide Candidate;
      assert q == Trailed(before, last, policy);
      BoundExtends(p, init, last, policy, before.stopLoss, q.stopLoss);
    }
  }

  lemma BoundExtends(p: Position, init: seq<real>, last: real, policy: ExitPolicy, before: real, after: real)
    requires IsBound(p, init, policy, before)
    requires !policy.trailing ==> after == before
    requires policy.trailing ==>
      var c := Candidate(p.side, last, policy);
      after == if Tighter(p.side, before, c) then before else c
    ensures forall prices :: prices == init + [last] ==> IsBound(p, prices, policy, after)
  {
    hide Candidate;
    var prices := init + [last];
    forall i | policy.trailing && 0 <= i < |prices|
      ensures Tighter(p.side, after, Candidate(p.side, prices[i], policy))
    {
      if i < |init| { assert prices[i] == init[i]; }
    }
    if policy.trailing && before != p.stopLoss {
      var i :| 0 <= i < |init| && before == Candidate(p.side, init[i], policy);
      assert prices[i] == init[i];
    }
    assert prices[|init|] == last;
  }

  /** An open position was open, and had no bad price, at every earlier moment. */
  lemma StaysClosed(p: Position, init: seq<real>, policy: ExitPolicy, last: real)
    requires Ticks(p, init + [last], policy).Ok? && Ticks(p, init + [last], policy).value.status == OPEN
    ensures Ticks(p, init, policy).Ok? && Ticks(p, init, policy).value.status == OPEN && last > 0.0
  {
    assert (init + [last])[..|init|] == init;
  }

  /** The price at this index is at or beyond the bound of the earlier prices, or the target. */
  ghost predicate Crosses(p: Position, prices: seq<real>, policy: ExitPolicy, i: nat)
    requires i < |prices|
  {
    exists stop :: IsBound(p, prices[..i], policy, stop)
                   && (StopCrossed(p.(stopLoss := stop), prices[i]) || TakeProfitCrossed(p, prices[i]))
  }

  lemma EarlierCrossing(p: Position, prices: seq<real>, policy: ExitPolicy, n: nat)
    requires n <= |prices|
    ensures forall i :: 0 <= i < n ==> (Crosses(p, prices[..n], policy, i) <==> Crosses(p, prices, policy, i))
  {
    hide IsBound;
    forall i | 0 <= i < n ensures Crosses(p, prices[..n], policy, i) <==> Crosses(p, prices, policy, i) {
      assert prices[..n][..i] == prices[..i];
    }
  }

  lemma EarlierExit(p: Position, prices: seq<real>, policy: ExitPolicy, q: Position, n: nat, i: nat)
    requires i < n <= |prices| && ExitAt(p, prices[..n], policy, q, i)
    ensures ExitAt(p, prices, policy, q, i)
  {
    EarlierCrossing(p, prices, policy, n);
    hide IsBound, Crosses;
    assert prices[..n][..i] == prices[..i];
  }

  /** The position closes exactly at the first crossing, at that price and no other. */
  lemma {:induction false} ExitsAtFirstCrossing(p: Position, prices: seq<real>, policy: ExitPolicy)
    requires Sound(p) && ValidPolicy(policy) && forall i :: 0 <= i < |prices| ==> prices[i] > 0.0
    ensures Ticks(p, prices, policy).Ok?
    ensures Ticks(p, prices, policy).value.status == OPEN
            <==> forall i :: 0 <= i < |prices| ==> !Crosses(p, prices, policy, i)
    ensures Ticks(p, prices, policy).value.status != OPEN ==>
      exists i :: 0 <= i < |prices| && ExitAt(p, prices, policy, Ticks(p, prices, policy).value, i)
  {
    if prices != [] {
      var n := |prices| - 1;
      var init := prices[..n];
      ExitsAtFirstCrossing(p, init, policy);
      EarlierCrossing(p, prices, policy, n);
      var before := Ticks(p, init, policy).value;
      if before.status == OPEN {
        TrailingStopIsBound(p, init, policy);
        LastTick(p, prices, policy, before);
      } else {
        hide ExitAt, Crosses, IsBound;
        var i :| 0 <= i < n && ExitAt(p, init, policy, before, i);
        EarlierExit(p, prices, policy, before, n, i);
        assert Ticks(p, prices, policy) == Ok(before);
        ExitCrosses(p, prices, policy, before, i);
      }
    }
  }

  lemma ExitCrosses(p: Position, prices: seq<real>, policy: ExitPolicy, q: Position, i: nat)
    requires i < |prices| && ExitAt(p, prices, policy, q, i)
    ensures Crosses(p, prices, policy, i)
  {
  }

  lemma LastTick(p: Position, prices: seq<real>, policy: ExitPolicy, before: Position)
    requires Sound(p) && prices != [] && prices[|prices| - 1] > 0.0
    requires Ticks(p, prices[..|prices| - 1], policy) == Ok(before)
    requires before == p.(stopLoss := before.stopLoss) && IsBound(p, prices[..|prices| - 1], policy, before.stopLoss)
    requires forall i :: 0 <= i < |prices| - 1 ==> !Crosses(p, prices, policy, i)
    ensures Ticks(p, prices, policy).Ok?
    ensures Ticks(p, prices, policy).value.status == OPEN <==> !Crosses(p, prices, policy, |prices| - 1)
    ensures Ticks(p, prices, policy).value.status != OPEN ==>
      ExitAt(p, prices, policy, Ticks(p, prices, policy).value, |prices| - 1)
  {
    LastCrosses(p, prices, policy, before.stopLoss);
    hide IsBound, Crosses, Candidate, LinearPnl;
  }

  lemma LastCrosses(p: Position, prices: seq<real>, policy: ExitPolicy, stop: real)
    requires prices != [] && IsBound(p, prices[..|prices| - 1], policy, stop)
    ensures var last := prices[|prices| - 1];
      Crosses(p, prices, policy, |prices| - 1)
      <==> StopCrossed(p.(stopLoss := stop), last) || TakeProfitCrossed(p, last)
  {
    var init := prices[..|prices| - 1];
    forall other | IsBound(p, init, policy, other) ensures other == stop { BoundUnique(p, init, policy, other, stop); }
  }

  /** Closed at this price, its first crossing; stopped out if the stop was crossed, else at target. */
  ghost predicate ExitAt(p: Position, prices: seq<real>, policy: ExitPolicy, q: Position, i: nat)
    requires i < |prices|
  {
    && Crosses(p, prices, policy, i) && (forall k :: 0 <= k < i ==> !Crosses(p, prices, policy, k))
    && q.exitPrice == Some(prices[i])
    && IsBound(p, prices[..i], policy, q.stopLoss)
    && q.status == (if StopCrossed(q, prices[i]) then STOPPED_OUT else CLOSED)
    && q.realizedPnl.Some? && RealizedPnl(p, prices[i]) == Ok(q.realizedPnl.value)
  }
}
