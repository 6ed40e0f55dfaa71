/**
 * The stores of the paper trading runtime and what each operation does to them, as the list
 * of durable states it passes through.  A failure or a crash may stop an operation after any
 * of them.
 */
module PaperOrders {
  import opened Prelude
  import opened Positions

  datatype OrderType = MARKET | LIMIT

  datatype Status = PENDING | ACCEPTED | FILLED | REJECTED | CANCELLED

  datatype OrderRequest = OrderRequest(
    orderId: string, symbol: string, side: Side, orderType: OrderType, quantity: real,
    requestedPrice: Option<real>, stopLoss: real, takeProfit: Option<real>, leverage: real,
    createdAt: int, evidence: Option<string>)

  datatype OrderResult = OrderResult(
    orderId: string, status: Status, symbol: string, filledPrice: Option<real>,
    reason: Option<string>, filledAt: Option<int>)

  datatype Fill = Fill(
    fillId: string, orderId: string, symbol: string, side: Side, quantity: real, price: real,
    commission: real, filledAt: int)

  datatype PendingOrder = PendingOrder(order: OrderRequest, status: Status, reason: Option<string>)

  datatype Error =
    | MissingOrderId | ConflictingRequest | NoResultYet | OrderExists | UnknownOrder | InvalidTransition
    | ConflictingFill | NotFilled | MissingFillPrice | MissingFillTime | IdentityMismatch | InvalidSize
    | InvalidFill | StorageFailure

  datatype Db = Db(
    requests: map<string, OrderRequest>,
    results: map<string, OrderResult>,
    fills: map<string, Fill>,
    positions: map<string, Position>,
    pending: map<string, PendingOrder>)

  // ----------------------------------------------------------- repository writes

  function AllowedNext(s: Status): set<Status>
  {
    match s
    case PENDING => {ACCEPTED, FILLED, REJECTED, CANCELLED}
    case ACCEPTED => {FILLED, REJECTED, CANCELLED}
    case FILLED => {}
    case REJECTED => {}
    case CANCELLED => {}
  }

  predicate Terminal(s: Status) { AllowedNext(s) == {} }

  function SaveResult(db: Db, result: OrderResult): Result<Db, Error>
  {
    if result.orderId !in db.requests then Err(UnknownOrder)
    else if result.orderId in db.results && db.results[result.orderId] == result then Ok(db)
    else if result.orderId in db.results && result.status !in AllowedNext(db.results[result.orderId].status)
    then Err(InvalidTransition)
    else Ok(db.(results := db.results[result.orderId := result]))
  }

  /**
   * A stored answer changes only as an order can: from none or pending to anything further, from
   * accepted to an end, and from an end not at all.  The same answer again changes nothing.
   */
  lemma AnswersExactly(db: Db, result: OrderResult)
    ensures SaveResult(db, result).Ok? <==>
      result.orderId in db.requests
      && (result.orderId in db.results ==>
            var now := db.results[result.orderId];
            || now == result
            || (now.status == PENDING && result.status in {ACCEPTED, FILLED, REJECTED, CANCELLED})
            || (now.status == ACCEPTED && result.status in {FILLED, REJECTED, CANCELLED}))
    ensures SaveResult(db, result).Ok? ==>
      var next := SaveResult(db, result).value;
      next.results == db.results[result.orderId := result] && next == db.(results := next.results)
  {
    if result.orderId in db.results && db.results[result.orderId] == result {
      assert db.results == db.results[result.orderId := result];
    }
  }

  function SaveFill(db: Db, fill: Fill): Result<Db, Error>
  {
    if fill.fillId in db.fills && db.fills[fill.fillId] != fill then Err(ConflictingFill)
    else Ok(db.(fills := db.fills[fill.fillId := fill]))
  }

  function SavePosition(db: Db, position: Position): Db
  {
    db.(positions := db.positions[position.positionId := position])
  }

  function SavePending(db: Db, pending: PendingOrder): Db
  {
    db.(pending := db.pending[pending.order.orderId := pending])
  }

  function RemovePending(db: Db, orderId: string): Db
  {
    db.(pending := db.pending - {orderId})
  }

  // -------------------------------------------------------------- filling an order

  function PositionFromFill(order: OrderRequest, result: OrderResult): Result<Position, Error>
  {
    if result.status != FILLED then Err(NotFilled)
    else if result.filledPrice.None? then Err(MissingFillPrice)
    else if result.symbol != order.symbol || result.orderId != order.orderId then Err(IdentityMismatch)
    else if order.quantity <= 0.0 || order.leverage <= 0.0 then Err(InvalidSize)
    else
      var price := result.filledPrice.value;
      var collateral := price * order.quantity / order.leverage;
      if collateral <= 0.0 then Err(InvalidSize)
      else Ok(Position(
                order.orderId, order.symbol, order.side, price, order.stopLoss, collateral, order.quantity,
                order.leverage, order.takeProfit,
                if result.filledAt.Some? then result.filledAt.value else order.createdAt,
                OPEN, None, None, None, None, order.evidence))
  }

  function FillId(orderId: string): string { "fill:" + orderId }

  lemma FillIdInjective(a: string, b: string)
    requires FillId(a) == FillId(b)
    ensures a == b
  {
    assert FillId(a)[5..] == a && FillId(b)[5..] == b;
  }

  function FillOf(order: OrderRequest, result: OrderResult): Result<Fill, Error>
    requires result.filledPrice.Some? && result.filledAt.Some?
  {
    if order.orderId == "" || order.symbol == "" || order.quantity <= 0.0 || result.filledPrice.value <= 0.0
    then Err(InvalidFill)
    else Ok(Fill(FillId(order.orderId), order.orderId, order.symbol, order.side, order.quantity,
                 result.filledPrice.value, 0.0, result.filledAt.value))
  }

  /** Result, fill and position in one transaction: the state it commits, or why it rolls back. */
  function ApplyFill(db: Db, order: OrderRequest, result: OrderResult): Result<Db, Error>
  {
    if result.status != FILLED then Err(NotFilled)
    else if result.filledPrice.None? then Err(MissingFillPrice)
    else if result.filledAt.None? then Err(MissingFillTime)
    else
      match PositionFromFill(order, result)
      case Err(e) => Err(e)
      case Ok(position) =>
        match FillOf(order, result)
        case Err(e) => Err(e)
        case Ok(fill) =>
          match SaveResult(db, result)
          case Err(e) => Err(e)
          case Ok(withResult) =>
            match SaveFill(withResult, fill)
            case Err(e) => Err(e)
            case Ok(withFill) => Ok(SavePosition(withFill, position))
  }

  // ------------------------------------------------------------ the paper executor

  predicate ValidOrder(order: OrderRequest)
  {
    && !Blank(order.orderId) && !Blank(order.symbol)
    && order.quantity > 0.0 && order.leverage > 0.0 && order.stopLoss > 0.0
    && (order.orderType == LIMIT ==> order.requestedPrice.Some?)
    && (order.requestedPrice.Some? ==> order.requestedPrice.value > 0.0)
    && (order.takeProfit.Some? ==>
          && order.takeProfit.value > 0.0
          && (order.side == LONG ==> order.takeProfit.value > order.stopLoss)
          && (order.side == SHORT ==> order.takeProfit.value < order.stopLoss))
  }

  function Reject(order: OrderRequest, reason: string): OrderResult
  {
    OrderResult(order.orderId, REJECTED, order.symbol, None, Some(reason), None)
  }

  function FilledAtPrice(order: OrderRequest, price: real, now: int): OrderResult
  {
    OrderResult(order.orderId, FILLED, order.symbol, Some(price), None, Some(now))
  }

  function LimitResult(order: OrderRequest, market: real, now: int): OrderResult
  {
    if order.requestedPrice.None? then Reject(order, "limit price required")
    else if (order.side == LONG && market > order.requestedPrice.value)
         || (order.side == SHORT && market < order.requestedPrice.value)
    then OrderResult(order.orderId, ACCEPTED, order.symbol, None, Some("limit not fillable"), None)
    else FilledAtPrice(order, order.requestedPrice.value, now)
  }

  /** A usable live price: none when the provider failed or quoted nothing positive. */
  type Quote = q: Option<real> | q.Some? ==> q.value > 0.0 witness None

  function CheckLimit(order: OrderRequest, quote: Quote, now: int): OrderResult
  {
    if !ValidOrder(order) then Reject(order, "invalid order")
    else if order.orderType != LIMIT then Reject(order, "not a limit order")
    else if quote.None? then Reject(order, "invalid live price")
    else LimitResult(order, quote.value, now)
  }

  /** First submission; seen are the order ids this executor has filled or refused before. */
  function Execute(seen: set<string>, order: OrderRequest, quote: Quote, now: int): OrderResult
  {
    if !ValidOrder(order) then Reject(order, "invalid order")
    else if order.orderId in seen then Reject(order, "duplicate order_id")
    else if quote.None? then Reject(order, "invalid live price")
    else if order.orderType == LIMIT then LimitResult(order, quote.value, now)
    else FilledAtPrice(order, quote.value, now)
  }

  /** What the runtime may rely on about an answer the executor gives in (before, now]. */
  predicate Verdict(order: OrderRequest, result: OrderResult, before: int, now: int)
  {
    && result.orderId == order.orderId && result.symbol == order.symbol
    && result.status in {ACCEPTED, FILLED, REJECTED}
    && (result.status == FILLED ==>
          ValidOrder(order) && result.filledPrice.Some? && result.filledPrice.value > 0.0
          && result.filledAt.Some? && before < result.filledAt.value <= now)
  }

  /** Both ways of asking the executor give such an answer; a limit order fills at its own price. */
  lemma ExecutorAnswers(seen: set<string>, order: OrderRequest, quote: Quote, before: int, now: int)
    requires before < now
    ensures Verdict(order, Execute(seen, order, quote, now), before, now)
    ensures Verdict(order, CheckLimit(order, quote, now), before, now)
    ensures CheckLimit(order, quote, now).status == FILLED <==>
      ValidOrder(order) && order.orderType == LIMIT && quote.Some?
      && (if order.side == LONG then quote.value <= order.requestedPrice.value
          else quote.value >= order.requestedPrice.value)
    ensures CheckLimit(order, quote, now).status == FILLED ==>
      CheckLimit(order, quote, now).filledPrice == order.requestedPrice
  {
  }

  /** Some character of the text is not white space. */
  ghost predicate Named(text: string)
  {
    exists i :: 0 <= i < |text| && text[i] !in " \t\r\n"
  }

  /** What an order needs to be taken at all; a price may be missing for a market order only. */
  ghost predicate Sound(order: OrderRequest)
  {
    && Named(order.orderId) && Named(order.symbol)
    && order.quantity > 0.0 && order.leverage > 0.0 && order.stopLoss > 0.0
    && (order.requestedPrice.None? ==> order.orderType == MARKET)
    && (order.requestedPrice.Some? ==> order.requestedPrice.value > 0.0)
    && (order.takeProfit.Some? ==> order.takeProfit.value > 0.0)
    && (order.takeProfit.Some? && order.side == LONG ==> order.stopLoss < order.takeProfit.value)
    && (order.takeProfit.Some? && order.side == SHORT ==> order.takeProfit.value < order.stopLoss)
  }

  /** The market is at the requested price or better for the trader. */
  predicate Reached(order: OrderRequest, price: real)
    requires order.requestedPrice.Some?
  {
    match order.side
    case LONG => price <= order.requestedPrice.value
    case SHORT => order.requestedPrice.value <= price
  }

  /** An answer of the executor to an order it does not refuse. */
  ghost predicate Decided(order: OrderRequest, price: real, now: int, r: OrderResult)
    requires order.orderType == LIMIT ==> order.requestedPrice.Some?
  {
    match order.orderType
    case MARKET => r.status == FILLED && r.filledPrice == Some(price) && r.filledAt == Some(now)
    case LIMIT =>
      if Reached(order, price)
      then r.status == FILLED && r.filledPrice == order.requestedPrice && r.filledAt == Some(now)
      else r.status == ACCEPTED && r.filledPrice == None && r.filledAt == None
  }

  /**
   * The executor refuses exactly an unsound order, one it has filled before, and one without a usable
   * price.  A market order is filled at the quote; a limit order is filled exactly when the market is at
   * its price or better, then at its own price, and otherwise accepted to wait.
   */
  lemma ExecutorDecides(seen: set<string>, order: OrderRequest, quote: Quote, now: int)
    ensures var r := Execute(seen, order, quote, now);
      && r.orderId == order.orderId && r.symbol == order.symbol
      && (r.status == REJECTED <==> !Sound(order) || order.orderId in seen || quote.None?)
      && (r.status != REJECTED ==> quote.Some? && Sound(order) && Decided(order, quote.value, now, r))
    ensures var r := CheckLimit(order, quote, now);
      && r.orderId == order.orderId && r.symbol == order.symbol
      && (r.status == REJECTED <==> !Sound(order) || order.orderType == MARKET || quote.None?)
      && (r.status != REJECTED ==> quote.Some? && Sound(order) && Decided(order, quote.value, now, r))
  {
    assert Blank(order.orderId) <==> !Named(order.orderId);
    assert Blank(order.symbol) <==> !Named(order.symbol);
  }

  // -------------------------------------------------- operations as durable states

  /** Submitting: a known order is only replayed; a new one is persisted before it is executed. */
  function SubmitPlan(db: Db, order: OrderRequest, verdict: OrderResult): seq<Db>
  {
    if order.orderId == "" then []
    else if order.orderId in db.requests then
      if db.requests[order.orderId] != order || order.orderId !in db.results
         || db.results[order.orderId].status != ACCEPTED
      then []
      else [SavePending(db, PendingOrder(order, ACCEPTED, None))]
    else
      var requested := db.(requests := db.requests[order.orderId := order]);
      if verdict.status == FILLED then
        match ApplyFill(requested, order, verdict)
        case Ok(filled) => [requested, filled]
        case Err(_) => [requested]
      else
        match SaveResult(requested, verdict)
        case Err(_) => [requested]
        case Ok(answered) =>
          if verdict.status == ACCEPTED
          then [requested, answered, SavePending(answered, PendingOrder(order, ACCEPTED, None))]
          else [requested, answered]
  }

  /** One pending order rechecked: the durable states, and whether the sweep goes on after it. */
  function RecheckPlan(db: Db, pending: PendingOrder, verdict: OrderResult): (seq<Db>, bool)
  {
    var order := pending.order;
    if order.orderType != LIMIT then
      ([SavePending(db, pending.(status := REJECTED, reason := Some("only limit orders")))], true)
    else if verdict.status == FILLED then
      match ApplyFill(db, order, verdict)
      case Err(_) => ([], false)
      case Ok(filled) => ([filled, RemovePending(filled, order.orderId)], true)
    else if verdict.status == REJECTED then
      ([SavePending(db, pending.(status := REJECTED, reason := verdict.reason))], true)
    else ([SavePending(db, pending)], true)
  }

  function LastOr(states: seq<Db>, db: Db): Db
  {
    if states == [] then db else states[|states| - 1]
  }

  /** A sweep over the active pending orders; an exception ends it. */
  function CheckPlan(db: Db, active: seq<PendingOrder>, verdicts: seq<OrderResult>): seq<Db>
    requires |active| == |verdicts|
    decreases |active|
  {
    if active == [] then []
    else
      var (states, goesOn) := RecheckPlan(db, active[0], verdicts[0]);
      if goesOn then states + CheckPlan(LastOr(states, db), active[1..], verdicts[1..]) else states
  }

  function FillsFor(db: Db, orderId: string): set<string>
  {
    set k | k in db.fills && db.fills[k].orderId == orderId
  }

  datatype Issue = MissingOrder | NonFilledWithFill | FilledWithoutFill | MultipleFills

  /** What recovery makes of one order: an issue, a position to write, nothing, or an exception. */
  datatype Finding = Nothing | Problem(issue: Issue) | Repair(position: Position) | Fails(error: Error)

  function Inspect(db: Db, orderId: string): Finding
  {
    if orderId !in db.requests then Problem(MissingOrder)
    else if orderId !in db.results then Nothing
    else
      var fills := FillsFor(db, orderId);
      if db.results[orderId].status != FILLED then
        (if fills != {} then Problem(NonFilledWithFill) else Nothing)
      else if |fills| == 0 then Problem(FilledWithoutFill)
      else if |fills| > 1 then Problem(MultipleFills)
      else if orderId in db.positions then Nothing
      else
        match PositionFromFill(db.requests[orderId], db.results[orderId])
        case Ok(position) => Repair(position)
        case Err(e) => Fails(e)
  }

  /** The issues recovery reports for these orders, in their order, up to an exception. */
  function IssuesOf(db: Db, ids: seq<string>): seq<(string, Issue)>
  {
    if ids == [] then []
    else
      match Inspect(db, ids[0])
      case Problem(issue) => [(ids[0], issue)] + IssuesOf(db, ids[1..])
      case Fails(_) => []
      case _ => IssuesOf(db, ids[1..])
  }

  /** Recovery: missing positions are rebuilt one by one; an exception ends it. */
  function ReconcilePlan(db: Db, ids: seq<string>): seq<Db>
    decreases |ids|
  {
    if ids == [] then []
    else
      match Inspect(db, ids[0])
      case Repair(position) => [SavePosition(db, position)] + ReconcilePlan(SavePosition(db, position), ids[1..])
      case Fails(_) => []
      case _ => ReconcilePlan(db, ids[1..])
  }
}
