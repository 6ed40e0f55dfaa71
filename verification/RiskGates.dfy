/** Sizing a trade from its risk, and the two independent gates it has to pass. */
module RiskGates {
  import opened Prelude
  import opened Positions

  datatype GateError =
    | InvalidInputs | InvalidPolicy | InvalidContract | EquityNotPositive | InvalidLevels | InvalidSize
    | CorrelationOutOfRange

  // ------------------------------------------------------------------- risk arithmetic

  /** The loss at the stop of a position of this amount. */
  function RiskAmount(amount: real, entry: real, stop: real, leverage: real): real
    requires entry > 0.0
  {
    amount * Abs(entry - stop) / entry * leverage
  }

  function CandidateRisk(amount: real, entry: real, stop: real, leverage: real): Result<real, GateError>
  {
    if amount < 0.0 || entry <= 0.0 || stop <= 0.0 || leverage <= 0.0 then Err(InvalidInputs)
    else Ok(RiskAmount(amount, entry, stop, leverage))
  }

  function PositionRisk(p: Position): Result<real, GateError>
  {
    if p.status != OPEN then Ok(0.0) else CandidateRisk(p.totalAmount, p.entryPrice, p.stopLoss, p.leverage)
  }

  function OpenRisk(positions: seq<Position>): Result<real, GateError>
  {
    if positions == [] then Ok(0.0)
    else
      match OpenRisk(positions[..|positions| - 1])
      case Err(e) => Err(e)
      case Ok(total) =>
        match PositionRisk(positions[|positions| - 1])
        case Err(e) => Err(e)
        case Ok(risk) => Ok(total + risk)
  }

  function Budget(equity: real, percent: real): real { equity * percent / 100.0 }

  function FuturesCapital(positions: seq<Position>): real
  {
    if positions == [] then 0.0
    else
      var p := positions[|positions| - 1];
      FuturesCapital(positions[..|positions| - 1])
      + if p.status == OPEN && p.leverage > 1.0 then p.totalAmount else 0.0
  }

  // --------------------------------------------------------------------------- sizing

  datatype Contract = Contract(
    priceTick: real, quantityStep: real, minQuantity: real, minNotional: Option<real>, maxLeverage: Option<real>)

  predicate ValidContract(c: Contract)
  {
    && c.priceTick > 0.0 && c.quantityStep > 0.0 && c.minQuantity >= 0.0
    && (c.minNotional.Some? ==> c.minNotional.value >= 0.0) && (c.maxLeverage.Some? ==> c.maxLeverage.value >= 1.0)
  }

  function Steps(units: int, step: real): real { units as real * step }

  /** Whole steps only. */
  function RoundDown(quantity: real, step: real): real
    requires quantity >= 0.0 && step > 0.0
  {
    Steps((quantity / step).Floor, step)
  }

  /** The result is the largest whole number of steps that fits. */
  lemma RoundedDown(quantity: real, step: real)
    requires quantity >= 0.0 && step > 0.0
    ensures 0.0 <= RoundDown(quantity, step) <= quantity < RoundDown(quantity, step) + step
    ensures exists units: int :: units >= 0 && RoundDown(quantity, step) == Steps(units, step)
  {
    var ratio := quantity / step;
    var units := ratio.Floor;
    assert quantity == ratio * step;
    assert ratio >= 0.0 && units >= 0 && units as real <= ratio < units as real + 1.0;
    assert RoundDown(quantity, step) == Steps(units, step);
    var whole := units as real;
    OneStepMore(whole, ratio, step, quantity);
    assert Steps(units, step) == whole * step;
  }

  lemma OneStepMore(units: real, ratio: real, step: real, quantity: real)
    requires 0.0 <= units <= ratio < units + 1.0 && step > 0.0 && quantity == ratio * step
    ensures 0.0 <= units * step <= quantity < units * step + step
  {
    TimesStep(units, ratio, step);
    TimesStep(0.0, units, step);
    var next := units + 1.0;
    LessTimesStep(ratio, next, step);
    Distributes(units, step);
    assert quantity < next * step;
  }

  lemma Distributes(units: real, step: real)
    ensures (units + 1.0) * step == units * step + step
  {
  }

  lemma LessTimesStep(a: real, b: real, step: real)
    requires a < b && step > 0.0
    ensures a * step < b * step
  {
    assert (b - a) * step > 0.0;
  }

  lemma TimesStep(a: real, b: real, step: real)
    requires a <= b && step > 0.0
    ensures a * step <= b * step
  {
    assert (b - a) * step >= 0.0;
  }

  function DistanceOf(entry: real, stop: real): real
    requires entry > 0.0
  {
    Abs(entry - stop) / entry
  }

  function AmountFor(risk: real, distance: real, leverage: real): real
    requires distance > 0.0 && leverage > 0.0
  {
    DistanceTimes(distance, leverage);
    risk / (distance * leverage)
  }

  lemma DistanceTimes(distance: real, leverage: real)
    requires distance > 0.0 && leverage > 0.0
    ensures distance * leverage > 0.0
  {
  }

  /** Quantity and total amount of a position that loses at most this much at its stop. */
  function PositionSize(risk: real, entry: real, stop: real, leverage: real, c: Contract): (real, real)
    requires risk > 0.0 && entry > 0.0 && entry != stop && leverage > 0.0 && c.quantityStep > 0.0
  {
    DistancePositive(entry, stop);
    var amount := AmountFor(risk, DistanceOf(entry, stop), leverage);
    AmountPositive(risk, DistanceOf(entry, stop), leverage, entry);
    var quantity := RoundDown(amount / entry, c.quantityStep);
    if quantity < c.minQuantity then (0.0, 0.0) else (quantity, quantity * entry)
  }

  lemma DistancePositive(entry: real, stop: real)
    requires entry > 0.0 && entry != stop
    ensures DistanceOf(entry, stop) > 0.0
  {
  }

  lemma AmountPositive(risk: real, distance: real, leverage: real, entry: real)
    requires risk > 0.0 && distance > 0.0 && leverage > 0.0 && entry > 0.0
    ensures AmountFor(risk, distance, leverage) / entry >= 0.0
  {
    DistanceTimes(distance, leverage);
  }

  /** Rounding down never makes the stop cost more than the risk it was sized for. */
  lemma SizeWithinRisk(risk: real, entry: real, stop: real, leverage: real, c: Contract)
    requires risk > 0.0 && entry > 0.0 && entry != stop && leverage > 0.0 && c.quantityStep > 0.0
    ensures var (quantity, amount) := PositionSize(risk, entry, stop, leverage, c);
      && quantity >= 0.0 && amount >= 0.0 && amount == quantity * entry
      && 0.0 <= RiskAmount(amount, entry, stop, leverage) <= risk
  {
    hide RoundDown, DistanceOf, AmountFor, RiskAmount;
    DistancePositive(entry, stop);
    var distance := DistanceOf(entry, stop);
    var target := AmountFor(risk, distance, leverage);
    AmountPositive(risk, distance, leverage, entry);
    RoundedDown(target / entry, c.quantityStep);
    var (quantity, amount) := PositionSize(risk, entry, stop, leverage, c);
    hide PositionSize;
    QuantityTimesEntry(quantity, target, entry);
    RiskByDistance(amount, entry, stop, leverage);
    DistanceTimes(distance, leverage);
    AmountMeetsRisk(risk, distance, leverage);
    TimesStep(amount, target, distance * leverage);
    TimesStep(0.0, amount, distance * leverage);
  }

  lemma QuantityTimesEntry(quantity: real, target: real, entry: real)
    requires entry > 0.0 && 0.0 <= quantity <= target / entry
    ensures 0.0 <= quantity * entry <= target
  {
    TimesStep(0.0, quantity, entry);
    TimesStep(quantity, target / entry, entry);
    assert target / entry * entry == target;
  }

  lemma AmountMeetsRisk(risk: real, distance: real, leverage: real)
    requires distance > 0.0 && leverage > 0.0
    ensures AmountFor(risk, distance, leverage) * (distance * leverage) == risk
  {
    DistanceTimes(distance, leverage);
    var d := distance * leverage;
    assert risk / d * d == risk;
  }

  lemma RiskByDistance(amount: real, entry: real, stop: real, leverage: real)
    requires entry > 0.0
    ensures RiskAmount(amount, entry, stop, leverage) == amount * (DistanceOf(entry, stop) * leverage)
  {
    var gap := Abs(entry - stop);
    assert amount * gap / entry == amount * (gap / entry);
  }

  /** What this many units lose when the price runs from the entry to the stop. */
  function LossAtStop(quantity: real, entry: real, stop: real, leverage: real): real
  {
    quantity * (Abs(entry - stop) * leverage)
  }

  /** The risk amount of a quantity is its loss at the stop. */
  lemma RiskIsLoss(quantity: real, entry: real, stop: real, leverage: real)
    requires entry > 0.0
    ensures RiskAmount(quantity * entry, entry, stop, leverage) == LossAtStop(quantity, entry, stop, leverage)
  {
    var gap := Abs(entry - stop);
    assert quantity * entry * gap / entry == quantity * gap;
    assert quantity * gap * leverage == quantity * (gap * leverage);
  }

  lemma RiskOfQuantity(amount: real, quantity: real, entry: real, stop: real, leverage: real)
    requires entry > 0.0 && amount == quantity * entry
    ensures RiskAmount(amount, entry, stop, leverage) == LossAtStop(quantity, entry, stop, leverage)
  {
    RiskIsLoss(quantity, entry, stop, leverage);
  }

  /** The quantity a risk buys before rounding loses exactly that risk. */
  lemma UnroundedLoss(risk: real, entry: real, stop: real, leverage: real)
    requires risk > 0.0 && entry > 0.0 && entry != stop && leverage > 0.0
    ensures DistanceOf(entry, stop) > 0.0
    ensures LossAtStop(AmountFor(risk, DistanceOf(entry, stop), leverage) / entry, entry, stop, leverage) == risk
  {
    DistancePositive(entry, stop);
    var gap, distance := Abs(entry - stop), DistanceOf(entry, stop);
    DistanceTimes(distance, leverage);
    AmountMeetsRisk(risk, distance, leverage);
    var amount := AmountFor(risk, distance, leverage);
    hide AmountFor;
    assert distance == gap / entry;
    assert amount / entry * gap == amount * (gap / entry);
    assert amount / entry * (gap * leverage) == amount / entry * gap * leverage;
    assert amount * distance * leverage == amount * (distance * leverage);
  }

  /** A loss follows its quantity. */
  lemma LossOrder(a: real, b: real, entry: real, stop: real, leverage: real)
    requires entry != stop && leverage > 0.0
    ensures a <= b <==> LossAtStop(a, entry, stop, leverage) <= LossAtStop(b, entry, stop, leverage)
  {
    var unit := Abs(entry - stop) * leverage;
    assert unit > 0.0;
    if a <= b { TimesStep(a, b, unit); } else { LessTimesStep(b, a, unit); }
  }

  /** So many whole steps are enough for the contract and lose no more than the risk. */
  predicate Fits(units: int, risk: real, entry: real, stop: real, leverage: real, c: Contract)
  {
    units > 0 && Steps(units, c.quantityStep) >= c.minQuantity
    && LossAtStop(Steps(units, c.quantityStep), entry, stop, leverage) <= risk
  }

  lemma StepsOrder(a: int, b: int, step: real)
    requires step > 0.0
    ensures a <= b <==> Steps(a, step) <= Steps(b, step)
    ensures Steps(a + 1, step) == Steps(a, step) + step && Steps(0, step) == 0.0
  {
    if a <= b { TimesStep(a as real, b as real, step); } else { LessTimesStep(b as real, a as real, step); }
    Distributes(a as real, step);
  }

  /**
   * The size is the largest that fits: a whole number of steps, enough for the contract, whose loss at the
   * stop is within the risk while one step more would lose more; and nothing exactly when nothing fits.
   */
  lemma SizeIsLargest(risk: real, entry: real, stop: real, leverage: real, c: Contract)
    requires risk > 0.0 && entry > 0.0 && entry != stop && leverage > 0.0 && c.quantityStep > 0.0
    ensures var (quantity, amount) := PositionSize(risk, entry, stop, leverage, c);
      && amount == quantity * entry
      && (quantity == 0.0 <==> forall units: int :: !Fits(units, risk, entry, stop, leverage, c))
      && (quantity != 0.0 ==>
            && (exists units: int ::
                  quantity == Steps(units, c.quantityStep) && Fits(units, risk, entry, stop, leverage, c))
            && LossAtStop(quantity + c.quantityStep, entry, stop, leverage) > risk)
  {
    hide DistanceOf, AmountFor, LossAtStop, Steps;
    UnroundedLoss(risk, entry, stop, leverage);
    var distance, step := DistanceOf(entry, stop), c.quantityStep;
    AmountPositive(risk, distance, leverage, entry);
    var whole := AmountFor(risk, distance, leverage) / entry;
    RoundedDown(whole, step);
    var units := (whole / step).Floor;
    var quantity := RoundDown(whole, step);
    assert quantity == Steps(units, step);
    hide RoundDown;
    LossOrder(quantity, whole, entry, stop, leverage);
    LossOrder(quantity + step, whole, entry, stop, leverage);
    StepsOrder(0, units, step);
    StepsOrder(units, 0, step);
    var size := PositionSize(risk, entry, stop, leverage, c);
    assert size.0 == if quantity < c.minQuantity then 0.0 else quantity;
    assert size.0 != 0.0 ==> Fits(units, risk, entry, stop, leverage, c);
    forall other: int
      ensures Fits(other, risk, entry, stop, leverage, c) ==> other <= units && quantity >= c.minQuantity
    {
      LossOrder(Steps(other, step), whole, entry, stop, leverage);
      StepsOrder(other, units, step);
      StepsOrder(units, units, step);
      StepsOrder(units + 1, other, step);
    }
  }

  // ------------------------------------------------------------------- the risk gate

  datatype RiskPolicy = RiskPolicy(
    perTrade: real, aggregate: real, stormLoss: real, futures: real, correlated: real)

  predicate Percent(x: real) { 0.0 < x <= 100.0 }

  predicate ValidPolicy(p: RiskPolicy)
  {
    Percent(p.perTrade) && Percent(p.aggregate) && Percent(p.stormLoss) && Percent(p.futures) && Percent(p.correlated)
  }

  datatype Candidate = Candidate(
    symbol: string, ready: bool, entry: real, stopLoss: real, crypto: bool, storm: bool, contract: Contract,
    leverage: real)

  datatype Reason =
    | NotReady | LeverageTooHigh | BudgetExhausted | NoValidSize | BelowMinNotional | StormLoss | FuturesLimit
    | PerTradeLimit | AggregateLimit | CorrelatedLimit

  datatype Assessment = Assessment(
    reasons: seq<Reason>, existing: real, newRisk: real, aggregate: real, riskPercent: real, quantity: real,
    totalAmount: real, futuresPercent: real)
  {
    predicate Approved() { reasons == [] }
  }

  function Refused(reason: Reason, existing: real, committed: real, equity: real): Assessment
    requires equity > 0.0
  {
    Assessment([reason], existing, 0.0, committed, committed / equity * 100.0, 0.0, 0.0, 0.0)
  }

  function When(condition: bool, reason: Reason): seq<Reason> { if condition then [reason] else [] }

  lemma BudgetBack(equity: real, amount: real)
    requires equity > 0.0
    ensures Budget(equity, amount / equity * 100.0) == amount
  {
    assert equity * (amount / equity) == amount;
    assert equity * (amount / equity * 100.0) == equity * (amount / equity) * 100.0;
  }

  lemma BudgetIs(equity: real, percent: real)
    ensures Budget(equity, percent) == equity * percent / 100.0
  {
  }

  lemma BudgetPositive(equity: real, percent: real)
    requires equity > 0.0 && percent > 0.0
    ensures Budget(equity, percent) > 0.0
  {
  }

  /** A share of equity is over a percentage exactly when it is over that percentage's budget. */
  lemma ShareOverPercent(equity: real, amount: real, percent: real)
    requires equity > 0.0
    ensures amount / equity * 100.0 > percent <==> amount > Budget(equity, percent)
  {
    var share := amount / equity * 100.0;
    BudgetBack(equity, amount);
    assert Budget(equity, share) == amount;
    assert Budget(equity, share) - Budget(equity, percent) == equity * (share - percent) / 100.0;
    if share > percent { assert equity * (share - percent) > 0.0; } else { assert equity * (percent - share) >= 0.0; }
  }

  /** Correlated is the risk already open in correlated positions, reserved that of pending orders. */
  function AssessRisk(
    policy: RiskPolicy, equity: real, positions: seq<Position>, c: Candidate, correlated: real, reserved: real):
    Result<Assessment, GateError>
  {
    if !ValidPolicy(policy) then Err(InvalidPolicy)
    else if reserved < 0.0 || correlated < 0.0 then Err(InvalidInputs)
    else if !c.ready then Ok(Assessment([NotReady], 0.0, 0.0, 0.0, 0.0, 0.0, 0.0, 0.0))
    else if equity <= 0.0 || c.leverage <= 0.0 then Err(EquityNotPositive)
    else if !ValidContract(c.contract) then Err(InvalidContract)
    else if c.contract.maxLeverage.Some? && c.leverage > c.contract.maxLeverage.value then
      Ok(Assessment([LeverageTooHigh], 0.0, 0.0, 0.0, 0.0, 0.0, 0.0, 0.0))
    else if c.entry <= 0.0 || c.stopLoss <= 0.0 || c.entry == c.stopLoss then Err(InvalidLevels)
    else
      match OpenRisk(positions)
      case Err(e) => Err(e)
      case Ok(existing) =>
        var committed := existing + reserved;
        if committed < 0.0 then Err(InvalidInputs)
        else
          var available := Max(0.0, Budget(equity, policy.aggregate) - committed);
          if available <= 0.0 then Ok(Refused(BudgetExhausted, existing, committed, equity))
          else
            var percent := Min(Budget(equity, policy.perTrade), available) / equity * 100.0;
            BudgetBack(equity, Min(Budget(equity, policy.perTrade), available));
            BudgetPositive(equity, policy.perTrade);
            Ok(SizedAssessment(policy, equity, positions, c, correlated, existing, committed, Budget(equity, percent)))
  }

  /** The candidate sized to this risk, with every reason that speaks against it. */
  function SizedAssessment(
    policy: RiskPolicy, equity: real, positions: seq<Position>, c: Candidate, correlated: real, existing: real,
    committed: real, risk: real): Assessment
    requires equity > 0.0 && c.entry > 0.0 && c.entry != c.stopLoss && c.leverage > 0.0
    requires ValidContract(c.contract) && risk > 0.0
  {
    var (quantity, amount) := PositionSize(risk, c.entry, c.stopLoss, c.leverage, c.contract);
    var newRisk := RiskAmount(amount, c.entry, c.stopLoss, c.leverage);
    var riskPercent := newRisk / equity * 100.0;
    var futures := if c.crypto && c.leverage > 1.0
                   then (FuturesCapital(positions) + amount) / equity * 100.0 else 0.0;
    var reasons :=
      When(quantity <= 0.0 || amount <= 0.0, NoValidSize)
      + When(c.contract.minNotional.Some? && amount < c.contract.minNotional.value, BelowMinNotional)
      + When(c.storm && DistanceOf(c.entry, c.stopLoss) * 100.0 * c.leverage > policy.stormLoss, StormLoss)
      + When(futures > policy.futures, FuturesLimit)
      + When(riskPercent > policy.perTrade, PerTradeLimit)
      + When(committed + newRisk > Budget(equity, policy.aggregate), AggregateLimit)
      + When(correlated + newRisk > Budget(equity, policy.correlated), CorrelatedLimit);
    Assessment(reasons, existing, newRisk, committed + newRisk, riskPercent, quantity, amount, futures)
  }

  /**
   * Sizing already respects both budgets: whatever the inputs, a candidate is never refused for
   * its per-trade or for the aggregate risk, and its risk fits into what was left of both.
   */
  lemma SizedNeverOverBudget(
    policy: RiskPolicy, equity: real, positions: seq<Position>, c: Candidate, correlated: real, reserved: real)
    requires AssessRisk(policy, equity, positions, c, correlated, reserved).Ok?
    ensures var a := AssessRisk(policy, equity, positions, c, correlated, reserved).value;
      && PerTradeLimit !in a.reasons && AggregateLimit !in a.reasons
      && (a.Approved() ==>
            && a.aggregate == a.existing + reserved + a.newRisk
            && 0.0 <= a.newRisk <= Budget(equity, policy.perTrade) && a.aggregate <= Budget(equity, policy.aggregate)
            && a.quantity > 0.0 && a.totalAmount == a.quantity * c.entry
            && a.newRisk == RiskAmount(a.totalAmount, c.entry, c.stopLoss, c.leverage))
  {
    hide PositionSize, Budget, OpenRisk, RiskAmount, SizedAssessment;
    if c.ready && !(c.contract.maxLeverage.Some? && c.leverage > c.contract.maxLeverage.value) {
      var existing := OpenRisk(positions).value;
      var available := Max(0.0, Budget(equity, policy.aggregate) - (existing + reserved));
      if available > 0.0 {
        var risk := Min(Budget(equity, policy.perTrade), available);
        BudgetBack(equity, risk);
        BudgetPositive(equity, policy.perTrade);
        SizedFits(policy, equity, positions, c, correlated, existing, existing + reserved, risk);
      }
    }
  }

  lemma SizedFits(
    policy: RiskPolicy, equity: real, positions: seq<Position>, c: Candidate, correlated: real, existing: real,
    committed: real, risk: real)
    requires equity > 0.0 && c.entry > 0.0 && c.entry != c.stopLoss && c.leverage > 0.0
    requires ValidContract(c.contract) && 0.0 < risk <= Budget(equity, policy.perTrade)
    requires committed + risk <= Budget(equity, policy.aggregate)
    ensures var a := SizedAssessment(policy, equity, positions, c, correlated, existing, committed, risk);
      && PerTradeLimit !in a.reasons && AggregateLimit !in a.reasons
      && 0.0 <= a.newRisk <= risk && a.aggregate == committed + a.newRisk && a.existing == existing
      && (a.Approved() ==> a.quantity > 0.0 && a.totalAmount == a.quantity * c.entry)
      && a.newRisk == RiskAmount(a.totalAmount, c.entry, c.stopLoss, c.leverage)
  {
    SizeWithinRisk(risk, c.entry, c.stopLoss, c.leverage, c.contract);
    hide PositionSize, Budget, RiskAmount, DistanceOf, FuturesCapital;
    var a := SizedAssessment(policy, equity, positions, c, correlated, existing, committed, risk);
    ShareOverPercent(equity, a.newRisk, policy.perTrade);
  }

  // ------------------------------------------------------- what each reason stands for

  /** Futures capital adds up over lists. */
  lemma {:induction false} FuturesCapitalAdds(a: seq<Position>, b: seq<Position>)
    ensures FuturesCapital(a + b) == FuturesCapital(a) + FuturesCapital(b)
  {
    if b == [] {
      assert a + b == a;
    } else {
      FuturesCapitalAdds(a, b[..|b| - 1]);
      assert (a + b)[..|a + b| - 1] == a + b[..|b| - 1];
    }
  }

  /** Open risk adds up over lists. */
  lemma {:induction false} OpenRiskAdds(a: seq<Position>, b: seq<Position>)
    requires OpenRisk(a).Ok? && OpenRisk(b).Ok?
    ensures OpenRisk(a + b) == Ok(OpenRisk(a).value + OpenRisk(b).value)
  {
    hide PositionRisk;
    if b == [] {
      assert a + b == a;
    } else {
      OpenRiskAdds(a, b[..|b| - 1]);
      assert (a + b)[..|a + b| - 1] == a + b[..|b| - 1];
    }
  }

  /**
   * One position: when open it counts what it would lose between its entry and its stop, or cannot be
   * counted at all, and its amount as futures capital when it is leveraged; otherwise nothing.
   */
  lemma OnePosition(p: Position)
    ensures FuturesCapital([p]) == if p.status == OPEN && p.leverage > 1.0 then p.totalAmount else 0.0
    ensures OpenRisk([p]).Ok? <==>
      p.status != OPEN || (p.totalAmount >= 0.0 && p.entryPrice > 0.0 && p.stopLoss > 0.0 && p.leverage > 0.0)
    ensures OpenRisk([p]).Ok? ==>
      OpenRisk([p]).value == if p.status != OPEN then 0.0
                             else LossAtStop(p.totalAmount / p.entryPrice, p.entryPrice, p.stopLoss, p.leverage)
  {
    hide LossAtStop, RiskAmount;
    var one := [p];
    assert one[..0] == [] && one[|one| - 1] == p && OpenRisk([]) == Ok(0.0) && FuturesCapital([]) == 0.0;
    assert OpenRisk(one) == PositionRisk(p);
    if p.entryPrice > 0.0 {
      var units := p.totalAmount / p.entryPrice;
      assert units * p.entryPrice == p.totalAmount;
      RiskOfQuantity(p.totalAmount, units, p.entryPrice, p.stopLoss, p.leverage);
    }
  }

  predicate LeverageAllowed(c: Candidate)
  {
    c.contract.maxLeverage.Some? ==> c.leverage <= c.contract.maxLeverage.value
  }

  predicate BelowNotional(c: Candidate, amount: real)
  {
    c.contract.minNotional.Some? && amount < c.contract.minNotional.value
  }

  /** Between entry and stop a leveraged amount would lose more than this percentage of itself. */
  predicate StormExceeded(policy: RiskPolicy, c: Candidate)
  {
    c.storm && Abs(c.entry - c.stopLoss) * c.leverage * 100.0 > policy.stormLoss * c.entry
  }

  predicate FuturesExceeded(policy: RiskPolicy, equity: real, positions: seq<Position>, c: Candidate, amount: real)
  {
    c.crypto && c.leverage > 1.0 && FuturesCapital(positions) + amount > equity * policy.futures / 100.0
  }

  /** What the aggregate budget still allows. */
  function Left(policy: RiskPolicy, equity: real, existing: real, reserved: real): real
  {
    equity * policy.aggregate / 100.0 - existing - reserved
  }

  /** What the candidate may lose: its own budget, or what is left of the aggregate one. */
  function Allowed(policy: RiskPolicy, equity: real, existing: real, reserved: real): real
  {
    Min(equity * policy.perTrade / 100.0, Left(policy, equity, existing, reserved))
  }

  lemma StormShare(entry: real, stop: real, leverage: real, percent: real)
    requires entry > 0.0
    ensures DistanceOf(entry, stop) * 100.0 * leverage > percent
      <==> Abs(entry - stop) * leverage * 100.0 > percent * entry
  {
    var gap := Abs(entry - stop);
    var share := gap / entry * 100.0 * leverage;
    assert share * entry == gap / entry * entry * 100.0 * leverage;
    assert gap / entry * entry == gap;
    if share > percent { LessTimesStep(percent, share, entry); } else { TimesStep(share, percent, entry); }
  }

  lemma ShareOver(equity: real, amount: real, percent: real)
    requires equity > 0.0
    ensures amount / equity * 100.0 > percent <==> amount > equity * percent / 100.0
  {
    ShareOverPercent(equity, amount, percent);
  }

  lemma PositiveAmount(quantity: real, entry: real)
    requires quantity >= 0.0 && entry > 0.0
    ensures quantity <= 0.0 || quantity * entry <= 0.0 <==> quantity == 0.0
  {
  }

  /** What is assessed of a sized candidate beside the reasons; neither budget is ever exceeded. */
  lemma SizedFigures(
    policy: RiskPolicy, equity: real, positions: seq<Position>, c: Candidate, correlated: real, existing: real,
    committed: real, risk: real)
    requires equity > 0.0 && c.entry > 0.0 && c.entry != c.stopLoss && c.leverage > 0.0
    requires ValidContract(c.contract) && 0.0 < risk <= Budget(equity, policy.perTrade)
    requires committed + risk <= Budget(equity, policy.aggregate)
    ensures var a := SizedAssessment(policy, equity, positions, c, correlated, existing, committed, risk);
      && (a.quantity, a.totalAmount) == PositionSize(risk, c.entry, c.stopLoss, c.leverage, c.contract)
      && a.totalAmount == a.quantity * c.entry && a.quantity >= 0.0
      && a.existing == existing && a.aggregate == committed + a.newRisk && a.newRisk <= risk
      && a.newRisk == LossAtStop(a.quantity, c.entry, c.stopLoss, c.leverage)
      && !(a.riskPercent > policy.perTrade) && !(committed + a.newRisk > Budget(equity, policy.aggregate))
      && a.riskPercent == a.newRisk / equity * 100.0
  {
    hide PositionSize, RiskAmount, FuturesCapital, LossAtStop, DistanceOf, When;
    SizeWithinRisk(risk, c.entry, c.stopLoss, c.leverage, c.contract);
    var (quantity, amount) := PositionSize(risk, c.entry, c.stopLoss, c.leverage, c.contract);
    var loss := RiskAmount(amount, c.entry, c.stopLoss, c.leverage);
    RiskOfQuantity(amount, quantity, c.entry, c.stopLoss, c.leverage);
    ShareOver(equity, loss, policy.perTrade);
    BudgetIs(equity, policy.perTrade);
    hide Budget;
  }

  /** The sized candidate, with the exact meaning of every reason against it. */
  lemma SizedReasons(
    policy: RiskPolicy, equity: real, positions: seq<Position>, c: Candidate, correlated: real, existing: real,
    committed: real, risk: real)
    requires equity > 0.0 && c.entry > 0.0 && c.entry != c.stopLoss && c.leverage > 0.0
    requires ValidContract(c.contract) && 0.0 < risk <= Budget(equity, policy.perTrade)
    requires committed + risk <= Budget(equity, policy.aggregate) && policy.futures > 0.0
    ensures var a := SizedAssessment(policy, equity, positions, c, correlated, existing, committed, risk);
      && (a.quantity, a.totalAmount) == PositionSize(risk, c.entry, c.stopLoss, c.leverage, c.contract)
      && a.totalAmount == a.quantity * c.entry
      && a.existing == existing && a.aggregate == committed + a.newRisk && a.newRisk <= risk
    ensures var a := SizedAssessment(policy, equity, positions, c, correlated, existing, committed, risk);
      a.newRisk == LossAtStop(a.quantity, c.entry, c.stopLoss, c.leverage)
    ensures var a := SizedAssessment(policy, equity, positions, c, correlated, existing, committed, risk);
      a.reasons
      == When(a.quantity == 0.0, NoValidSize)
         + When(BelowNotional(c, a.totalAmount), BelowMinNotional)
         + When(StormExceeded(policy, c), StormLoss)
         + When(FuturesExceeded(policy, equity, positions, c, a.totalAmount), FuturesLimit)
         + When(correlated + a.newRisk > equity * policy.correlated / 100.0, CorrelatedLimit)
  {
    hide PositionSize, RiskAmount, FuturesCapital, LossAtStop, DistanceOf;
    SizedFigures(policy, equity, positions, c, correlated, existing, committed, risk);
    var (quantity, amount) := PositionSize(risk, c.entry, c.stopLoss, c.leverage, c.contract);
    PositiveAmount(quantity, c.entry);
    StormShare(c.entry, c.stopLoss, c.leverage, policy.stormLoss);
    ShareOver(equity, FuturesCapital(positions) + amount, policy.futures);
    BudgetIs(equity, policy.correlated);
    hide Budget;
    var a := SizedAssessment(policy, equity, positions, c, correlated, existing, committed, risk);
    assert a.quantity == quantity && a.totalAmount == amount;
  }

  /**
   * The verdict of the risk gate in plain terms, for every input it does not raise on.  Each early refusal
   * has its one reason; otherwise the candidate has the largest size whose loss is allowed, and every other
   * reason is given exactly when its limit is passed.
   */
  lemma GateSays(
    policy: RiskPolicy, equity: real, positions: seq<Position>, c: Candidate, correlated: real, reserved: real)
    requires AssessRisk(policy, equity, positions, c, correlated, reserved).Ok?
    ensures var a := AssessRisk(policy, equity, positions, c, correlated, reserved).value;
      if !c.ready then a.reasons == [NotReady]
      else if !LeverageAllowed(c) then a.reasons == [LeverageTooHigh]
      else
        OpenRisk(positions).Ok? && var existing := OpenRisk(positions).value;
        if Left(policy, equity, existing, reserved) <= 0.0
        then a.reasons == [BudgetExhausted] && a.existing == existing && a.aggregate == existing + reserved
        else
          var allowed := Allowed(policy, equity, existing, reserved);
          var loss := LossAtStop(a.quantity, c.entry, c.stopLoss, c.leverage);
          && 0.0 < allowed && equity > 0.0 && c.entry > 0.0 && c.entry != c.stopLoss && c.leverage > 0.0
          && (a.quantity, a.totalAmount) == PositionSize(allowed, c.entry, c.stopLoss, c.leverage, c.contract)
          && a.existing == existing && a.newRisk == loss <= allowed && a.aggregate == existing + reserved + loss
          && a.totalAmount == a.quantity * c.entry
          && a.reasons
             == When(a.quantity == 0.0, NoValidSize)
                + When(BelowNotional(c, a.totalAmount), BelowMinNotional)
                + When(StormExceeded(policy, c), StormLoss)
                + When(FuturesExceeded(policy, equity, positions, c, a.totalAmount), FuturesLimit)
                + When(correlated + a.newRisk > equity * policy.correlated / 100.0, CorrelatedLimit)
  {
    hide PositionSize, OpenRisk, RiskAmount, SizedAssessment, LossAtStop, FuturesCapital, Budget;
    BudgetIs(equity, policy.perTrade);
    BudgetIs(equity, policy.aggregate);
    if c.ready && LeverageAllowed(c) {
      var existing := OpenRisk(positions).value;
      var available := Max(0.0, Budget(equity, policy.aggregate) - (existing + reserved));
      if available > 0.0 {
        var risk := Min(Budget(equity, policy.perTrade), available);
        BudgetBack(equity, risk);
        BudgetPositive(equity, policy.perTrade);
        assert risk == Allowed(policy, equity, existing, reserved);
        SizedReasons(policy, equity, positions, c, correlated, existing, existing + reserved, risk);
      }
    }
  }

  /** An approved candidate is as large as it may be: one step more would lose more than is allowed. */
  lemma ApprovedIsLargest(
    policy: RiskPolicy, equity: real, positions: seq<Position>, c: Candidate, correlated: real, reserved: real)
    requires AssessRisk(policy, equity, positions, c, correlated, reserved).Ok?
    requires AssessRisk(policy, equity, positions, c, correlated, reserved).value.Approved()
    ensures OpenRisk(positions).Ok?
    ensures var a := AssessRisk(policy, equity, positions, c, correlated, reserved).value;
      var allowed := Allowed(policy, equity, OpenRisk(positions).value, reserved);
      && LossAtStop(a.quantity, c.entry, c.stopLoss, c.leverage) <= allowed
      && allowed < LossAtStop(a.quantity + c.contract.quantityStep, c.entry, c.stopLoss, c.leverage)
      && exists units: int :: a.quantity == Steps(units, c.contract.quantityStep)
                              && Fits(units, allowed, c.entry, c.stopLoss, c.leverage, c.contract)
  {
    hide PositionSize, OpenRisk, LossAtStop, FuturesCapital, Fits, Steps, Allowed, Left;
    GateSays(policy, equity, positions, c, correlated, reserved);
    ContractSteps(policy, equity, positions, c, correlated, reserved);
    hide AssessRisk;
    var allowed := Allowed(policy, equity, OpenRisk(positions).value, reserved);
    SizeIsLargest(allowed, c.entry, c.stopLoss, c.leverage, c.contract);
  }

  lemma ContractSteps(
    policy: RiskPolicy, equity: real, positions: seq<Position>, c: Candidate, correlated: real, reserved: real)
    requires AssessRisk(policy, equity, positions, c, correlated, reserved).Ok?
    requires AssessRisk(policy, equity, positions, c, correlated, reserved).value.Approved()
    ensures c.contract.quantityStep > 0.0
  {
    hide SizedAssessment, OpenRisk, Budget;
  }

  /** The gate raises exactly for these inputs. */
  lemma GateRaises(
    policy: RiskPolicy, equity: real, positions: seq<Position>, c: Candidate, correlated: real, reserved: real)
    ensures var r := AssessRisk(policy, equity, positions, c, correlated, reserved);
      r.Err? <==>
        || !ValidPolicy(policy) || reserved < 0.0 || correlated < 0.0
        || (c.ready && (equity <= 0.0 || c.leverage <= 0.0 || !ValidContract(c.contract)))
        || (c.ready && LeverageAllowed(c)
            && (c.entry <= 0.0 || c.stopLoss <= 0.0 || c.entry == c.stopLoss || OpenRisk(positions).Err?))
  {
    hide SizedAssessment, Budget, OpenRisk;
    if OpenRisk(positions).Ok? { OpenRiskNonNegative(positions); }
  }

  // -------------------------------------------------------------- the portfolio gate

  predicate InRange(coefficient: real) { -1.0 <= coefficient <= 1.0 }

  datatype PairData = PairData(first: string, second: string, coefficient: real)

  /** What a pair's own constructor accepts. */
  type Pair = p: PairData | InRange(p.coefficient) && !Blank(p.first) && !Blank(p.second)
    witness Unrelated()

  function Unrelated(): (p: PairData)
    ensures InRange(p.coefficient) && !Blank(p.first) && !Blank(p.second)
  {
    assert "A"[0] !in " \t\r\n" && "B"[0] !in " \t\r\n";
    PairData("A", "B", 0.0)
  }

  /** Pairs looked up either way round and in any letter case; the first match counts. */
  function Coefficient(pairs: seq<Pair>, a: string, b: string): (r: real)
    ensures InRange(r)
  {
    if Uppercase(a) == Uppercase(b) then 1.0
    else if pairs == [] then 0.0
    else if {Uppercase(pairs[0].first), Uppercase(pairs[0].second)} == {Uppercase(a), Uppercase(b)}
    then pairs[0].coefficient
    else Coefficient(pairs[1..], a, b)
  }

  /** The lookup is symmetric and does not see letter case. */
  lemma {:induction false} CoefficientSymmetric(pairs: seq<Pair>, a: string, b: string, c: string)
    ensures Coefficient(pairs, a, b) == Coefficient(pairs, b, a)
    ensures Uppercase(a) == Uppercase(c) ==> Coefficient(pairs, a, b) == Coefficient(pairs, c, b)
  {
    hide Uppercase;
    assert {Uppercase(a), Uppercase(b)} == {Uppercase(b), Uppercase(a)};
    if pairs != [] { CoefficientSymmetric(pairs[1..], a, b, c); }
  }

  function Multiplier(coefficient: real): real { Max(0.0, coefficient) }

  function Weighted(risk: real, m: real): real { risk * m }

  /** The new risk plus the open risk of every position correlated with the candidate. */
  function Exposure(pairs: seq<Pair>, symbol: string, newRisk: real, positions: seq<Position>): Result<real, GateError>
  {
    if positions == [] then Ok(newRisk)
    else
      var p := positions[|positions| - 1];
      match Exposure(pairs, symbol, newRisk, positions[..|positions| - 1])
      case Err(e) => Err(e)
      case Ok(total) =>
        var m := Multiplier(Coefficient(pairs, symbol, p.symbol));
        if p.status != OPEN || m <= 0.0 then Ok(total)
        else
          match PositionRisk(p)
          case Err(e) => Err(e)
          case Ok(risk) => Ok(total + Weighted(risk, m))
  }

  datatype Context = Context(matrix: Option<seq<Pair>>, correlation: real)

  /** Correlated risk without the candidate, as the risk gate is given it. */
  function OpenCorrelated(x: Context, symbol: string, existing: real, positions: seq<Position>): Result<real, GateError>
  {
    match x.matrix
    case Some(pairs) => Exposure(pairs, symbol, 0.0, positions)
    case None =>
      if InRange(x.correlation) then Ok(existing * Multiplier(x.correlation)) else Err(CorrelationOutOfRange)
  }

  datatype PortfolioAssessment = PortfolioAssessment(
    reasons: seq<Reason>, aggregate: real, correlated: real, futuresPercent: real)

  function AssessPortfolio(
    policy: RiskPolicy, equity: real, positions: seq<Position>, newRisk: real, newFutures: real, reserved: real,
    symbol: string, x: Context): Result<PortfolioAssessment, GateError>
  {
    if equity <= 0.0 || newRisk < 0.0 || newFutures < 0.0 || reserved < 0.0 then Err(InvalidInputs)
    else if !(Percent(policy.aggregate) && Percent(policy.correlated) && Percent(policy.futures))
    then Err(InvalidPolicy)
    else
      match OpenRisk(positions)
      case Err(e) => Err(e)
      case Ok(existing) =>
        var aggregate := existing + reserved + newRisk;
        var exposed := if x.matrix.Some? && symbol != "" then Exposure(x.matrix.value, symbol, newRisk, positions)
                       else if existing < 0.0 then Err(InvalidInputs)
                       else if !InRange(x.correlation) then Err(CorrelationOutOfRange)
                       else Ok(newRisk + existing * Multiplier(x.correlation));
        match exposed
        case Err(e) => Err(e)
        case Ok(correlated) =>
          var futures := (FuturesCapital(positions) + newFutures) / equity * 100.0;
          Ok(PortfolioAssessment(
               When(aggregate / equity * 100.0 > policy.aggregate, AggregateLimit)
               + When(correlated / equity * 100.0 > policy.correlated, CorrelatedLimit)
               + When(futures > policy.futures, FuturesLimit),
               aggregate, correlated, futures))
  }

  /** The portfolio gate in plain terms: each limit is reported exactly when it is passed. */
  lemma PortfolioSays(
    policy: RiskPolicy, equity: real, positions: seq<Position>, newRisk: real, newFutures: real, reserved: real,
    symbol: string, x: Context)
    requires AssessPortfolio(policy, equity, positions, newRisk, newFutures, reserved, symbol, x).Ok?
    ensures OpenRisk(positions).Ok? && equity > 0.0
    ensures var a := AssessPortfolio(policy, equity, positions, newRisk, newFutures, reserved, symbol, x).value;
      var existing := OpenRisk(positions).value;
      && a.aggregate == existing + reserved + newRisk
      && a.reasons
         == When(existing + reserved + newRisk > equity * policy.aggregate / 100.0, AggregateLimit)
            + When(a.correlated > equity * policy.correlated / 100.0, CorrelatedLimit)
            + When(FuturesCapital(positions) + newFutures > equity * policy.futures / 100.0, FuturesLimit)
      && if x.matrix.Some? && symbol != "" then Exposure(x.matrix.value, symbol, newRisk, positions) == Ok(a.correlated)
         else a.correlated == newRisk + existing * (if x.correlation > 0.0 then x.correlation else 0.0)
  {
    hide Exposure, OpenRisk, FuturesCapital;
    var a := AssessPortfolio(policy, equity, positions, newRisk, newFutures, reserved, symbol, x).value;
    ShareOver(equity, OpenRisk(positions).value + reserved + newRisk, policy.aggregate);
    ShareOver(equity, a.correlated, policy.correlated);
    ShareOver(equity, FuturesCapital(positions) + newFutures, policy.futures);
  }

  /** Correlated exposure adds up over lists. */
  lemma {:induction false} ExposureAdds(
    pairs: seq<Pair>, symbol: string, newRisk: real, a: seq<Position>, b: seq<Position>)
    requires Exposure(pairs, symbol, newRisk, a).Ok? && Exposure(pairs, symbol, 0.0, b).Ok?
    ensures Exposure(pairs, symbol, newRisk, a + b)
         == Ok(Exposure(pairs, symbol, newRisk, a).value + Exposure(pairs, symbol, 0.0, b).value)
  {
    hide PositionRisk, Coefficient, Multiplier, Weighted;
    if b == [] {
      assert a + b == a;
    } else {
      var all, init, p := a + b, b[..|b| - 1], b[|b| - 1];
      assert all[..|all| - 1] == a + init && all[|all| - 1] == p;
      ExposureAdds(pairs, symbol, newRisk, a, init);
    }
  }

  /** One position: when open it counts its risk times its correlation, if that is positive. */
  lemma OneExposed(pairs: seq<Pair>, symbol: string, newRisk: real, p: Position, risk: real, k: real)
    requires OpenRisk([p]) == Ok(risk) && k == Coefficient(pairs, symbol, p.symbol)
    ensures Exposure(pairs, symbol, newRisk, []) == Ok(newRisk)
    ensures Exposure(pairs, symbol, 0.0, [p]) == Ok(if k > 0.0 then risk * k else 0.0)
  {
    hide Coefficient, CandidateRisk;
    var one := [p];
    assert one[..0] == [] && one[|one| - 1] == p;
    assert OpenRisk([]) == Ok(0.0) && Exposure(pairs, symbol, 0.0, []) == Ok(0.0);
    assert OpenRisk(one) == PositionRisk(p);
    if p.status == OPEN && k > 0.0 {
      assert PositionRisk(p) == Ok(risk);
      assert Multiplier(k) == k;
      assert Exposure(pairs, symbol, 0.0, one) == Ok(0.0 + Weighted(risk, Multiplier(k)));
      assert Weighted(risk, k) == risk * k;
    } else if p.status != OPEN {
      assert risk == 0.0;
      assert Exposure(pairs, symbol, 0.0, one) == Ok(0.0);
      assert k > 0.0 ==> risk * k == 0.0;
    } else {
      assert Exposure(pairs, symbol, 0.0, one) == Ok(0.0);
    }
  }

  lemma {:induction false} ExposureShifts(pairs: seq<Pair>, symbol: string, newRisk: real, positions: seq<Position>)
    ensures var base, shifted := Exposure(pairs, symbol, 0.0, positions), Exposure(pairs, symbol, newRisk, positions);
      base.Ok? == shifted.Ok? && (base.Ok? ==> shifted.value == base.value + newRisk)
  {
    hide PositionRisk, Coefficient;
    if positions != [] { ExposureShifts(pairs, symbol, newRisk, positions[..|positions| - 1]); }
  }

  lemma {:induction false} OpenRiskNonNegative(positions: seq<Position>)
    requires OpenRisk(positions).Ok?
    ensures OpenRisk(positions).value >= 0.0
  {
    if positions != [] {
      var p := positions[|positions| - 1];
      OpenRiskNonNegative(positions[..|positions| - 1]);
      if p.status == OPEN { RiskNonNegative(p.totalAmount, p.entryPrice, p.stopLoss, p.leverage); }
    }
  }

  lemma RiskNonNegative(amount: real, entry: real, stop: real, leverage: real)
    requires amount >= 0.0 && entry > 0.0 && leverage > 0.0
    ensures RiskAmount(amount, entry, stop, leverage) >= 0.0
  {
    var gap := Abs(entry - stop);
    assert amount * gap >= 0.0;
    assert amount * gap / entry >= 0.0;
  }

  /**
   * Once the risk gate approves, the portfolio gate with the same limits refuses exactly when the
   * futures capital is over its limit, and then the asset is not crypto or the leverage at most 1.
   */
  lemma GatesAgree(
    policy: RiskPolicy, equity: real, positions: seq<Position>, c: Candidate, reserved: real, x: Context)
    requires x.matrix.Some? ==> c.symbol != ""
    requires OpenRisk(positions).Ok?
    requires var open := OpenCorrelated(x, c.symbol, OpenRisk(positions).value, positions);
      open.Ok? && AssessRisk(policy, equity, positions, c, open.value, reserved).Ok?
      && AssessRisk(policy, equity, positions, c, open.value, reserved).value.Approved()
    ensures var open := OpenCorrelated(x, c.symbol, OpenRisk(positions).value, positions).value;
      var a := AssessRisk(policy, equity, positions, c, open, reserved).value;
      var newFutures := if c.leverage > 1.0 then a.totalAmount else 0.0;
      var p := AssessPortfolio(policy, equity, positions, a.newRisk, newFutures, reserved, c.symbol, x);
      && p.Ok?
      && p.value.reasons
         == When((FuturesCapital(positions) + newFutures) / equity * 100.0 > policy.futures, FuturesLimit)
      && (p.value.reasons != [] ==> !c.crypto || c.leverage <= 1.0)
  {
    hide Exposure, OpenRisk, PositionSize, Budget, FuturesCapital, RiskAmount, DistanceOf;
    var existing := OpenRisk(positions).value;
    var open := OpenCorrelated(x, c.symbol, existing, positions).value;
    var a := AssessRisk(policy, equity, positions, c, open, reserved).value;
    SizedNeverOverBudget(policy, equity, positions, c, open, reserved);
    OpenRiskNonNegative(positions);
    if x.matrix.Some? { ExposureShifts(x.matrix.value, c.symbol, a.newRisk, positions); }
    ApprovedMeans(policy, equity, positions, c, open, reserved);
    hide AssessRisk;
    ShareOverPercent(equity, existing + reserved + a.newRisk, policy.aggregate);
    ShareOverPercent(equity, open + a.newRisk, policy.correlated);
  }

  /** An approved candidate is within every limit of the policy and of its contract. */
  lemma ApprovedMeans(
    policy: RiskPolicy, equity: real, positions: seq<Position>, c: Candidate, correlated: real, reserved: real)
    requires AssessRisk(policy, equity, positions, c, correlated, reserved).Ok?
    requires AssessRisk(policy, equity, positions, c, correlated, reserved).value.Approved()
    ensures ValidPolicy(policy) && equity > 0.0 && reserved >= 0.0 && OpenRisk(positions).Ok? && c.entry > 0.0
    ensures var a := AssessRisk(policy, equity, positions, c, correlated, reserved).value;
      && a.existing == OpenRisk(positions).value
      && correlated + a.newRisk <= Budget(equity, policy.correlated)
      && a.totalAmount > 0.0
      && (c.crypto && c.leverage > 1.0 ==>
            (FuturesCapital(positions) + a.totalAmount) / equity * 100.0 <= policy.futures)
      && (c.contract.maxLeverage.Some? ==> c.leverage <= c.contract.maxLeverage.value)
      && (c.contract.minNotional.Some? ==> a.totalAmount >= c.contract.minNotional.value)
      && (c.storm ==> DistanceOf(c.entry, c.stopLoss) * 100.0 * c.leverage <= policy.stormLoss)
  {
    hide OpenRisk, PositionSize, Budget, FuturesCapital, RiskAmount, DistanceOf;
  }

  /**
   * With a matrix and an empty candidate symbol the risk gate asks the matrix, the portfolio gate the
   * plain coefficient.  After an approval the portfolio gate then raises exactly when that coefficient
   * is out of range, and otherwise refuses exactly when the candidate and the open risk weighted by it
   * exceed the correlated budget, or for futures.
   */
  lemma EmptySymbolExactly(
    policy: RiskPolicy, equity: real, positions: seq<Position>, c: Candidate, reserved: real, x: Context)
    requires x.matrix.Some? && c.symbol == "" && OpenRisk(positions).Ok?
    requires var open := OpenCorrelated(x, c.symbol, OpenRisk(positions).value, positions);
      open.Ok? && AssessRisk(policy, equity, positions, c, open.value, reserved).Ok?
      && AssessRisk(policy, equity, positions, c, open.value, reserved).value.Approved()
    ensures var existing := OpenRisk(positions).value;
      var open := OpenCorrelated(x, c.symbol, existing, positions).value;
      var a := AssessRisk(policy, equity, positions, c, open, reserved).value;
      var newFutures := if c.leverage > 1.0 then a.totalAmount else 0.0;
      var p := AssessPortfolio(policy, equity, positions, a.newRisk, newFutures, reserved, c.symbol, x);
      && (if InRange(x.correlation) then p.Ok? else p == Err(CorrelationOutOfRange))
      && (p.Ok? ==>
            p.value.reasons
            == When(a.newRisk + existing * Multiplier(x.correlation) > Budget(equity, policy.correlated),
                    CorrelatedLimit)
               + When((FuturesCapital(positions) + newFutures) / equity * 100.0 > policy.futures, FuturesLimit))
  {
    hide Exposure, OpenRisk, PositionSize, Budget, FuturesCapital, RiskAmount, DistanceOf;
    var existing := OpenRisk(positions).value;
    var open := OpenCorrelated(x, c.symbol, existing, positions).value;
    var a := AssessRisk(policy, equity, positions, c, open, reserved).value;
    SizedNeverOverBudget(policy, equity, positions, c, open, reserved);
    OpenRiskNonNegative(positions);
    ApprovedMeans(policy, equity, positions, c, open, reserved);
    hide AssessRisk;
    ShareOverPercent(equity, existing + reserved + a.newRisk, policy.aggregate);
    ShareOverPercent(equity, a.newRisk + existing * Multiplier(x.correlation), policy.correlated);
  }

  /** For one: an approved candidate without a symbol that the portfolio gate refuses as correlated. */
  lemma EmptySymbolDisagrees()
    ensures var policy, contract := RiskPolicy(1.0, 4.0, 10.0, 50.0, 2.0), Contract(1.0, 1.0, 0.0, None, None);
      var held :=
        Position("p", "BTC", LONG, 100.0, 90.0, 1500.0, 15.0, 1.0, None, 0, OPEN, None, None, None, None, None);
      var c, x := Candidate("", true, 100.0, 90.0, true, false, contract, 1.0), Context(Some([]), 1.0);
      && OpenCorrelated(x, c.symbol, 150.0, [held]) == Ok(0.0)
      && AssessRisk(policy, 10000.0, [held], c, 0.0, 0.0).Ok?
      && AssessRisk(policy, 10000.0, [held], c, 0.0, 0.0).value.Approved()
      && AssessPortfolio(policy, 10000.0, [held], 100.0, 0.0, 0.0, c.symbol, x).Ok?
      && AssessPortfolio(policy, 10000.0, [held], 100.0, 0.0, 0.0, c.symbol, x).value.reasons == [CorrelatedLimit]
  {
    var contract := Contract(1.0, 1.0, 0.0, None, None);
    var held := Position("p", "BTC", LONG, 100.0, 90.0, 1500.0, 15.0, 1.0, None, 0, OPEN, None, None, None, None, None);
    assert PositionRisk(held) == Ok(150.0);
    assert OpenRisk([]) == Ok(0.0) && OpenRisk([held]) == Ok(150.0);
    assert Budget(10000.0, 1.0) == 100.0 && Budget(10000.0, 4.0) == 400.0 && Budget(10000.0, 2.0) == 200.0;
    assert DistanceOf(100.0, 90.0) == 0.1 && AmountFor(100.0, 0.1, 1.0) == 1000.0;
    assert RoundDown(10.0, 1.0) == 10.0;
    assert PositionSize(100.0, 100.0, 90.0, 1.0, contract) == (10.0, 1000.0);
    assert FuturesCapital([held]) == 0.0;
    assert "BTC" != "" && |Uppercase("BTC")| != |Uppercase("")|;
    assert Coefficient([], "", "BTC") == 0.0;
    assert Exposure([], "", 0.0, []) == Ok(0.0) && Exposure([], "", 0.0, [held]) == Ok(0.0);
  }
}
