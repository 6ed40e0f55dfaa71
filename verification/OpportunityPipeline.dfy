/** The gates in their order, and the accounting of what each of them turned away. */
module OpportunityPipeline {
  import opened Prelude
  import opened Positions
  import opened RiskGates

  /** A qualified signal with everything its gates are given. */
  datatype Item = Item(
    candidate: Candidate, held: bool, equity: real, positions: seq<Position>, context: Context, reserved: real)

  datatype Verdict =
    | Held
    | RiskRejected(reasons: seq<Reason>)
    | PortfolioRejected(reasons: seq<Reason>)
    | Qualified(risk: Assessment, portfolio: PortfolioAssessment)

  /** Context, then risk, then portfolio; the first gate that refuses decides. */
  function Gate(policy: RiskPolicy, item: Item): Result<Verdict, GateError>
  {
    if item.held then Ok(Held)
    else
      var c := item.candidate;
      match OpenRisk(item.positions)
      case Err(e) => Err(e)
      case Ok(existing) =>
        match OpenCorrelated(item.context, c.symbol, existing, item.positions)
        case Err(e) => Err(e)
        case Ok(correlated) =>
          match AssessRisk(policy, item.equity, item.positions, c, correlated, item.reserved)
          case Err(e) => Err(e)
          case Ok(risk) =>
            if !risk.Approved() then Ok(RiskRejected(risk.reasons))
            else
              match AssessPortfolio(policy, item.equity, item.positions, risk.newRisk,
                                    if c.leverage > 1.0 then risk.totalAmount else 0.0, item.reserved, c.symbol,
                                    item.context)
              case Err(e) => Err(e)
              case Ok(portfolio) =>
                Ok(if portfolio.reasons == [] then Qualified(risk, portfolio) else PortfolioRejected(portfolio.reasons))
  }

  /** What the portfolio gate can still turn away, and that it never raises after the risk gate. */
  lemma LateRejectionsAreFutures(policy: RiskPolicy, item: Item)
    requires item.context.matrix.Some? ==> item.candidate.symbol != ""
    requires Gate(policy, item).Ok? && Gate(policy, item).value.PortfolioRejected?
    ensures Gate(policy, item).value.reasons == [FuturesLimit]
    ensures !item.candidate.crypto || item.candidate.leverage <= 1.0
  {
    hide AssessRisk, AssessPortfolio, OpenRisk, OpenCorrelated, FuturesCapital;
    GatesAgree(policy, item.equity, item.positions, item.candidate, item.reserved, item.context);
  }

  /**
   * The verdict, exactly: held positions first, then what the risk gate refuses, then futures capital over
   * its limit; everything else is handed on, with what the two gates assessed.
   */
  lemma GateSays(policy: RiskPolicy, item: Item, existing: real, correlated: real, risk: Assessment)
    requires item.context.matrix.Some? ==> item.candidate.symbol != ""
    requires OpenRisk(item.positions) == Ok(existing)
    requires OpenCorrelated(item.context, item.candidate.symbol, existing, item.positions) == Ok(correlated)
    requires AssessRisk(policy, item.equity, item.positions, item.candidate, correlated, item.reserved) == Ok(risk)
    ensures Gate(policy, item).Ok?
    ensures var verdict := Gate(policy, item).value;
      var added := if item.candidate.leverage > 1.0 then risk.totalAmount else 0.0;
      var over := FuturesCapital(item.positions) + added > item.equity * policy.futures / 100.0;
      && (verdict.Held? <==> item.held)
      && (verdict.RiskRejected? <==> !item.held && risk.reasons != [])
      && (verdict.PortfolioRejected? <==> !item.held && risk.reasons == [] && over)
      && (verdict.Qualified? <==> !item.held && risk.reasons == [] && !over)
      && (verdict.RiskRejected? ==> verdict.reasons == risk.reasons)
      && (verdict.Qualified? ==> verdict.risk == risk && verdict.portfolio.reasons == [])
  {
    hide AssessRisk, AssessPortfolio, OpenRisk, OpenCorrelated, FuturesCapital;
    if !item.held && risk.Approved() {
      GatesAgree(policy, item.equity, item.positions, item.candidate, item.reserved, item.context);
      ApprovedHasEquity(policy, item, correlated);
      ShareOver(item.equity,
                FuturesCapital(item.positions) + if item.candidate.leverage > 1.0 then risk.totalAmount else 0.0,
                policy.futures);
    }
  }

  lemma ApprovedHasEquity(policy: RiskPolicy, item: Item, correlated: real)
    requires var r := AssessRisk(policy, item.equity, item.positions, item.candidate, correlated, item.reserved);
      r.Ok? && r.value.Approved()
    ensures item.equity > 0.0
  {
    hide OpenRisk, FuturesCapital, PositionSize, RiskAmount;
  }

  datatype Tally = Tally(held: nat, riskRejected: nat, portfolioRejected: nat, qualified: nat)

  function Counted(t: Tally, v: Verdict): Tally
  {
    match v
    case Held => t.(held := t.held + 1)
    case RiskRejected(_) => t.(riskRejected := t.riskRejected + 1)
    case PortfolioRejected(_) => t.(portfolioRejected := t.portfolioRejected + 1)
    case Qualified(_, _) => t.(qualified := t.qualified + 1)
  }

  /** Every signal is counted at exactly one gate; what passed all of them is handed on in order. */
  method Evaluate(policy: RiskPolicy, items: seq<Item>)
    returns (tally: Tally, gated: seq<(Item, Assessment, PortfolioAssessment)>, error: Option<GateError>)
    ensures error.None? ==> tally.held + tally.riskRejected + tally.portfolioRejected + tally.qualified == |items|
    ensures error.None? ==> tally.qualified == |gated|
    ensures error.Some? <==> exists i :: 0 <= i < |items| && Gate(policy, items[i]).Err?
    ensures forall k :: 0 <= k < |gated| ==>
      gated[k].0 in items && Gate(policy, gated[k].0) == Ok(Qualified(gated[k].1, gated[k].2))
    ensures error.None? ==> forall i :: 0 <= i < |items| && Gate(policy, items[i]).value.Qualified? ==>
      exists k :: 0 <= k < |gated| && gated[k].0 == items[i]
  {
    hide Gate;
    tally, gated, error := Tally(0, 0, 0, 0), [], None;
    for i := 0 to |items|
      invariant error.None? && tally.held + tally.riskRejected + tally.portfolioRejected + tally.qualified == i
      invariant tally.qualified == |gated|
      invariant forall k :: 0 <= k < i ==> Gate(policy, items[k]).Ok?
      invariant forall k :: 0 <= k < |gated| ==>
        gated[k].0 in items && Gate(policy, gated[k].0) == Ok(Qualified(gated[k].1, gated[k].2))
      invariant forall j :: 0 <= j < i && Gate(policy, items[j]).value.Qualified? ==>
        exists k :: 0 <= k < |gated| && gated[k].0 == items[j]
    {
      var verdict := Gate(policy, items[i]);
      if verdict.Err? { return tally, gated, Some(verdict.error); }
      tally := Counted(tally, verdict.value);
      if verdict.value.Qualified? {
        ghost var before := gated;
        gated := gated + [(items[i], verdict.value.risk, verdict.value.portfolio)];
        assert forall k :: 0 <= k < |before| ==> gated[k] == before[k];
        assert gated[|before|].0 == items[i];
      }
    }
  }
}
