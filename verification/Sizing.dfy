/** Position sizing, and what the sized quantity guarantees at the gate. */
module Sizing {
  import opened Numeric
  import opened Text
  import opened Trading
  import opened RiskEngine

  function SizeByRisk(equity: real, riskPct: real, entryPrice: real, stopLoss: real): Result<int> {
    if equity <= 0.0 || stopLoss >= entryPrice then Err(ValueError)
    else Ok(Truncate(equity * riskPct / 100.0 / (entryPrice - stopLoss)))
  }

  function SizeByFraction(equity: real, fractionPct: real, price: real): Result<int> {
    if equity <= 0.0 || price <= 0.0 then Err(ValueError)
    else Ok(Truncate(equity * fractionPct / 100.0 / price))
  }

  function MaxAffordable(cash: real, price: real): Result<int> {
    if price <= 0.0 then Err(ValueError) else Ok(Truncate(cash / price))
  }

  function MinInt(x: int, y: int): int { if x <= y then x else y }

  /** The smallest of the three sizes, before it is raised to one share. */
  function ComputedSize(portfolio: Portfolio, limits: RiskLimits, entryPrice: real, stopLoss: real): Result<int> {
    var risk := SizeByRisk(portfolio.Equity(), limits.maxRiskPerTradePct, entryPrice, stopLoss);
    if risk.Err? then risk
    else
      var fraction := SizeByFraction(portfolio.Equity(), limits.maxPositionPct, entryPrice);
      if fraction.Err? then fraction
      else
        var affordable := MaxAffordable(portfolio.cash, entryPrice);
        if affordable.Err? then affordable
        else Ok(MinInt(MinInt(risk.value, fraction.value), affordable.value))
  }

  function ChooseQuantity(requested: Option<real>, side: OrderSide, symbol: string, stopLoss: Option<real>,
                          portfolio: Portfolio, limits: RiskLimits, entryPrice: real): Result<real> {
    if requested.Some? then Ok(requested.value)
    else if side == Sell then
      var held := portfolio.PositionFor(symbol);
      Ok(if held.Some? then held.value.quantity else 1.0)
    else if stopLoss.Some? then
      var size := ComputedSize(portfolio, limits, entryPrice, stopLoss.value);
      if size.Err? then Err(size.error) else Ok(if size.value >= 1 then size.value as real else 1.0)
    else Ok(1.0)
  }

  /** A buy the sizer sizes by itself: solvent account, stop below entry, the symbol held or not. */
  predicate AutoSized(portfolio: Portfolio, limits: RiskLimits, proposal: TradeProposal) {
    && portfolio.Valid() && limits.Valid() && proposal.Valid()
    && portfolio.Equity() > 0.0 && proposal.side == Buy
    && proposal.stopLoss.Some? && proposal.stopLoss.value < proposal.entryPrice
  }

  lemma FitsBudget(n: int, amount: real, equity: real, pct: real, unit: real)
    requires equity > 0.0 && pct > 0.0 && unit > 0.0 && amount == n as real * unit
    ensures n <= Truncate(equity * pct / 100.0 / unit) <==> !Exceeds(amount, pct, equity)
  {
    ProductPositive(equity, pct);
    TruncatedQuotient(equity * pct / 100.0, unit, n);
  }

  lemma RiskSizeMeaning(n: int, amount: real, equity: real, pct: real, entryPrice: real, stopLoss: real)
    requires pct > 0.0 && equity > 0.0 && stopLoss < entryPrice && amount == (entryPrice - stopLoss) * n as real
    ensures var size := SizeByRisk(equity, pct, entryPrice, stopLoss);
            size.Ok? && (n <= size.value <==> !Exceeds(amount, pct, equity))
  {
    FitsBudget(n, amount, equity, pct, entryPrice - stopLoss);
  }

  lemma FractionSizeMeaning(n: int, amount: real, equity: real, pct: real, price: real)
    requires pct > 0.0 && equity > 0.0 && price > 0.0 && amount == n as real * price
    ensures var size := SizeByFraction(equity, pct, price);
            size.Ok? && (n <= size.value <==> !Exceeds(amount, pct, equity))
  {
    FitsBudget(n, amount, equity, pct, price);
  }

  lemma AffordableMeaning(n: int, amount: real, cash: real, price: real)
    requires cash >= 0.0 && price > 0.0 && amount == n as real * price
    ensures var size := MaxAffordable(cash, price);
            size.Ok? && (n <= size.value <==> amount <= cash)
  {
    TruncatedQuotient(cash, price, n);
  }

  lemma SizeMeaning(n: int, portfolio: Portfolio, limits: RiskLimits, proposal: TradeProposal)
    requires AutoSized(portfolio, limits, proposal) && proposal.quantity == n as real
    ensures ComputedSize(portfolio, limits, proposal.entryPrice, proposal.stopLoss.value).Ok?
    ensures n <= ComputedSize(portfolio, limits, proposal.entryPrice, proposal.stopLoss.value).value <==>
            && !Exceeds(RiskAmount(proposal, proposal.stopLoss.value), limits.maxRiskPerTradePct, portfolio.Equity())
            && !Exceeds(proposal.Notional(), limits.maxPositionPct, portfolio.Equity())
            && proposal.Notional() <= portfolio.cash
  {
    var risk, notional := RiskAmount(proposal, proposal.stopLoss.value), proposal.Notional();
    RiskSizeMeaning(n, risk, portfolio.Equity(), limits.maxRiskPerTradePct, proposal.entryPrice,
      proposal.stopLoss.value);
    FractionSizeMeaning(n, notional, portfolio.Equity(), limits.maxPositionPct, proposal.entryPrice);
    AffordableMeaning(n, notional, portfolio.cash, proposal.entryPrice);
  }

  /** None of the three limits the sizer works from is broken. */
  predicate SizedRulesClear(proposal: TradeProposal, portfolio: Portfolio, limits: RiskLimits) {
    var vs := Violations(proposal, portfolio, limits);
    InsufficientCash !in vs && RiskPerTrade !in vs && PositionConcentration !in vs
  }

  /** What the account would then hold of the symbol stays within the concentration limit. */
  predicate WithinConcentration(proposal: TradeProposal, portfolio: Portfolio, limits: RiskLimits) {
    !Exceeds(HeldValue(proposal, portfolio) + proposal.Notional(), limits.maxPositionPct, portfolio.Equity())
  }

  lemma SizedRulesMeaning(portfolio: Portfolio, limits: RiskLimits, proposal: TradeProposal)
    requires AutoSized(portfolio, limits, proposal)
    ensures SizedRulesClear(proposal, portfolio, limits) <==>
            && !Exceeds(RiskAmount(proposal, proposal.stopLoss.value), limits.maxRiskPerTradePct, portfolio.Equity())
            && WithinConcentration(proposal, portfolio, limits)
            && proposal.Notional() <= portfolio.cash
  {
    hide Exceeds, Violations, Broken, Portfolio.Equity, HeldValue, RiskAmount;
    ReportsEveryBrokenRule(proposal, portfolio, limits, InsufficientCash);
    ReportsEveryBrokenRule(proposal, portfolio, limits, RiskPerTrade);
    ReportsEveryBrokenRule(proposal, portfolio, limits, PositionConcentration);
    SizedRulesBroken(portfolio, limits, proposal);
  }

  lemma SizedRulesBroken(portfolio: Portfolio, limits: RiskLimits, proposal: TradeProposal)
    requires AutoSized(portfolio, limits, proposal)
    ensures Broken(InsufficientCash, proposal, portfolio, limits) <==> proposal.Notional() > portfolio.cash
    ensures Broken(RiskPerTrade, proposal, portfolio, limits) <==>
            Exceeds(RiskAmount(proposal, proposal.stopLoss.value), limits.maxRiskPerTradePct, portfolio.Equity())
    ensures Broken(PositionConcentration, proposal, portfolio, limits) <==>
            !WithinConcentration(proposal, portfolio, limits)
  {
    hide Portfolio.Equity;
  }

  lemma HeldValueSign(proposal: TradeProposal, portfolio: Portfolio)
    requires portfolio.Valid()
    ensures HeldValue(proposal, portfolio) >= 0.0
    ensures portfolio.PositionFor(proposal.symbol).None? ==> HeldValue(proposal, portfolio) == 0.0
  {
    var held := portfolio.PositionFor(proposal.symbol);
    if held.Some? {
      ProductPositive(held.value.quantity, held.value.currentPrice);
    }
  }

  /**
   * Main result, for accounts that hold the symbol and accounts that do not: a whole-share size breaks none of the
   * three
   * sized limits exactly when it is at most the computed size and, with what is held, within concentration.
   */
  lemma SizesThatClear(portfolio: Portfolio, limits: RiskLimits, proposal: TradeProposal, n: int)
    requires AutoSized(portfolio, limits, proposal) && proposal.quantity == n as real
    ensures ComputedSize(portfolio, limits, proposal.entryPrice, proposal.stopLoss.value).Ok?
    ensures SizedRulesClear(proposal, portfolio, limits) <==>
            && n <= ComputedSize(portfolio, limits, proposal.entryPrice, proposal.stopLoss.value).value
            && WithinConcentration(proposal, portfolio, limits)
  {
    hide SizedRulesClear, ComputedSize;
    SizeMeaning(n, portfolio, limits, proposal);
    SizedRulesMeaning(portfolio, limits, proposal);
    HeldValueSign(proposal, portfolio);
  }

  /** Without a holding the second condition says nothing new: the clearing sizes are exactly those up to the
   * computed one.
   */
  lemma ComputedSizeIsLargest(portfolio: Portfolio, limits: RiskLimits, proposal: TradeProposal, n: int)
    requires AutoSized(portfolio, limits, proposal) && proposal.quantity == n as real
    requires portfolio.PositionFor(proposal.symbol).None?
    ensures ComputedSize(portfolio, limits, proposal.entryPrice, proposal.stopLoss.value).Ok?
    ensures n <= ComputedSize(portfolio, limits, proposal.entryPrice, proposal.stopLoss.value).value <==>
            SizedRulesClear(proposal, portfolio, limits)
  {
    hide SizedRulesClear, ComputedSize;
    SizeMeaning(n, portfolio, limits, proposal);
    SizedRulesMeaning(portfolio, limits, proposal);
    HeldValueSign(proposal, portfolio);
  }

  /** And with the default exposure limit or a wider one, an affordable buy never breaks total exposure. */
  lemma AffordableWithinExposure(portfolio: Portfolio, limits: RiskLimits, proposal: TradeProposal)
    requires AutoSized(portfolio, limits, proposal) && limits.maxTotalExposurePct >= 100.0
    ensures InsufficientCash !in Violations(proposal, portfolio, limits) ==>
            TotalExposure !in Violations(proposal, portfolio, limits)
  {
    hide Exceeds, Violations, Portfolio.TotalMarketValue;
    ReportsEveryBrokenRule(proposal, portfolio, limits, InsufficientCash);
    ReportsEveryBrokenRule(proposal, portfolio, limits, TotalExposure);
    var cost := proposal.quantity * proposal.entryPrice;
    if cost <= portfolio.cash {
      WithinWhole(portfolio.TotalMarketValue() + cost, limits.maxTotalExposurePct, portfolio.Equity());
    }
  }

  lemma WithinWhole(part: real, pct: real, whole: real)
    requires pct >= 100.0 && whole > 0.0 && part <= whole
    ensures !Exceeds(part, pct, whole)
  {
    assert pct * whole >= 100.0 * whole;
  }

  /**
   * The suggested order itself, whatever is held: it clears the three sized limits exactly when at least one share
   * fits and the suggestion, with what is held, is within concentration.
   */
  lemma AutomaticSizeIsApprovableOrExplained(portfolio: Portfolio, limits: RiskLimits, proposal: TradeProposal)
    requires AutoSized(portfolio, limits, proposal)
    requires ChooseQuantity(None, Buy, proposal.symbol, proposal.stopLoss, portfolio, limits, proposal.entryPrice) ==
             Ok(proposal.quantity)
    ensures var size := ComputedSize(portfolio, limits, proposal.entryPrice, proposal.stopLoss.value);
            && size.Ok? && proposal.quantity == (if size.value >= 1 then size.value as real else 1.0)
            && (SizedRulesClear(proposal, portfolio, limits) <==>
              size.value >= 1 && WithinConcentration(proposal, portfolio, limits))
  {
    hide SizedRulesClear, ComputedSize, WithinConcentration;
    SizeMeaning(1, portfolio, limits, proposal.(quantity := 1.0));
    var size := ComputedSize(portfolio, limits, proposal.entryPrice, proposal.stopLoss.value).value;
    SizesThatClear(portfolio, limits, proposal, if size >= 1 then size else 1);
  }

  /** And the whole gate approves it exactly when, besides, no halt is in force and exposure and position count
   * have room.
   */
  lemma SuggestionApprovedExactly(portfolio: Portfolio, limits: RiskLimits, proposal: TradeProposal)
    requires AutoSized(portfolio, limits, proposal)
    requires ChooseQuantity(None, Buy, proposal.symbol, proposal.stopLoss, portfolio, limits, proposal.entryPrice) ==
             Ok(proposal.quantity)
    ensures Decide(proposal, portfolio, limits).approved <==>
            && ComputedSize(portfolio, limits, proposal.entryPrice, proposal.stopLoss.value).value >= 1
            && WithinConcentration(proposal, portfolio, limits)
            && !Broken(DailyLossHalt, proposal, portfolio, limits) && !Broken(DrawdownHalt, proposal, portfolio, limits)
            && !Broken(TotalExposure, proposal, portfolio, limits) && !Broken(MaxPositions, proposal, portfolio, limits)
  {
    AutomaticSizeIsApprovableOrExplained(portfolio, limits, proposal);
    ApprovedExactlyWhenNothingBroken(proposal, portfolio, limits);
    ReportsEveryBrokenRule(proposal, portfolio, limits, InsufficientCash);
    ReportsEveryBrokenRule(proposal, portfolio, limits, RiskPerTrade);
    ReportsEveryBrokenRule(proposal, portfolio, limits, PositionConcentration);
    SuggestionBreaksNoOther(proposal, portfolio, limits);
    hide Broken, ComputedSize, WithinConcentration, Violations, ChooseQuantity, Decide;
  }

  lemma SuggestionBreaksNoOther(proposal: TradeProposal, portfolio: Portfolio, limits: RiskLimits)
    requires AutoSized(portfolio, limits, proposal)
    ensures forall rule: Rule | Broken(rule, proposal, portfolio, limits) ::
              rule in {InsufficientCash, RiskPerTrade, PositionConcentration, DailyLossHalt, DrawdownHalt,
                TotalExposure, MaxPositions}
  {
  }

  const EXAMPLE_LIMITS := RiskLimits(1.0, 20.0, 100.0, 10, 3.0, 20.0, true)

  const EXAMPLE_HOLDING := Portfolio(850.0, [Position("A", 15.0, 10.0, 10.0)], None, 0.0)

  lemma ExampleAccount()
    ensures EXAMPLE_HOLDING.TotalMarketValue() == 150.0 && EXAMPLE_HOLDING.Equity() == 1_000.0
    ensures EXAMPLE_HOLDING.PositionFor("A") == Some(EXAMPLE_HOLDING.positions[0])
  {
    var ps := EXAMPLE_HOLDING.positions;
    assert Total(ps[1..], WORTH) == 0.0;
    assert "A"[1..] == "";
    assert Normalize("A") == "A";
  }

  /** With shares already held the suggestion can be refused: the sizer does not see the holding, the gate does. */
  lemma HoldingBreaksSuggestion()
    ensures var proposal := TradeProposal("A", Buy, 10.0, 10.0, Some(9.0), None);
            && EXAMPLE_HOLDING.Valid() && EXAMPLE_LIMITS.Valid() && proposal.Valid()
            && ChooseQuantity(None, Buy, "A", Some(9.0), EXAMPLE_HOLDING, EXAMPLE_LIMITS, 10.0) == Ok(10.0)
            && PositionConcentration in Violations(proposal, EXAMPLE_HOLDING, EXAMPLE_LIMITS)
  {
    hide Violations, ChooseQuantity, Portfolio.Equity;
    ExampleAccount();
    ExampleSuggestion();
    var proposal := TradeProposal("A", Buy, 10.0, 10.0, Some(9.0), None);
    ReportsEveryBrokenRule(proposal, EXAMPLE_HOLDING, EXAMPLE_LIMITS, PositionConcentration);
  }

  lemma ExampleSuggestion()
    ensures ChooseQuantity(None, Buy, "A", Some(9.0), EXAMPLE_HOLDING, EXAMPLE_LIMITS, 10.0) == Ok(10.0)
  {
    hide Portfolio.Equity;
    ExampleAccount();
    assert SizeByRisk(1_000.0, 1.0, 10.0, 9.0) == Ok(10);
    assert SizeByFraction(1_000.0, 20.0, 10.0) == Ok(20);
    assert MaxAffordable(850.0, 10.0) == Ok(85);
  }
}
