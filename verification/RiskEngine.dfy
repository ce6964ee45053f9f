/** The risk gate: every violated rule, and every number behind the verdict. */
module RiskEngine {
  import opened Numeric
  import opened Trading

  datatype Rule =
    | Solvency
    | NoPosition
    | Oversell
    | DailyLossHalt
    | DrawdownHalt
    | InsufficientCash
    | MissingStopLoss
    | InvalidStop
    | RiskPerTrade
    | PositionConcentration
    | TotalExposure
    | MaxPositions

  /** The names under which the gate files its numbers. */
  datatype Metric =
    | AccountEquity
    | AccountCash
    | DailyLossShare
    | DrawdownShare
    | CostOfEntry
    | RiskTaken
    | RiskShare
    | PositionAfter
    | ExposureAfter
    | OpenPositions

  datatype RiskDecision = RiskDecision(
    approved: bool,
    proposal: TradeProposal,
    limits: RiskLimits,
    violations: seq<Rule>,
    metrics: map<Metric, real>)

  function Percent(part: real, whole: real): real
    requires whole != 0.0
  {
    part / whole * 100.0
  }

  /** `part` is more than `pct` percent of `whole`, cross-multiplied. */
  predicate Exceeds(part: real, pct: real, whole: real) { part * 100.0 > pct * whole }

  predicate Reaches(part: real, pct: real, whole: real) { part * 100.0 >= pct * whole }

  lemma PercentCompares(part: real, whole: real, limit: real)
    requires whole > 0.0
    ensures Percent(part, whole) > limit <==> Exceeds(part, limit, whole)
    ensures Percent(part, whole) >= limit <==> Reaches(part, limit, whole)
  {
    QuotientAtMost(part, whole, limit / 100.0);
    assert limit / 100.0 * whole == limit * whole / 100.0;
  }

  // The numbers each rule looks at.

  function DailyLossPct(portfolio: Portfolio): real
    requires portfolio.Equity() != 0.0
  {
    if portfolio.realizedPnlToday < 0.0 then Percent(-portfolio.realizedPnlToday, portfolio.Equity()) else 0.0
  }

  function RiskAmount(proposal: TradeProposal, stop: real): real { (proposal.entryPrice - stop) * proposal.quantity }

  function HeldValue(proposal: TradeProposal, portfolio: Portfolio): real {
    var held := portfolio.PositionFor(proposal.symbol);
    if held.Some? then held.value.MarketValue() else 0.0
  }

  // Each rule as it is evaluated.

  function If(broken: bool, rule: Rule): seq<Rule> { if broken then [rule] else [] }

  function SellRules(proposal: TradeProposal, portfolio: Portfolio): seq<Rule> {
    var held := portfolio.PositionFor(proposal.symbol);
    if held.None? then [NoPosition] else If(proposal.quantity > held.value.quantity, Oversell)
  }

  function HaltRules(portfolio: Portfolio, limits: RiskLimits): seq<Rule>
    requires portfolio.Equity() != 0.0
  {
    If(DailyLossPct(portfolio) >= limits.maxDailyLossPct, DailyLossHalt)
    + If(portfolio.DrawdownPct() >= limits.maxDrawdownPct, DrawdownHalt)
  }

  function StopRules(proposal: TradeProposal, equity: real, limits: RiskLimits): seq<Rule>
    requires equity != 0.0
  {
    match proposal.stopLoss
    case None => If(limits.requireStopLoss, MissingStopLoss)
    case Some(stop) =>
      if stop >= proposal.entryPrice then [InvalidStop]
      else If(Percent(RiskAmount(proposal, stop), equity) > limits.maxRiskPerTradePct, RiskPerTrade)
  }

  function ConcentrationRules(proposal: TradeProposal, portfolio: Portfolio, equity: real,
    limits: RiskLimits): seq<Rule>
    requires equity != 0.0
  {
    If(Percent(HeldValue(proposal, portfolio) + proposal.Notional(), equity) > limits.maxPositionPct,
      PositionConcentration)
    + If(Percent(portfolio.TotalMarketValue() + proposal.Notional(), equity) > limits.maxTotalExposurePct,
      TotalExposure)
  }

  predicate CrowdedOut(proposal: TradeProposal, portfolio: Portfolio, limits: RiskLimits) {
    portfolio.PositionFor(proposal.symbol).None? && |portfolio.positions| >= limits.maxPositions
  }

  function EntryRules(proposal: TradeProposal, portfolio: Portfolio, limits: RiskLimits): seq<Rule>
    requires portfolio.Equity() != 0.0
  {
    HaltRules(portfolio, limits)
    + If(proposal.Notional() > portfolio.cash, InsufficientCash)
    + StopRules(proposal, portfolio.Equity(), limits)
    + ConcentrationRules(proposal, portfolio, portfolio.Equity(), limits)
    + If(CrowdedOut(proposal, portfolio, limits), MaxPositions)
  }

  function Violations(proposal: TradeProposal, portfolio: Portfolio, limits: RiskLimits): seq<Rule> {
    if portfolio.Equity() <= 0.0 then [Solvency]
    else if proposal.side == Sell then SellRules(proposal, portfolio)
    else EntryRules(proposal, portfolio, limits)
  }

  function StopMetrics(proposal: TradeProposal, equity: real): map<Metric, real>
    requires equity != 0.0
  {
    match proposal.stopLoss
    case None => map[]
    case Some(stop) =>
      if stop >= proposal.entryPrice then map[]
      else map[RiskTaken := RiskAmount(proposal, stop), RiskShare := Percent(RiskAmount(proposal, stop), equity)]
  }

  function EntryMetrics(proposal: TradeProposal, portfolio: Portfolio): map<Metric, real>
    requires portfolio.Equity() != 0.0
  {
    AccountMetrics(portfolio)
    + HaltMetrics(portfolio)
    + map[CostOfEntry := proposal.Notional()]
    + StopMetrics(proposal, portfolio.Equity())
    + ConcentrationMetrics(proposal, portfolio, portfolio.Equity())
    + map[OpenPositions := |portfolio.positions| as real]
  }

  function AccountMetrics(portfolio: Portfolio): map<Metric, real> {
    map[AccountEquity := portfolio.Equity(), AccountCash := portfolio.cash]
  }

  function HaltMetrics(portfolio: Portfolio): map<Metric, real>
    requires portfolio.Equity() != 0.0
  {
    map[DailyLossShare := DailyLossPct(portfolio), DrawdownShare := portfolio.DrawdownPct()]
  }

  function ConcentrationMetrics(proposal: TradeProposal, portfolio: Portfolio, equity: real): map<Metric, real>
    requires equity != 0.0
  {
    map[PositionAfter := Percent(HeldValue(proposal, portfolio) + proposal.Notional(), equity),
        ExposureAfter := Percent(portfolio.TotalMarketValue() + proposal.Notional(), equity)]
  }

  function Metrics(proposal: TradeProposal, portfolio: Portfolio): map<Metric, real> {
    if portfolio.Equity() <= 0.0 || proposal.side == Sell then AccountMetrics(portfolio)
    else EntryMetrics(proposal, portfolio)
  }

  function Decide(proposal: TradeProposal, portfolio: Portfolio, limits: RiskLimits): RiskDecision {
    var violations := Violations(proposal, portfolio, limits);
    RiskDecision(violations == [], proposal, limits, violations, Metrics(proposal, portfolio))
  }

  // The engine: each check appends to one list and writes into one dictionary.

  method CheckSell(proposal: TradeProposal, portfolio: Portfolio, violations: seq<Rule>) returns (after: seq<Rule>)
    ensures after == violations + SellRules(proposal, portfolio)
  {
    after := violations;
    var held := portfolio.PositionFor(proposal.symbol);
    if held.None? {
      after := after + [NoPosition];
    } else if proposal.quantity > held.value.quantity {
      after := after + [Oversell];
    }
  }

  method CheckHalts(portfolio: Portfolio, limits: RiskLimits, violations: seq<Rule>, metrics: map<Metric, real>)
    returns (after: seq<Rule>, numbers: map<Metric, real>)
    requires portfolio.Equity() != 0.0
    ensures after == violations + HaltRules(portfolio, limits)
    ensures numbers == metrics + HaltMetrics(portfolio)
  {
    after := violations;
    var loss := DailyLossPct(portfolio);
    numbers := metrics[DailyLossShare := loss];
    if loss >= limits.maxDailyLossPct {
      after := after + [DailyLossHalt];
    }
    var drawdown := portfolio.DrawdownPct();
    numbers := numbers[DrawdownShare := drawdown];
    if drawdown >= limits.maxDrawdownPct {
      after := after + [DrawdownHalt];
    }
  }

  method CheckStopAndRisk(proposal: TradeProposal, equity: real, limits: RiskLimits, violations: seq<Rule>,
    metrics: map<Metric, real>)
    returns (after: seq<Rule>, numbers: map<Metric, real>)
    requires equity != 0.0
    ensures after == violations + StopRules(proposal, equity, limits)
    ensures numbers == metrics + StopMetrics(proposal, equity)
  {
    after, numbers := violations, metrics;
    if proposal.stopLoss.None? {
      if limits.requireStopLoss {
        after := after + [MissingStopLoss];
      }
      return;
    }
    var stop := proposal.stopLoss.value;
    if stop >= proposal.entryPrice {
      after := after + [InvalidStop];
      return;
    }
    var amount := RiskAmount(proposal, stop);
    var pct := Percent(amount, equity);
    numbers := numbers[RiskTaken := amount][RiskShare := pct];
    if pct > limits.maxRiskPerTradePct {
      after := after + [RiskPerTrade];
    }
  }

  method CheckConcentration(proposal: TradeProposal, portfolio: Portfolio, equity: real, limits: RiskLimits,
                            violations: seq<Rule>, metrics: map<Metric, real>)
    returns (after: seq<Rule>, numbers: map<Metric, real>)
    requires equity != 0.0
    ensures after == violations + ConcentrationRules(proposal, portfolio, equity, limits)
    ensures numbers == metrics + ConcentrationMetrics(proposal, portfolio, equity)
  {
    after := violations;
    var position := Percent(HeldValue(proposal, portfolio) + proposal.Notional(), equity);
    numbers := metrics[PositionAfter := position];
    if position > limits.maxPositionPct {
      after := after + [PositionConcentration];
    }
    var exposure := Percent(portfolio.TotalMarketValue() + proposal.Notional(), equity);
    numbers := numbers[ExposureAfter := exposure];
    if exposure > limits.maxTotalExposurePct {
      after := after + [TotalExposure];
    }
  }

  method CheckEntry(proposal: TradeProposal, portfolio: Portfolio, limits: RiskLimits, violations: seq<Rule>,
    metrics: map<Metric, real>)
    returns (after: seq<Rule>, numbers: map<Metric, real>)
    requires portfolio.Equity() != 0.0
    requires violations == [] && metrics == AccountMetrics(portfolio)
    ensures after == EntryRules(proposal, portfolio, limits)
    ensures numbers == EntryMetrics(proposal, portfolio)
  {
    hide HaltRules, StopRules, ConcentrationRules, HaltMetrics, StopMetrics, ConcentrationMetrics, AccountMetrics,
      CrowdedOut;
    after, numbers := CheckHalts(portfolio, limits, violations, metrics);
    numbers := numbers + map[CostOfEntry := proposal.Notional()];
    if proposal.Notional() > portfolio.cash {
      after := after + [InsufficientCash];
    }
    after, numbers := CheckStopAndRisk(proposal, portfolio.Equity(), limits, after, numbers);
    after, numbers := CheckConcentration(proposal, portfolio, portfolio.Equity(), limits, after, numbers);
    numbers := numbers + map[OpenPositions := |portfolio.positions| as real];
    if CrowdedOut(proposal, portfolio, limits) {
      after := after + [MaxPositions];
    }
  }

  method EvaluateTrade(proposal: TradeProposal, portfolio: Portfolio, limits: RiskLimits)
    returns (decision: RiskDecision)
    ensures decision == Decide(proposal, portfolio, limits)
  {
    var violations, metrics := [], AccountMetrics(portfolio);
    if portfolio.Equity() <= 0.0 {
      violations := violations + [Solvency];
    } else if proposal.side == Sell {
      violations := CheckSell(proposal, portfolio, violations);
    } else {
      violations, metrics := CheckEntry(proposal, portfolio, limits, violations, metrics);
    }
    decision := RiskDecision(violations == [], proposal, limits, violations, metrics);
  }

  // What each rule means, without percentages or evaluation order.

  predicate Broken(rule: Rule, proposal: TradeProposal, portfolio: Portfolio, limits: RiskLimits) {
    var equity := portfolio.Equity();
    var held := portfolio.PositionFor(proposal.symbol);
    var cost := proposal.quantity * proposal.entryPrice;
    var heldValue := if held.Some? then held.value.quantity * held.value.currentPrice else 0.0;
    var selling := equity > 0.0 && proposal.side == Sell;
    var buying := equity > 0.0 && proposal.side == Buy;
    match rule
    case Solvency => equity <= 0.0
    case NoPosition => selling && held.None?
    case Oversell => selling && held.Some? && held.value.quantity < proposal.quantity
    case DailyLossHalt => buying && Reaches(-portfolio.realizedPnlToday, limits.maxDailyLossPct, equity)
    case DrawdownHalt =>
      buying && portfolio.equityPeak.Some?
      && Reaches(portfolio.equityPeak.value - equity, limits.maxDrawdownPct, portfolio.equityPeak.value)
    case InsufficientCash => buying && portfolio.cash < cost
    case MissingStopLoss => buying && proposal.stopLoss.None? && limits.requireStopLoss
    case InvalidStop => buying && proposal.stopLoss.Some? && proposal.entryPrice <= proposal.stopLoss.value
    case RiskPerTrade =>
      buying && proposal.stopLoss.Some? && proposal.stopLoss.value < proposal.entryPrice
      && Exceeds((proposal.entryPrice - proposal.stopLoss.value) * proposal.quantity, limits.maxRiskPerTradePct, equity)
    case PositionConcentration => buying && Exceeds(heldValue + cost, limits.maxPositionPct, equity)
    case TotalExposure => buying && Exceeds(portfolio.TotalMarketValue() + cost, limits.maxTotalExposurePct, equity)
    case MaxPositions => buying && held.None? && |portfolio.positions| >= limits.maxPositions
  }

  lemma DrawdownCompares(equity: real, peak: real, limit: real)
    requires peak > 0.0 && limit > 0.0
    ensures Max((1.0 - equity / peak) * 100.0, 0.0) >= limit <==> Reaches(peak - equity, limit, peak)
  {
    var q := equity / peak;
    assert q * peak == equity;
    if q <= 1.0 - limit / 100.0 {
      assert q * peak <= (1.0 - limit / 100.0) * peak;
    } else {
      assert q * peak > (1.0 - limit / 100.0) * peak;
    }
    assert (1.0 - limit / 100.0) * peak == peak - limit * peak / 100.0;
  }

  lemma DailyLossMeaning(portfolio: Portfolio, limits: RiskLimits)
    requires portfolio.Equity() > 0.0 && limits.Valid()
    ensures DailyLossPct(portfolio) >= limits.maxDailyLossPct <==>
            Reaches(-portfolio.realizedPnlToday, limits.maxDailyLossPct, portfolio.Equity())
  {
    ProductPositive(limits.maxDailyLossPct, portfolio.Equity());
    PercentCompares(-portfolio.realizedPnlToday, portfolio.Equity(), limits.maxDailyLossPct);
  }

  lemma HaltMembers(proposal: TradeProposal, portfolio: Portfolio, limits: RiskLimits, rule: Rule)
    requires portfolio.Equity() > 0.0 && limits.Valid() && portfolio.Valid() && proposal.side == Buy
    ensures rule in HaltRules(portfolio, limits) <==>
            rule in {DailyLossHalt, DrawdownHalt} && Broken(rule, proposal, portfolio, limits)
  {
    DailyLossMeaning(portfolio, limits);
    if portfolio.equityPeak.Some? {
      DrawdownCompares(portfolio.Equity(), portfolio.equityPeak.value, limits.maxDrawdownPct);
    }
  }

  lemma StopMembers(proposal: TradeProposal, portfolio: Portfolio, limits: RiskLimits, rule: Rule)
    requires portfolio.Equity() > 0.0 && proposal.side == Buy
    ensures rule in StopRules(proposal, portfolio.Equity(), limits) <==>
            rule in {MissingStopLoss, InvalidStop, RiskPerTrade} && Broken(rule, proposal, portfolio, limits)
  {
    if proposal.stopLoss.Some? {
      PercentCompares(RiskAmount(proposal, proposal.stopLoss.value), portfolio.Equity(), limits.maxRiskPerTradePct);
    }
  }

  lemma ConcentrationMembers(proposal: TradeProposal, portfolio: Portfolio, limits: RiskLimits, rule: Rule)
    requires portfolio.Equity() > 0.0 && proposal.side == Buy
    ensures rule in ConcentrationRules(proposal, portfolio, portfolio.Equity(), limits) <==>
            rule in {PositionConcentration, TotalExposure} && Broken(rule, proposal, portfolio, limits)
  {
    PercentCompares(HeldValue(proposal, portfolio) + proposal.Notional(), portfolio.Equity(), limits.maxPositionPct);
    PercentCompares(portfolio.TotalMarketValue() + proposal.Notional(), portfolio.Equity(), limits.maxTotalExposurePct);
  }

  lemma EntryMembers(proposal: TradeProposal, portfolio: Portfolio, limits: RiskLimits, rule: Rule)
    requires portfolio.Equity() > 0.0 && limits.Valid() && portfolio.Valid() && proposal.side == Buy
    ensures rule in EntryRules(proposal, portfolio, limits) <==> Broken(rule, proposal, portfolio, limits)
  {
    HaltMembers(proposal, portfolio, limits, rule);
    StopMembers(proposal, portfolio, limits, rule);
    ConcentrationMembers(proposal, portfolio, limits, rule);
  }

  /** Main result: the gate reports exactly the broken rules, so it approves exactly when none is. */
  lemma ReportsEveryBrokenRule(proposal: TradeProposal, portfolio: Portfolio, limits: RiskLimits, rule: Rule)
    requires portfolio.Valid() && limits.Valid()
    ensures rule in Violations(proposal, portfolio, limits) <==> Broken(rule, proposal, portfolio, limits)
  {
    if portfolio.Equity() > 0.0 && proposal.side == Buy {
      EntryMembers(proposal, portfolio, limits, rule);
    }
  }

  lemma ApprovedExactlyWhenNothingBroken(proposal: TradeProposal, portfolio: Portfolio, limits: RiskLimits)
    requires portfolio.Valid() && limits.Valid()
    ensures Decide(proposal, portfolio, limits).approved <==>
            forall rule: Rule :: !Broken(rule, proposal, portfolio, limits)
  {
    forall rule: Rule
      ensures rule in Violations(proposal, portfolio, limits) <==> Broken(rule, proposal, portfolio, limits)
    {
      ReportsEveryBrokenRule(proposal, portfolio, limits, rule);
    }
    var vs := Violations(proposal, portfolio, limits);
    if vs != [] {
      assert vs[0] in vs;
    }
  }

  // What the numbers say.

  predicate IsPercent(pct: real, part: real, whole: real) { pct * whole == 100.0 * part }

  lemma PercentIs(part: real, whole: real)
    requires whole != 0.0
    ensures IsPercent(Percent(part, whole), part, whole)
  {
    assert part / whole * whole == part;
  }

  /** The loss booked so far, and how far the equity is under its peak. */
  function LossTaken(portfolio: Portfolio): real { Max(-portfolio.realizedPnlToday, 0.0) }

  function BelowPeak(portfolio: Portfolio): real
    requires portfolio.equityPeak.Some?
  {
    Max(portfolio.equityPeak.value - portfolio.Equity(), 0.0)
  }

  /** Every number of a buy that was judged, as a share of the equity or of the peak, without dividing. */
  predicate EntryNumbers(proposal: TradeProposal, portfolio: Portfolio, m: map<Metric, real>) {
    && {DailyLossShare, DrawdownShare, CostOfEntry, OpenPositions, PositionAfter, ExposureAfter} <= m.Keys
    && m[CostOfEntry] == proposal.quantity * proposal.entryPrice && m[OpenPositions] == |portfolio.positions| as real
    && IsPercent(m[DailyLossShare], LossTaken(portfolio), portfolio.Equity())
    && (if portfolio.equityPeak.None? then m[DrawdownShare] == 0.0
        else IsPercent(m[DrawdownShare], BelowPeak(portfolio), portfolio.equityPeak.value))
    && NumbersAfter(proposal, portfolio, m[PositionAfter], m[ExposureAfter])
    && StopNumbers(proposal, portfolio.Equity(), m)
  }

  /** What the symbol and what all holdings would then be worth, in percent of the equity. */
  predicate NumbersAfter(proposal: TradeProposal, portfolio: Portfolio, position: real, exposure: real) {
    var cost, held := proposal.quantity * proposal.entryPrice, portfolio.PositionFor(proposal.symbol);
    var worth := if held.Some? then held.value.quantity * held.value.currentPrice else 0.0;
    && IsPercent(position, worth + cost, portfolio.Equity())
    && IsPercent(exposure, portfolio.TotalMarketValue() + cost, portfolio.Equity())
  }

  /** What a trade would risk is there exactly when it has a stop below its entry. */
  predicate StopNumbers(proposal: TradeProposal, equity: real, m: map<Metric, real>) {
    && (RiskShare in m <==> proposal.stopLoss.Some? && proposal.stopLoss.value < proposal.entryPrice)
    && (RiskTaken in m <==> RiskShare in m)
    && (RiskShare in m && RiskTaken in m && proposal.stopLoss.Some? ==>
          && m[RiskTaken] == (proposal.entryPrice - proposal.stopLoss.value) * proposal.quantity
          && IsPercent(m[RiskShare], m[RiskTaken], equity))
  }

  lemma DrawdownIs(portfolio: Portfolio)
    requires portfolio.equityPeak.Some? && portfolio.equityPeak.value > 0.0
    ensures IsPercent(portfolio.DrawdownPct(), BelowPeak(portfolio), portfolio.equityPeak.value)
  {
    var equity, peak := portfolio.Equity(), portfolio.equityPeak.value;
    var q := equity / peak;
    assert q * peak == equity;
    QuotientAtMost(equity, peak, 1.0);
    assert (1.0 - q) * 100.0 * peak == 100.0 * (peak - q * peak);
  }

  lemma DailyLossIs(portfolio: Portfolio)
    requires portfolio.Equity() > 0.0
    ensures IsPercent(DailyLossPct(portfolio), LossTaken(portfolio), portfolio.Equity())
  {
    PercentIs(-portfolio.realizedPnlToday, portfolio.Equity());
  }

  predicate Kept(part: map<Metric, real>, m: map<Metric, real>) {
    forall k | k in part :: k in m && m[k] == part[k]
  }

  /** Which check a number comes from. */
  function Origin(k: Metric): nat {
    match k
    case AccountEquity => 0
    case AccountCash => 0
    case DailyLossShare => 1
    case DrawdownShare => 1
    case CostOfEntry => 2
    case RiskTaken => 3
    case RiskShare => 3
    case PositionAfter => 4
    case ExposureAfter => 4
    case OpenPositions => 5
  }

  predicate From(part: map<Metric, real>, origin: nat) { forall k | k in part :: Origin(k) == origin }

  /** Parts of different origin, laid over one another, are all still there. */
  lemma PartsStay(a: map<Metric, real>, h: map<Metric, real>, c: map<Metric, real>, s: map<Metric, real>,
                  k: map<Metric, real>, o: map<Metric, real>)
    requires From(a, 0) && From(h, 1) && From(c, 2) && From(s, 3) && From(k, 4) && From(o, 5)
    ensures var m := a + h + c + s + k + o;
            && Kept(a, m) && Kept(h, m) && Kept(c, m) && Kept(s, m) && Kept(k, m) && Kept(o, m)
            && forall x | x in m && Origin(x) == 3 :: x in s
  {
    hide Origin;
  }

  /** No part of an entry's numbers overwrites another. */
  lemma PartsKept(proposal: TradeProposal, portfolio: Portfolio)
    requires portfolio.Equity() != 0.0
    ensures var m, stop := EntryMetrics(proposal, portfolio), StopMetrics(proposal, portfolio.Equity());
            && Kept(AccountMetrics(portfolio), m) && Kept(HaltMetrics(portfolio), m)
            && Kept(map[CostOfEntry := proposal.Notional()], m)
            && Kept(stop, m) && Kept(ConcentrationMetrics(proposal, portfolio, portfolio.Equity()), m)
            && Kept(map[OpenPositions := |portfolio.positions| as real], m)
            && (RiskShare in m <==> RiskShare in stop) && (RiskTaken in m <==> RiskTaken in stop)
  {
    hide AccountMetrics, HaltMetrics, StopMetrics, ConcentrationMetrics, Kept, Portfolio.Equity,
      TradeProposal.Notional;
    PartKeys(proposal, portfolio);
    PartsStay(AccountMetrics(portfolio), HaltMetrics(portfolio), map[CostOfEntry := proposal.Notional()],
      StopMetrics(proposal, portfolio.Equity()), ConcentrationMetrics(proposal, portfolio, portfolio.Equity()),
      map[OpenPositions := |portfolio.positions| as real]);
  }

  lemma PartKeys(proposal: TradeProposal, portfolio: Portfolio)
    requires portfolio.Equity() != 0.0
    ensures From(AccountMetrics(portfolio), 0) && From(HaltMetrics(portfolio), 1)
    ensures From(StopMetrics(proposal, portfolio.Equity()), 3)
    ensures From(ConcentrationMetrics(proposal, portfolio, portfolio.Equity()), 4)
  {
    hide Percent, DailyLossPct, HeldValue, RiskAmount, Portfolio.Equity, Portfolio.DrawdownPct,
      Portfolio.TotalMarketValue, TradeProposal.Notional;
  }

  lemma StopMetricsAt(proposal: TradeProposal, equity: real)
    requires equity != 0.0
    ensures var m := StopMetrics(proposal, equity);
            && m.Keys == (if proposal.stopLoss.Some? && proposal.stopLoss.value < proposal.entryPrice
                          then {RiskShare, RiskTaken} else {})
            && (RiskShare in m && RiskTaken in m && proposal.stopLoss.Some? ==>
                  && m[RiskTaken] == (proposal.entryPrice - proposal.stopLoss.value) * proposal.quantity
                  && IsPercent(m[RiskShare], m[RiskTaken], equity))
  {
    if proposal.stopLoss.Some? {
      PercentIs(RiskAmount(proposal, proposal.stopLoss.value), equity);
    }
    hide Percent, IsPercent;
  }

  lemma EntryNumbersAre(proposal: TradeProposal, portfolio: Portfolio)
    requires portfolio.Equity() != 0.0
    ensures var m := EntryMetrics(proposal, portfolio);
            && {DailyLossShare, DrawdownShare, CostOfEntry, OpenPositions, PositionAfter, ExposureAfter} <= m.Keys
            && m[DailyLossShare] == DailyLossPct(portfolio) && m[DrawdownShare] == portfolio.DrawdownPct()
            && m[PositionAfter] == Percent(HeldValue(proposal, portfolio) + proposal.Notional(), portfolio.Equity())
            && m[ExposureAfter] == Percent(portfolio.TotalMarketValue() + proposal.Notional(), portfolio.Equity())
  {
    hide Percent, DailyLossPct, HeldValue, EntryMetrics, AccountMetrics, StopMetrics, Portfolio.Equity,
      Portfolio.DrawdownPct, Portfolio.TotalMarketValue, TradeProposal.Notional;
    PartsKept(proposal, portfolio);
  }

  lemma EntryNumbersHold(proposal: TradeProposal, portfolio: Portfolio)
    requires portfolio.Valid() && portfolio.Equity() > 0.0
    ensures EntryNumbers(proposal, portfolio, EntryMetrics(proposal, portfolio))
  {
    hide IsPercent, Percent, DailyLossPct, HeldValue, LossTaken, BelowPeak, EntryMetrics, AccountMetrics, HaltMetrics,
      StopMetrics, ConcentrationMetrics, StopNumbers, NumbersAfter, Portfolio.Equity, Portfolio.TotalMarketValue;
    DailyLossIs(portfolio);
    if portfolio.equityPeak.Some? {
      DrawdownIs(portfolio);
    }
    EntryNumbersAre(proposal, portfolio);
    PartsKept(proposal, portfolio);
    NumbersAfterHold(proposal, portfolio);
    StopNumbersHold(proposal, portfolio);
  }

  lemma NumbersAfterHold(proposal: TradeProposal, portfolio: Portfolio)
    requires portfolio.Equity() != 0.0
    ensures NumbersAfter(proposal, portfolio,
              Percent(HeldValue(proposal, portfolio) + proposal.Notional(), portfolio.Equity()),
              Percent(portfolio.TotalMarketValue() + proposal.Notional(), portfolio.Equity()))
  {
    hide IsPercent, Percent, Portfolio.Equity, Portfolio.TotalMarketValue;
    PercentIs(HeldValue(proposal, portfolio) + proposal.Notional(), portfolio.Equity());
    PercentIs(portfolio.TotalMarketValue() + proposal.Notional(), portfolio.Equity());
  }

  lemma StopNumbersHold(proposal: TradeProposal, portfolio: Portfolio)
    requires portfolio.Equity() != 0.0
    ensures StopNumbers(proposal, portfolio.Equity(), EntryMetrics(proposal, portfolio))
  {
    hide IsPercent, EntryMetrics, StopMetrics, AccountMetrics, HaltMetrics, ConcentrationMetrics, Portfolio.Equity;
    PartsKept(proposal, portfolio);
    StopMetricsAt(proposal, portfolio.Equity());
  }

  /**
   * Every verdict carries the account's equity and cash, and a judged buy also the number each rule looks at; anything
   * else carries nothing more.
   */
  lemma NumbersExplainVerdict(proposal: TradeProposal, portfolio: Portfolio, limits: RiskLimits)
    requires portfolio.Valid()
    ensures var m := Decide(proposal, portfolio, limits).metrics;
            && AccountEquity in m && m[AccountEquity] == portfolio.Equity() && AccountCash in m
              && m[AccountCash] == portfolio.cash
            && (portfolio.Equity() > 0.0 && proposal.side == Buy ==> EntryNumbers(proposal, portfolio, m))
            && (portfolio.Equity() <= 0.0 || proposal.side == Sell ==> m.Keys == {AccountEquity, AccountCash})
  {
    if portfolio.Equity() > 0.0 && proposal.side == Buy {
      EntryNumbersHold(proposal, portfolio);
      PartsKept(proposal, portfolio);
    }
    hide EntryNumbers, EntryMetrics;
  }
}
