/** What every run of the trading desk keeps. */
module PipelineRuns {
  import opened Numeric
  import opened Text
  import opened Trading
  import opened PortfolioUpdates
  import opened RiskEngine
  import opened Sizing
  import opened Pipeline

  /** A reachable portfolio: loadable, normalised holdings within the limit, solvent, at or below its peak. */
  predicate Sound(cfg: Config, p: Portfolio) {
    && p.Valid()
    && (forall h | h in p.positions :: Normalize(h.symbol) == h.symbol && |h.symbol| <= 12)
    && |p.positions| <= cfg.limits.maxPositions
    && (p.cash > 0.0 || p.positions != [])
    && (p.equityPeak.Some? ==> p.Equity() <= p.equityPeak.value)
  }

  lemma SoundIsSolvent(cfg: Config, p: Portfolio)
    requires Sound(cfg, p)
    ensures p.Equity() > 0.0
  {
    TotalPositive(p.positions);
  }

  predicate RaisedPeak(before: Portfolio, after: Portfolio) {
    && after.equityPeak.Some?
    && (before.equityPeak.Some? ==> before.equityPeak.value <= after.equityPeak.value)
  }

  lemma PeakUpdateSound(cfg: Config, p: Portfolio)
    requires Sound(cfg, p.(equityPeak := None)) && (p.equityPeak.Some? ==> p.equityPeak.value > 0.0)
    ensures Sound(cfg, p.WithPeakUpdated())
    ensures RaisedPeak(p, p.WithPeakUpdated())
    ensures p.WithPeakUpdated().Book() == p.Book() && Ledger(p.WithPeakUpdated()) == Ledger(p)
  {
    SoundIsSolvent(cfg, p.(equityPeak := None));
  }

  lemma SymbolsTransfer(cfg: Config, ps: seq<Position>, qs: seq<Position>)
    requires Symbols(ps) == Symbols(qs)
    requires forall h | h in ps :: Normalize(h.symbol) == h.symbol && |h.symbol| <= 12
    ensures forall h | h in qs :: Normalize(h.symbol) == h.symbol && |h.symbol| <= 12
  {
    forall h | h in qs
      ensures Normalize(h.symbol) == h.symbol && |h.symbol| <= 12
    {
      var i :| 0 <= i < |qs| && qs[i] == h;
      assert Symbols(qs)[i] == ps[i].symbol && ps[i] in ps;
    }
  }

  lemma RefreshSound(cfg: Config, p: Portfolio, refresh: bool, quotes: map<string, real>)
    requires Sound(cfg, p) && forall s | s in quotes :: quotes[s] > 0.0
    ensures var next := Refreshed(p, refresh, quotes);
            && Sound(cfg, next) && RaisedPeak(p, next)
            && next.Book() == p.Book() && Ledger(next) == Ledger(p)
            && Symbols(next.positions) == Symbols(p.positions)
  {
    var q := if refresh && p.positions != [] then p.WithPrices(quotes) else p;
    RepricedKeeps(p.positions, quotes);
    BookedRepriced(p.positions, quotes);
    DistinctBySymbols(p.positions, q.positions);
    SymbolsTransfer(cfg, p.positions, q.positions);
    PeakUpdateSound(cfg, q);
  }

  // One fill.

  lemma BuyFillSound(cfg: Config, p: Portfolio, order: Order, fillPrice: real)
    requires Sound(cfg, p) && Proper(order) && |order.symbol| <= 12 && fillPrice > 0.0
    requires p.PositionFor(order.symbol).None? ==> |p.positions| < cfg.limits.maxPositions
    requires ApplyBuy(p, order, fillPrice).Ok?
    ensures Sound(cfg, ApplyBuy(p, order, fillPrice).value.(equityPeak := None))
    ensures ApplyBuy(p, order, fillPrice).value.equityPeak == p.equityPeak
  {
    BuyKeepsValid(p, order, fillPrice);
    var next := ApplyBuy(p, order, fillPrice).value;
    if p.PositionFor(order.symbol).Some? {
      assert |next.positions| == |p.positions|;
    }
  }

  lemma SellFillSound(cfg: Config, p: Portfolio, order: Order, fillPrice: real)
    requires Sound(cfg, p) && Proper(order) && fillPrice > 0.0
    requires ApplySell(p, order, fillPrice).Ok?
    ensures Sound(cfg, ApplySell(p, order, fillPrice).value.(equityPeak := None))
    ensures ApplySell(p, order, fillPrice).value.equityPeak == p.equityPeak
  {
    SellKeepsValid(p, order, fillPrice);
    var held := p.PositionFor(order.symbol).value;
    assert held in p.positions && held.symbol == order.symbol;
  }

  /** What an order passed on by an approved decision looks like. */
  predicate Authorised(order: Order, decision: RiskDecision) {
    && decision.approved
    && Proper(order) && |order.symbol| <= 12
    && order.symbol == decision.proposal.symbol
    && order.side == decision.proposal.side
    && order.quantity == decision.proposal.quantity
    && (order.status == Filled <==> order.fillPrice.Some?)
  }

  lemma AssessedProposal(cfg: Config, p: Portfolio, request: Request, entry: Option<real>)
    requires Assess(cfg, p, request, entry).Ok?
    ensures var proposal := Assess(cfg, p, request, entry).value.proposal;
            && proposal.Valid() && Normalize(proposal.symbol) == proposal.symbol == Normalize(request.symbol)
            && Assess(cfg, p, request, entry).value == Decide(proposal, p, cfg.limits)
  {
    NormalizeIdempotent(request.symbol);
  }

  /** The proposal judged is the request's own: symbol, side, prices, and the size asked for or the one the use
   * case picks.
   */
  lemma ProposalIsAsRequested(cfg: Config, p: Portfolio, request: Request, entry: Option<real>)
    requires Assess(cfg, p, request, entry).Ok?
    ensures entry.Some?
    ensures var decision := Assess(cfg, p, request, entry).value;
            var proposal, held := decision.proposal, Find(p.positions, Normalize(request.symbol));
            && decision.limits == cfg.limits
            && proposal.symbol == Normalize(request.symbol) && proposal.side == request.side
            && proposal.entryPrice == entry.value
            && proposal.stopLoss == request.stopLoss && proposal.takeProfit == request.takeProfit
            && (request.quantity.Some? ==> proposal.quantity == request.quantity.value)
            && (request.quantity.None? && request.side == Sell ==>
                  proposal.quantity == if held.Some? then held.value.quantity else 1.0)
            && (request.quantity.None? && request.side == Buy && request.stopLoss.None? ==> proposal.quantity == 1.0)
            && (request.quantity.None? && request.side == Buy && request.stopLoss.Some? ==>
                  var size := ComputedSize(p, cfg.limits, entry.value, request.stopLoss.value);
                  size.Ok? && proposal.quantity == if size.value >= 1 then size.value as real else 1.0)
  {
    NormalizeIdempotent(request.symbol);
    hide Normalize, Find, ComputedSize, Violations, Metrics;
  }

  lemma SubmittedOrder(decision: RiskDecision, price: Option<real>, slippage: real)
    requires decision.approved && decision.proposal.Valid()
    requires Normalize(decision.proposal.symbol) == decision.proposal.symbol
    requires Submit(decision.proposal, price, slippage).Ok?
    ensures Authorised(Submit(decision.proposal, price, slippage).value, decision)
  {
  }

  lemma ApprovedBuyHasRoom(cfg: Config, p: Portfolio, proposal: TradeProposal)
    requires cfg.Valid() && Sound(cfg, p) && proposal.side == Buy && Decide(proposal, p, cfg.limits).approved
    ensures p.PositionFor(proposal.symbol).None? ==> |p.positions| < cfg.limits.maxPositions
  {
    SoundIsSolvent(cfg, p);
    ReportsEveryBrokenRule(proposal, p, cfg.limits, MaxPositions);
  }

  lemma FillSound(cfg: Config, p: Portfolio, order: Order, decision: RiskDecision)
    requires cfg.Valid() && Sound(cfg, p) && Authorised(order, decision)
    requires decision == Decide(decision.proposal, p, cfg.limits)
    requires ApplyFill(p, order).Ok?
    ensures var next := ApplyFill(p, order).value.WithPeakUpdated();
            Sound(cfg, next) && RaisedPeak(p, next) && next.Book() == p.Book()
            && Ledger(next) == Ledger(ApplyFill(p, order).value)
  {
    var applied := ApplyFill(p, order).value;
    FillConservesMoney(p, order);
    if order.side == Buy {
      ApprovedBuyHasRoom(cfg, p, decision.proposal);
      BuyFillSound(cfg, p, order, order.fillPrice.value);
    } else {
      SellFillSound(cfg, p, order, order.fillPrice.value);
    }
    PeakUpdateSound(cfg, applied);
  }

  /** A refused fill is refused with the error the use case expects. */
  lemma RefusalIsExecutionError(p: Portfolio, order: Order)
    requires p.Valid() && Proper(order) && ApplyFill(p, order).Err?
    ensures ApplyFill(p, order).error == ExecutionError
  {
  }

  // Replaying the audit trail.

  /** Fold the recorded orders over a portfolio, skipping the ones it refuses. */
  function Replay(p: Portfolio, records: seq<OrderRecord>): Portfolio {
    if records == [] then p
    else
      var before := Replay(p, records[..|records| - 1]);
      var applied := ApplyFill(before, records[|records| - 1].order);
      if applied.Ok? then applied.value else before
  }

  lemma ReplayExtends(seed: Portfolio, records: seq<OrderRecord>, record: OrderRecord, p: Portfolio)
    requires Ledger(Replay(seed, records)) == Ledger(p)
    ensures Ledger(Replay(seed, records + [record])) ==
            Ledger(if ApplyFill(p, record.order).Ok? then ApplyFill(p, record.order).value else p)
  {
    assert (records + [record])[..|records|] == records;
    FillDependsOnLedgerOnly(Replay(seed, records), p, record.order);
  }

  // The invariant of every run.

  ghost predicate Inv(cfg: Config, desk: Desk) {
    && cfg.Valid()
    && Load(cfg, desk).Ok?
    && Sound(cfg, Load(cfg, desk).value)
    && Load(cfg, desk).value.Book() == cfg.startingCash
    && Ledger(Replay(Seed(cfg), desk.records)) == Ledger(Load(cfg, desk).value)
    && (forall r | r in desk.records :: Authorised(r.order, r.decision))
  }

  datatype Operation =
    | View(refresh: bool, quotes: map<string, real>)
    | Check(request: Request, market: Market)
    | Trade(request: Request, market: Market)
  {
    predicate Valid() {
      if View? then forall s | s in quotes :: quotes[s] > 0.0 else market.Valid()
    }
  }

  function Step(cfg: Config, desk: Desk, op: Operation): Desk {
    match op
    case View(refresh, quotes) => Read(cfg, desk, refresh, quotes).0
    case Check(request, market) => CheckRisk(cfg, desk, request, market).0
    case Trade(request, market) => Execute(cfg, desk, request, market).0
  }

  function Run(cfg: Config, desk: Desk, ops: seq<Operation>): Desk
    decreases |ops|
  {
    if ops == [] then desk else Run(cfg, Step(cfg, desk, ops[0]), ops[1..])
  }

  const OPENING := Desk(None, [])

  ghost predicate Advances(cfg: Config, before: Desk, after: Desk) {
    && Load(cfg, before).Ok? && Load(cfg, after).Ok?
    && RaisedPeak(Load(cfg, before).value, Load(cfg, after).value)
    && before.records <= after.records
  }

  lemma ReadKeeps(cfg: Config, desk: Desk, refresh: bool, quotes: map<string, real>)
    requires Inv(cfg, desk) && forall s | s in quotes :: quotes[s] > 0.0
    ensures Inv(cfg, Read(cfg, desk, refresh, quotes).0)
    ensures Advances(cfg, desk, Read(cfg, desk, refresh, quotes).0)
    ensures Read(cfg, desk, refresh, quotes).1 == Load(cfg, Read(cfg, desk, refresh, quotes).0)
  {
    RefreshSound(cfg, Load(cfg, desk).value, refresh, quotes);
  }

  lemma RecordKeeps(cfg: Config, desk: Desk, order: Order, decision: RiskDecision)
    requires Inv(cfg, desk) && Authorised(order, decision)
    requires ApplyFill(Load(cfg, desk).value, order).Err?
    ensures Inv(cfg, desk.(records := desk.records + [OrderRecord(order, decision)]))
  {
    ReplayExtends(Seed(cfg), desk.records, OrderRecord(order, decision), Load(cfg, desk).value);
  }

  lemma SettleKeeps(cfg: Config, desk: Desk, order: Order, decision: RiskDecision)
    requires Inv(cfg, desk) && Authorised(order, decision)
    requires decision == Decide(decision.proposal, Load(cfg, desk).value, cfg.limits)
    requires Load(cfg, desk).value.equityPeak.Some?
    ensures Inv(cfg, Settle(cfg, desk, order, decision).0)
    ensures Advances(cfg, desk, Settle(cfg, desk, order, decision).0)
    ensures Settle(cfg, desk, order, decision).0.records == desk.records + [OrderRecord(order, decision)]
  {
    var p := Load(cfg, desk).value;
    if ApplyFill(p, order).Ok? {
      FillSound(cfg, p, order, decision);
      ReplayExtends(Seed(cfg), desk.records, OrderRecord(order, decision), p);
    } else {
      RefusalIsExecutionError(p, order);
      RecordKeeps(cfg, desk, order, decision);
    }
  }

  lemma StepKeeps(cfg: Config, desk: Desk, op: Operation)
    requires Inv(cfg, desk) && op.Valid()
    ensures Inv(cfg, Step(cfg, desk, op)) && Advances(cfg, desk, Step(cfg, desk, op))
  {
    if op.View? {
      ReadKeeps(cfg, desk, op.refresh, op.quotes);
    } else {
      ReadKeeps(cfg, desk, true, op.market.quotes);
      var checked := Read(cfg, desk, true, op.market.quotes).0;
      var p := Load(cfg, checked).value;
      var decision := Assess(cfg, p, op.request, op.market.entry);
      if op.Trade? && decision.Ok? && decision.value.approved {
        AssessedProposal(cfg, p, op.request, op.market.entry);
        var order := Submit(decision.value.proposal, op.market.broker, cfg.slippage);
        if order.Ok? {
          SubmittedOrder(decision.value, op.market.broker, cfg.slippage);
          SettleKeeps(cfg, checked, order.value, decision.value);
        }
      }
    }
  }

  lemma OpeningKeeps(cfg: Config)
    requires cfg.Valid()
    ensures Inv(cfg, OPENING)
  {
  }

  lemma {:induction false} RunKeeps(cfg: Config, desk: Desk, ops: seq<Operation>)
    requires Inv(cfg, desk) && forall op | op in ops :: op.Valid()
    ensures Inv(cfg, Run(cfg, desk, ops))
    decreases |ops|
  {
    if ops != [] {
      StepKeeps(cfg, desk, ops[0]);
      RunKeeps(cfg, Step(cfg, desk, ops[0]), ops[1..]);
    }
  }

  /** Main result: loading never fails, the portfolio is sound, money is conserved, the trail replays, every record
   * was approved.
   */
  lemma EveryRunIsSound(cfg: Config, ops: seq<Operation>)
    requires cfg.Valid() && forall op | op in ops :: op.Valid()
    ensures var desk := Run(cfg, OPENING, ops);
            && Load(cfg, desk).Ok?
            && var p := Load(cfg, desk).value;
               && Sound(cfg, p) && p.Equity() > 0.0
               && p.cash + Total(p.positions, BASIS) - p.realizedPnlToday == cfg.startingCash
               && Ledger(Replay(Seed(cfg), desk.records)) == Ledger(p)
               && forall r | r in desk.records :: Authorised(r.order, r.decision)
  {
    OpeningKeeps(cfg);
    RunKeeps(cfg, OPENING, ops);
    SoundIsSolvent(cfg, Load(cfg, Run(cfg, OPENING, ops)).value);
  }

  /** The peak never falls and the trail only grows, from any moment of a run to any later one. */
  lemma {:induction false} RunAdvances(cfg: Config, desk: Desk, ops: seq<Operation>)
    requires Inv(cfg, desk) && ops != [] && forall op | op in ops :: op.Valid()
    ensures Inv(cfg, Run(cfg, desk, ops)) && Advances(cfg, desk, Run(cfg, desk, ops))
    decreases |ops|
  {
    var next := Step(cfg, desk, ops[0]);
    StepKeeps(cfg, desk, ops[0]);
    if |ops| == 1 {
      assert Run(cfg, next, ops[1..]) == next;
    } else {
      RunAdvances(cfg, next, ops[1..]);
      PrefixTransitive(desk.records, next.records, Run(cfg, desk, ops).records);
    }
  }

  lemma PrefixTransitive<T>(xs: seq<T>, ys: seq<T>, zs: seq<T>)
    requires xs <= ys && ys <= zs
    ensures xs <= zs
  {
    assert zs[..|ys|][..|xs|] == zs[..|xs|];
  }

  /**
   * Approval and filling come apart only through slippage: an approved sell is always applied, an
   * approved buy exactly when its slipped cost is still covered.
   */
  lemma ApprovedFillApplies(cfg: Config, p: Portfolio, order: Order, decision: RiskDecision)
    requires cfg.Valid() && Sound(cfg, p) && Authorised(order, decision) && order.status == Filled
    requires decision == Decide(decision.proposal, p, cfg.limits)
    ensures ApplyFill(p, order).Ok? <==> order.side == Sell || order.quantity * order.fillPrice.value <= p.cash
  {
    if order.side == Sell {
      SoundIsSolvent(cfg, p);
      ReportsEveryBrokenRule(decision.proposal, p, cfg.limits, NoPosition);
      ReportsEveryBrokenRule(decision.proposal, p, cfg.limits, Oversell);
    } else {
      var held := p.PositionFor(order.symbol);
      assert held.Some? ==> held.value.Valid();
    }
  }

  /** An order reaches the broker: the gate answers, approves, and the order it leads to is valid. */
  predicate Submits(cfg: Config, desk: Desk, request: Request, market: Market) {
    var decision := CheckRisk(cfg, desk, request, market).1;
    decision.Ok? && decision.value.approved && Submit(decision.value.proposal, market.broker, cfg.slippage).Ok?
  }

  function Submission(cfg: Config, desk: Desk, request: Request, market: Market): OrderRecord
    requires Submits(cfg, desk, request, market)
  {
    var decision := CheckRisk(cfg, desk, request, market).1.value;
    OrderRecord(Submit(decision.proposal, market.broker, cfg.slippage).value, decision)
  }

  /**
   * A trade leaves a record exactly when the gate approves and an order is submitted, and the record is that order with
   * that decision, whether the fill is then applied, refused or rejected. Everything refused before leaves the
   * trail as it was.
   */
  lemma TrailRecordsSubmissions(cfg: Config, desk: Desk, request: Request, market: Market)
    requires Inv(cfg, desk) && market.Valid()
    ensures Execute(cfg, desk, request, market).0.records ==
            desk.records + if Submits(cfg, desk, request, market) then [Submission(cfg, desk, request, market)] else []
    ensures Execute(cfg, desk, request, market).0.records != desk.records <==> Submits(cfg, desk, request, market)
    ensures var result := Execute(cfg, desk, request, market).1;
            && (result.Ok? && !result.value.decision.approved ==> result.value.order.None?)
            && (result.Err? && result.error == ExecutionError ==> Submits(cfg, desk, request, market))
  {
    ReadKeeps(cfg, desk, true, market.quotes);
    var checked := Read(cfg, desk, true, market.quotes).0;
    var p := Load(cfg, checked).value;
    var decision := Assess(cfg, p, request, market.entry);
    AssessNeverExecutionError(cfg, p, request, market.entry);
    if decision.Ok? && decision.value.approved {
      AssessedProposal(cfg, p, request, market.entry);
      var order := Submit(decision.value.proposal, market.broker, cfg.slippage);
      if order.Ok? {
        SubmittedOrder(decision.value, market.broker, cfg.slippage);
        SettleResult(cfg, checked, order.value, decision.value);
      }
    }
  }

  /** What the order would fill at before it is rounded. */
  function Slipped(side: OrderSide, quote: real, slippage: real): real {
    if side == Buy then quote + quote * slippage else quote - quote * slippage
  }

  /** A fill is within half a ten-thousandth of the slipped quote, and no buy fills below the quote nor a sell above. */
  lemma SlippageNeverFavours(side: OrderSide, quote: real, slippage: real, fill: real)
    requires quote > 0.0 && slippage >= 0.0 && FillsAt(side, quote, slippage, fill)
    ensures Slipped(side, quote, slippage) - 0.00005 <= fill <= Slipped(side, quote, slippage) + 0.00005
    ensures exists n: int :: Steps(n, fill, 10_000.0)
    ensures side == Buy ==> fill >= RoundTo(quote, 10_000.0)
    ensures side == Sell ==> fill <= RoundTo(quote, 10_000.0)
  {
    var exact := if side == Buy then quote * (1.0 + slippage) else quote * (1.0 - slippage);
    assert exact == Slipped(side, quote, slippage);
    assert quote * slippage >= 0.0;
    QuantisedUnique(exact, fill, 10_000.0);
    RoundToNear(exact, quote);
  }

  lemma RoundToNear(x: real, y: real)
    ensures x - 0.00005 <= RoundTo(x, 10_000.0) <= x + 0.00005
    ensures x >= y ==> RoundTo(x, 10_000.0) >= RoundTo(y, 10_000.0)
    ensures x <= y ==> RoundTo(x, 10_000.0) <= RoundTo(y, 10_000.0)
    ensures RoundTo(x, 10_000.0) > 0.0 <==> x > 0.00005
  {
    if x >= y {
      RoundHalfEvenMonotone(y * 10_000.0, x * 10_000.0);
    } else {
      RoundHalfEvenMonotone(x * 10_000.0, y * 10_000.0);
    }
  }

  /** An approved request goes out exactly when there is no price, or one whose slipped value does not round to zero. */
  lemma SubmitsExactly(cfg: Config, desk: Desk, request: Request, market: Market)
    ensures Submits(cfg, desk, request, market) <==>
              var decision := CheckRisk(cfg, desk, request, market).1;
              && decision.Ok? && decision.value.approved
              && (market.broker.None?
                  || Slipped(decision.value.proposal.side, market.broker.value, cfg.slippage) > 0.00005)
  {
    hide CheckRisk, RoundTo;
    var decision := CheckRisk(cfg, desk, request, market).1;
    if decision.Ok? && market.broker.Some? {
      PositiveFill(decision.value.proposal.side, market.broker.value, cfg.slippage);
    }
  }

  lemma PositiveFill(side: OrderSide, quote: real, slippage: real)
    ensures FillPrice(side, quote, slippage) > 0.0 <==> Slipped(side, quote, slippage) > 0.00005
  {
    hide RoundTo;
    RoundToNear(quote * (1.0 + slippage), quote);
    RoundToNear(quote * (1.0 - slippage), quote);
    assert quote * (1.0 + slippage) == quote + quote * slippage;
    assert quote * (1.0 - slippage) == quote - quote * slippage;
  }

  /**
   * Main result: every order a trade hands back or records carries the approved proposal's own terms, and when there is
   * a quote it is filled at the quote moved by the slippage against the trader, to the nearest ten-thousandth.
   */
  lemma OrdersFillAgainstTrader(cfg: Config, desk: Desk, request: Request, market: Market)
    requires Inv(cfg, desk) && market.Valid()
    ensures var (after, result) := Execute(cfg, desk, request, market);
            && desk.records <= after.records && |after.records| <= |desk.records| + 1
            && (forall r | r in after.records[|desk.records|..] :: PlacedFor(cfg, r.decision, market.broker, r.order))
            && (result.Ok? && result.value.order.Some? ==>
                  && PlacedFor(cfg, result.value.decision, market.broker, result.value.order.value)
                  && after.records[|desk.records|..] == [OrderRecord(result.value.order.value, result.value.decision)])
  {
    hide PlacedFor, CheckRisk, Inv, Market.Valid, Submit, Settle;
    TrailRecordsSubmissions(cfg, desk, request, market);
    var (checked, decision) := CheckRisk(cfg, desk, request, market);
    if Submits(cfg, desk, request, market) {
      SubmittedAsQuoted(cfg, decision.value, market.broker);
      SettleReturns(cfg, checked, Submission(cfg, desk, request, market).order, decision.value);
    }
  }

  lemma SettleReturns(cfg: Config, desk: Desk, order: Order, decision: RiskDecision)
    ensures var result := Settle(cfg, desk, order, decision).1;
            result.Ok? ==> result == Ok(Execution(decision, Some(order)))
  {
    hide ApplyFill;
  }

  /** A sale from the opening desk, where nothing is held, is refused by the gate and leaves no trace in the trail. */
  lemma RefusalLeavesNoRecord(cfg: Config, broker: Option<real>)
    requires cfg.Valid() && (broker.Some? ==> broker.value > 0.0)
    ensures var request, market := Request("AAPL", Sell, Some(5.0), None, None), Market(map[], Some(190.0), broker);
            var (after, result) := Execute(cfg, OPENING, request, market);
            && result.Ok? && !result.value.decision.approved && result.value.decision.violations == [NoPosition]
            && after.records == []
  {
    var request, market := Request("AAPL", Sell, Some(5.0), None, None), Market(map[], Some(190.0), broker);
    OpeningKeeps(cfg);
    TrailRecordsSubmissions(cfg, OPENING, request, market);
    SymbolIsClean();
  }

  lemma SymbolIsClean()
    ensures Normalize("AAPL") == "AAPL"
  {
    assert "AAPL"[1..] == "APL" && "APL"[1..] == "PL" && "PL"[1..] == "L" && "L"[1..] == "";
    assert Upper("L") == "L" && Upper("PL") == "PL" && Upper("APL") == "APL" && Upper("AAPL") == "AAPL";
  }

  lemma AssessNeverExecutionError(cfg: Config, p: Portfolio, request: Request, entry: Option<real>)
    ensures Assess(cfg, p, request, entry).Err? ==> Assess(cfg, p, request, entry).error != ExecutionError
  {
  }

  lemma SettleResult(cfg: Config, desk: Desk, order: Order, decision: RiskDecision)
    requires Inv(cfg, desk) && Authorised(order, decision)
    ensures var (after, result) := Settle(cfg, desk, order, decision);
            && after.records == desk.records + [OrderRecord(order, decision)]
            && (result == Ok(Execution(decision, Some(order))) || result == Err(ExecutionError))
  {
    var p := Load(cfg, desk).value;
    if ApplyFill(p, order).Err? {
      RefusalIsExecutionError(p, order);
    }
  }

  // Getting out.

  function SellAll(symbol: string, market: Market): Operation {
    Trade(Request(symbol, Sell, None, None, None), market)
  }

  /** Prices are available and the sell fills at a positive price. */
  predicate Tradable(cfg: Config, market: Market) {
    && market.Valid() && market.entry.Some? && market.broker.Some?
    && Slipped(Sell, market.broker.value, cfg.slippage) > 0.00005
  }

  lemma FullSellAssessed(cfg: Config, p: Portfolio, symbol: string, entry: real)
    requires cfg.Valid() && Sound(cfg, p) && Find(p.positions, symbol).Some? && entry > 0.0
    ensures var held := Find(p.positions, symbol).value;
            var proposal := TradeProposal(symbol, Sell, held.quantity, entry, None, None);
            && Normalize(symbol) == symbol && 1 <= |symbol| <= 12 && proposal.Valid()
            && Assess(cfg, p, Request(symbol, Sell, None, None, None), Some(entry)) ==
              Ok(Decide(proposal, p, cfg.limits))
            && Decide(proposal, p, cfg.limits).approved
  {
    var held := Find(p.positions, symbol).value;
    assert held in p.positions && held.Valid();
    SoundIsSolvent(cfg, p);
  }

  lemma FullSellSettles(cfg: Config, desk: Desk, proposal: TradeProposal, broker: real)
    requires Inv(cfg, desk) && Load(cfg, desk).value.equityPeak.Some?
    requires var p := Load(cfg, desk).value;
             && proposal.Valid() && proposal.side == Sell && Normalize(proposal.symbol) == proposal.symbol
             && Find(p.positions, proposal.symbol).Some?
               && Find(p.positions, proposal.symbol).value.quantity == proposal.quantity
             && Decide(proposal, p, cfg.limits).approved
    requires FillPrice(Sell, broker, cfg.slippage) > 0.0
    ensures var decision := Decide(proposal, Load(cfg, desk).value, cfg.limits);
            var order := Submit(proposal, Some(broker), cfg.slippage);
            && order.Ok? && order.value.status == Filled
            && var (after, result) := Settle(cfg, desk, order.value, decision);
               && Inv(cfg, after) && result == Ok(Execution(decision, Some(order.value)))
               && Load(cfg, after).value.positions == Without(Load(cfg, desk).value.positions, proposal.symbol)
  {
    var p := Load(cfg, desk).value;
    var decision := Decide(proposal, p, cfg.limits);
    SubmittedOrder(decision, Some(broker), cfg.slippage);
    var order := Submit(proposal, Some(broker), cfg.slippage).value;
    SettleKeeps(cfg, desk, order, decision);
  }

  lemma FullSellExecutes(cfg: Config, desk: Desk, symbol: string, market: Market)
    requires Inv(cfg, desk) && Tradable(cfg, market) && Find(Load(cfg, desk).value.positions, symbol).Some?
    ensures var (after, result) := Execute(cfg, desk, SellAll(symbol, market).request, market);
            && Inv(cfg, after)
            && result.Ok? && result.value.decision.approved && result.value.order.Some?
              && result.value.order.value.status == Filled
            && Symbols(Load(cfg, after).value.positions) == Symbols(Without(Load(cfg, desk).value.positions, symbol))
  {
    var before := Load(cfg, desk).value;
    ReadKeeps(cfg, desk, true, market.quotes);
    RefreshSound(cfg, before, true, market.quotes);
    var checked := Read(cfg, desk, true, market.quotes).0;
    var p := Load(cfg, checked).value;
    WithoutBySymbols(before.positions, p.positions, symbol);
    FullSellAssessed(cfg, p, symbol, market.entry.value);
    var proposal :=
      TradeProposal(symbol, Sell, Find(p.positions, symbol).value.quantity, market.entry.value, None, None);
    PositiveFill(Sell, market.broker.value, cfg.slippage);
    FullSellSettles(cfg, checked, proposal, market.broker.value);
  }

  lemma {:induction false} WithoutBySymbols(ps: seq<Position>, qs: seq<Position>, symbol: string)
    requires Symbols(ps) == Symbols(qs)
    ensures Find(ps, symbol).Some? == Find(qs, symbol).Some?
    ensures Symbols(Without(ps, symbol)) == Symbols(Without(qs, symbol))
  {
    assert |ps| == |Symbols(ps)| == |qs|;
    if ps != [] {
      assert Symbols(ps)[0] == ps[0].symbol && Symbols(qs)[0] == qs[0].symbol;
      assert Symbols(ps[1..]) == Symbols(ps)[1..];
      assert Symbols(qs[1..]) == Symbols(qs)[1..];
      WithoutBySymbols(ps[1..], qs[1..], symbol);
    }
  }

  function Exit(symbols: seq<string>, markets: seq<Market>): seq<Operation>
    requires |symbols| == |markets|
  {
    if symbols == [] then [] else [SellAll(symbols[0], markets[0])] + Exit(symbols[1..], markets[1..])
  }

  /** Main result: from any state of a run, whatever halts are in force, selling every holding ends flat with all
   * money accounted for.
   */
  lemma {:induction false} ExitEndsFlat(cfg: Config, desk: Desk, markets: seq<Market>)
    requires Inv(cfg, desk) && |markets| == |Load(cfg, desk).value.positions|
    requires forall m | m in markets :: Tradable(cfg, m)
    ensures var after := Run(cfg, desk, Exit(Symbols(Load(cfg, desk).value.positions), markets));
            && Inv(cfg, after)
            && Load(cfg, after).value.positions == []
            && Load(cfg, after).value.cash == cfg.startingCash + Load(cfg, after).value.realizedPnlToday
    decreases |markets|
  {
    var ps := Load(cfg, desk).value.positions;
    if ps != [] {
      assert ps[0] in ps && Find(ps, ps[0].symbol) == Some(ps[0]);
      assert Tradable(cfg, markets[0]);
      FullSellExecutes(cfg, desk, ps[0].symbol, markets[0]);
      ReplacedAbsent(ps[1..], ps[0].symbol, ps[0]);
      assert Without(ps, ps[0].symbol) == ps[1..];
      var next := Step(cfg, desk, SellAll(ps[0].symbol, markets[0]));
      var left := Load(cfg, next).value.positions;
      assert |left| == |Symbols(left)| == |ps[1..]|;
      ExitEndsFlat(cfg, next, markets[1..]);
      assert Symbols(ps)[1..] == Symbols(ps[1..]);
      assert Exit(Symbols(ps), markets)[1..] == Exit(Symbols(left), markets[1..]);
    }
  }
}
