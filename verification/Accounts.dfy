/** The audit trail explains the portfolio share by share and dollar by dollar. */
module Accounts {
  import opened Numeric
  import opened Text
  import opened Trading
  import opened PortfolioUpdates
  import opened RiskEngine
  import opened Pipeline
  import opened PipelineRuns

  function Held(ps: seq<Position>, symbol: string): real {
    var found := Find(ps, symbol);
    if found.Some? then found.value.quantity else 0.0
  }

  /** Shares an order brings in: positive for a buy, negative for a sell. */
  function Signed(order: Order): real { if order.side == Buy then order.quantity else -order.quantity }

  lemma {:induction false} FindReplaced(ps: seq<Position>, symbol: string, p: Position, other: string)
    requires p.symbol == symbol && Find(ps, symbol).Some?
    ensures Find(Replaced(ps, symbol, p), other) == if other == symbol then Some(p) else Find(ps, other)
  {
    if ps[0].symbol == symbol {
      FindReplacedOther(ps[1..], symbol, p, other);
    } else {
      FindReplaced(ps[1..], symbol, p, other);
    }
  }

  lemma {:induction false} FindReplacedOther(ps: seq<Position>, symbol: string, p: Position, other: string)
    requires p.symbol == symbol
    ensures other != symbol ==> Find(Replaced(ps, symbol, p), other) == Find(ps, other)
  {
    if ps != [] {
      FindReplacedOther(ps[1..], symbol, p, other);
    }
  }

  lemma {:induction false} FindWithout(ps: seq<Position>, symbol: string, other: string)
    ensures Find(Without(ps, symbol), other) == if other == symbol then None else Find(ps, other)
  {
    if ps != [] {
      FindWithout(ps[1..], symbol, other);
    }
  }

  lemma {:induction false} FindSnoc(ps: seq<Position>, p: Position, other: string)
    ensures Find(ps + [p], other) ==
            if Find(ps, other).Some? then Find(ps, other) else if p.symbol == other then Some(p) else None
  {
    if ps == [] {
      assert ps + [p] == [p];
    } else {
      assert (ps + [p])[1..] == ps[1..] + [p];
      FindSnoc(ps[1..], p, other);
    }
  }

  /** `next` holds `shares` more of `symbol` than `p`, and as much of every other symbol. */
  predicate Moved(p: Portfolio, next: Portfolio, symbol: string, shares: real, other: string) {
    Held(next.positions, other) == Held(p.positions, other) + if other == symbol then shares else 0.0
  }

  lemma BuyMovesShares(p: Portfolio, order: Order, price: real, other: string)
    requires Normalize(order.symbol) == order.symbol && ApplyBuy(p, order, price).Ok?
    ensures Moved(p, ApplyBuy(p, order, price).value, order.symbol, order.quantity, other)
    ensures ApplyBuy(p, order, price).value.cash == p.cash - order.quantity * price
    ensures ApplyBuy(p, order, price).value.realizedPnlToday == p.realizedPnlToday
  {
    hide Normalize;
    var existing := p.PositionFor(order.symbol);
    if existing.None? {
      FindSnoc(p.positions, Opened(order, price), other);
    } else {
      var averaged := Averaged(existing.value, order, price);
      assert averaged.symbol == order.symbol && averaged.quantity == existing.value.quantity + order.quantity;
      hide Averaged;
      FindReplaced(p.positions, order.symbol, averaged, other);
    }
  }

  lemma SellMovesShares(p: Portfolio, order: Order, price: real, other: string)
    requires Normalize(order.symbol) == order.symbol && ApplySell(p, order, price).Ok?
    ensures Moved(p, ApplySell(p, order, price).value, order.symbol, -order.quantity, other)
    ensures ApplySell(p, order, price).value.cash == p.cash + order.quantity * price
  {
    hide Normalize, Reduced, Find;
    var held := p.PositionFor(order.symbol).value;
    ReducedHolds(p.positions, order, held, price, other);
  }

  lemma ReducedHolds(ps: seq<Position>, order: Order, held: Position, price: real, other: string)
    requires Find(ps, order.symbol) == Some(held)
    ensures Held(Reduced(ps, order, held, price), other) ==
            if other == order.symbol then held.quantity - order.quantity else Held(ps, other)
  {
    var left := Remaining(held, order, price);
    FindWithout(ps, order.symbol, other);
    FindReplaced(ps, order.symbol, left, other);
    hide Find, Replaced, Without;
  }

  /** A fill moves exactly its own quantity of its own symbol, at exactly its own price, and a buy books no profit. */
  lemma FillMovesShares(p: Portfolio, order: Order, other: string)
    requires Normalize(order.symbol) == order.symbol && ApplyFill(p, order).Ok?
    ensures order.fillPrice.Some?
    ensures Moved(p, ApplyFill(p, order).value, order.symbol, Signed(order), other)
    ensures ApplyFill(p, order).value.cash == p.cash - Signed(order) * order.fillPrice.value
    ensures order.side == Buy ==> ApplyFill(p, order).value.realizedPnlToday == p.realizedPnlToday
  {
    hide ApplyBuy, ApplySell, Moved, Normalize;
    if order.side == Buy {
      BuyMovesShares(p, order, order.fillPrice.value, other);
    } else {
      SellMovesShares(p, order, order.fillPrice.value, other);
      Negated(order.quantity, order.fillPrice.value);
    }
  }

  lemma Negated(x: real, y: real)
    ensures (-x) * y == -(x * y)
  {
  }

  /** A fill is accepted exactly when it was filled and the cash covers it, or the shares are there to sell. */
  lemma FillAcceptedExactly(p: Portfolio, order: Order)
    requires p.Valid() && Proper(order)
    ensures ApplyFill(p, order).Ok? <==>
              && order.status == Filled && order.fillPrice.Some?
              && (order.side == Buy ==> order.quantity * order.fillPrice.value <= p.cash)
              && (order.side == Sell ==> order.quantity <= Held(p.positions, order.symbol))
  {
    hide Normalize, Find, Averaged, Reduced, Replaced;
    var held := Find(p.positions, order.symbol);
    assert held.Some? ==> held.value.Valid();
  }

  /** What the fill leaves of one holding: cost added at the fill price, or shares taken away at the same entry
   * price.
   */
  predicate Holding(before: Option<Position>, order: Order, price: real, after: Option<Position>) {
    match order.side
    case Buy =>
      && after.Some? && after.value.symbol == order.symbol && after.value.currentPrice == price
      && after.value.quantity == (if before.Some? then before.value.quantity else 0.0) + order.quantity
      && after.value.Cost() == (if before.Some? then before.value.Cost() else 0.0) + order.quantity * price
    case Sell =>
      && before.Some?
      && after == (if before.value.quantity == order.quantity then None
                   else Some(Position(order.symbol, before.value.quantity - order.quantity,
                                      before.value.avgEntryPrice, price)))
  }

  /** A fill changes the holding of its own symbol so and no other, and leaves the peak to be updated. */
  lemma FillShapesHolding(p: Portfolio, order: Order, other: string)
    requires p.Valid() && Proper(order) && ApplyFill(p, order).Ok?
    ensures var next := ApplyFill(p, order).value;
            && next.equityPeak == p.equityPeak
            && (other != order.symbol ==> Find(next.positions, other) == Find(p.positions, other))
            && Holding(Find(p.positions, order.symbol), order, order.fillPrice.value,
              Find(next.positions, order.symbol))
  {
    hide Normalize, Find, Holding;
    var price := order.fillPrice.value;
    var held := Find(p.positions, order.symbol);
    assert p.PositionFor(order.symbol) == held;
    if order.side == Buy {
      BuyShapes(p, order, price, held, other);
    } else {
      SellShapes(p, order, price, held.value, other);
    }
  }

  lemma BuyShapes(p: Portfolio, order: Order, price: real, held: Option<Position>, other: string)
    requires p.Valid() && held == Find(p.positions, order.symbol) == p.PositionFor(order.symbol)
    requires order.side == Buy && order.quantity > 0.0 && ApplyBuy(p, order, price).Ok?
    ensures var next := ApplyBuy(p, order, price).value;
            && next.equityPeak == p.equityPeak
            && (other != order.symbol ==> Find(next.positions, other) == Find(p.positions, other))
            && Holding(held, order, price, Find(next.positions, order.symbol))
  {
    hide Normalize, Find, Replaced;
    if held.None? {
      FindSnoc(p.positions, Opened(order, price), order.symbol);
      FindSnoc(p.positions, Opened(order, price), other);
    } else {
      var averaged := Averaged(held.value, order, price);
      AveragedCost(held.value, order, price);
      FindReplaced(p.positions, order.symbol, averaged, order.symbol);
      FindReplaced(p.positions, order.symbol, averaged, other);
    }
  }

  lemma SellShapes(p: Portfolio, order: Order, price: real, held: Position, other: string)
    requires Some(held) == Find(p.positions, order.symbol) == p.PositionFor(order.symbol)
    requires order.side == Sell && ApplySell(p, order, price).Ok?
    ensures var next := ApplySell(p, order, price).value;
            && next.equityPeak == p.equityPeak
            && (other != order.symbol ==> Find(next.positions, other) == Find(p.positions, other))
            && Holding(Some(held), order, price, Find(next.positions, order.symbol))
  {
    hide Normalize, Find, Replaced, Without;
    var left := Remaining(held, order, price);
    FindWithout(p.positions, order.symbol, order.symbol);
    FindWithout(p.positions, order.symbol, other);
    FindReplaced(p.positions, order.symbol, left, order.symbol);
    FindReplaced(p.positions, order.symbol, left, other);
  }

  /**
   * Main result: a filled trade leaves the refreshed portfolio with this one order booked, the traded holding at the
   * fill price, and the peak raised to the new equity when that is higher.
   */
  lemma FilledTradeBooks(cfg: Config, desk: Desk, request: Request, market: Market, other: string)
    requires Inv(cfg, desk) && market.Valid()
    requires var result := Execute(cfg, desk, request, market).1;
             result.Ok? && result.value.order.Some? && result.value.order.value.status == Filled
    ensures var (after, result) := Execute(cfg, desk, request, market);
            var order := result.value.order.value;
            var seen := CheckRisk(cfg, desk, request, market).0.stored;
            && seen.Some? && after.stored.Some? && order.fillPrice.Some?
            && ShowsQuotes(Load(cfg, desk).value, market.quotes, seen.value)
            && var p, q := seen.value, after.stored.value;
               && q.cash == p.cash - Signed(order) * order.fillPrice.value
               && (other != order.symbol ==> Find(q.positions, other) == Find(p.positions, other))
               && Holding(Find(p.positions, order.symbol), order, order.fillPrice.value,
                 Find(q.positions, order.symbol))
               && q.equityPeak == Some(if p.equityPeak.value >= q.Equity() then p.equityPeak.value else q.Equity())
  {
    hide ShowsQuotes, Holding, Settle, Submit, CheckRisk, Execute, Inv, Authorised, Find;
    TradeSettles(cfg, desk, request, market);
    var (checked, decision) := CheckRisk(cfg, desk, request, market);
    var order := Submit(decision.value.proposal, market.broker, cfg.slippage).value;
    SettledBooks(cfg, checked, checked.stored.value, order, decision.value, other);
  }

  /** A trade that hands back an order settles it on the refreshed desk. */
  lemma TradeSettles(cfg: Config, desk: Desk, request: Request, market: Market)
    requires Inv(cfg, desk) && market.Valid()
    requires var result := Execute(cfg, desk, request, market).1; result.Ok? && result.value.order.Some?
    ensures var (checked, decision) := CheckRisk(cfg, desk, request, market);
            && checked.stored.Some? && checked.stored.value.Valid() && checked.stored.value.equityPeak.Some?
            && ShowsQuotes(Load(cfg, desk).value, market.quotes, checked.stored.value)
            && decision.Ok?
            && var order := Submit(decision.value.proposal, market.broker, cfg.slippage);
               && order.Ok? && Authorised(order.value, decision.value)
               && Execute(cfg, desk, request, market) == Settle(cfg, checked, order.value, decision.value)
  {
    hide ShowsQuotes, Assess, Submit, Settle, Decide, Normalize, Refreshed, Ledger, Replay;
    var before := Load(cfg, desk).value;
    RefreshSound(cfg, before, true, market.quotes);
    RefreshShowsQuotes(before, true, market.quotes);
    var p := Read(cfg, desk, true, market.quotes).0.stored.value;
    AssessedProposal(cfg, p, request, market.entry);
    SubmittedOrder(Assess(cfg, p, request, market.entry).value, market.broker, cfg.slippage);
  }

  lemma SettledBooks(cfg: Config, desk: Desk, p: Portfolio, order: Order, decision: RiskDecision, other: string)
    requires desk.stored == Some(p) && p.Valid() && p.equityPeak.Some? && Authorised(order, decision)
    requires var result := Settle(cfg, desk, order, decision).1;
             result.Ok? && result.value.order.Some? && result.value.order.value.status == Filled
    ensures order.fillPrice.Some?
    ensures Settle(cfg, desk, order, decision).1 == Ok(Execution(decision, Some(order)))
    ensures var after := Settle(cfg, desk, order, decision).0;
            && after.stored.Some?
            && var q := after.stored.value;
               && q.cash == p.cash - Signed(order) * order.fillPrice.value
               && (other != order.symbol ==> Find(q.positions, other) == Find(p.positions, other))
               && Holding(Find(p.positions, order.symbol), order, order.fillPrice.value,
                 Find(q.positions, order.symbol))
               && q.equityPeak == Some(if p.equityPeak.value >= q.Equity() then p.equityPeak.value else q.Equity())
  {
    hide ApplyFill, Holding, Moved;
    assert Settle(cfg, desk, order, decision).0.stored == Some(ApplyFill(p, order).value.WithPeakUpdated());
    FillShapesHolding(p, order, other);
    FillMovesShares(p, order, other);
  }

  /** What the accepted records of a trail bring in of one symbol. */
  function NetShares(seed: Portfolio, records: seq<OrderRecord>, symbol: string): real {
    if records == [] then 0.0
    else
      var front, order := records[..|records| - 1], records[|records| - 1].order;
      NetShares(seed, front, symbol)
      + if ApplyFill(Replay(seed, front), order).Ok? && order.symbol == symbol then Signed(order) else 0.0
  }

  /** What the accepted records of a trail cost, sales counted as refunds. */
  function NetSpent(seed: Portfolio, records: seq<OrderRecord>): real {
    if records == [] then 0.0
    else
      var front, order := records[..|records| - 1], records[|records| - 1].order;
      NetSpent(seed, front)
      + if ApplyFill(Replay(seed, front), order).Ok?
        && order.fillPrice.Some? then Signed(order) * order.fillPrice.value else 0.0
  }

  lemma {:induction false} ReplayShares(seed: Portfolio, records: seq<OrderRecord>, symbol: string)
    requires forall r | r in records :: Normalize(r.order.symbol) == r.order.symbol
    ensures Held(Replay(seed, records).positions, symbol) ==
            Held(seed.positions, symbol) + NetShares(seed, records, symbol)
  {
    hide Held, ApplyFill, Normalize, Signed;
    if records != [] {
      var front, last := records[..|records| - 1], records[|records| - 1];
      assert last in records;
      ReplayShares(seed, front, symbol);
      if ApplyFill(Replay(seed, front), last.order).Ok? {
        FillMovesShares(Replay(seed, front), last.order, symbol);
      }
    }
  }

  lemma {:induction false} ReplayCash(seed: Portfolio, records: seq<OrderRecord>)
    requires forall r | r in records :: Normalize(r.order.symbol) == r.order.symbol
    ensures Replay(seed, records).cash == seed.cash - NetSpent(seed, records)
  {
    hide Moved, ApplyFill, Normalize, Signed;
    if records != [] {
      var front, last := records[..|records| - 1], records[|records| - 1];
      assert last in records;
      ReplayCash(seed, front);
      if ApplyFill(Replay(seed, front), last.order).Ok? {
        FillMovesShares(Replay(seed, front), last.order, "");
      }
    }
  }

  /** The profit a fill books on this portfolio: nothing for a buy, the gain over the average entry for a sale. */
  function Profit(p: Portfolio, order: Order): real {
    var held := Find(p.positions, order.symbol);
    if order.side == Buy || held.None? || order.fillPrice.None? then 0.0
    else (order.fillPrice.value - held.value.avgEntryPrice) * order.quantity
  }

  /** The profit of all accepted records of a trail. */
  function NetProfit(seed: Portfolio, records: seq<OrderRecord>): real {
    if records == [] then 0.0
    else
      var front, order := records[..|records| - 1], records[|records| - 1].order;
      NetProfit(seed, front) + if ApplyFill(Replay(seed, front), order).Ok? then Profit(Replay(seed, front), order)
        else 0.0
  }

  lemma FillBooksProfit(p: Portfolio, order: Order)
    requires Normalize(order.symbol) == order.symbol && ApplyFill(p, order).Ok?
    ensures ApplyFill(p, order).value.realizedPnlToday == p.realizedPnlToday + Profit(p, order)
  {
    hide Normalize, Find, Averaged, Reduced, Replaced, Opened;
    assert p.PositionFor(order.symbol) == Find(p.positions, order.symbol);
    if order.side == Sell {
      assert ApplyFill(p, order) == ApplySell(p, order, order.fillPrice.value);
    } else {
      assert ApplyFill(p, order) == ApplyBuy(p, order, order.fillPrice.value);
    }
  }

  lemma {:induction false} ReplayProfit(seed: Portfolio, records: seq<OrderRecord>)
    requires forall r | r in records :: Normalize(r.order.symbol) == r.order.symbol
    ensures Replay(seed, records).realizedPnlToday == seed.realizedPnlToday + NetProfit(seed, records)
  {
    hide ApplyFill, Normalize, Profit;
    if records != [] {
      var front, last := records[..|records| - 1], records[|records| - 1];
      assert last in records;
      ReplayProfit(seed, front);
      if ApplyFill(Replay(seed, front), last.order).Ok? {
        FillBooksProfit(Replay(seed, front), last.order);
      }
    }
  }

  /**
   * After any run, the shares held of any symbol are exactly those the trail's accepted records bought less those they
   * sold, the cash is the starting cash less what they cost, and the realized profit is that of all their sales
   * together.
   */
  lemma TrailAccountsForEverything(cfg: Config, ops: seq<Operation>, symbol: string)
    requires cfg.Valid() && forall op | op in ops :: op.Valid()
    ensures var desk := Run(cfg, OPENING, ops);
            && Load(cfg, desk).Ok?
            && Held(Load(cfg, desk).value.positions, symbol) == NetShares(Seed(cfg), desk.records, symbol)
            && Load(cfg, desk).value.cash == cfg.startingCash - NetSpent(Seed(cfg), desk.records)
            && Load(cfg, desk).value.realizedPnlToday == NetProfit(Seed(cfg), desk.records)
  {
    EveryRunIsSound(cfg, ops);
    var desk := Run(cfg, OPENING, ops);
    var p, replayed := Load(cfg, desk).value, Replay(Seed(cfg), desk.records);
    assert forall r | r in desk.records ::
      Authorised(r.order, r.decision) && Normalize(r.order.symbol) == r.order.symbol;
    ReplayShares(Seed(cfg), desk.records, symbol);
    ReplayCash(Seed(cfg), desk.records);
    ReplayProfit(Seed(cfg), desk.records);
    BookedFind(p.positions, symbol);
    BookedFind(replayed.positions, symbol);
  }

  /** So the daily-loss halt weighs the sales of the whole trail, not of one day. */
  lemma LossHaltLooksAtWholeTrail(cfg: Config, ops: seq<Operation>, proposal: TradeProposal)
    requires cfg.Valid() && forall op | op in ops :: op.Valid()
    ensures var desk := Run(cfg, OPENING, ops);
            && Load(cfg, desk).Ok?
            && var p := Load(cfg, desk).value;
               DailyLossHalt in Violations(proposal, p, cfg.limits) <==>
                 proposal.side == Buy
                   && Reaches(-NetProfit(Seed(cfg), desk.records), cfg.limits.maxDailyLossPct, p.Equity())
  {
    hide Run, Violations, Replay, NetProfit, NetShares, NetSpent;
    TrailAccountsForEverything(cfg, ops, proposal.symbol);
    EveryRunIsSound(cfg, ops);
    ReportsEveryBrokenRule(proposal, Load(cfg, Run(cfg, OPENING, ops)).value, cfg.limits, DailyLossHalt);
  }
}
