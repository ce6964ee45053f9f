/**
 * The trading state machine. Each use case is one step over the stored
 * portfolio and the append-only audit trail; market answers are parameters.
 */
module Pipeline {
  import opened Numeric
  import opened Text
  import opened Trading
  import opened PortfolioUpdates
  import opened RiskEngine
  import opened Sizing

  datatype Config = Config(startingCash: real, limits: RiskLimits, slippage: real) {
    predicate Valid() { startingCash > 0.0 && limits.Valid() && 0.0 <= slippage <= 0.01 }
  }

  datatype OrderRecord = OrderRecord(order: Order, decision: RiskDecision)

  /** `stored` is None until the first save. */
  datatype Desk = Desk(stored: Option<Portfolio>, records: seq<OrderRecord>)

  datatype Request = Request(
    symbol: string,
    side: OrderSide,
    quantity: Option<real>,
    stopLoss: Option<real>,
    takeProfit: Option<real>)

  /** What the data source answers during one use case; a symbol without recent bars has no price. */
  datatype Market = Market(quotes: map<string, real>, entry: Option<real>, broker: Option<real>) {
    predicate Valid() {
      && (forall s | s in quotes :: quotes[s] > 0.0)
      && (entry.Some? ==> entry.value > 0.0)
      && (broker.Some? ==> broker.value > 0.0)
    }
  }

  /** `order` is None when the gate refused the proposal. */
  datatype Execution = Execution(decision: RiskDecision, order: Option<Order>)

  // The steps.

  function Seed(cfg: Config): Portfolio { Portfolio(cfg.startingCash, [], None, 0.0) }

  function Load(cfg: Config, desk: Desk): Result<Portfolio> {
    match desk.stored
    case None => Ok(Seed(cfg))
    case Some(p) => if p.Valid() then Ok(p) else Err(ValidationError)
  }

  function Refreshed(p: Portfolio, refresh: bool, quotes: map<string, real>): Portfolio {
    (if refresh && p.positions != [] then p.WithPrices(quotes) else p).WithPeakUpdated()
  }

  function Read(cfg: Config, desk: Desk, refresh: bool, quotes: map<string, real>): (Desk, Result<Portfolio>) {
    var loaded := Load(cfg, desk);
    if loaded.Err? then (desk, loaded)
    else
      var p := Refreshed(loaded.value, refresh, quotes);
      (desk.(stored := Some(p)), Ok(p))
  }

  /** Sizing, proposal and gate, on an already refreshed portfolio. */
  function Assess(cfg: Config, portfolio: Portfolio, request: Request, entry: Option<real>): Result<RiskDecision> {
    var symbol := Normalize(request.symbol);
    if entry.None? then Err(InsufficientHistory)
    else
      var quantity :=
        ChooseQuantity(request.quantity, request.side, symbol, request.stopLoss, portfolio, cfg.limits, entry.value);
      if quantity.Err? then Err(quantity.error)
      else
        var proposal := MakeProposal(
          TradeProposal(symbol, request.side, quantity.value, entry.value, request.stopLoss, request.takeProfit));
        if proposal.Err? then Err(proposal.error) else Ok(Decide(proposal.value, portfolio, cfg.limits))
  }

  function CheckRisk(cfg: Config, desk: Desk, request: Request, market: Market): (Desk, Result<RiskDecision>) {
    var (next, read) := Read(cfg, desk, true, market.quotes);
    if read.Err? then (next, Err(read.error)) else (next, Assess(cfg, read.value, request, market.entry))
  }

  /** Slippage against the trader, quantised to four decimals. */
  function FillPrice(side: OrderSide, price: real, slippage: real): real {
    if side == Buy then RoundTo(price * (1.0 + slippage), 10_000.0) else RoundTo(price * (1.0 - slippage), 10_000.0)
  }

  /** The paper broker. A price that rounds to zero fails the order's own validation. */
  function Submit(proposal: TradeProposal, price: Option<real>, slippage: real): Result<Order> {
    var base := Order(proposal.symbol, proposal.side, proposal.quantity, proposal.stopLoss, proposal.takeProfit,
      Rejected, None);
    if price.None? then Ok(base)
    else
      var fill := FillPrice(proposal.side, price.value, slippage);
      if fill > 0.0 then Ok(base.(status := Filled, fillPrice := Some(fill))) else Err(ValidationError)
  }

  /** After the broker answered: apply, save and append, or append what could not be applied. */
  function Settle(cfg: Config, desk: Desk, order: Order, decision: RiskDecision): (Desk, Result<Execution>) {
    var logged := desk.(records := desk.records + [OrderRecord(order, decision)]);
    if order.status != Filled then (logged, Ok(Execution(decision, Some(order))))
    else
      var loaded := Load(cfg, desk);
      if loaded.Err? then (desk, Err(loaded.error))
      else
        var applied := ApplyFill(loaded.value, order);
        if applied.Ok? then
          (logged.(stored := Some(applied.value.WithPeakUpdated())), Ok(Execution(decision, Some(order))))
        else if applied.error == ExecutionError then (logged, Err(ExecutionError))
        else (desk, Err(applied.error))
  }

  function Execute(cfg: Config, desk: Desk, request: Request, market: Market): (Desk, Result<Execution>) {
    var (checked, decision) := CheckRisk(cfg, desk, request, market);
    if decision.Err? then (checked, Err(decision.error))
    else if !decision.value.approved then (checked, Ok(Execution(decision.value, None)))
    else
      var order := Submit(decision.value.proposal, market.broker, cfg.slippage);
      if order.Err? then (checked, Err(order.error)) else Settle(cfg, checked, order.value, decision.value)
  }

  // What a refresh shows and what an order asks for, stated without the steps above.

  /** The price a holding is shown at: its quote when there is one, else the price it had. */
  function PriceNow(p: Position, quotes: map<string, real>): real {
    if p.symbol in quotes then quotes[p.symbol] else p.currentPrice
  }

  /** What the holdings are worth at those prices. */
  function Worth(ps: seq<Position>, quotes: map<string, real>): real {
    if ps == [] then 0.0
    else
      var last := ps[|ps| - 1];
      Worth(ps[..|ps| - 1], quotes) + last.quantity * PriceNow(last, quotes)
  }

  /** `after` is `before` with every holding at its latest price and the peak raised to the equity when that is
   * higher.
   */
  predicate ShowsQuotes(before: Portfolio, quotes: map<string, real>, after: Portfolio) {
    && after.cash == before.cash && after.realizedPnlToday == before.realizedPnlToday
    && |after.positions| == |before.positions|
    && (forall i | 0 <= i < |before.positions| ::
          var p, q := before.positions[i], after.positions[i];
          && q.symbol == p.symbol && q.quantity == p.quantity && q.avgEntryPrice == p.avgEntryPrice
          && q.currentPrice == PriceNow(p, quotes))
    && after.Equity() == before.cash + Worth(before.positions, quotes)
    && after.equityPeak.Some?
    && after.equityPeak.value ==
      (if before.equityPeak.Some? && before.equityPeak.value >= after.Equity() then before.equityPeak.value
       else after.Equity())
  }

  lemma {:induction false} RepricedAt(ps: seq<Position>, quotes: map<string, real>)
    ensures |Repriced(ps, quotes)| == |ps|
    ensures forall i | 0 <= i < |ps| :: Repriced(ps, quotes)[i] == ps[i].(currentPrice := PriceNow(ps[i], quotes))
  {
    if ps != [] {
      RepricedAt(ps[1..], quotes);
    }
  }

  lemma {:induction false} WorthCons(ps: seq<Position>, quotes: map<string, real>)
    requires ps != []
    ensures Worth(ps, quotes) == ps[0].quantity * PriceNow(ps[0], quotes) + Worth(ps[1..], quotes)
  {
    hide PriceNow;
    var n := |ps|;
    if n > 1 {
      WorthCons(ps[..n - 1], quotes);
      assert ps[..n - 1][1..] == ps[1..][..n - 2];
    }
  }

  lemma {:induction false} RepricedWorth(ps: seq<Position>, quotes: map<string, real>)
    ensures Total(Repriced(ps, quotes), WORTH) == Worth(ps, quotes)
  {
    if ps != [] {
      WorthCons(ps, quotes);
      RepricedWorth(ps[1..], quotes);
      assert Repriced(ps, quotes)[1..] == Repriced(ps[1..], quotes);
    }
  }

  lemma {:induction false} UnquotedKeeps(ps: seq<Position>)
    ensures Repriced(ps, map[]) == ps
  {
    if ps != [] {
      UnquotedKeeps(ps[1..]);
    }
  }

  /** Main result: a refresh shows every quoted holding at its quote and the rest as stored, equity and peak
   * included.
   */
  lemma RefreshShowsQuotes(p: Portfolio, refresh: bool, quotes: map<string, real>)
    ensures ShowsQuotes(p, if refresh then quotes else map[], Refreshed(p, refresh, quotes))
  {
    var seen := if refresh then quotes else map[];
    RepricedAt(p.positions, seen);
    RepricedWorth(p.positions, seen);
    UnquotedKeeps(p.positions);
  }

  /** A fill at the quote moved by the slippage against the trader, to the nearest ten-thousandth. */
  ghost predicate FillsAt(side: OrderSide, quote: real, slippage: real, fill: real) {
    match side
    case Buy => Quantised(quote * (1.0 + slippage), fill, 10_000.0)
    case Sell => Quantised(quote * (1.0 - slippage), fill, 10_000.0)
  }

  /** The order an approved decision leads to: the proposal's own terms, filled against the trader or rejected
   * unpriced.
   */
  ghost predicate PlacedFor(cfg: Config, decision: RiskDecision, quote: Option<real>, order: Order) {
    && decision.approved
    && order.symbol == decision.proposal.symbol && order.side == decision.proposal.side
    && order.quantity == decision.proposal.quantity
    && order.stopLoss == decision.proposal.stopLoss && order.takeProfit == decision.proposal.takeProfit
    && (quote.None? ==> order.status == Rejected && order.fillPrice.None?)
    && (quote.Some? ==>
          && order.status == Filled && order.fillPrice.Some? && order.fillPrice.value > 0.0
          && FillsAt(order.side, quote.value, cfg.slippage, order.fillPrice.value))
  }

  lemma SubmittedAsQuoted(cfg: Config, decision: RiskDecision, quote: Option<real>)
    requires decision.approved && Submit(decision.proposal, quote, cfg.slippage).Ok?
    ensures PlacedFor(cfg, decision, quote, Submit(decision.proposal, quote, cfg.slippage).value)
  {
    hide FillPrice, FillsAt;
    if quote.Some? {
      FilledAsQuoted(decision.proposal.side, quote.value, cfg.slippage);
    }
  }

  lemma FilledAsQuoted(side: OrderSide, quote: real, slippage: real)
    ensures FillsAt(side, quote, slippage, FillPrice(side, quote, slippage))
  {
    hide RoundTo, Quantised;
    RoundToQuantises(quote * (1.0 + slippage), 10_000.0);
    RoundToQuantises(quote * (1.0 - slippage), 10_000.0);
  }

  // The desk as the application holds it.

  class TradingDesk {
    const cfg: Config
    var stored: Option<Portfolio>
    var records: seq<OrderRecord>

    function State(): Desk
      reads this
    {
      Desk(stored, records)
    }

    constructor (cfg: Config)
      ensures this.cfg == cfg && State() == Desk(None, [])
    {
      this.cfg := cfg;
      stored, records := None, [];
    }

    method LatestPrices(symbols: seq<string>, quotes: map<string, real>) returns (prices: map<string, real>)
      ensures prices == map s | s in symbols && s in quotes :: quotes[s]
    {
      prices := map[];
      for i := 0 to |symbols|
        invariant prices == map s | s in symbols[..i] && s in quotes :: quotes[s]
      {
        if symbols[i] in quotes {
          prices := prices[symbols[i] := quotes[symbols[i]]];
        }
      }
    }

    method GetPortfolio(refresh: bool, quotes: map<string, real>) returns (result: Result<Portfolio>)
      modifies this
      ensures (State(), result) == Read(cfg, old(State()), refresh, quotes)
      ensures records == old(records) && (result.Ok? ==> stored == Some(result.value))
      ensures old(stored.None?) ==>
                && result.Ok?
                && ShowsQuotes(Portfolio(cfg.startingCash, [], None, 0.0), if refresh then quotes else map[],
                               result.value)
      ensures old(stored.Some?) ==>
                && (result.Ok? <==> old(stored.value.Valid()))
                && (result.Ok? ==>
                      ShowsQuotes(old(stored.value), if refresh then quotes else map[], result.value))
    {
      var loaded := Load(cfg, State());
      if loaded.Err? {
        return loaded;
      }
      var portfolio := loaded.value;
      RefreshShowsQuotes(portfolio, refresh, quotes);
      if refresh && portfolio.positions != [] {
        var prices := LatestPrices(Symbols(portfolio.positions), quotes);
        RepricedWhereAgreed(portfolio.positions, prices, quotes);
        portfolio := portfolio.WithPrices(prices);
      }
      portfolio := portfolio.WithPeakUpdated();
      stored := Some(portfolio);
      result := Ok(portfolio);
    }

    method CheckTradeRisk(request: Request, market: Market) returns (result: Result<RiskDecision>)
      modifies this
      ensures (State(), result) == CheckRisk(cfg, old(State()), request, market)
      ensures records == old(records)
    {
      var symbol := Normalize(request.symbol);
      var read := GetPortfolio(true, market.quotes);
      if read.Err? {
        return Err(read.error);
      }
      var portfolio := read.value;
      if market.entry.None? {
        return Err(InsufficientHistory);
      }
      var entryPrice := market.entry.value;
      var quantity: real;
      if request.quantity.Some? {
        quantity := request.quantity.value;
      } else if request.side == Sell {
        var position := portfolio.PositionFor(symbol);
        quantity := if position.Some? then position.value.quantity else 1.0;
      } else if request.stopLoss.Some? {
        var size := ComputedSize(portfolio, cfg.limits, entryPrice, request.stopLoss.value);
        if size.Err? {
          return Err(size.error);
        }
        quantity := if size.value >= 1 then size.value as real else 1.0;
      } else {
        quantity := 1.0;
      }
      var proposal := MakeProposal(
        TradeProposal(symbol, request.side, quantity, entryPrice, request.stopLoss, request.takeProfit));
      if proposal.Err? {
        return Err(proposal.error);
      }
      var decision := EvaluateTrade(proposal.value, portfolio, cfg.limits);
      return Ok(decision);
    }

    method ExecuteTrade(request: Request, market: Market) returns (result: Result<Execution>)
      modifies this
      ensures (State(), result) == Execute(cfg, old(State()), request, market)
      ensures old(records) <= records && |records| <= |old(records)| + 1
      ensures forall r | r in records[|old(records)|..] :: PlacedFor(cfg, r.decision, market.broker, r.order)
      ensures result.Ok? && result.value.order.Some? ==>
                && PlacedFor(cfg, result.value.decision, market.broker, result.value.order.value)
                && records == old(records) + [OrderRecord(result.value.order.value, result.value.decision)]
    {
      hide CheckRisk, ApplyFill, PlacedFor, Submit;
      var checked := CheckTradeRisk(request, market);
      if checked.Err? {
        return Err(checked.error);
      }
      var decision := checked.value;
      if !decision.approved {
        return Ok(Execution(decision, None));
      }
      var submitted := Submit(decision.proposal, market.broker, cfg.slippage);
      if submitted.Err? {
        return Err(submitted.error);
      }
      var order := submitted.value;
      SubmittedAsQuoted(cfg, decision, market.broker);
      if order.status == Filled {
        var loaded := Load(cfg, State());
        if loaded.Err? {
          return Err(loaded.error);
        }
        var applied := ApplyFill(loaded.value, order);
        if applied.Err? {
          if applied.error == ExecutionError {
            records := records + [OrderRecord(order, decision)];
          }
          return Err(applied.error);
        }
        stored := Some(applied.value.WithPeakUpdated());
      }
      records := records + [OrderRecord(order, decision)];
      return Ok(Execution(decision, Some(order)));
    }
  }

  lemma {:induction false} RepricedWhereAgreed(ps: seq<Position>, prices: map<string, real>, quotes: map<string, real>)
    requires forall s | s in Symbols(ps) :: (s in prices <==> s in quotes) && (s in prices ==> prices[s] == quotes[s])
    ensures Repriced(ps, prices) == Repriced(ps, quotes)
  {
    if ps != [] {
      assert Symbols(ps)[0] in Symbols(ps);
      RepricedWhereAgreed(ps[1..], prices, quotes);
    }
  }
}
