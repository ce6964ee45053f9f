/** Applying order fills to a portfolio. */
module PortfolioUpdates {
  import opened Numeric
  import opened Text
  import opened Trading

  function ApplyFill(portfolio: Portfolio, order: Order): Result<Portfolio> {
    if order.status != Filled || order.fillPrice.None? then Err(ExecutionError)
    else if order.side == Buy then ApplyBuy(portfolio, order, order.fillPrice.value)
    else ApplySell(portfolio, order, order.fillPrice.value)
  }

  function Opened(order: Order, fillPrice: real): Position {
    Position(order.symbol, order.quantity, fillPrice, fillPrice)
  }

  function Averaged(existing: Position, order: Order, fillPrice: real): Position
    requires existing.quantity + order.quantity != 0.0
  {
    var total := existing.quantity + order.quantity;
    existing.(quantity := total,
              avgEntryPrice := (existing.Cost() + order.quantity * fillPrice) / total,
              currentPrice := fillPrice)
  }

  function ApplyBuy(portfolio: Portfolio, order: Order, fillPrice: real): Result<Portfolio> {
    var cost := order.quantity * fillPrice;
    if cost > portfolio.cash then Err(ExecutionError)
    else
      var existing := portfolio.PositionFor(order.symbol);
      if existing.None? then
        Ok(portfolio.(cash := portfolio.cash - cost, positions := portfolio.positions + [Opened(order, fillPrice)]))
      else if existing.value.quantity + order.quantity == 0.0 then Err(DivisionByZero)
      else
        Ok(portfolio.(cash := portfolio.cash - cost,
                      positions :=
                        Replaced(portfolio.positions, order.symbol, Averaged(existing.value, order, fillPrice))))
  }

  function Remaining(position: Position, order: Order, fillPrice: real): Position {
    position.(quantity := position.quantity - order.quantity, currentPrice := fillPrice)
  }

  function Reduced(ps: seq<Position>, order: Order, position: Position, fillPrice: real): seq<Position> {
    var left := Remaining(position, order, fillPrice);
    if left.quantity == 0.0 then Without(ps, order.symbol) else Replaced(ps, order.symbol, left)
  }

  function ApplySell(portfolio: Portfolio, order: Order, fillPrice: real): Result<Portfolio> {
    var held := portfolio.PositionFor(order.symbol);
    if held.None? || order.quantity > held.value.quantity then Err(ExecutionError)
    else
      var position := held.value;
      Ok(portfolio.(cash := portfolio.cash + order.quantity * fillPrice,
                    positions := Reduced(portfolio.positions, order, position, fillPrice),
                    realizedPnlToday :=
                      portfolio.realizedPnlToday + (fillPrice - position.avgEntryPrice) * order.quantity))
  }

  /** An order as the application creates it: normalised symbol, positive size and price. */
  predicate Proper(order: Order) {
    && Normalize(order.symbol) == order.symbol != ""
    && order.quantity > 0.0
    && (order.fillPrice.Some? ==> order.fillPrice.value > 0.0)
  }

  // Conservation.

  lemma AveragedCost(existing: Position, order: Order, fillPrice: real)
    requires existing.quantity + order.quantity != 0.0
    ensures Averaged(existing, order, fillPrice).Cost() == existing.Cost() + order.quantity * fillPrice
  {
    var total := existing.quantity + order.quantity;
    var money := existing.Cost() + order.quantity * fillPrice;
    assert total * (money / total) == money;
  }

  lemma BuyConserves(portfolio: Portfolio, order: Order, fillPrice: real)
    requires portfolio.Valid() && Normalize(order.symbol) == order.symbol
    requires ApplyBuy(portfolio, order, fillPrice).Ok?
    ensures ApplyBuy(portfolio, order, fillPrice).value.Book() == portfolio.Book()
  {
    var existing := portfolio.PositionFor(order.symbol);
    if existing.None? {
      TotalSnoc(portfolio.positions, Opened(order, fillPrice), BASIS);
    } else {
      AveragedCost(existing.value, order, fillPrice);
      ReplacedTotal(portfolio.positions, order.symbol, Averaged(existing.value, order, fillPrice), BASIS);
    }
  }

  lemma SoldCost(quantity: real, sold: real, entry: real, fillPrice: real)
    ensures (quantity - sold) * entry == quantity * entry - sold * fillPrice + (fillPrice - entry) * sold
  {
  }

  lemma ReducedBasis(ps: seq<Position>, order: Order, fillPrice: real)
    requires Distinct(ps) && Find(ps, order.symbol).Some?
    ensures var position := Find(ps, order.symbol).value;
            Total(Reduced(ps, order, position, fillPrice), BASIS) ==
              Total(ps, BASIS) - order.quantity * fillPrice + (fillPrice - position.avgEntryPrice) * order.quantity
  {
    var position := Find(ps, order.symbol).value;
    var left := Remaining(position, order, fillPrice);
    SoldCost(position.quantity, order.quantity, position.avgEntryPrice, fillPrice);
    assert left.Cost() ==
      position.Cost() - order.quantity * fillPrice + (fillPrice - position.avgEntryPrice) * order.quantity;
    if left.quantity == 0.0 {
      assert left.Cost() == 0.0;
      WithoutTotal(ps, order.symbol, BASIS);
    } else {
      ReplacedTotal(ps, order.symbol, left, BASIS);
    }
  }

  lemma SellConserves(portfolio: Portfolio, order: Order, fillPrice: real)
    requires portfolio.Valid() && Normalize(order.symbol) == order.symbol
    requires ApplySell(portfolio, order, fillPrice).Ok?
    ensures ApplySell(portfolio, order, fillPrice).value.Book() == portfolio.Book()
  {
    ReducedBasis(portfolio.positions, order, fillPrice);
  }

  /** Under a normalised symbol a fill never creates or destroys money. */
  lemma FillConservesMoney(portfolio: Portfolio, order: Order)
    requires portfolio.Valid() && Normalize(order.symbol) == order.symbol
    requires ApplyFill(portfolio, order).Ok?
    ensures ApplyFill(portfolio, order).value.Book() == portfolio.Book()
  {
    if order.side == Buy {
      BuyConserves(portfolio, order, order.fillPrice.value);
    } else {
      SellConserves(portfolio, order, order.fillPrice.value);
    }
  }

  /**
   * The normalised symbol is needed: positions are looked up by the normalised symbol but replaced by
   * the raw one, so averaging in under a raw symbol spends the cash and books no shares.
   */
  lemma RawSymbolBuyLosesCost(portfolio: Portfolio, order: Order, fillPrice: real)
    requires forall p | p in portfolio.positions :: Normalize(p.symbol) == p.symbol
    requires Normalize(order.symbol) != order.symbol && portfolio.PositionFor(order.symbol).Some?
    requires ApplyBuy(portfolio, order, fillPrice).Ok?
    ensures ApplyBuy(portfolio, order, fillPrice).value.Book() == portfolio.Book() - order.quantity * fillPrice
  {
    hide Normalize;
    assert forall p | p in portfolio.positions :: p.symbol != order.symbol;
    ReplacedAbsent(portfolio.positions, order.symbol,
      Averaged(portfolio.PositionFor(order.symbol).value, order, fillPrice));
  }

  /** Selling under a raw symbol credits the cash and books the profit, and removes no shares: the cost basis sold
   * is counted twice.
   */
  lemma RawSymbolSellCreatesMoney(portfolio: Portfolio, order: Order, fillPrice: real)
    requires forall p | p in portfolio.positions :: Normalize(p.symbol) == p.symbol
    requires Normalize(order.symbol) != order.symbol && ApplySell(portfolio, order, fillPrice).Ok?
    ensures var next := ApplySell(portfolio, order, fillPrice).value;
            && next.positions == portfolio.positions
            && next.Book() ==
              portfolio.Book() + order.quantity * portfolio.PositionFor(order.symbol).value.avgEntryPrice
  {
    hide Normalize;
    var position := portfolio.PositionFor(order.symbol).value;
    assert forall p | p in portfolio.positions :: p.symbol != order.symbol;
    ReplacedAbsent(portfolio.positions, order.symbol, Remaining(position, order, fillPrice));
    SoldCost(0.0, order.quantity, position.avgEntryPrice, fillPrice);
  }

  /** Opening a position conserves money under any symbol. */
  lemma OpeningConserves(portfolio: Portfolio, order: Order, fillPrice: real)
    requires portfolio.PositionFor(order.symbol).None? && ApplyBuy(portfolio, order, fillPrice).Ok?
    ensures ApplyBuy(portfolio, order, fillPrice).value.Book() == portfolio.Book()
  {
    TotalSnoc(portfolio.positions, Opened(order, fillPrice), BASIS);
  }

  /** Where a fill neither creates nor destroys money. */
  predicate Conserving(portfolio: Portfolio, order: Order) {
    || Normalize(order.symbol) == order.symbol
    || (order.side == Buy && portfolio.PositionFor(order.symbol).None?)
  }

  /**
   * Main result: of all fills that apply, those that conserve money are exactly the ones under a normalised symbol and
   * the buys that open a position.
   */
  lemma FillConservesExactly(portfolio: Portfolio, order: Order)
    requires portfolio.Valid() && forall p | p in portfolio.positions :: Normalize(p.symbol) == p.symbol
    requires order.quantity > 0.0 && (order.fillPrice.Some? ==> order.fillPrice.value > 0.0)
    requires ApplyFill(portfolio, order).Ok?
    ensures ApplyFill(portfolio, order).value.Book() == portfolio.Book() <==> Conserving(portfolio, order)
  {
    hide Normalize;
    var price := order.fillPrice.value;
    if Normalize(order.symbol) == order.symbol {
      FillConservesMoney(portfolio, order);
    } else if order.side == Sell {
      RawSymbolSellCreatesMoney(portfolio, order, price);
      ProductPositive(order.quantity, portfolio.PositionFor(order.symbol).value.avgEntryPrice);
    } else if portfolio.PositionFor(order.symbol).None? {
      OpeningConserves(portfolio, order, price);
    } else {
      RawSymbolBuyLosesCost(portfolio, order, price);
      ProductPositive(order.quantity, price);
    }
  }

  /** One share sold under a padded name leaves ten held and 50 more on the books, as often as it is repeated. */
  lemma PaddedSellCreatesMoney()
    ensures var before := Portfolio(100.0, [Position("A", 10.0, 50.0, 60.0)], None, 0.0);
            var order := Order(" A", Sell, 1.0, None, None, Filled, Some(60.0));
            && before.Valid() && ApplyFill(before, order) == Ok(Portfolio(160.0, before.positions, None, 10.0))
            && ApplyFill(before, order).value.Book() == before.Book() + 50.0
  {
    var before := Portfolio(100.0, [Position("A", 10.0, 50.0, 60.0)], None, 0.0);
    var order := Order(" A", Sell, 1.0, None, None, Filled, Some(60.0));
    assert " A"[1..] == "A" && "A"[1..] == "" && "A"[..1] == "A";
    assert Normalize("A") == "A" && Normalize(" A") == "A";
    assert before.positions[1..] == [];
    assert before.PositionFor(" A") == Some(before.positions[0]);
    RawSymbolSellCreatesMoney(before, order, 60.0);
  }

  // What a fill keeps.

  lemma WeightedMeanPositive(existing: Position, order: Order, fillPrice: real)
    requires existing.Valid() && order.quantity > 0.0 && fillPrice > 0.0
    ensures Averaged(existing, order, fillPrice).Valid()
  {
    ProductPositive(existing.quantity, existing.avgEntryPrice);
    ProductPositive(order.quantity, fillPrice);
    var total := existing.quantity + order.quantity;
    var money := existing.Cost() + order.quantity * fillPrice;
    QuotientAtMost(money, total, 0.0);
  }

  lemma BuyKeepsValid(portfolio: Portfolio, order: Order, fillPrice: real)
    requires portfolio.Valid() && Proper(order) && fillPrice > 0.0
    requires ApplyBuy(portfolio, order, fillPrice).Ok?
    ensures ApplyBuy(portfolio, order, fillPrice).value.Valid()
    ensures var ps := ApplyBuy(portfolio, order, fillPrice).value.positions;
            && |ps| == |portfolio.positions| + (if portfolio.PositionFor(order.symbol).None? then 1 else 0)
            && forall p | p in ps :: p.symbol == order.symbol || p in portfolio.positions
  {
    var existing := portfolio.PositionFor(order.symbol);
    if existing.None? {
      assert forall p | p in portfolio.positions :: p.symbol != order.symbol;
    } else {
      var merged := Averaged(existing.value, order, fillPrice);
      WeightedMeanPositive(existing.value, order, fillPrice);
      ReplacedKeeps(portfolio.positions, order.symbol, merged);
      DistinctBySymbols(portfolio.positions, Replaced(portfolio.positions, order.symbol, merged));
    }
  }

  lemma SellKeepsValid(portfolio: Portfolio, order: Order, fillPrice: real)
    requires portfolio.Valid() && Proper(order) && fillPrice > 0.0
    requires ApplySell(portfolio, order, fillPrice).Ok?
    ensures ApplySell(portfolio, order, fillPrice).value.Valid()
    ensures var next := ApplySell(portfolio, order, fillPrice).value;
            && next.cash > 0.0
            && |next.positions| <= |portfolio.positions|
            && forall p | p in next.positions :: p.symbol == order.symbol || p in portfolio.positions
  {
    var position := portfolio.PositionFor(order.symbol).value;
    ProductPositive(order.quantity, fillPrice);
    ReducedKeeps(portfolio.positions, order, position, fillPrice);
  }

  lemma ReducedKeeps(ps: seq<Position>, order: Order, position: Position, fillPrice: real)
    requires Distinct(ps) && (forall p | p in ps :: p.Valid()) && fillPrice > 0.0
    requires Find(ps, order.symbol) == Some(position) && order.quantity <= position.quantity
    ensures var next := Reduced(ps, order, position, fillPrice);
            && Distinct(next) && |next| <= |ps|
            && (forall p | p in next :: p.Valid())
            && (forall p | p in next :: p.symbol == order.symbol || p in ps)
  {
    var left := Remaining(position, order, fillPrice);
    WithoutKeeps(ps, order.symbol);
    ReplacedKeeps(ps, order.symbol, left);
    DistinctBySymbols(ps, Replaced(ps, order.symbol, left));
  }

  // What a fill does not look at: current prices and the peak.

  function Face(p: Position): Position { p.(currentPrice := p.avgEntryPrice) }

  function Booked(ps: seq<Position>): seq<Position> {
    if ps == [] then [] else [Face(ps[0])] + Booked(ps[1..])
  }

  /** Cash, holdings with their entry prices, and realized profit. */
  function Ledger(p: Portfolio): Portfolio { p.(positions := Booked(p.positions), equityPeak := None) }

  lemma {:induction false} BookedFind(ps: seq<Position>, symbol: string)
    ensures var f, g := Find(Booked(ps), symbol), Find(ps, symbol);
            f.Some? == g.Some? && (g.Some? ==> f.value == Face(g.value))
  {
    if ps != [] {
      BookedFind(ps[1..], symbol);
    }
  }

  lemma {:induction false} BookedUpdates(ps: seq<Position>, symbol: string, p: Position, q: Position)
    requires Face(p) == Face(q)
    ensures Booked(Replaced(Booked(ps), symbol, q)) == Booked(Replaced(ps, symbol, p))
    ensures Booked(Without(Booked(ps), symbol)) == Booked(Without(ps, symbol))
    ensures Booked(Booked(ps) + [q]) == Booked(ps + [p])
  {
    if ps == [] {
      assert ps + [p] == [p] && Booked(ps) + [q] == [q];
    } else {
      assert Booked(ps)[1..] == Booked(ps[1..]);
      BookedUpdates(ps[1..], symbol, p, q);
      assert (ps + [p])[1..] == ps[1..] + [p];
      assert (Booked(ps) + [q])[1..] == Booked(ps[1..]) + [q];
    }
  }

  lemma {:induction false} BookedRepriced(ps: seq<Position>, prices: map<string, real>)
    ensures Booked(Repriced(ps, prices)) == Booked(ps)
  {
    if ps != [] {
      BookedRepriced(ps[1..], prices);
    }
  }

  /** Two results are both refusals, or both accepted with one ledger. */
  ghost predicate SameOutcome(x: Result<Portfolio>, y: Result<Portfolio>) {
    x.Ok? == y.Ok? && (x.Ok? ==> Ledger(x.value) == Ledger(y.value))
  }

  lemma AveragedOnLedger(x: Position, order: Order, f: real)
    requires x.quantity + order.quantity != 0.0
    ensures Face(Averaged(Face(x), order, f)) == Face(Averaged(x, order, f))
  {
    assert Face(x).Cost() == x.Cost();
  }

  lemma BuyOnLedger(p: Portfolio, order: Order, f: real)
    ensures SameOutcome(ApplyBuy(Ledger(p), order, f), ApplyBuy(p, order, f))
  {
    BookedFind(p.positions, Normalize(order.symbol));
    var x := p.PositionFor(order.symbol);
    if x.None? {
      BookedUpdates(p.positions, order.symbol, Opened(order, f), Opened(order, f));
    } else if x.value.quantity + order.quantity != 0.0 {
      AveragedOnLedger(x.value, order, f);
      BookedUpdates(p.positions, order.symbol, Averaged(x.value, order, f), Averaged(Face(x.value), order, f));
    }
  }

  lemma SellOnLedger(p: Portfolio, order: Order, f: real)
    ensures SameOutcome(ApplySell(Ledger(p), order, f), ApplySell(p, order, f))
  {
    BookedFind(p.positions, Normalize(order.symbol));
    var x, y := p.PositionFor(order.symbol), Ledger(p).PositionFor(order.symbol);
    if x.Some? {
      BookedUpdates(p.positions, order.symbol, Remaining(x.value, order, f), Remaining(y.value, order, f));
    }
  }

  lemma FillOnLedger(p: Portfolio, order: Order)
    ensures SameOutcome(ApplyFill(Ledger(p), order), ApplyFill(p, order))
  {
    if order.status == Filled && order.fillPrice.Some? {
      BuyOnLedger(p, order, order.fillPrice.value);
      SellOnLedger(p, order, order.fillPrice.value);
    }
  }

  /** Portfolios that agree on the ledger accept the same fills and go on agreeing. */
  lemma FillDependsOnLedgerOnly(p: Portfolio, q: Portfolio, order: Order)
    requires Ledger(p) == Ledger(q)
    ensures SameOutcome(ApplyFill(p, order), ApplyFill(q, order))
  {
    FillOnLedger(p, order);
    FillOnLedger(q, order);
  }
}
