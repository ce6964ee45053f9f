/** Portfolio, limits, proposals and orders. Money is exact. */
module Trading {
  import opened Numeric
  import opened Text

  datatype Error = ExecutionError | InsufficientHistory | ValueError | ValidationError | DivisionByZero

  datatype Result<+T> = Ok(value: T) | Err(error: Error)

  datatype OrderSide = Buy | Sell

  datatype Position = Position(symbol: string, quantity: real, avgEntryPrice: real, currentPrice: real) {
    function MarketValue(): real { quantity * currentPrice }

    function Cost(): real { quantity * avgEntryPrice }

    /** The field rules a stored position is validated against. */
    predicate Valid() { symbol != "" && quantity > 0.0 && avgEntryPrice > 0.0 && currentPrice > 0.0 }
  }

  function Find(ps: seq<Position>, symbol: string): (found: Option<Position>)
    ensures found.Some? ==> found.value in ps && found.value.symbol == symbol
    ensures found.None? ==> forall p | p in ps :: p.symbol != symbol
  {
    if ps == [] then None else if ps[0].symbol == symbol then Some(ps[0]) else Find(ps[1..], symbol)
  }

  function Replaced(ps: seq<Position>, symbol: string, p: Position): seq<Position> {
    if ps == [] then [] else [if ps[0].symbol == symbol then p else ps[0]] + Replaced(ps[1..], symbol, p)
  }

  function Without(ps: seq<Position>, symbol: string): seq<Position> {
    if ps == [] then []
    else if ps[0].symbol == symbol then Without(ps[1..], symbol)
    else [ps[0]] + Without(ps[1..], symbol)
  }

  function Repriced(ps: seq<Position>, prices: map<string, real>): seq<Position> {
    if ps == [] then []
    else
      [if ps[0].symbol in prices then ps[0].(currentPrice := prices[ps[0].symbol]) else ps[0]]
        + Repriced(ps[1..], prices)
  }

  predicate Distinct(ps: seq<Position>) {
    forall i, j | 0 <= i < j < |ps| :: ps[i].symbol != ps[j].symbol
  }

  function Total(ps: seq<Position>, worth: Position -> real): real {
    if ps == [] then 0.0 else worth(ps[0]) + Total(ps[1..], worth)
  }

  const WORTH: Position -> real := (p: Position) => p.MarketValue()

  const BASIS: Position -> real := (p: Position) => p.Cost()

  datatype Portfolio = Portfolio(cash: real, positions: seq<Position>, equityPeak: Option<real>,
    realizedPnlToday: real) {
    function TotalMarketValue(): real { Total(positions, WORTH) }

    function Equity(): real { cash + TotalMarketValue() }

    function DrawdownPct(): real {
      if equityPeak.None? || equityPeak.value == 0.0 then 0.0
      else Max((1.0 - Equity() / equityPeak.value) * 100.0, 0.0)
    }

    function PositionFor(symbol: string): Option<Position> { Find(positions, Normalize(symbol)) }

    function WithPrices(prices: map<string, real>): Portfolio { this.(positions := Repriced(positions, prices)) }

    function WithPeakUpdated(): Portfolio {
      this.(equityPeak := Some(if equityPeak.None? then Equity() else Max(equityPeak.value, Equity())))
    }

    /** What loading a stored portfolio validates; updates through copies skip it. */
    predicate Valid() {
      && cash >= 0.0
      && (forall p | p in positions :: p.Valid())
      && (equityPeak.Some? ==> equityPeak.value > 0.0)
      && Distinct(positions)
    }

    /** What no fill and no price refresh may change: money committed, less profit taken. */
    function Book(): real { cash + Total(positions, BASIS) - realizedPnlToday }
  }

  datatype RiskLimits = RiskLimits(
    maxRiskPerTradePct: real,
    maxPositionPct: real,
    maxTotalExposurePct: real,
    maxPositions: int,
    maxDailyLossPct: real,
    maxDrawdownPct: real,
    requireStopLoss: bool)
  {
    predicate Valid() {
      && 0.0 < maxRiskPerTradePct <= 10.0
      && 0.0 < maxPositionPct <= 100.0
      && 0.0 < maxTotalExposurePct <= 200.0
      && 1 <= maxPositions <= 100
      && 0.0 < maxDailyLossPct <= 50.0
      && 0.0 < maxDrawdownPct <= 90.0
    }
  }

  datatype TradeProposal = TradeProposal(
    symbol: string,
    side: OrderSide,
    quantity: real,
    entryPrice: real,
    stopLoss: Option<real>,
    takeProfit: Option<real>)
  {
    function Notional(): real { quantity * entryPrice }

    predicate Valid() {
      && 1 <= |symbol| <= 12
      && quantity > 0.0 && entryPrice > 0.0
      && (stopLoss.Some? ==> stopLoss.value > 0.0)
      && (takeProfit.Some? ==> takeProfit.value > 0.0)
    }
  }

  /** Constructing a proposal validates its fields, then normalises the symbol. */
  function MakeProposal(raw: TradeProposal): Result<TradeProposal> {
    if raw.Valid() then Ok(raw.(symbol := Normalize(raw.symbol))) else Err(ValidationError)
  }

  datatype OrderStatus = Submitted | Filled | Rejected

  datatype Order = Order(
    symbol: string,
    side: OrderSide,
    quantity: real,
    stopLoss: Option<real>,
    takeProfit: Option<real>,
    status: OrderStatus,
    fillPrice: Option<real>)

  // Facts about lists of positions.

  lemma {:induction false} ReplacedTotal(ps: seq<Position>, symbol: string, p: Position, worth: Position -> real)
    requires Distinct(ps) && Find(ps, symbol).Some?
    ensures Total(Replaced(ps, symbol, p), worth) == Total(ps, worth) - worth(Find(ps, symbol).value) + worth(p)
  {
    if ps[0].symbol == symbol {
      ReplacedAbsent(ps[1..], symbol, p);
    } else {
      ReplacedTotal(ps[1..], symbol, p, worth);
    }
  }

  lemma {:induction false} ReplacedAbsent(ps: seq<Position>, symbol: string, p: Position)
    requires forall q | q in ps :: q.symbol != symbol
    ensures Replaced(ps, symbol, p) == ps && Without(ps, symbol) == ps
  {
    if ps != [] {
      ReplacedAbsent(ps[1..], symbol, p);
      assert ps == [ps[0]] + ps[1..];
    }
  }

  lemma {:induction false} WithoutTotal(ps: seq<Position>, symbol: string, worth: Position -> real)
    requires Distinct(ps) && Find(ps, symbol).Some?
    ensures Total(Without(ps, symbol), worth) == Total(ps, worth) - worth(Find(ps, symbol).value)
  {
    if ps[0].symbol == symbol {
      ReplacedAbsent(ps[1..], symbol, ps[0]);
    } else {
      WithoutTotal(ps[1..], symbol, worth);
    }
  }

  lemma {:induction false} TotalSnoc(ps: seq<Position>, p: Position, worth: Position -> real)
    ensures Total(ps + [p], worth) == Total(ps, worth) + worth(p)
  {
    if ps == [] {
      assert ps + [p] == [p];
    } else {
      TotalSnoc(ps[1..], p, worth);
      assert (ps + [p])[1..] == ps[1..] + [p];
    }
  }

  function Symbols(ps: seq<Position>): (ss: seq<string>)
    ensures |ss| == |ps| && forall i | 0 <= i < |ps| :: ss[i] == ps[i].symbol
  {
    if ps == [] then [] else [ps[0].symbol] + Symbols(ps[1..])
  }

  lemma {:induction false} ReplacedKeeps(ps: seq<Position>, symbol: string, p: Position)
    requires p.symbol == symbol
    ensures Symbols(Replaced(ps, symbol, p)) == Symbols(ps)
    ensures forall q | q in Replaced(ps, symbol, p) :: q == p || q in ps
  {
    if ps != [] {
      ReplacedKeeps(ps[1..], symbol, p);
    }
  }

  lemma {:induction false} WithoutKeeps(ps: seq<Position>, symbol: string)
    requires Distinct(ps)
    ensures Distinct(Without(ps, symbol)) && |Without(ps, symbol)| <= |ps|
    ensures forall q :: q in Without(ps, symbol) <==> q in ps && q.symbol != symbol
  {
    if ps != [] {
      WithoutKeeps(ps[1..], symbol);
    }
  }

  lemma {:induction false} RepricedKeeps(ps: seq<Position>, prices: map<string, real>)
    requires forall s | s in prices :: prices[s] > 0.0
    ensures Symbols(Repriced(ps, prices)) == Symbols(ps)
    ensures Total(Repriced(ps, prices), BASIS) == Total(ps, BASIS)
    ensures (forall p | p in ps :: p.Valid()) ==> forall p | p in Repriced(ps, prices) :: p.Valid()
  {
    if ps != [] {
      RepricedKeeps(ps[1..], prices);
      assert ps[0] in ps;
    }
  }

  lemma DistinctBySymbols(ps: seq<Position>, qs: seq<Position>)
    requires Symbols(ps) == Symbols(qs) && Distinct(ps)
    ensures Distinct(qs) && |ps| == |qs|
  {
    assert |ps| == |Symbols(ps)| == |qs|;
    forall i, j | 0 <= i < j < |qs|
      ensures qs[i].symbol != qs[j].symbol
    {
      assert Symbols(qs)[i] == ps[i].symbol && Symbols(qs)[j] == ps[j].symbol;
    }
  }

  lemma {:induction false} TotalPositive(ps: seq<Position>)
    requires forall p | p in ps :: p.Valid()
    ensures Total(ps, WORTH) >= 0.0
    ensures ps != [] ==> Total(ps, WORTH) > 0.0
  {
    if ps != [] {
      assert ps[0] in ps;
      ProductPositive(ps[0].quantity, ps[0].currentPrice);
      TotalPositive(ps[1..]);
    }
  }

  lemma ProductPositive(x: real, y: real)
    requires x > 0.0 && y > 0.0
    ensures x * y > 0.0
  {
  }
}
