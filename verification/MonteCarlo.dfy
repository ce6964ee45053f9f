/**
 * The bootstrap over trade returns. The random generator is a parameter: one
 * sequence of drawn returns per simulation, each draw an arbitrary choice.
 */
module MonteCarlo {
  import opened Numeric
  import opened Sorting

  const MIN_TRADES := 3

  datatype Summary = Summary(
    simulations: int,
    tradesResampled: nat,
    returnP5: real,
    returnP50: real,
    returnP95: real,
    maxDrawdownP50: real,
    maxDrawdownP95: real,
    probabilityOfLoss: real)

  /** NoSimulations is the IndexError monte_carlo.py meets on an empty list of outcomes. */
  datatype Outcome = TooFewTrades | NoSimulations | Summarized(summary: Summary)

  datatype Path = Path(equity: real, peak: real, worst: real)

  const START := Path(1.0, 1.0, 0.0)

  ghost predicate ValidDraws(trades: seq<real>, simulations: int, draws: seq<seq<real>>) {
    && |draws| == (if simulations >= 0 then simulations else 0)
    && forall i | 0 <= i < |draws| :: |draws[i]| == |trades| && forall x | x in draws[i] :: x in trades
  }

  function Advance(path: Path, drawn: real): (next: Path)
    requires path.peak >= 1.0
    ensures next.peak >= 1.0
  {
    var equity := path.equity * (1.0 + drawn / 100.0);
    var peak := Max(path.peak, equity);
    Path(equity, peak, Min(path.worst, equity / peak - 1.0))
  }

  function Run(draw: seq<real>): (path: Path)
    ensures path.peak >= 1.0
  {
    if draw == [] then START else Advance(Run(draw[..|draw| - 1]), draw[|draw| - 1])
  }

  function Total(draw: seq<real>): real { (Run(draw).equity - 1.0) * 100.0 }

  function Drawdown(draw: seq<real>): real { Run(draw).worst * 100.0 }

  function Totals(draws: seq<seq<real>>): (xs: seq<real>)
    ensures |xs| == |draws| && forall i | 0 <= i < |draws| :: xs[i] == Total(draws[i])
  {
    if draws == [] then [] else Totals(draws[..|draws| - 1]) + [Total(draws[|draws| - 1])]
  }

  function Drawdowns(draws: seq<seq<real>>): (xs: seq<real>)
    ensures |xs| == |draws| && forall i | 0 <= i < |draws| :: xs[i] == Drawdown(draws[i])
  {
    if draws == [] then [] else Drawdowns(draws[..|draws| - 1]) + [Drawdown(draws[|draws| - 1])]
  }

  function PercentileIndex(n: nat, quantile: real): (i: int)
    requires n > 0 && 0.0 <= quantile <= 1.0
    ensures 0 <= i < n
  {
    var x := quantile * (n - 1) as real;
    ShareOfRange(quantile, (n - 1) as real);
    RoundInRange(x, n);
    RoundHalfEven(x)
  }

  lemma ShareOfRange(quantile: real, range: real)
    requires 0.0 <= quantile <= 1.0 && range >= 0.0
    ensures 0.0 <= quantile * range <= range
  {
    assert quantile * range <= 1.0 * range;
  }

  lemma RoundInRange(x: real, n: nat)
    requires 0.0 <= x <= (n - 1) as real
    ensures 0 <= RoundHalfEven(x) < n
  {
  }

  function Percentile(sorted: seq<real>, quantile: real): real
    requires |sorted| > 0 && 0.0 <= quantile <= 1.0
  {
    sorted[PercentileIndex(|sorted|, quantile)]
  }

  function Losses(totals: seq<real>): (n: nat)
    ensures n <= |totals|
  {
    if totals == [] then 0 else Losses(totals[..|totals| - 1]) + if totals[|totals| - 1] < 0.0 then 1 else 0
  }

  function Bootstrap(trades: seq<real>, simulations: int, draws: seq<seq<real>>): Outcome
    requires ValidDraws(trades, simulations, draws)
  {
    if |trades| < MIN_TRADES then TooFewTrades
    else if simulations <= 0 then NoSimulations
    else
      var totals, drawdowns := SortReals(Totals(draws)), SortReals(Drawdowns(draws));
      Summarized(Summary(
        simulations,
        |trades|,
        Percentile(totals, 0.05),
        Percentile(totals, 0.50),
        Percentile(totals, 0.95),
        Percentile(drawdowns, 0.50),
        Percentile(drawdowns, 0.05),
        Losses(totals) as real / simulations as real))
  }

  method CountLosses(totals: seq<real>) returns (losses: nat)
    ensures losses == Losses(totals)
  {
    losses := 0;
    for k := 0 to |totals|
      invariant losses == Losses(totals[..k])
    {
      assert totals[..k + 1][..k] == totals[..k];
      losses := losses + if totals[k] < 0.0 then 1 else 0;
    }
    assert totals[..|totals|] == totals;
  }

  /** The inner loop: compound one drawn sequence. */
  method Simulate(draw: seq<real>) returns (path: Path)
    ensures path == Run(draw)
    ensures path.equity == Growth(draw) && Deepest(draw, path.worst)
  {
    path := START;
    for k := 0 to |draw|
      invariant path.peak >= 1.0
      invariant path == Run(draw[..k])
    {
      assert draw[..k + 1][..k] == draw[..k];
      path := Compound(path, draw[k]);
    }
    assert draw[..|draw|] == draw;
    EquityIsGrowth(draw);
    WorstIsDeepest(draw);
  }

  method Compound(path: Path, drawn: real) returns (next: Path)
    requires path.peak >= 1.0
    ensures next == Advance(path, drawn)
  {
    var equity, peak, worst := path.equity, path.peak, path.worst;
    equity := equity * (1.0 + drawn / 100.0);
    peak := Max(peak, equity);
    worst := Min(worst, equity / peak - 1.0);
    next := Path(equity, peak, worst);
  }

  method MonteCarloTrades(trades: seq<real>, simulations: int, draws: seq<seq<real>>) returns (outcome: Outcome)
    requires ValidDraws(trades, simulations, draws)
    ensures outcome == Bootstrap(trades, simulations, draws)
    ensures outcome.TooFewTrades? <==> |trades| < 3
    ensures outcome.Summarized? <==> |trades| >= 3 && simulations > 0
  {
    hide Run, Growth, Deepest, SortReals, Percentile, Losses;
    if |trades| < MIN_TRADES {
      return TooFewTrades;
    }
    var totals, drawdowns := [], [];
    var n := 0;
    while n < simulations
      invariant 0 <= n && (simulations >= 0 ==> n <= simulations) && (simulations < 0 ==> n == 0)
      invariant totals == Totals(draws[..n]) && drawdowns == Drawdowns(draws[..n])
    {
      var path := Simulate(draws[n]);
      totals := totals + [(path.equity - 1.0) * 100.0];
      drawdowns := drawdowns + [path.worst * 100.0];
      assert draws[..n + 1][..n] == draws[..n];
      n := n + 1;
    }
    if simulations <= 0 {
      return NoSimulations;
    }
    assert draws[..n] == draws;
    totals, drawdowns := SortReals(totals), SortReals(drawdowns);
    var losses := CountLosses(totals);
    outcome := Summarized(Summary(
      simulations, |trades|,
      Percentile(totals, 0.05), Percentile(totals, 0.50), Percentile(totals, 0.95),
      Percentile(drawdowns, 0.50), Percentile(drawdowns, 0.05),
      losses as real / simulations as real));
  }

  // What one simulated path means.

  /** No single trade loses more than everything staked on it. */
  predicate Bounded(drawn: seq<real>) {
    forall x | x in drawn :: x >= -100.0
  }

  function Factor(percent: real): real { 1.0 + percent / 100.0 }

  /** What one unit grows to: the product of 1 + r / 100 over the drawn returns. */
  function Growth(draw: seq<real>): real {
    if draw == [] then 1.0 else Factor(draw[0]) * Growth(draw[1..])
  }

  function EquityAfter(draw: seq<real>, k: nat): real
    requires k <= |draw|
  {
    Growth(draw[..k])
  }

  /** The highest equity among the first `k` draws, the start included. */
  function Highest(draw: seq<real>, k: nat): (peak: real)
    requires k <= |draw|
    ensures peak >= 1.0
  {
    if k == 0 then 1.0 else Max(Highest(draw, k - 1), EquityAfter(draw, k))
  }

  /** The deepest fall of any equity below the highest one up to it, the start included. */
  ghost predicate Deepest(draw: seq<real>, worst: real) {
    && (forall k | 0 <= k <= |draw| :: worst <= EquityAfter(draw, k) / Highest(draw, k) - 1.0)
    && exists k | 0 <= k <= |draw| :: worst == EquityAfter(draw, k) / Highest(draw, k) - 1.0
  }

  lemma {:induction false} GrowthAppend(a: seq<real>, b: seq<real>)
    ensures Growth(a + b) == Growth(a) * Growth(b)
  {
    if a == [] {
      assert a + b == b;
    } else {
      assert (a + b)[1..] == a[1..] + b;
      GrowthAppend(a[1..], b);
      ProductAssociates(Factor(a[0]), Growth(a[1..]), Growth(b));
    }
  }

  lemma ProductAssociates(x: real, y: real, z: real)
    ensures (x * y) * z == x * (y * z)
  {
  }

  /** The running equity is the product of all growth factors drawn so far. */
  lemma {:induction false} EquityIsGrowth(draw: seq<real>)
    ensures Run(draw).equity == Growth(draw)
  {
    hide Growth, Factor, Run, Advance;
    if draw == [] {
      NothingGrown();
    } else {
      var front, last := draw[..|draw| - 1], draw[|draw| - 1];
      EquityIsGrowth(front);
      assert draw == front + [last];
      GrowthSnoc(front, last);
      EquityStep(front, last);
    }
  }

  lemma NothingGrown()
    ensures Run([]).equity == Growth([]) == 1.0
  {
  }

  lemma EquityStep(front: seq<real>, last: real)
    ensures Run(front + [last]).equity == Run(front).equity * Factor(last)
  {
    hide Run, Advance, Factor;
    RunSnoc(front, last);
    AdvancedEquity(Run(front), last);
  }

  lemma AdvancedEquity(path: Path, drawn: real)
    requires path.peak >= 1.0
    ensures Advance(path, drawn).equity == path.equity * Factor(drawn)
  {
  }

  lemma GrowthSnoc(front: seq<real>, last: real)
    ensures Growth(front + [last]) == Growth(front) * Factor(last)
  {
    GrowthAppend(front, [last]);
    assert [last][1..] == [];
  }

  lemma TotalIsCompounded(draw: seq<real>)
    ensures Total(draw) == (Growth(draw) - 1.0) * 100.0
  {
    EquityIsGrowth(draw);
  }

  /** Main result: the terminal return depends on which returns were drawn, not on their order. */
  lemma TotalIgnoresOrder(draw: seq<real>, shuffled: seq<real>)
    requires multiset(draw) == multiset(shuffled)
    ensures Total(draw) == Total(shuffled)
  {
    hide Total;
    GrowthIgnoresOrder(draw, shuffled);
    TotalIsCompounded(draw);
    TotalIsCompounded(shuffled);
  }

  lemma {:induction false} GrowthIgnoresOrder(draw: seq<real>, shuffled: seq<real>)
    requires multiset(draw) == multiset(shuffled)
    ensures Growth(draw) == Growth(shuffled)
    decreases |draw|
  {
    hide Growth, Factor;
    SameMembers(draw, shuffled);
    if draw != [] {
      assert draw[0] in shuffled;
      var i :| 0 <= i < |shuffled| && shuffled[i] == draw[0];
      RemoveOne(draw, shuffled, i);
      GrowthIgnoresOrder(draw[1..], shuffled[..i] + shuffled[i + 1..]);
      GrowthAround([], draw[0], draw[1..]);
      assert [] + ([draw[0]] + draw[1..]) == draw && [] + draw[1..] == draw[1..];
      GrowthAround(shuffled[..i], draw[0], shuffled[i + 1..]);
    }
  }

  lemma GrowthAround(before: seq<real>, x: real, after: seq<real>)
    ensures Growth(before + ([x] + after)) == Factor(x) * Growth(before + after)
  {
    hide Growth, Factor;
    GrowthAppend(before, [x] + after);
    GrowthAppend(before, after);
    GrowthCons(x, after);
    FactorOut(Factor(x), Growth(before), Growth(after));
  }

  lemma GrowthCons(x: real, after: seq<real>)
    ensures Growth([x] + after) == Factor(x) * Growth(after)
  {
    assert ([x] + after)[1..] == after;
  }

  lemma FactorOut(x: real, y: real, z: real)
    ensures y * (x * z) == x * (y * z)
  {
  }

  lemma {:induction false} HighestOfFront(draw: seq<real>, m: nat, k: nat)
    requires k <= m <= |draw|
    ensures Highest(draw[..m], k) == Highest(draw, k) && EquityAfter(draw[..m], k) == EquityAfter(draw, k)
  {
    assert draw[..m][..k] == draw[..k];
    if k > 0 {
      HighestOfFront(draw, m, k - 1);
    }
  }

  lemma {:induction false} PeakIsHighestSoFar(draw: seq<real>)
    ensures Run(draw).peak == Highest(draw, |draw|)
  {
    EquityIsGrowth(draw);
    assert draw[..|draw|] == draw;
    if draw != [] {
      var n := |draw|;
      PeakIsHighestSoFar(draw[..n - 1]);
      HighestOfFront(draw, n - 1, n - 1);
    }
  }

  /** The running minimum is the deepest fall below the peak so far, whatever was drawn. */
  lemma {:induction false} WorstIsDeepest(draw: seq<real>)
    ensures Deepest(draw, Run(draw).worst)
  {
    var n := |draw|;
    assert draw[..n] == draw;
    EquityIsGrowth(draw);
    PeakIsHighestSoFar(draw);
    if n == 0 {
      assert EquityAfter(draw, 0) / Highest(draw, 0) - 1.0 == 0.0;
    } else {
      var front := draw[..n - 1];
      WorstIsDeepest(front);
      forall k | 0 <= k < n
        ensures Highest(front, k) == Highest(draw, k) && EquityAfter(front, k) == EquityAfter(draw, k)
      {
        HighestOfFront(draw, n - 1, k);
      }
      hide Highest, EquityAfter, Growth;
      assert Run(draw).worst == Min(Run(front).worst, EquityAfter(draw, n) / Highest(draw, n) - 1.0);
    }
  }

  predicate Sane(p: Path) {
    && 0.0 <= p.equity <= p.peak && p.peak >= 1.0
    && -1.0 <= p.worst <= 0.0 && p.worst <= p.equity - 1.0
  }

  lemma AdvanceStaysSane(p: Path, drawn: real)
    requires Sane(p) && drawn >= -100.0
    ensures Sane(Advance(p, drawn))
  {
    var next := Advance(p, drawn);
    NonNegativeProduct(p.equity, 1.0 + drawn / 100.0);
    RatioBelow(next.equity, next.peak);
  }

  lemma {:induction false} PathInvariant(draw: seq<real>)
    requires Bounded(draw)
    ensures Sane(Run(draw))
  {
    if draw != [] {
      var front, last := draw[..|draw| - 1], draw[|draw| - 1];
      BoundedFront(draw, |draw| - 1);
      PathInvariant(front);
      assert last in draw;
      AdvanceStaysSane(Run(front), last);
    }
  }

  lemma BoundedFront(draw: seq<real>, k: nat)
    requires Bounded(draw) && k <= |draw|
    ensures Bounded(draw[..k])
  {
    forall x | x in draw[..k]
      ensures x >= -100.0
    {
      assert x in draw;
    }
  }

  lemma NonNegativeProduct(x: real, y: real)
    requires x >= 0.0 && y >= 0.0
    ensures x * y >= 0.0
  {
  }

  lemma RatioBelow(equity: real, peak: real)
    requires 0.0 <= equity <= peak && peak >= 1.0
    ensures 0.0 <= equity / peak <= 1.0 && equity / peak <= equity
  {
    QuotientAtMost(equity, peak, 1.0);
    assert equity * 1.0 <= equity * peak;
    QuotientAtMost(equity, peak, equity);
    QuotientAtMost(equity, peak, 0.0);
  }

  lemma {:induction false} PeakIsHighest(draw: seq<real>)
    ensures forall i | 0 <= i <= |draw| :: EquityAfter(draw, i) <= Run(draw).peak
    ensures exists i :: 0 <= i <= |draw| && EquityAfter(draw, i) == Run(draw).peak
  {
    var n := |draw|;
    assert draw[..n] == draw;
    EquityIsGrowth(draw);
    hide Growth;
    if n == 0 {
      assert EquityAfter(draw, 0) == Run(draw).peak;
    } else {
      var front := draw[..n - 1];
      PeakIsHighest(front);
      forall i | 0 <= i < n
        ensures EquityAfter(draw, i) == EquityAfter(front, i)
      {
        assert front[..i] == draw[..i];
      }
      assert EquityAfter(draw, n) == Run(draw).equity;
      if Run(draw).peak == Run(front).peak {
        var i :| 0 <= i <= |front| && EquityAfter(front, i) == Run(front).peak;
        assert EquityAfter(draw, i) == Run(draw).peak;
      } else {
        assert EquityAfter(draw, n) == Run(draw).peak;
      }
    }
  }

  lemma FallShrinksWithBase(low: real, base: real, peak: real)
    requires low >= 0.0 && 0.0 < base <= peak
    ensures low / peak <= low / base
  {
    var b := low / base;
    assert b * base == low;
    QuotientAtMost(low, base, 0.0);
    assert b * base <= b * peak;
    QuotientAtMost(low, peak, b);
  }

  lemma EquityOfFront(draw: seq<real>, k: nat)
    requires k <= |draw|
    ensures forall i | 0 <= i <= k :: EquityAfter(draw[..k], i) == EquityAfter(draw, i)
  {
    forall i | 0 <= i <= k
      ensures EquityAfter(draw[..k], i) == EquityAfter(draw, i)
    {
      assert draw[..k][..i] == draw[..i];
    }
  }

  ghost predicate Fall(draw: seq<real>, i: nat, j: nat) {
    i <= j <= |draw| && EquityAfter(draw, i) > 0.0
  }

  function Depth(draw: seq<real>, i: nat, j: nat): real
    requires Fall(draw, i, j)
  {
    EquityAfter(draw, j) / EquityAfter(draw, i) - 1.0
  }

  /** The running minimum is at most every fall from an earlier equity to a later one. */
  lemma {:induction false} WorstBoundsEveryFall(draw: seq<real>, i: nat, j: nat)
    requires Bounded(draw) && Fall(draw, i, j)
    ensures Run(draw).worst <= Depth(draw, i, j)
  {
    var n := |draw|;
    assert draw[..n] == draw;
    PathInvariant(draw);
    PeakIsHighest(draw);
    EquityIsGrowth(draw);
    if j == n {
      FallShrinksWithBase(Run(draw).equity, EquityAfter(draw, i), Run(draw).peak);
      if n == 0 {
        assert EquityAfter(draw, 0) == 1.0;
      }
    } else {
      EquityOfFront(draw, n - 1);
      BoundedFront(draw, n - 1);
      WorstBoundsEveryFall(draw[..n - 1], i, j);
    }
  }

  /** And it is one of those falls. */
  lemma {:induction false} WorstIsSomeFall(draw: seq<real>) returns (i: nat, j: nat)
    requires Bounded(draw)
    ensures Fall(draw, i, j) && Run(draw).worst == Depth(draw, i, j)
  {
    var n := |draw|;
    assert draw[..n] == draw;
    if n == 0 {
      assert EquityAfter(draw, 0) == 1.0;
      i, j := 0, 0;
    } else if Run(draw).worst == Run(draw[..n - 1]).worst {
      EquityOfFront(draw, n - 1);
      BoundedFront(draw, n - 1);
      i, j := WorstIsSomeFall(draw[..n - 1]);
    } else {
      PeakIsHighest(draw);
      EquityIsGrowth(draw);
      i :| 0 <= i <= n && EquityAfter(draw, i) == Run(draw).peak;
      j := n;
    }
  }

  // What the summary means.

  lemma TotalsDominateDrawdowns(draws: seq<seq<real>>)
    requires forall i | 0 <= i < |draws| :: Bounded(draws[i])
    ensures Dominates(Totals(draws), Drawdowns(draws))
    ensures forall x | x in Drawdowns(draws) :: -100.0 <= x <= 0.0
  {
    forall i | 0 <= i < |draws|
      ensures Totals(draws)[i] >= Drawdowns(draws)[i] && -100.0 <= Drawdowns(draws)[i] <= 0.0
    {
      PathInvariant(draws[i]);
    }
  }

  lemma {:induction false} LossesInPrefix(sorted: seq<real>, k: nat)
    requires SortedBy(sorted, RealLeq) && k < |sorted| && sorted[k] < 0.0
    ensures Losses(sorted) >= k + 1
  {
    var n := |sorted|;
    var front := sorted[..n - 1];
    if k < n - 1 {
      LossesInPrefix(front, k);
    } else if k > 0 {
      assert RealLeq(sorted[k - 1], sorted[k]);
      LossesInPrefix(front, k - 1);
    }
  }

  lemma MedianIndexAtHalf(n: nat)
    requires n > 0
    ensures 2 * (PercentileIndex(n, 0.50) + 1) >= n
  {
  }

  lemma PercentileIndexOrder(n: nat, low: real, high: real)
    requires n > 0 && 0.0 <= low <= high <= 1.0
    ensures PercentileIndex(n, low) <= PercentileIndex(n, high)
  {
    var x, y := low * (n - 1) as real, high * (n - 1) as real;
    assert x <= y by {
      ScaledOrder(low, high, (n - 1) as real);
    }
    RoundHalfEvenMonotone(x, y);
  }

  lemma PercentileOrder(sorted: seq<real>, low: real, high: real)
    requires SortedBy(sorted, RealLeq) && |sorted| > 0 && 0.0 <= low <= high <= 1.0
    ensures Percentile(sorted, low) <= Percentile(sorted, high)
  {
    PercentileIndexOrder(|sorted|, low, high);
    var i, j := PercentileIndex(|sorted|, low), PercentileIndex(|sorted|, high);
    assert i == j || RealLeq(sorted[i], sorted[j]);
  }

  lemma ScaledOrder(x: real, y: real, k: real)
    requires x <= y && k >= 0.0
    ensures x * k <= y * k
  {
  }

  /** No return tail falls below its drawdown tail. */
  predicate Dominant(s: Summary) { s.returnP5 >= s.maxDrawdownP95 && s.returnP50 >= s.maxDrawdownP50 }

  /** The tails are ordered and in range, and a losing median shows in the loss probability. */
  predicate Coherent(s: Summary) {
    && Dominant(s)
    && -100.0 <= s.maxDrawdownP95 <= s.maxDrawdownP50 <= 0.0
    && s.returnP5 <= s.returnP50 <= s.returnP95
    && 0.0 <= s.probabilityOfLoss <= 1.0
    && (s.returnP50 < 0.0 ==> s.probabilityOfLoss >= 0.5)
  }

  /** Main result: whatever was drawn, the tails and the loss probability agree with one another. */
  lemma SummaryIsCoherent(trades: seq<real>, simulations: int, draws: seq<seq<real>>)
    requires ValidDraws(trades, simulations, draws)
    requires Bounded(trades) && |trades| >= MIN_TRADES && simulations > 0
    ensures Bootstrap(trades, simulations, draws).Summarized? && Coherent(Bootstrap(trades, simulations, draws).summary)
  {
    TotalsDominateDrawdowns(draws);
    var totals, drawdowns := SortReals(Totals(draws)), SortReals(Drawdowns(draws));
    SortDominates(Totals(draws), Drawdowns(draws));
    TailsAgree(totals, drawdowns);
    LossShare(totals);
  }

  lemma TailsAgree(totals: seq<real>, drawdowns: seq<real>)
    requires |totals| > 0 && Dominates(totals, drawdowns)
    requires SortedBy(totals, RealLeq) && SortedBy(drawdowns, RealLeq)
    ensures Percentile(totals, 0.05) >= Percentile(drawdowns, 0.05)
    ensures Percentile(totals, 0.50) >= Percentile(drawdowns, 0.50)
    ensures Percentile(totals, 0.05) <= Percentile(totals, 0.50) <= Percentile(totals, 0.95)
    ensures Percentile(drawdowns, 0.05) <= Percentile(drawdowns, 0.50)
    ensures Percentile(drawdowns, 0.05) in drawdowns && Percentile(drawdowns, 0.50) in drawdowns
  {
    PercentileOrder(totals, 0.05, 0.50);
    PercentileOrder(totals, 0.50, 0.95);
    PercentileOrder(drawdowns, 0.05, 0.50);
  }

  lemma LossShare(totals: seq<real>)
    requires |totals| > 0 && SortedBy(totals, RealLeq)
    ensures 0.0 <= Losses(totals) as real / |totals| as real <= 1.0
    ensures Percentile(totals, 0.50) < 0.0 ==> Losses(totals) as real / |totals| as real >= 0.5
  {
    if Percentile(totals, 0.50) < 0.0 {
      LossesInPrefix(totals, PercentileIndex(|totals|, 0.50));
      MedianIndexAtHalf(|totals|);
    }
    Share(Losses(totals), |totals|);
  }

  lemma Share(part: nat, whole: nat)
    requires 0 < whole && part <= whole
    ensures 0.0 <= part as real / whole as real <= 1.0
    ensures 2 * part >= whole ==> part as real / whole as real >= 0.5
  {
    QuotientAtMost(part as real, whole as real, 1.0);
    QuotientAtMost(part as real, whole as real, 0.0);
    QuotientAtMost(part as real, whole as real, 0.5);
  }

  // Without the bound on losses the summary can be incoherent.

  lemma {:induction false} WorstNeverRises(draw: seq<real>, k: nat)
    requires k <= |draw|
    ensures Run(draw).worst <= Run(draw[..k]).worst
  {
    if k == |draw| {
      assert draw[..k] == draw;
    } else {
      var front := draw[..|draw| - 1];
      WorstNeverRises(front, k);
      assert front[..k] == draw[..k];
    }
  }

  /** A path that opens with a loss of more than everything falls by more than everything. */
  lemma OpeningLossEscapes(draw: seq<real>)
    requires draw != [] && draw[0] < -100.0
    ensures Drawdown(draw) < -100.0
  {
    var first := draw[..1];
    assert first[..0] == [];
    assert Run(first).worst == draw[0] / 100.0;
    WorstNeverRises(draw, 1);
  }

  /** Every simulation drawing the same sequence. */
  function Repeated(draw: seq<real>, simulations: nat): seq<seq<real>> {
    seq(simulations, i requires 0 <= i < simulations => draw)
  }

  /** When all simulations agree, every percentile is the one outcome. */
  lemma RepeatedSummary(trades: seq<real>, simulations: nat, draw: seq<real>)
    requires |trades| >= MIN_TRADES && simulations > 0
    requires |draw| == |trades| && forall x | x in draw :: x in trades
    ensures ValidDraws(trades, simulations, Repeated(draw, simulations))
    ensures Bootstrap(trades, simulations, Repeated(draw, simulations)).Summarized?
    ensures var s := Bootstrap(trades, simulations, Repeated(draw, simulations)).summary;
            s.returnP5 == Total(draw) && s.maxDrawdownP95 == Drawdown(draw)
  {
    var draws := Repeated(draw, simulations);
    var totals, drawdowns := SortReals(Totals(draws)), SortReals(Drawdowns(draws));
    assert Percentile(totals, 0.05) in totals && Percentile(drawdowns, 0.05) in drawdowns;
    hide Run;
  }

  /** Every trade list that holds a loss of more than everything has draws whose reported drawdown leaves [-100, 0]. */
  lemma UnboundedLossEscapes(trades: seq<real>, simulations: nat, loss: real) returns (draws: seq<seq<real>>)
    requires |trades| >= MIN_TRADES && simulations > 0 && loss in trades && loss < -100.0
    ensures ValidDraws(trades, simulations, draws) && Bootstrap(trades, simulations, draws).Summarized?
    ensures Bootstrap(trades, simulations, draws).summary.maxDrawdownP95 < -100.0
  {
    var draw := seq(|trades|, i requires 0 <= i < |trades| => loss);
    OpeningLossEscapes(draw);
    hide Drawdown, Total, Bootstrap;
    RepeatedSummary(trades, simulations, draw);
    draws := Repeated(draw, simulations);
  }

  /** The summary is coherent whatever is drawn exactly when no single trade loses more than everything. */
  lemma CoherentExactlyWhenBounded(trades: seq<real>, simulations: nat)
    requires |trades| >= MIN_TRADES && simulations > 0
    ensures Bounded(trades) <==>
            forall draws | ValidDraws(trades, simulations, draws) ::
              Bootstrap(trades, simulations, draws).Summarized?
                && Coherent(Bootstrap(trades, simulations, draws).summary)
  {
    hide Bootstrap;
    if Bounded(trades) {
      forall draws | ValidDraws(trades, simulations, draws)
        ensures Bootstrap(trades, simulations, draws).Summarized?
                && Coherent(Bootstrap(trades, simulations, draws).summary)
      {
        SummaryIsCoherent(trades, simulations, draws);
      }
    } else {
      var loss :| loss in trades && loss < -100.0;
      var draws := UnboundedLossEscapes(trades, simulations, loss);
      assert !Coherent(Bootstrap(trades, simulations, draws).summary);
    }
  }

  lemma {:induction false} GainsOnly(gain: real, k: nat)
    requires gain > 0.0
    ensures var p := Run(seq(k, i requires 0 <= i < k => gain));
            p.equity == p.peak >= 1.0 && p.worst == 0.0 && (k > 0 ==> p.equity > 1.0)
  {
    var draw := seq(k, i requires 0 <= i < k => gain);
    if k > 0 {
      GainsOnly(gain, k - 1);
      assert draw[..k - 1] == seq(k - 1, i requires 0 <= i < k - 1 => gain);
      hide Advance;
      GainStep(Run(draw[..k - 1]), gain);
    }
  }

  lemma GainStep(p: Path, gain: real)
    requires p.equity == p.peak >= 1.0 && p.worst == 0.0 && gain > 0.0
    ensures var next := Advance(p, gain); next.equity == next.peak > 1.0 && next.worst == 0.0
  {
    GrowsWith(p.equity, gain / 100.0);
    CarriedRatio(1.0, p.equity * (1.0 + gain / 100.0));
  }

  lemma GrowsWith(equity: real, share: real)
    requires equity >= 1.0 && share > 0.0
    ensures equity * (1.0 + share) > equity
  {
    assert equity * share > 0.0;
  }

  lemma CarriedRatio(factor: real, base: real)
    requires base > 0.0
    ensures base * factor / base == factor
  {
  }

  /** A total loss after gains: the return, measured from the start, is below the drawdown, measured from the peak. */
  lemma LossAfterGains(gain: real, loss: real, k: nat)
    requires gain > 0.0 && loss < -100.0 && k > 0
    ensures var draw := seq(k, i requires 0 <= i < k => gain) + [loss]; Total(draw) < Drawdown(draw)
  {
    var gains := seq(k, i requires 0 <= i < k => gain);
    var draw := gains + [loss];
    assert draw[..k] == gains;
    GainsOnly(gain, k);
    hide Run;
    AfterGains(Run(gains), loss);
    RunSnoc(gains, loss);
  }

  lemma RunSnoc(draw: seq<real>, last: real)
    ensures Run(draw + [last]) == Advance(Run(draw), last)
  {
    assert (draw + [last])[..|draw|] == draw;
  }

  lemma AfterGains(p: Path, loss: real)
    requires p.equity == p.peak > 1.0 && p.worst == 0.0 && loss < -100.0
    ensures Advance(p, loss).equity - 1.0 < Advance(p, loss).worst
  {
    var factor := 1.0 + loss / 100.0;
    var equity := p.equity * factor;
    assert (p.equity - 1.0) * factor < 0.0;
    assert equity < factor < 0.0;
    CarriedRatio(factor, p.equity);
    assert Max(p.peak, equity) == p.peak;
    assert Advance(p, loss) == Path(equity, p.peak, factor - 1.0);
  }

  /** Given some winning trade, the drawdown tails stay below the return tails on every draw exactly when losses
   * are bounded.
   */
  lemma DominantExactlyWhenBounded(trades: seq<real>, simulations: nat, gain: real)
    requires |trades| >= MIN_TRADES && simulations > 0 && gain in trades && gain > 0.0
    ensures Bounded(trades) <==>
            forall draws | ValidDraws(trades, simulations, draws) ::
              Bootstrap(trades, simulations, draws).Summarized?
                && Dominant(Bootstrap(trades, simulations, draws).summary)
  {
    hide Bootstrap, Run, Total, Drawdown;
    if Bounded(trades) {
      forall draws | ValidDraws(trades, simulations, draws)
        ensures Bootstrap(trades, simulations, draws).Summarized?
                && Dominant(Bootstrap(trades, simulations, draws).summary)
      {
        SummaryIsCoherent(trades, simulations, draws);
      }
    } else {
      var loss :| loss in trades && loss < -100.0;
      var k := |trades| - 1;
      var draw := seq(k, i requires 0 <= i < k => gain) + [loss];
      LossAfterGains(gain, loss, k);
      RepeatedSummary(trades, simulations, draw);
      assert !Dominant(Bootstrap(trades, simulations, Repeated(draw, simulations)).summary);
    }
  }
}
