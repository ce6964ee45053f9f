/** What the bootstrap's percentiles say about the simulations themselves, before any sorting. */
module OrderStatistics {
  import opened Sorting
  import opened MonteCarlo

  function Below(xs: seq<real>, v: real): (n: nat)
    ensures n <= |xs|
  {
    if xs == [] then 0 else (if xs[0] < v then 1 else 0) + Below(xs[1..], v)
  }

  function AtMost(xs: seq<real>, v: real): (n: nat)
    ensures n <= |xs|
  {
    if xs == [] then 0 else (if xs[0] <= v then 1 else 0) + AtMost(xs[1..], v)
  }

  lemma {:induction false} CountsAppend(a: seq<real>, b: seq<real>, v: real)
    ensures Below(a + b, v) == Below(a, v) + Below(b, v) && AtMost(a + b, v) == AtMost(a, v) + AtMost(b, v)
  {
    if a == [] {
      assert a + b == b;
    } else {
      assert (a + b)[1..] == a[1..] + b;
      CountsAppend(a[1..], b, v);
    }
  }

  lemma {:induction false} CountsPermute(xs: seq<real>, ys: seq<real>, v: real)
    requires multiset(xs) == multiset(ys)
    ensures Below(xs, v) == Below(ys, v) && AtMost(xs, v) == AtMost(ys, v)
    decreases |xs|
  {
    SameMembers(xs, ys);
    if xs != [] {
      assert xs[0] in ys;
      var i :| 0 <= i < |ys| && ys[i] == xs[0];
      RemoveOne(xs, ys, i);
      CountsPermute(xs[1..], ys[..i] + ys[i + 1..], v);
      CountsAppend(ys[..i], ys[i + 1..], v);
      CountsAppend(ys[..i], [xs[0]] + ys[i + 1..], v);
      assert ([xs[0]] + ys[i + 1..])[1..] == ys[i + 1..];
    }
  }

  lemma {:induction false} NoneBelow(xs: seq<real>, v: real)
    requires forall i | 0 <= i < |xs| :: v <= xs[i]
    ensures Below(xs, v) == 0
  {
    if xs != [] {
      NoneBelow(xs[1..], v);
    }
  }

  lemma {:induction false} AllAtMost(xs: seq<real>, v: real)
    requires forall i | 0 <= i < |xs| :: xs[i] <= v
    ensures AtMost(xs, v) == |xs|
  {
    if xs != [] {
      AllAtMost(xs[1..], v);
    }
  }

  lemma SortedRank(sorted: seq<real>, k: nat)
    requires SortedBy(sorted, RealLeq) && k < |sorted|
    ensures Below(sorted, sorted[k]) <= k < AtMost(sorted, sorted[k])
  {
    var v := sorted[k];
    assert sorted == sorted[..k] + sorted[k..] && sorted == sorted[..k + 1] + sorted[k + 1..];
    CountsAppend(sorted[..k], sorted[k..], v);
    CountsAppend(sorted[..k + 1], sorted[k + 1..], v);
    var front, tail := sorted[..k + 1], sorted[k..];
    forall i | 0 <= i < |tail|
      ensures v <= tail[i]
    {
      assert i > 0 ==> RealLeq(sorted[k], sorted[k + i]);
    }
    forall i | 0 <= i < |front|
      ensures front[i] <= v
    {
      assert i < k ==> RealLeq(sorted[i], sorted[k]);
    }
    NoneBelow(tail, v);
    AllAtMost(front, v);
  }

  /** `v` sits at the quantile: no more than that share of the simulations lies below it, to the nearest one, and
   * more than that lies at or below.
   */
  predicate SitsAt(xs: seq<real>, v: real, quantile: real) {
    && v in xs
    && Below(xs, v) as real <= quantile * (|xs| - 1) as real + 0.5
    && AtMost(xs, v) as real >= quantile * (|xs| - 1) as real + 0.5
  }

  lemma PercentileSits(xs: seq<real>, quantile: real)
    requires xs != [] && 0.0 <= quantile <= 1.0
    ensures SitsAt(xs, Percentile(SortReals(xs), quantile), quantile)
  {
    var sorted := SortReals(xs);
    var k := PercentileIndex(|sorted|, quantile);
    assert sorted[k] in sorted;
    SortedRank(sorted, k);
    CountsPermute(sorted, xs, sorted[k]);
    NearestIndex(|xs|, quantile);
  }

  lemma NearestIndex(n: nat, quantile: real)
    requires n > 0 && 0.0 <= quantile <= 1.0
    ensures var k := PercentileIndex(n, quantile); k as real - 0.5 <= quantile * (n - 1) as real <= k as real + 0.5
  {
  }

  lemma {:induction false} LossesAreBelowZero(totals: seq<real>)
    ensures Losses(totals) == Below(totals, 0.0)
  {
    if totals != [] {
      var front, last := totals[..|totals| - 1], totals[|totals| - 1];
      assert totals == front + [last];
      LossesAreBelowZero(front);
      CountsAppend(front, [last], 0.0);
    }
  }

  /** What each simulation ends with, in percent of the start: its compounded return. */
  function Returns(draws: seq<seq<real>>): seq<real> {
    seq(|draws|, i requires 0 <= i < |draws| => (Growth(draws[i]) - 1.0) * 100.0)
  }

  /** The deepest fall of each simulation, in percent of the peak it fell from. */
  ghost predicate Falls(draws: seq<seq<real>>, falls: seq<real>) {
    |falls| == |draws| && forall i | 0 <= i < |draws| :: Deepest(draws[i], falls[i] / 100.0)
  }

  lemma OutcomesAreCompounded(draws: seq<seq<real>>)
    ensures Totals(draws) == Returns(draws) && Falls(draws, Drawdowns(draws))
  {
    hide Run, Growth, Deepest;
    forall i | 0 <= i < |draws|
      ensures Total(draws[i]) == (Growth(draws[i]) - 1.0) * 100.0 && Deepest(draws[i], Drawdown(draws[i]) / 100.0)
    {
      TotalIsCompounded(draws[i]);
      WorstIsDeepest(draws[i]);
    }
  }

  /**
   * Main result: every reported return percentile is the compounded return of some simulation and sits at its quantile
   * among those of all; the drawdown percentiles do so among the deepest falls, counted from the worst; the reported
   * probability is the share of simulations that lost money.
   */
  lemma SummaryMeansShares(trades: seq<real>, simulations: int, draws: seq<seq<real>>)
    requires ValidDraws(trades, simulations, draws) && Bootstrap(trades, simulations, draws).Summarized?
    ensures var s, ends := Bootstrap(trades, simulations, draws).summary, Returns(draws);
            && s.simulations == |draws| && s.tradesResampled == |trades| >= 3
            && SitsAt(ends, s.returnP5, 0.05) && SitsAt(ends, s.returnP50, 0.50)
            && SitsAt(ends, s.returnP95, 0.95)
            && s.probabilityOfLoss == Below(ends, 0.0) as real / |draws| as real
    ensures var s := Bootstrap(trades, simulations, draws).summary;
            exists falls ::
              && Falls(draws, falls)
              && SitsAt(falls, s.maxDrawdownP50, 0.50) && SitsAt(falls, s.maxDrawdownP95, 0.05)
  {
    hide SitsAt, SortReals, Percentile, Below, Losses, Bootstrap, Totals, Drawdowns, Returns, Falls;
    OutcomesAreCompounded(draws);
    var totals, drawdowns := Totals(draws), Drawdowns(draws);
    BootstrapParts(trades, simulations, draws);
    PercentileSits(totals, 0.05);
    PercentileSits(totals, 0.50);
    PercentileSits(totals, 0.95);
    PercentileSits(drawdowns, 0.50);
    PercentileSits(drawdowns, 0.05);
    LossesAreBelowZero(SortReals(totals));
    CountsPermute(SortReals(totals), totals, 0.0);
  }

  lemma BootstrapParts(trades: seq<real>, simulations: int, draws: seq<seq<real>>)
    requires ValidDraws(trades, simulations, draws) && Bootstrap(trades, simulations, draws).Summarized?
    ensures |draws| == |Totals(draws)| == |Drawdowns(draws)| > 0
    ensures var s := Bootstrap(trades, simulations, draws).summary;
            s.simulations == |draws| && s.tradesResampled == |trades| >= 3
    ensures var s, totals, drawdowns :=
            Bootstrap(trades, simulations, draws).summary, SortReals(Totals(draws)), SortReals(Drawdowns(draws));
            && s.returnP5 == Percentile(totals, 0.05) && s.returnP50 == Percentile(totals, 0.50)
              && s.returnP95 == Percentile(totals, 0.95)
            && s.maxDrawdownP50 == Percentile(drawdowns, 0.50) && s.maxDrawdownP95 == Percentile(drawdowns, 0.05)
            && s.probabilityOfLoss == Losses(totals) as real / |draws| as real
  {
    hide Percentile, Losses;
  }
}
