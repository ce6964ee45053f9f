/** What the reported levels say about the swings and the last close. */
module LevelReadings {
  import opened Numeric
  import opened Sorting
  import opened Signals
  import opened Levels

  /** Nearness, cross-multiplied: the difference is at most the tolerance's percentage of the average. */
  lemma NearMeans(x: real, y: real, tolerancePct: real)
    requires x > 0.0 && y > 0.0
    ensures Near(x, y, tolerancePct) <==> 200.0 * Abs(x - y) <= tolerancePct * (x + y)
  {
    QuotientAtMost(Abs(x - y), (x + y) / 2.0, tolerancePct / 100.0);
    assert tolerancePct / 100.0 * ((x + y) / 2.0) == tolerancePct * (x + y) / 200.0;
  }

  function PriceTotal(cluster: seq<SwingPoint>): real {
    if cluster == [] then 0.0 else cluster[0].price + PriceTotal(cluster[1..])
  }

  /** A level of two touches or more: at their mean, resistance above the close, its distance in percent of the
   * close.
   */
  ghost predicate LevelReads(cluster: seq<SwingPoint>, close: real, level: PriceLevel)
    requires close > 0.0
  {
    && level.touches == |cluster| >= 2
    && level.price * |cluster| as real == PriceTotal(cluster)
    && (level.kind == Resistance <==> level.price > close)
    && (exists s | s in cluster :: s.timestamp == level.lastTouch)
    && (forall s | s in cluster :: s.timestamp <= level.lastTouch)
    && Quantised((level.price - close) / close * 100.0, level.distancePct, 100.0)
  }

  lemma {:induction false} PriceSumIsTotal(cluster: seq<SwingPoint>)
    ensures PriceSum(cluster) == PriceTotal(cluster)
  {
    if |cluster| > 0 {
      var front := cluster[..|cluster| - 1];
      PriceSumIsTotal(front);
      TotalSnoc(front, Last(cluster));
      assert cluster == front + [Last(cluster)];
    }
  }

  lemma {:induction false} TotalSnoc(front: seq<SwingPoint>, s: SwingPoint)
    ensures PriceTotal(front + [s]) == PriceTotal(front) + s.price
  {
    if front == [] {
      assert [s][1..] == [];
      assert front + [s] == [s];
    } else {
      assert (front + [s])[1..] == front[1..] + [s];
      TotalSnoc(front[1..], s);
    }
  }

  lemma MeanTimes(cluster: seq<SwingPoint>, price: real)
    requires cluster != []
    ensures price * |cluster| as real == PriceTotal(cluster) <==> price == MeanPrice(cluster)
  {
    PriceSumIsTotal(cluster);
    hide PriceSum, PriceTotal;
    var n := |cluster| as real;
    assert PriceSum(cluster) / n * n == PriceSum(cluster);
    if price * n == PriceSum(cluster) {
      assert price == price * n / n;
    }
  }

  /** The level of a cluster is the one that reads so. */
  lemma LevelOfReads(cluster: seq<SwingPoint>, close: real, level: PriceLevel)
    requires |cluster| >= 2 && close > 0.0
    ensures LevelReads(cluster, close, level) <==> level == LevelOf(cluster, close)
  {
    hide PriceTotal, MeanPrice, LastTouch, RoundTo, Quantised;
    MeanTimes(cluster, level.price);
    var exact := (level.price - close) / close * 100.0;
    RoundToQuantises(exact, 100.0);
    if Quantised(exact, level.distancePct, 100.0) {
      QuantisedUnique(exact, level.distancePct, 100.0);
    }
  }

  /** No reported level is farther from the close than the next. */
  predicate NearestFirst(levels: seq<PriceLevel>) {
    forall i, j | 0 <= i < j < |levels| :: Abs(levels[i].distancePct) <= Abs(levels[j].distancePct)
  }

  /**
   * Main result: the report lists levels of clusters of two touches or more, nearest first, at most `maxLevels` of
   * them; one that is missing is no nearer than any listed, and none is missing while there is room.
   */
  lemma LevelsReadExactly(swings: seq<SwingPoint>, close: real, tolerancePct: real, maxLevels: nat)
    requires close > 0.0
    ensures var levels, clusters := PriceLevels(swings, close, tolerancePct, maxLevels), Clusters(swings, tolerancePct);
            && |levels| <= maxLevels && NearestFirst(levels)
            && (forall l | l in levels :: exists c | c in clusters :: LevelReads(c, close, l))
            && forall c, l | c in clusters && LevelReads(c, close, l) && l !in levels ::
                 |levels| == maxLevels && forall k | k in levels :: Abs(k.distancePct) <= Abs(l.distancePct)
  {
    var levels, clusters := PriceLevels(swings, close, tolerancePct, maxLevels), Clusters(swings, tolerancePct);
    KeptInOrder(LevelsOf(clusters, close), maxLevels);
    hide PriceLevels, Clusters, LevelReads, LevelOf, NearestFirst;
    forall l | l in levels
      ensures exists c | c in clusters :: LevelReads(c, close, l)
    {
      var c := LevelsComeFromClusters(swings, close, tolerancePct, maxLevels, l);
      LevelOfReads(c, close, l);
    }
    forall c, l | c in clusters && LevelReads(c, close, l) && l !in levels
      ensures |levels| == maxLevels && forall k | k in levels :: Abs(k.distancePct) <= Abs(l.distancePct)
    {
      ReadsTouches(c, close, l);
      LevelOfReads(c, close, l);
      KeptWhileRoom(swings, close, tolerancePct, maxLevels, c);
      forall k | k in levels
        ensures Abs(k.distancePct) <= Abs(l.distancePct)
      {
        NearestLevelsKept(swings, close, tolerancePct, maxLevels, k, c);
      }
    }
  }

  lemma ReadsTouches(c: seq<SwingPoint>, close: real, l: PriceLevel)
    requires close > 0.0 && LevelReads(c, close, l)
    ensures |c| >= 2
  {
  }

  lemma KeptInOrder(levels: seq<PriceLevel>, maxLevels: nat)
    ensures var kept := Take(Sort(levels, NearerLeq), maxLevels); |kept| <= maxLevels && NearestFirst(kept)
  {
    SortIsSortedPermutation(levels, NearerLeq);
    var sorted := Sort(levels, NearerLeq);
    hide Sort;
    assert forall i, j | 0 <= i < j < |sorted| :: NearerLeq(sorted[i], sorted[j]);
  }

  lemma KeptWhileRoom(swings: seq<SwingPoint>, close: real, tolerancePct: real, maxLevels: nat, c: seq<SwingPoint>)
    requires close > 0.0 && c in Clusters(swings, tolerancePct) && |c| >= 2
    requires LevelOf(c, close) !in PriceLevels(swings, close, tolerancePct, maxLevels)
    ensures |PriceLevels(swings, close, tolerancePct, maxLevels)| == maxLevels
  {
    var all := LevelsOf(Clusters(swings, tolerancePct), close);
    LevelsFromClusters(Clusters(swings, tolerancePct), close, LevelOf(c, close));
    SortIsSortedPermutation(all, NearerLeq);
    assert LevelOf(c, close) in Sort(all, NearerLeq);
    hide Sort, LevelsOf, LevelOf, Clusters;
  }
}
