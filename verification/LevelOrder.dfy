/** The reported levels do not depend on the order in which the swings were given. */
module LevelOrder {
  import opened Sorting
  import opened Signals
  import opened Levels

  function PriceOf(s: SwingPoint): real { s.price }

  /** The same prices at the same places. */
  predicate SamePrices(xs: seq<SwingPoint>, ys: seq<SwingPoint>) {
    |xs| == |ys| && forall k | 0 <= k < |xs| :: xs[k].price == ys[k].price
  }

  lemma PriceOrder()
    ensures TotalOrder(PriceLeq)
  {
  }

  lemma SortedPricesAgree(swings: seq<SwingPoint>, shuffled: seq<SwingPoint>)
    requires multiset(swings) == multiset(shuffled)
    ensures SamePrices(Sort(swings, PriceLeq), Sort(shuffled, PriceLeq))
  {
    PriceOrder();
    SortIsSortedPermutation(swings, PriceLeq);
    SortIsSortedPermutation(shuffled, PriceLeq);
    var xs, ys := Sort(swings, PriceLeq), Sort(shuffled, PriceLeq);
    MapPermutes(PriceOf, xs, ys);
    PricesSorted(xs);
    PricesSorted(ys);
    SortedArrangementUnique(Map(PriceOf, xs), Map(PriceOf, ys), RealLeq);
    forall k | 0 <= k < |xs|
      ensures k < |ys| && xs[k].price == ys[k].price
    {
      assert Map(PriceOf, xs)[k] == PriceOf(xs[k]) && Map(PriceOf, ys)[k] == PriceOf(ys[k]);
    }
  }

  lemma PricesSorted(xs: seq<SwingPoint>)
    requires SortedBy(xs, PriceLeq)
    ensures SortedBy(Map(PriceOf, xs), RealLeq)
  {
    forall i, j | 0 <= i < j < |xs|
      ensures RealLeq(Map(PriceOf, xs)[i], Map(PriceOf, xs)[j])
    {
      assert PriceLeq(xs[i], xs[j]);
      assert Map(PriceOf, xs)[i] == PriceOf(xs[i]) && Map(PriceOf, xs)[j] == PriceOf(xs[j]);
    }
  }

  /** Clusterings with the same prices at the same places. */
  predicate Matching(cs: seq<seq<SwingPoint>>, ds: seq<seq<SwingPoint>>) {
    |cs| == |ds| && forall a | 0 <= a < |cs| :: SamePrices(cs[a], ds[a])
  }

  /** Clustering looks at prices only. */
  lemma {:induction false} ClusteringMatches(xs: seq<SwingPoint>, ys: seq<SwingPoint>, tolerancePct: real)
    requires SamePrices(xs, ys)
    ensures Matching(Clustered(xs, tolerancePct), Clustered(ys, tolerancePct))
  {
    if xs != [] {
      ClusteringMatches(xs[..|xs| - 1], ys[..|ys| - 1], tolerancePct);
      hide Clustered;
      PlacingMatches(Clustered(xs[..|xs| - 1], tolerancePct), Clustered(ys[..|ys| - 1], tolerancePct), Last(xs),
        Last(ys), tolerancePct);
      ClusteredStep(xs, tolerancePct);
      ClusteredStep(ys, tolerancePct);
    }
  }

  lemma PlacingMatches(cs: seq<seq<SwingPoint>>, ds: seq<seq<SwingPoint>>, s: SwingPoint, t: SwingPoint,
    tolerancePct: real)
    requires Matching(cs, ds) && NoneEmpty(cs) && NoneEmpty(ds) && s.price == t.price
    ensures Matching(Place(cs, s, tolerancePct), Place(ds, t, tolerancePct))
  {
    if cs != [] {
      assert SamePrices(Last(cs), Last(ds));
      assert SamePrices(Last(cs) + [s], Last(ds) + [t]);
    }
    assert SamePrices([s], [t]);
  }

  /** Between clusters there is a gap, so a price never lies in two of them. */
  lemma GapBetween(clusters: seq<seq<SwingPoint>>, tolerancePct: real, a: nat, b: nat, x: SwingPoint, y: SwingPoint)
    requires Separated(clusters, tolerancePct) && tolerancePct >= 0.0 && a < b < |clusters|
    requires x in clusters[a] && y in clusters[b] && x.price > 0.0
    ensures x.price < y.price
  {
    BetweenClusters(clusters, tolerancePct, a, b, x, y);
    SelfNear(Last(clusters[a]).price, tolerancePct);
  }

  /** A swing whose price lies within a cluster's bounds is in no other cluster. */
  lemma BelongsWhereItLies(clusters: seq<seq<SwingPoint>>, tolerancePct: real, a: nat, b: nat, s: SwingPoint)
    requires Separated(clusters, tolerancePct) && tolerancePct >= 0.0 && a < |clusters| && b < |clusters|
    requires clusters[a] != [] && s in clusters[b] && s.price > 0.0
    requires clusters[a][0].price <= s.price <= Last(clusters[a]).price
    ensures a == b
  {
    hide Separated;
    assert clusters[a][0] in clusters[a];
    if b < a {
      GapBetween(clusters, tolerancePct, b, a, s, clusters[a][0]);
    } else if a < b {
      GapBetween(clusters, tolerancePct, a, b, Last(clusters[a]), s);
    }
  }

  lemma {:induction false} SumsAgree(c: seq<SwingPoint>, d: seq<SwingPoint>)
    requires SamePrices(c, d)
    ensures PriceSum(c) == PriceSum(d)
  {
    if c != [] {
      SumsAgree(c[..|c| - 1], d[..|d| - 1]);
    }
  }

  lemma LastTouchOfMembers(c: seq<SwingPoint>, d: seq<SwingPoint>)
    requires c != [] && d != [] && (forall s | s in c :: s in d)
    ensures LastTouch(c) <= LastTouch(d)
  {
  }

  ghost predicate Covers(cs: seq<seq<SwingPoint>>, ds: seq<seq<SwingPoint>>) {
    forall a, s | 0 <= a < |cs| && s in cs[a] :: s.price > 0.0 && InSome(ds, s)
  }

  ghost predicate InSome(clusters: seq<seq<SwingPoint>>, s: SwingPoint) {
    exists a :: 0 <= a < |clusters| && s in clusters[a]
  }

  lemma Covering(cs: seq<seq<SwingPoint>>, ds: seq<seq<SwingPoint>>)
    requires forall s | s in Flatten(cs) :: s.price > 0.0 && s in Flatten(ds)
    ensures Covers(cs, ds)
  {
    forall a, s | 0 <= a < |cs| && s in cs[a]
      ensures s.price > 0.0 && InSome(ds, s)
    {
      InFlatten(cs, s);
      InFlatten(ds, s);
    }
  }

  lemma WithinBounds(cluster: seq<SwingPoint>, tolerancePct: real, s: SwingPoint)
    requires Tight(cluster, tolerancePct) && s in cluster
    ensures cluster[0].price <= s.price <= Last(cluster).price
  {
    var i :| 0 <= i < |cluster| && cluster[i] == s;
    TightBounds(cluster, tolerancePct, 0, i);
    TightBounds(cluster, tolerancePct, i, |cluster| - 1);
  }

  /** Each swing of a cluster is in the matching cluster. */
  lemma MembersCarry(cs: seq<seq<SwingPoint>>, ds: seq<seq<SwingPoint>>, tolerancePct: real, a: nat)
    requires Separated(ds, tolerancePct) && tolerancePct >= 0.0 && Covers(cs, ds)
    requires a < |cs| && a < |ds| && Tight(cs[a], tolerancePct) && SamePrices(cs[a], ds[a])
    ensures forall s | s in cs[a] :: s in ds[a]
  {
    hide Separated;
    forall s | s in cs[a]
      ensures s in ds[a]
    {
      WithinBounds(cs[a], tolerancePct, s);
      assert s.price > 0.0 && InSome(ds, s);
      var b :| 0 <= b < |ds| && s in ds[b];
      BelongsWhereItLies(ds, tolerancePct, a, b, s);
    }
  }

  lemma LevelsAgreeAt(cs: seq<seq<SwingPoint>>, ds: seq<seq<SwingPoint>>, tolerancePct: real, a: nat, close: real)
    requires Separated(cs, tolerancePct) && Separated(ds, tolerancePct) && Covers(cs, ds) && Covers(ds, cs)
    requires a < |cs| && a < |ds| && SamePrices(cs[a], ds[a]) && |cs[a]| >= 2 && close > 0.0
    ensures LevelOf(cs[a], close) == LevelOf(ds[a], close)
  {
    assert Tight(cs[a], tolerancePct) && Tight(ds[a], tolerancePct);
    hide Separated, Covers, Tight;
    PairMeansTolerance(cs[a], tolerancePct);
    MembersCarry(cs, ds, tolerancePct, a);
    MembersCarry(ds, cs, tolerancePct, a);
    LastTouchOfMembers(cs[a], ds[a]);
    LastTouchOfMembers(ds[a], cs[a]);
    SumsAgree(cs[a], ds[a]);
  }

  lemma {:induction false} LevelListsAgree(cs: seq<seq<SwingPoint>>, ds: seq<seq<SwingPoint>>, close: real)
    requires |cs| == |ds| && close > 0.0
    requires forall a | 0 <= a < |cs| ::
             |cs[a]| == |ds[a]| && (|cs[a]| >= 2 ==> LevelOf(cs[a], close) == LevelOf(ds[a], close))
    ensures LevelsOf(cs, close) == LevelsOf(ds, close)
  {
    hide LevelOf;
    if cs != [] {
      LevelListsAgree(cs[..|cs| - 1], ds[..|ds| - 1], close);
    }
  }

  lemma SortedSwings(swings: seq<SwingPoint>)
    ensures SortedBy(Sort(swings, PriceLeq), PriceLeq) && forall s :: s in Sort(swings, PriceLeq) <==> s in swings
  {
    PriceOrder();
    SortIsSortedPermutation(swings, PriceLeq);
  }

  lemma ClustersAgree(swings: seq<SwingPoint>, shuffled: seq<SwingPoint>, tolerancePct: real)
    requires multiset(swings) == multiset(shuffled) && forall s | s in swings :: s.price > 0.0
    ensures var cs, ds := Clusters(swings, tolerancePct), Clusters(shuffled, tolerancePct);
            && Matching(cs, ds) && Separated(cs, tolerancePct) && Separated(ds, tolerancePct)
            && Covers(cs, ds) && Covers(ds, cs)
  {
    var xs, ys := Sort(swings, PriceLeq), Sort(shuffled, PriceLeq);
    SortedSwings(swings);
    SortedSwings(shuffled);
    SameMembers(swings, shuffled);
    SortedPricesAgree(swings, shuffled);
    hide Sort, Clustered, Separated, Covers, Matching, SortedBy;
    ClusteringMatches(xs, ys, tolerancePct);
    ClusteredSeparated(xs, tolerancePct);
    ClusteredSeparated(ys, tolerancePct);
    Covering(Clustered(xs, tolerancePct), Clustered(ys, tolerancePct));
    Covering(Clustered(ys, tolerancePct), Clustered(xs, tolerancePct));
  }

  /** The same swings in any order report the same levels, in the same order. */
  lemma LevelsIgnoreSwingOrder(swings: seq<SwingPoint>, shuffled: seq<SwingPoint>, latestClose: real,
    tolerancePct: real, maxLevels: int)
    requires multiset(swings) == multiset(shuffled) && latestClose > 0.0
    requires forall s | s in swings :: s.price > 0.0
    ensures PriceLevels(swings, latestClose, tolerancePct, maxLevels) ==
            PriceLevels(shuffled, latestClose, tolerancePct, maxLevels)
  {
    hide Sort, Clusters, Separated, LevelOf, LevelsOf, Covers, SamePrices;
    ClustersAgree(swings, shuffled, tolerancePct);
    var cs, ds := Clusters(swings, tolerancePct), Clusters(shuffled, tolerancePct);
    forall a | 0 <= a < |cs|
      ensures |cs[a]| == |ds[a]| && (|cs[a]| >= 2 ==> LevelOf(cs[a], latestClose) == LevelOf(ds[a], latestClose))
    {
      assert SamePrices(cs[a], ds[a]);
      SameLength(cs[a], ds[a]);
      if |cs[a]| >= 2 {
        LevelsAgreeAt(cs, ds, tolerancePct, a, latestClose);
      }
    }
    LevelListsAgree(cs, ds, latestClose);
  }

  lemma SameLength(xs: seq<SwingPoint>, ys: seq<SwingPoint>)
    requires SamePrices(xs, ys)
    ensures |xs| == |ys|
  {
  }
}
