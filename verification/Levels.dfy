/** Support and resistance: swing prices clustered greedily in price order. */
module Levels {
  import opened Numeric
  import opened Sorting
  import opened Signals

  /** Absolute difference as a percentage of the average of the two. */
  function PctDiff(left: real, right: real): real {
    var midpoint := (left + right) / 2.0;
    if midpoint > 0.0 then Abs(left - right) / midpoint * 100.0 else 100.0
  }

  predicate Near(left: real, right: real, tolerancePct: real) { PctDiff(left, right) <= tolerancePct }

  predicate PriceLeq(s: SwingPoint, t: SwingPoint) { s.price <= t.price }

  function Last<T>(xs: seq<T>): (x: T)
    requires xs != []
    ensures x in xs
  {
    xs[|xs| - 1]
  }

  predicate NoneEmpty<T>(xss: seq<seq<T>>) {
    forall i | 0 <= i < |xss| :: xss[i] != []
  }

  /** Put one more swing, at least as high as all before, into the last cluster or a new one. */
  function Place(clusters: seq<seq<SwingPoint>>, s: SwingPoint, tolerancePct: real): (next: seq<seq<SwingPoint>>)
    requires NoneEmpty(clusters)
    ensures NoneEmpty(next)
  {
    if clusters != [] && Near(Last(Last(clusters)).price, s.price, tolerancePct)
    then clusters[..|clusters| - 1] + [Last(clusters) + [s]]
    else clusters + [[s]]
  }

  function Clustered(sorted: seq<SwingPoint>, tolerancePct: real): (clusters: seq<seq<SwingPoint>>)
    ensures NoneEmpty(clusters)
  {
    if sorted == [] then [] else Place(Clustered(sorted[..|sorted| - 1], tolerancePct), Last(sorted), tolerancePct)
  }

  function Clusters(swings: seq<SwingPoint>, tolerancePct: real): seq<seq<SwingPoint>> {
    Clustered(Sort(swings, PriceLeq), tolerancePct)
  }

  datatype LevelKind = Support | Resistance

  /** `price` is the exact mean, rounded when printed; the distance is rounded to two decimals and sorted by. */
  datatype PriceLevel = PriceLevel(kind: LevelKind, price: real, touches: nat, lastTouch: int, distancePct: real)

  function PriceSum(cluster: seq<SwingPoint>): real {
    if cluster == [] then 0.0 else PriceSum(cluster[..|cluster| - 1]) + Last(cluster).price
  }

  function MeanPrice(cluster: seq<SwingPoint>): real
    requires cluster != []
  {
    PriceSum(cluster) / |cluster| as real
  }

  function LastTouch(cluster: seq<SwingPoint>): (t: int)
    requires cluster != []
    ensures forall s | s in cluster :: s.timestamp <= t
    ensures exists s | s in cluster :: s.timestamp == t
  {
    if |cluster| == 1 then assert cluster[0] in cluster; cluster[0].timestamp
    else
      var front := LastTouch(cluster[..|cluster| - 1]);
      assert Last(cluster) in cluster;
      if front >= Last(cluster).timestamp then front else Last(cluster).timestamp
  }

  function DistancePct(price: real, latestClose: real): real
    requires latestClose != 0.0
  {
    RoundTo((price - latestClose) / latestClose * 100.0, 100.0)
  }

  function LevelOf(cluster: seq<SwingPoint>, latestClose: real): PriceLevel
    requires cluster != [] && latestClose != 0.0
  {
    var price := MeanPrice(cluster);
    PriceLevel(if price > latestClose then Resistance
      else Support, price, |cluster|, LastTouch(cluster), DistancePct(price, latestClose))
  }

  function LevelsOf(clusters: seq<seq<SwingPoint>>, latestClose: real): seq<PriceLevel>
    requires latestClose != 0.0
  {
    if clusters == [] then []
    else
      LevelsOf(clusters[..|clusters| - 1], latestClose)
      + if |Last(clusters)| >= 2 then [LevelOf(Last(clusters), latestClose)] else []
  }

  /** A level as reported: the price rounded to four decimals. */
  function Printed(level: PriceLevel): PriceLevel { level.(price := RoundTo(level.price, 10000.0)) }

  predicate NearerLeq(a: PriceLevel, b: PriceLevel) { Abs(a.distancePct) <= Abs(b.distancePct) }

  function PriceLevels(swings: seq<SwingPoint>, latestClose: real, tolerancePct: real, maxLevels: int): seq<PriceLevel>
    requires latestClose > 0.0
  {
    Take(Sort(LevelsOf(Clusters(swings, tolerancePct), latestClose), NearerLeq), maxLevels)
  }

  method GroupSwings(sorted: seq<SwingPoint>, tolerancePct: real) returns (clusters: seq<seq<SwingPoint>>)
    ensures clusters == Clustered(sorted, tolerancePct)
  {
    clusters := [];
    for i := 0 to |sorted|
      invariant clusters == Clustered(sorted[..i], tolerancePct)
    {
      assert sorted[..i + 1][..i] == sorted[..i];
      if clusters != [] && Near(Last(Last(clusters)).price, sorted[i].price, tolerancePct) {
        clusters := clusters[..|clusters| - 1] + [Last(clusters) + [sorted[i]]];
      } else {
        clusters := clusters + [[sorted[i]]];
      }
    }
    assert sorted[..|sorted|] == sorted;
  }

  /** The same levels, each price to the nearest ten-thousandth. */
  ghost predicate PrintedOut(levels: seq<PriceLevel>, shown: seq<PriceLevel>) {
    && |shown| == |levels|
    && forall i | 0 <= i < |levels| ::
      && Quantised(levels[i].price, shown[i].price, 10_000.0)
      && shown[i].kind == levels[i].kind && shown[i].touches == levels[i].touches
      && shown[i].lastTouch == levels[i].lastTouch && shown[i].distancePct == levels[i].distancePct
  }

  lemma PrintsEach(levels: seq<PriceLevel>)
    ensures PrintedOut(levels, Map(Printed, levels))
  {
    hide Quantised, RoundTo;
    forall i | 0 <= i < |levels|
      ensures Quantised(levels[i].price, Printed(levels[i]).price, 10_000.0)
    {
      RoundToQuantises(levels[i].price, 10_000.0);
    }
    MapAt(Printed, levels);
  }

  lemma MapAt<S, T>(f: S -> T, xs: seq<S>)
    ensures |Map(f, xs)| == |xs| && forall i | 0 <= i < |xs| :: Map(f, xs)[i] == f(xs[i])
  {
  }

  lemma PrintedSnoc(clusters: seq<seq<SwingPoint>>, latestClose: real)
    requires latestClose != 0.0
    ensures Map(Printed, LevelsOf(clusters, latestClose)) ==
            if clusters == [] then []
            else if |Last(clusters)| < 2 then Map(Printed, LevelsOf(clusters[..|clusters| - 1], latestClose))
            else
              Map(Printed, LevelsOf(clusters[..|clusters| - 1], latestClose))
              + [Printed(LevelOf(Last(clusters), latestClose))]
  {
    hide LevelOf;
  }

  method FindLevels(swings: seq<SwingPoint>, latestClose: real, tolerancePct: real, maxLevels: int)
    returns (levels: seq<PriceLevel>)
    requires latestClose > 0.0
    ensures levels == Map(Printed, PriceLevels(swings, latestClose, tolerancePct, maxLevels))
    ensures PrintedOut(PriceLevels(swings, latestClose, tolerancePct, maxLevels), levels)
  {
    hide PrintedOut, LevelsOf, LevelOf, Map, Clustered, Printed, PriceLevels, Sort, Take, NearerLeq;
    if swings == [] {
      NoSwingsNoLevels(latestClose, tolerancePct, maxLevels);
      PrintsEach([]);
      return [];
    }
    var clusters := GroupSwings(Sort(swings, PriceLeq), tolerancePct);
    levels := [];
    PrintedSnoc([], latestClose);
    for i := 0 to |clusters|
      invariant levels == Map(Printed, LevelsOf(clusters[..i], latestClose))
    {
      assert clusters[..i + 1][..i] == clusters[..i];
      PrintedSnoc(clusters[..i + 1], latestClose);
      if |clusters[i]| >= 2 {
        levels := levels + [Printed(LevelOf(clusters[i], latestClose))];
      }
    }
    assert clusters[..|clusters|] == clusters;
    PrintedNearest(swings, latestClose, tolerancePct, maxLevels);
    PrintsEach(PriceLevels(swings, latestClose, tolerancePct, maxLevels));
    levels := Take(Sort(levels, NearerLeq), maxLevels);
  }

  lemma NoSwingsNoLevels(latestClose: real, tolerancePct: real, maxLevels: int)
    requires latestClose > 0.0
    ensures PriceLevels([], latestClose, tolerancePct, maxLevels) == []
    ensures Map(Printed, []) == []
  {
  }

  lemma PrintedNearest(swings: seq<SwingPoint>, latestClose: real, tolerancePct: real, maxLevels: int)
    requires latestClose > 0.0
    ensures var levels := LevelsOf(Clustered(Sort(swings, PriceLeq), tolerancePct), latestClose);
            Take(Sort(Map(Printed, levels), NearerLeq), maxLevels) ==
              Map(Printed, PriceLevels(swings, latestClose, tolerancePct, maxLevels))
  {
    hide LevelsOf, Clustered, Map, Sort, Take, NearerLeq;
    NearestMap(Printed, LevelsOf(Clusters(swings, tolerancePct), latestClose), maxLevels);
  }

  /** Changing what a level shows, but not how far it is, commutes with keeping the nearest. */
  lemma NearestMap(f: PriceLevel -> PriceLevel, levels: seq<PriceLevel>, maxLevels: int)
    requires forall l :: f(l).distancePct == l.distancePct
    ensures Take(Sort(Map(f, levels), NearerLeq), maxLevels) == Map(f, Take(Sort(levels, NearerLeq), maxLevels))
  {
    hide Sort, Take;
    SortMap(f, levels, NearerLeq, NearerLeq);
    TakeMap(f, Sort(levels, NearerLeq), maxLevels);
  }

  // What the clusters are.

  /** For positive prices, widening an interval can only widen the percentage. */
  lemma PctDiffWidens(low: real, a: real, b: real, high: real)
    requires 0.0 < low <= a <= b <= high
    ensures PctDiff(a, b) <= PctDiff(low, high)
  {
    CrossWidens(low, a, b, high);
    var r := (high - low) / ((low + high) / 2.0);
    assert r * ((low + high) / 2.0) == high - low;
    assert (b - a) * (low + high) == (b - a) * 2.0 * ((low + high) / 2.0);
    ScaledRatio(b - a, a + b, high - low, low + high);
  }

  lemma CrossWidens(low: real, a: real, b: real, high: real)
    requires 0.0 < low <= a <= b <= high
    ensures (b - a) * (low + high) <= (high - low) * (a + b)
  {
    assert (high - low) * (a + b) - (b - a) * (low + high) == 2.0 * (high * a - b * low);
    assert high * a >= b * a >= b * low;
  }

  lemma ScaledRatio(x: real, y: real, u: real, v: real)
    requires y > 0.0 && v > 0.0 && x * v <= u * y
    ensures x / (y / 2.0) <= u / (v / 2.0)
  {
    var q := u / (v / 2.0);
    assert q * (v / 2.0) == u;
    assert x * v <= q * (y / 2.0) * v;
    CancelFactor(x, q * (y / 2.0), v);
    QuotientAtMost(x, y / 2.0, q);
  }

  predicate Adjoins(s: SwingPoint, t: SwingPoint, tolerancePct: real) {
    s.price <= t.price && Near(s.price, t.price, tolerancePct)
  }

  /** Neighbours within a cluster are near, neighbours across a boundary are not, and prices never step back. */
  ghost predicate Tight(cluster: seq<SwingPoint>, tolerancePct: real) {
    && cluster != []
    && forall i, j | 0 <= i && j == i + 1 && j < |cluster| :: Adjoins(cluster[i], cluster[j], tolerancePct)
  }

  ghost predicate Apart(left: seq<SwingPoint>, right: seq<SwingPoint>, tolerancePct: real) {
    && left != [] && right != []
    && Last(left).price <= right[0].price
    && !Near(Last(left).price, right[0].price, tolerancePct)
  }

  ghost predicate Separated(clusters: seq<seq<SwingPoint>>, tolerancePct: real) {
    && (forall a | 0 <= a < |clusters| :: Tight(clusters[a], tolerancePct))
    && (forall a, b | 0 <= a && b == a + 1 && b < |clusters| :: Apart(clusters[a], clusters[b], tolerancePct))
  }

  function Flatten<T>(xss: seq<seq<T>>): seq<T> {
    if xss == [] then [] else Flatten(xss[..|xss| - 1]) + Last(xss)
  }

  lemma PlaceSeparated(clusters: seq<seq<SwingPoint>>, s: SwingPoint, tolerancePct: real)
    requires Separated(clusters, tolerancePct) && NoneEmpty(clusters)
    requires clusters != [] ==> Last(Last(clusters)).price <= s.price
    ensures Separated(Place(clusters, s, tolerancePct), tolerancePct)
  {
    var next := Place(clusters, s, tolerancePct);
    var n := |clusters|;
    if |next| == n {
      assert Tight(clusters[n - 1] + [s], tolerancePct);
      assert forall a | 0 <= a < n - 1 :: next[a] == clusters[a];
      if n > 1 {
        assert Apart(clusters[n - 2], clusters[n - 1], tolerancePct);
        assert Apart(next[n - 2], next[n - 1], tolerancePct);
      }
    }
  }

  lemma PlaceFlat(clusters: seq<seq<SwingPoint>>, s: SwingPoint, tolerancePct: real)
    requires NoneEmpty(clusters)
    ensures Flatten(Place(clusters, s, tolerancePct)) == Flatten(clusters) + [s]
    ensures Place(clusters, s, tolerancePct) != [] && Last(Last(Place(clusters, s, tolerancePct))) == s
  {
    var next := Place(clusters, s, tolerancePct);
    if |next| == |clusters| {
      assert next[..|next| - 1] == clusters[..|clusters| - 1];
    } else {
      assert next[..|next| - 1] == clusters;
    }
  }

  ghost predicate Arranges(clusters: seq<seq<SwingPoint>>, sorted: seq<SwingPoint>, tolerancePct: real) {
    && NoneEmpty(clusters) && Separated(clusters, tolerancePct) && Flatten(clusters) == sorted
    && (sorted == [] <==> clusters == [])
    && (sorted != [] ==> Last(Last(clusters)) == Last(sorted))
  }

  lemma PlaceArranges(clusters: seq<seq<SwingPoint>>, sorted: seq<SwingPoint>, s: SwingPoint, tolerancePct: real)
    requires Arranges(clusters, sorted, tolerancePct)
    requires sorted != [] ==> Last(sorted).price <= s.price
    ensures Arranges(Place(clusters, s, tolerancePct), sorted + [s], tolerancePct)
  {
    PlaceSeparated(clusters, s, tolerancePct);
    PlaceFlat(clusters, s, tolerancePct);
  }

  lemma SortedFront(sorted: seq<SwingPoint>)
    requires sorted != [] && SortedBy(sorted, PriceLeq)
    ensures SortedBy(sorted[..|sorted| - 1], PriceLeq)
    ensures |sorted| > 1 ==> Last(sorted[..|sorted| - 1]).price <= Last(sorted).price
  {
    if |sorted| > 1 {
      assert PriceLeq(sorted[|sorted| - 2], sorted[|sorted| - 1]);
    }
  }

  lemma ClusteredStep(sorted: seq<SwingPoint>, tolerancePct: real)
    requires sorted != []
    ensures Clustered(sorted, tolerancePct) ==
            Place(Clustered(sorted[..|sorted| - 1], tolerancePct), Last(sorted), tolerancePct)
  {
  }

  lemma NothingArranged(tolerancePct: real)
    ensures Arranges(Clustered([], tolerancePct), [], tolerancePct)
  {
  }

  lemma {:induction false} ClusteredSeparated(sorted: seq<SwingPoint>, tolerancePct: real)
    requires SortedBy(sorted, PriceLeq)
    ensures Arranges(Clustered(sorted, tolerancePct), sorted, tolerancePct)
  {
    hide Arranges, Place, SortedBy, Clustered, Separated, Flatten;
    if sorted == [] {
      NothingArranged(tolerancePct);
    } else {
      var front, s := sorted[..|sorted| - 1], Last(sorted);
      SortedFront(sorted);
      ClusteredSeparated(front, tolerancePct);
      PlaceArranges(Clustered(front, tolerancePct), front, s, tolerancePct);
      ClusteredStep(sorted, tolerancePct);
      assert sorted == front + [s];
    }
  }

  lemma {:induction false} InFlatten<T>(xss: seq<seq<T>>, x: T)
    ensures x in Flatten(xss) <==> exists a :: 0 <= a < |xss| && x in xss[a]
  {
    if xss != [] {
      InFlatten(xss[..|xss| - 1], x);
      assert forall a | 0 <= a < |xss| - 1 :: xss[..|xss| - 1][a] == xss[a];
    }
  }

  lemma {:induction false} TightBounds(cluster: seq<SwingPoint>, tolerancePct: real, i: nat, j: nat)
    requires Tight(cluster, tolerancePct) && i <= j < |cluster|
    ensures cluster[i].price <= cluster[j].price
  {
    if i < j {
      TightBounds(cluster, tolerancePct, i, j - 1);
      assert Adjoins(cluster[j - 1], cluster[j], tolerancePct);
    }
  }

  lemma {:induction false} BoundariesOrdered(clusters: seq<seq<SwingPoint>>, tolerancePct: real, a: nat, b: nat)
    requires Separated(clusters, tolerancePct) && a < b < |clusters|
    ensures clusters[a] != [] && clusters[b] != []
    ensures Last(clusters[a]).price <= clusters[b][0].price
  {
    assert Tight(clusters[a], tolerancePct) && Tight(clusters[b], tolerancePct);
    assert Apart(clusters[b - 1], clusters[b], tolerancePct);
    if a < b - 1 {
      BoundariesOrdered(clusters, tolerancePct, a, b - 1);
      TightBounds(clusters[b - 1], tolerancePct, 0, |clusters[b - 1]| - 1);
    }
  }

  lemma BetweenClusters(clusters: seq<seq<SwingPoint>>, tolerancePct: real, a: nat, b: nat, x: SwingPoint,
    y: SwingPoint)
    requires Separated(clusters, tolerancePct) && a < b < |clusters|
    requires x in clusters[a] && y in clusters[b]
    ensures Apart(clusters[a], clusters[a + 1], tolerancePct)
    ensures x.price <= Last(clusters[a]).price <= clusters[a + 1][0].price <= y.price
  {
    assert Tight(clusters[a + 1], tolerancePct);
    var i :| 0 <= i < |clusters[a]| && clusters[a][i] == x;
    var j :| 0 <= j < |clusters[b]| && clusters[b][j] == y;
    TightBounds(clusters[a], tolerancePct, i, |clusters[a]| - 1);
    TightBounds(clusters[b], tolerancePct, 0, j);
    BoundariesOrdered(clusters, tolerancePct, a, a + 1);
    if a + 1 < b {
      BoundariesOrdered(clusters, tolerancePct, a + 1, b);
      TightBounds(clusters[a + 1], tolerancePct, 0, |clusters[a + 1]| - 1);
    }
  }

  lemma NearSymmetric(left: real, right: real, tolerancePct: real)
    ensures Near(left, right, tolerancePct) == Near(right, left, tolerancePct)
  {
    assert Abs(left - right) == Abs(right - left);
  }

  /** A single near step never leaves its cluster. */
  lemma StepStays(clusters: seq<seq<SwingPoint>>, tolerancePct: real, a: nat, b: nat, x: SwingPoint, y: SwingPoint)
    requires Separated(clusters, tolerancePct) && a < |clusters| && b < |clusters|
    requires x in clusters[a] && y in clusters[b] && x.price > 0.0 && y.price > 0.0
    requires Near(x.price, y.price, tolerancePct)
    ensures a == b
  {
    if a < b {
      BetweenClusters(clusters, tolerancePct, a, b, x, y);
      PctDiffWidens(x.price, Last(clusters[a]).price, clusters[a + 1][0].price, y.price);
      assert false;
    } else if b < a {
      NearSymmetric(x.price, y.price, tolerancePct);
      BetweenClusters(clusters, tolerancePct, b, a, y, x);
      PctDiffWidens(y.price, Last(clusters[b]).price, clusters[b + 1][0].price, x.price);
      assert false;
    }
  }

  /** A walk among the swings whose every step is within the tolerance. */
  ghost predicate Walk(swings: seq<SwingPoint>, path: seq<SwingPoint>, tolerancePct: real) {
    && path != []
    && (forall s | s in path :: s in swings)
    && forall i, j | 0 <= i && j == i + 1 && j < |path| :: Near(path[i].price, path[j].price, tolerancePct)
  }

  ghost predicate Connected(swings: seq<SwingPoint>, x: SwingPoint, y: SwingPoint, tolerancePct: real) {
    exists path :: Walk(swings, path, tolerancePct) && path[0] == x && Last(path) == y
  }

  ghost predicate Together(clusters: seq<seq<SwingPoint>>, x: SwingPoint, y: SwingPoint) {
    exists a :: 0 <= a < |clusters| && x in clusters[a] && y in clusters[a]
  }

  lemma {:induction false} WalkStays(clusters: seq<seq<SwingPoint>>, swings: seq<SwingPoint>, path: seq<SwingPoint>,
    tolerancePct: real, a: nat)
    requires Separated(clusters, tolerancePct) && a < |clusters|
    requires forall s :: s in swings <==> s in Flatten(clusters)
    requires forall s | s in swings :: s.price > 0.0
    requires Walk(swings, path, tolerancePct) && path[0] in clusters[a]
    ensures Last(path) in clusters[a]
  {
    if |path| > 1 {
      var next := path[1];
      assert next in path && path[0] in path;
      InFlatten(clusters, next);
      var b :| 0 <= b < |clusters| && next in clusters[b];
      assert Near(path[0].price, path[1].price, tolerancePct);
      StepStays(clusters, tolerancePct, a, b, path[0], next);
      WalkStays(clusters, swings, path[1..], tolerancePct, a);
    }
  }

  lemma ClusterAmongSwings(clusters: seq<seq<SwingPoint>>, swings: seq<SwingPoint>, a: nat)
    requires a < |clusters|
    requires forall s :: s in swings <==> s in Flatten(clusters)
    ensures forall s | s in clusters[a] :: s in swings
  {
    forall s | s in clusters[a]
      ensures s in swings
    {
      InFlatten(clusters, s);
    }
  }

  lemma TightIsConnected(swings: seq<SwingPoint>, c: seq<SwingPoint>, tolerancePct: real, x: SwingPoint, y: SwingPoint)
    requires Tight(c, tolerancePct) && (forall s | s in c :: s in swings)
    requires x in c && y in c
    ensures Connected(swings, x, y, tolerancePct)
  {
    var i :| 0 <= i < |c| && c[i] == x;
    var j :| 0 <= j < |c| && c[j] == y;
    if i <= j {
      RunIsWalk(swings, c, tolerancePct, i, j);
    } else {
      RunIsWalk(swings, c, tolerancePct, j, i);
      var path := c[j..i + 1];
      assert path[0] == y && Last(path) == x;
      WalkBack(swings, path, tolerancePct);
    }
  }

  lemma RunIsWalk(swings: seq<SwingPoint>, c: seq<SwingPoint>, tolerancePct: real, i: nat, j: nat)
    requires Tight(c, tolerancePct) && i <= j < |c| && forall s | s in c :: s in swings
    ensures Walk(swings, c[i..j + 1], tolerancePct)
    ensures Connected(swings, c[i], c[j], tolerancePct)
  {
    var path := c[i..j + 1];
    forall k, l | 0 <= k && l == k + 1 && l < |path|
      ensures Near(path[k].price, path[l].price, tolerancePct)
    {
      assert Adjoins(c[i + k], c[i + l], tolerancePct);
    }
    assert path[0] == c[i] && Last(path) == c[j];
  }

  lemma WalkBack(swings: seq<SwingPoint>, path: seq<SwingPoint>, tolerancePct: real)
    requires Walk(swings, path, tolerancePct)
    ensures Connected(swings, Last(path), path[0], tolerancePct)
  {
    var n := |path|;
    var back := seq(n, k requires 0 <= k < n => path[n - 1 - k]);
    forall k, l | 0 <= k && l == k + 1 && l < n
      ensures Near(back[k].price, back[l].price, tolerancePct)
    {
      assert Near(path[n - 1 - l].price, path[n - 1 - k].price, tolerancePct);
      NearSymmetric(path[n - 1 - l].price, path[n - 1 - k].price, tolerancePct);
    }
    assert Walk(swings, back, tolerancePct) && back[0] == Last(path) && Last(back) == path[0];
  }

  /** Main result: two swings share a cluster exactly when near steps among the swings connect them, whatever their
   * order.
   */
  lemma ClustersAreComponents(swings: seq<SwingPoint>, tolerancePct: real, x: SwingPoint, y: SwingPoint)
    requires forall s | s in swings :: s.price > 0.0
    requires x in swings && y in swings
    ensures Together(Clusters(swings, tolerancePct), x, y) <==> Connected(swings, x, y, tolerancePct)
  {
    var sorted := Sort(swings, PriceLeq);
    SortIsSortedPermutation(swings, PriceLeq);
    ClusteredSeparated(sorted, tolerancePct);
    var cs := Clusters(swings, tolerancePct);
    if Together(cs, x, y) {
      var a :| 0 <= a < |cs| && x in cs[a] && y in cs[a];
      ClusterAmongSwings(cs, swings, a);
      TightIsConnected(swings, cs[a], tolerancePct, x, y);
    }
    if Connected(swings, x, y, tolerancePct) {
      var path :| Walk(swings, path, tolerancePct) && path[0] == x && Last(path) == y;
      InFlatten(cs, x);
      var a :| 0 <= a < |cs| && x in cs[a];
      WalkStays(cs, swings, path, tolerancePct, a);
    }
  }

  /** Every swing lands in the clusters exactly as often as it was given. */
  lemma ClustersPartition(swings: seq<SwingPoint>, tolerancePct: real)
    ensures multiset(Flatten(Clusters(swings, tolerancePct))) == multiset(swings)
  {
    SortIsSortedPermutation(swings, PriceLeq);
    ClusteredSeparated(Sort(swings, PriceLeq), tolerancePct);
  }

  // What the levels are.

  lemma OneMore(x: real, n: nat)
    ensures x * (n + 1) as real == x * n as real + x
  {
  }

  lemma {:induction false} SumBounds(cluster: seq<SwingPoint>, low: real, high: real)
    requires forall s | s in cluster :: low <= s.price <= high
    ensures low * |cluster| as real <= PriceSum(cluster) <= high * |cluster| as real
  {
    if cluster != [] {
      var front := cluster[..|cluster| - 1];
      SumBounds(front, low, high);
      assert low <= Last(cluster).price <= high;
      OneMore(low, |front|);
      OneMore(high, |front|);
    }
  }

  lemma MeanBetween(sum: real, n: real, low: real, high: real)
    requires n > 0.0 && low * n <= sum <= high * n
    ensures low <= sum / n <= high
  {
    var mean := sum / n;
    assert mean * n == sum;
    CancelFactor(low, mean, n);
    CancelFactor(mean, high, n);
  }

  lemma MeanWithin(cluster: seq<SwingPoint>, tolerancePct: real)
    requires Tight(cluster, tolerancePct)
    ensures cluster[0].price <= MeanPrice(cluster) <= Last(cluster).price
  {
    forall s | s in cluster
      ensures cluster[0].price <= s.price <= Last(cluster).price
    {
      var i :| 0 <= i < |cluster| && cluster[i] == s;
      TightBounds(cluster, tolerancePct, 0, i);
      TightBounds(cluster, tolerancePct, i, |cluster| - 1);
    }
    SumBounds(cluster, cluster[0].price, Last(cluster).price);
    MeanBetween(PriceSum(cluster), |cluster| as real, cluster[0].price, Last(cluster).price);
  }

  lemma {:induction false} LevelsFromClusters(clusters: seq<seq<SwingPoint>>, latestClose: real, level: PriceLevel)
    requires latestClose != 0.0
    ensures level in LevelsOf(clusters, latestClose) <==>
            exists c | c in clusters :: |c| >= 2 && LevelOf(c, latestClose) == level
  {
    if clusters != [] {
      var front := clusters[..|clusters| - 1];
      LevelsFromClusters(front, latestClose, level);
      assert forall c :: c in clusters <==> c in front || c == Last(clusters);
    }
  }

  lemma ClustersSeparated(swings: seq<SwingPoint>, tolerancePct: real)
    ensures Separated(Clusters(swings, tolerancePct), tolerancePct)
  {
    SortIsSortedPermutation(swings, PriceLeq);
    ClusteredSeparated(Sort(swings, PriceLeq), tolerancePct);
  }

  /** Every reported level has two or more touches and lies within its cluster. */
  lemma LevelsComeFromClusters(swings: seq<SwingPoint>, latestClose: real, tolerancePct: real, maxLevels: int,
    level: PriceLevel)
    returns (c: seq<SwingPoint>)
    requires latestClose > 0.0 && level in PriceLevels(swings, latestClose, tolerancePct, maxLevels)
    ensures c in Clusters(swings, tolerancePct) && |c| >= 2 && LevelOf(c, latestClose) == level
    ensures c[0].price <= level.price <= Last(c).price
  {
    var clusters := Clusters(swings, tolerancePct);
    var all := LevelsOf(clusters, latestClose);
    SortIsSortedPermutation(all, NearerLeq);
    TakeIsPrefix(Sort(all, NearerLeq), maxLevels);
    assert level in Sort(all, NearerLeq);
    LevelsFromClusters(clusters, latestClose, level);
    c :| c in clusters && |c| >= 2 && LevelOf(c, latestClose) == level;
    ClusterMean(swings, tolerancePct, c);
  }

  lemma ClusterMean(swings: seq<SwingPoint>, tolerancePct: real, c: seq<SwingPoint>)
    requires c in Clusters(swings, tolerancePct)
    ensures c != [] && c[0].price <= MeanPrice(c) <= Last(c).price
  {
    ClustersSeparated(swings, tolerancePct);
    MeanWithin(c, tolerancePct);
  }

  /** And a cluster left out of the report is no nearer to the price than any level in it. */
  lemma NearestLevelsKept(swings: seq<SwingPoint>, latestClose: real, tolerancePct: real, maxLevels: int,
    level: PriceLevel, c: seq<SwingPoint>)
    requires latestClose > 0.0 && level in PriceLevels(swings, latestClose, tolerancePct, maxLevels)
    requires c in Clusters(swings, tolerancePct) && |c| >= 2
    ensures LevelOf(c, latestClose) in PriceLevels(swings, latestClose, tolerancePct, maxLevels)
            || NearerLeq(level, LevelOf(c, latestClose))
  {
    var all := LevelsOf(Clusters(swings, tolerancePct), latestClose);
    var sorted := Sort(all, NearerLeq);
    SortIsSortedPermutation(all, NearerLeq);
    TakeIsPrefix(sorted, maxLevels);
    var kept := Take(sorted, maxLevels);
    var other := LevelOf(c, latestClose);
    LevelsFromClusters(Clusters(swings, tolerancePct), latestClose, other);
    var i :| 0 <= i < |kept| && kept[i] == level;
    var j :| 0 <= j < |sorted| && sorted[j] == other;
    assert sorted[i] == level;
    assert j < |kept| ==> kept[j] == other;
  }

  lemma PairMeansTolerance(c: seq<SwingPoint>, tolerancePct: real)
    requires Tight(c, tolerancePct) && |c| >= 2
    ensures tolerancePct >= 0.0
  {
    assert Adjoins(c[0], c[1], tolerancePct);
    TolerancePositive(c[0].price, c[1].price, tolerancePct);
  }

  /** Levels of different clusters never coincide before rounding. */
  lemma LevelPricesDistinct(swings: seq<SwingPoint>, latestClose: real, tolerancePct: real, a: nat, b: nat)
    requires latestClose > 0.0 && (forall s | s in swings :: s.price > 0.0)
    requires var cs := Clusters(swings, tolerancePct); a < b < |cs| && |cs[a]| >= 2 && |cs[b]| >= 2
    ensures var cs := Clusters(swings, tolerancePct);
            LevelOf(cs[a], latestClose).price < LevelOf(cs[b], latestClose).price
  {
    var cs := Clusters(swings, tolerancePct);
    ClustersSeparated(swings, tolerancePct);
    ClustersPartition(swings, tolerancePct);
    MeanWithin(cs[a], tolerancePct);
    MeanWithin(cs[b], tolerancePct);
    PairMeansTolerance(cs[a], tolerancePct);
    var edge := Last(cs[a]);
    BetweenClusters(cs, tolerancePct, a, b, edge, cs[b][0]);
    InFlatten(cs, edge);
    assert edge in multiset(Flatten(cs));
    assert edge in swings;
    SelfNear(edge.price, tolerancePct);
  }

  lemma TolerancePositive(left: real, right: real, tolerancePct: real)
    requires Near(left, right, tolerancePct)
    ensures tolerancePct >= 0.0
  {
    var midpoint := (left + right) / 2.0;
    if midpoint > 0.0 {
      QuotientAtMost(Abs(left - right), midpoint, 0.0);
    }
  }

  lemma SelfNear(price: real, tolerancePct: real)
    requires price > 0.0 && tolerancePct >= 0.0
    ensures Near(price, price, tolerancePct)
  {
  }
}
