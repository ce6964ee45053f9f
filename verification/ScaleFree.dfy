/** The whole chart scan is scale-free: multiplying every price by k > 0 only multiplies the reported prices. */
module ScaleFree {
  import opened Numeric
  import opened Sorting
  import opened Market
  import opened Signals
  import opened Swings
  import opened Levels
  import opened Patterns
  import opened ScaleLaws

  // The laws of a rescaling, one use at a time.

  lemma UseOrder(f: real -> real, x: real, y: real)
    requires Rescales(f)
    ensures x < y <==> f(x) < f(y)
    ensures (f(x) > 0.0 <==> x > 0.0) && (f(x) == 0.0 <==> x == 0.0)
  {
    assert KeepsOrder(f, x, y);
  }

  lemma UseExtremes(f: real -> real, x: real, y: real)
    requires Rescales(f)
    ensures Max(f(x), f(y)) == f(Max(x, y)) && Min(f(x), f(y)) == f(Min(x, y))
  {
    hide Rescales;
    UseOrder(f, x, y);
    UseOrder(f, y, x);
  }

  lemma UseLikeness(f: real -> real, x: real, y: real)
    requires Rescales(f)
    ensures PctDiff(f(x), f(y)) == PctDiff(x, y) && Symmetry(f(x), f(y)) == Symmetry(x, y)
  {
    hide PctDiff, Symmetry;
    assert KeepsLikeness(f, x, y);
  }

  lemma UseDepth(f: real -> real, x: real, y: real)
    requires Rescales(f)
    ensures x != 0.0 ==> f(x) != 0.0 && DropPct(f(x), f(y)) == DropPct(x, y)
    ensures y != 0.0 ==> f(y) != 0.0 && RisePct(f(x), f(y)) == RisePct(x, y)
    ensures RangeQuality(f(x), f(y)) == RangeQuality(x, y)
  {
    hide DropPct, RisePct, RangeQuality;
    assert KeepsDepth(f, x, y);
  }

  lemma UseRelation(f: real -> real, x: real, close: real)
    requires Rescales(f) && close > 0.0
    ensures f(close) > 0.0 && DistancePct(f(x), f(close)) == DistancePct(x, close)
    ensures SlopePct(f(x), f(close)) == SlopePct(x, close)
  {
    hide DistancePct, SlopePct;
    assert KeepsRelation(f, x, close);
  }

  lemma UseMean(f: real -> real, c: seq<SwingPoint>)
    requires Rescales(f) && c != []
    ensures MeanPrice(Map(ScaleSwing(f), c)) == f(MeanPrice(c))
  {
    hide MeanPrice;
    assert CarriesMean(f, c);
  }

  lemma UseSlope(f: real -> real, a: SwingPoint, b: SwingPoint, c: SwingPoint)
    requires Rescales(f)
    ensures Slope(ScaleSwing(f)(a), ScaleSwing(f)(b), ScaleSwing(f)(c)) == f(Slope(a, b, c))
  {
    hide Slope;
    assert CarriesSlope(f, a, b, c);
  }

  // Swings.

  lemma PeakScale(bars: seq<Bar>, i: int, window: nat, f: real -> real)
    requires Rescales(f) && window <= i < |bars| - window
    ensures Peak(Map(ScaleBar(f), bars), i, window) == Peak(bars, i, window)
    ensures Trough(Map(ScaleBar(f), bars), i, window) == Trough(bars, i, window)
  {
    hide Rescales;
    var scaled := Map(ScaleBar(f), bars);
    forall j | i - window <= j <= i + window
      ensures scaled[i].high > scaled[j].high <==> bars[i].high > bars[j].high
      ensures scaled[i].low < scaled[j].low <==> bars[i].low < bars[j].low
    {
      UseOrder(f, bars[j].high, bars[i].high);
      UseOrder(f, bars[i].low, bars[j].low);
    }
  }

  lemma {:induction false} SwingsScale(bars: seq<Bar>, end: int, window: nat, f: real -> real)
    requires Rescales(f) && end <= |bars| - window
    ensures SwingsUpTo(Map(ScaleBar(f), bars), end, window) == Map(ScaleSwing(f), SwingsUpTo(bars, end, window))
    decreases end
  {
    hide Rescales, Peak, Trough;
    if end > window {
      SwingsScale(bars, end - 1, window, f);
      PeakScale(bars, end - 1, window, f);
      MapAppend(ScaleSwing(f), SwingsUpTo(bars, end - 1, window), SwingAt(bars, end - 1, window));
    }
  }

  lemma MapAppend<S, T>(f: S -> T, xs: seq<S>, ys: seq<S>)
    ensures Map(f, xs + ys) == Map(f, xs) + Map(f, ys)
  {
  }

  // Levels.

  lemma {:induction false} ClusteredScale(sorted: seq<SwingPoint>, tolerancePct: real, f: real -> real)
    requires Rescales(f)
    ensures Clustered(Map(ScaleSwing(f), sorted), tolerancePct) == Map(ScaleCluster(f), Clustered(sorted, tolerancePct))
  {
    hide Rescales;
    if sorted != [] {
      var front := sorted[..|sorted| - 1];
      ClusteredScale(front, tolerancePct, f);
      assert Map(ScaleSwing(f), sorted)[..|sorted| - 1] == Map(ScaleSwing(f), front);
      PlaceScale(Clustered(front, tolerancePct), Last(sorted), tolerancePct, f);
    }
  }

  lemma MapSnoc<S, T>(f: S -> T, xs: seq<S>, x: S)
    ensures Map(f, xs + [x]) == Map(f, xs) + [f(x)]
  {
  }

  lemma PlaceScale(clusters: seq<seq<SwingPoint>>, s: SwingPoint, tolerancePct: real, f: real -> real)
    requires Rescales(f) && NoneEmpty(clusters)
    ensures NoneEmpty(Map(ScaleCluster(f), clusters))
    ensures Place(Map(ScaleCluster(f), clusters), ScaleSwing(f)(s), tolerancePct) ==
            Map(ScaleCluster(f), Place(clusters, s, tolerancePct))
  {
    hide Rescales, PctDiff;
    var scaled := Map(ScaleCluster(f), clusters);
    assert Map(ScaleSwing(f), [s]) == [ScaleSwing(f)(s)];
    MapSnoc(ScaleCluster(f), clusters, [s]);
    if clusters != [] {
      var n, c := |clusters|, Last(clusters);
      assert Last(scaled) == Map(ScaleSwing(f), c);
      UseLikeness(f, Last(c).price, s.price);
      MapSnoc(ScaleSwing(f), c, s);
      MapSnoc(ScaleCluster(f), clusters[..n - 1], c + [s]);
      assert scaled[..n - 1] == Map(ScaleCluster(f), clusters[..n - 1]);
    }
  }

  lemma {:induction false} LastTouchScale(cluster: seq<SwingPoint>, f: real -> real)
    requires cluster != []
    ensures LastTouch(Map(ScaleSwing(f), cluster)) == LastTouch(cluster)
  {
    hide LastTouch;
    var n, scaled := |cluster|, Map(ScaleSwing(f), cluster);
    assert Last(scaled).timestamp == Last(cluster).timestamp;
    LastTouchStep(cluster);
    LastTouchStep(scaled);
    if n > 1 {
      LastTouchScale(cluster[..n - 1], f);
      assert scaled[..n - 1] == Map(ScaleSwing(f), cluster[..n - 1]);
    }
  }

  lemma LastTouchStep(cluster: seq<SwingPoint>)
    requires cluster != []
    ensures |cluster| == 1 ==> LastTouch(cluster) == Last(cluster).timestamp
    ensures |cluster| > 1 ==>
              var front, last := LastTouch(cluster[..|cluster| - 1]), Last(cluster).timestamp;
              LastTouch(cluster) == if front >= last then front else last
  {
  }

  lemma LevelScale(cluster: seq<SwingPoint>, close: real, f: real -> real)
    requires Rescales(f) && close > 0.0 && cluster != []
    ensures f(close) > 0.0
    ensures LevelOf(Map(ScaleSwing(f), cluster), f(close)) == ScaleLevel(f)(LevelOf(cluster, close))
  {
    hide Rescales, MeanPrice, DistancePct, SlopePct;
    LastTouchScale(cluster, f);
    UseMean(f, cluster);
    UseRelation(f, MeanPrice(cluster), close);
    UseOrder(f, close, MeanPrice(cluster));
  }

  lemma {:induction false} LevelsOfScale(clusters: seq<seq<SwingPoint>>, close: real, f: real -> real)
    requires Rescales(f) && close > 0.0
    ensures f(close) > 0.0
    ensures LevelsOf(Map(ScaleCluster(f), clusters), f(close)) == Map(ScaleLevel(f), LevelsOf(clusters, close))
  {
    hide Rescales;
    UseOrder(f, close, close);
    if clusters != [] {
      hide LevelOf;
      var front, c := clusters[..|clusters| - 1], Last(clusters);
      LevelsOfScale(front, close, f);
      assert Map(ScaleCluster(f), clusters)[..|clusters| - 1] == Map(ScaleCluster(f), front);
      if |c| >= 2 {
        LevelScale(c, close, f);
        MapSnoc(ScaleLevel(f), LevelsOf(front, close), LevelOf(c, close));
      }
    }
  }

  lemma ClustersScale(swings: seq<SwingPoint>, tolerancePct: real, f: real -> real)
    requires Rescales(f)
    ensures Clusters(Map(ScaleSwing(f), swings), tolerancePct) == Map(ScaleCluster(f), Clusters(swings, tolerancePct))
  {
    hide Rescales;
    forall s: SwingPoint, t: SwingPoint
      ensures PriceLeq(ScaleSwing(f)(s), ScaleSwing(f)(t)) == PriceLeq(s, t)
    {
      UseOrder(f, t.price, s.price);
    }
    SortMap(ScaleSwing(f), swings, PriceLeq, PriceLeq);
    ClusteredScale(Sort(swings, PriceLeq), tolerancePct, f);
  }

  lemma LevelsScale(swings: seq<SwingPoint>, close: real, tolerancePct: real, maxLevels: int, f: real -> real)
    requires Rescales(f) && close > 0.0
    ensures f(close) > 0.0
    ensures PriceLevels(Map(ScaleSwing(f), swings), f(close), tolerancePct, maxLevels)
            == Map(ScaleLevel(f), PriceLevels(swings, close, tolerancePct, maxLevels))
  {
    hide Rescales, Clusters, LevelsOf, Take, Sort;
    ClustersScale(swings, tolerancePct, f);
    LevelsOfScale(Clusters(swings, tolerancePct), close, f);
    NearestMap(ScaleLevel(f), LevelsOf(Clusters(swings, tolerancePct), close), maxLevels);
  }

  // Detectors.

  lemma {:induction false} OfKindScale(swings: seq<SwingPoint>, kind: SwingKind, f: real -> real)
    ensures OfKind(Map(ScaleSwing(f), swings), kind) == Map(ScaleSwing(f), OfKind(swings, kind))
  {
    if swings != [] {
      OfKindScale(swings[1..], kind, f);
      assert Map(ScaleSwing(f), swings)[1..] == Map(ScaleSwing(f), swings[1..]);
      MapAppend(ScaleSwing(f), [swings[0]], OfKind(swings[1..], kind));
    }
  }

  lemma {:induction false} WithinScale(swings: seq<SwingPoint>, first: int, last: int, f: real -> real)
    ensures Within(Map(ScaleSwing(f), swings), first, last) == Map(ScaleSwing(f), Within(swings, first, last))
  {
    if swings != [] {
      WithinScale(swings[1..], first, last, f);
      assert Map(ScaleSwing(f), swings)[1..] == Map(ScaleSwing(f), swings[1..]);
      MapAppend(ScaleSwing(f), [swings[0]], Within(swings[1..], first, last));
    }
  }

  lemma {:induction false} LowestScale(swings: seq<SwingPoint>, f: real -> real)
    requires Rescales(f) && swings != []
    ensures Lowest(Map(ScaleSwing(f), swings)) == ScaleSwing(f)(Lowest(swings))
  {
    hide Rescales;
    if |swings| > 1 {
      LowestScale(swings[1..], f);
      assert Map(ScaleSwing(f), swings)[1..] == Map(ScaleSwing(f), swings[1..]);
      UseOrder(f, Lowest(swings[1..]).price, swings[0].price);
    }
  }

  lemma {:induction false} HighestScale(swings: seq<SwingPoint>, f: real -> real)
    requires Rescales(f) && swings != []
    ensures Highest(Map(ScaleSwing(f), swings)) == ScaleSwing(f)(Highest(swings))
  {
    hide Rescales;
    if |swings| > 1 {
      HighestScale(swings[1..], f);
      assert Map(ScaleSwing(f), swings)[1..] == Map(ScaleSwing(f), swings[1..]);
      UseOrder(f, swings[0].price, Highest(swings[1..]).price);
    }
  }

  lemma DoubleTopFromScale(first: SwingPoint, second: SwingPoint, trough: real, latest: Bar, f: real -> real)
    requires Rescales(f)
    ensures DoubleTopFrom(ScaleSwing(f)(first), ScaleSwing(f)(second), f(trough), ScaleBar(f)(latest))
            == ScaleFound(DoubleTopFrom(first, second, trough, latest), f)
  {
    hide Rescales, Symmetry, PctDiff, Max, Min, DropPct, RisePct, RangeQuality;
    UseExtremes(f, first.price, second.price);
    UseOrder(f, Max(first.price, second.price), 0.0);
    UseDepth(f, Max(first.price, second.price), trough);
    UseLikeness(f, first.price, second.price);
    UseOrder(f, latest.close, trough);
  }

  lemma DoubleTopScale(highs: seq<SwingPoint>, lows: seq<SwingPoint>, latest: Bar, f: real -> real)
    requires Rescales(f)
    ensures DoubleTopOf(Map(ScaleSwing(f), highs), Map(ScaleSwing(f), lows), ScaleBar(f)(latest))
            == ScaleFound(DoubleTopOf(highs, lows, latest), f)
  {
    hide Rescales, PctDiff, Symmetry, DoubleTopFrom, Within, Lowest, Highest, ScalePattern, ScaleFound;
    NothingScales(f);
    if |highs| >= 2 {
      var first, second := highs[|highs| - 2], highs[|highs| - 1];
      UseLikeness(f, first.price, second.price);
      WithinScale(lows, first.index, second.index, f);
      var between := Within(lows, first.index, second.index);
      if between != [] {
        LowestScale(between, f);
        DoubleTopFromScale(first, second, Lowest(between).price, latest, f);
      }
    }
  }

  lemma NothingScales(f: real -> real)
    ensures ScaleFound(None, f) == None
  {
  }

  lemma DoubleBottomFromScale(first: SwingPoint, second: SwingPoint, peak: real, latest: Bar, f: real -> real)
    requires Rescales(f)
    ensures DoubleBottomFrom(ScaleSwing(f)(first), ScaleSwing(f)(second), f(peak), ScaleBar(f)(latest))
            == ScaleFound(DoubleBottomFrom(first, second, peak, latest), f)
  {
    hide Rescales, Symmetry, PctDiff, Max, Min, DropPct, RisePct, RangeQuality;
    UseExtremes(f, first.price, second.price);
    UseOrder(f, Min(first.price, second.price), 0.0);
    UseDepth(f, peak, Min(first.price, second.price));
    UseLikeness(f, first.price, second.price);
    UseOrder(f, peak, latest.close);
  }

  lemma DoubleBottomScale(highs: seq<SwingPoint>, lows: seq<SwingPoint>, latest: Bar, f: real -> real)
    requires Rescales(f)
    ensures DoubleBottomOf(Map(ScaleSwing(f), highs), Map(ScaleSwing(f), lows), ScaleBar(f)(latest))
            == ScaleFound(DoubleBottomOf(highs, lows, latest), f)
  {
    hide Rescales, PctDiff, Symmetry, DoubleBottomFrom, Within, Lowest, Highest, ScalePattern, ScaleFound;
    NothingScales(f);
    if |lows| >= 2 {
      var first, second := lows[|lows| - 2], lows[|lows| - 1];
      UseLikeness(f, first.price, second.price);
      WithinScale(highs, first.index, second.index, f);
      var between := Within(highs, first.index, second.index);
      if between != [] {
        HighestScale(between, f);
        DoubleBottomFromScale(first, second, Highest(between).price, latest, f);
      }
    }
  }

  lemma ShouldersFromScale(left: SwingPoint, head: SwingPoint, right: SwingPoint, neckline: real, latest: Bar,
    f: real -> real)
    requires Rescales(f)
    ensures Some(ShouldersFrom(ScaleSwing(f)(left), ScaleSwing(f)(head), ScaleSwing(f)(right), f(neckline),
            ScaleBar(f)(latest)))
            == ScaleFound(Some(ShouldersFrom(left, head, right, neckline, latest)), f)
    ensures Some(InverseShouldersFrom(ScaleSwing(f)(left), ScaleSwing(f)(head), ScaleSwing(f)(right), f(neckline),
            ScaleBar(f)(latest)))
            == ScaleFound(Some(InverseShouldersFrom(left, head, right, neckline, latest)), f)
  {
    hide Rescales, Symmetry, PctDiff;
    UseLikeness(f, left.price, right.price);
    UseOrder(f, latest.close, neckline);
    UseOrder(f, neckline, latest.close);
  }

  lemma ShouldersScale(highs: seq<SwingPoint>, lows: seq<SwingPoint>, latest: Bar, f: real -> real)
    requires Rescales(f)
    ensures HeadAndShouldersOf(Map(ScaleSwing(f), highs), Map(ScaleSwing(f), lows), ScaleBar(f)(latest))
            == ScaleFound(HeadAndShouldersOf(highs, lows, latest), f)
  {
    hide Rescales, PctDiff, Symmetry, MeanPrice, ShouldersFrom, InverseShouldersFrom, Within, ScalePattern, ScaleFound;
    NothingScales(f);
    if |highs| >= 3 {
      var left, head, right := highs[|highs| - 3], highs[|highs| - 2], highs[|highs| - 1];
      UseLikeness(f, left.price, right.price);
      UseOrder(f, left.price, head.price);
      UseOrder(f, right.price, head.price);
      WithinScale(lows, left.index, right.index, f);
      var necklines := Within(lows, left.index, right.index);
      if |necklines| >= 2 {
        UseMean(f, necklines);
        ShouldersFromScale(left, head, right, MeanPrice(necklines), latest, f);
      }
    }
  }

  lemma InverseShouldersScale(highs: seq<SwingPoint>, lows: seq<SwingPoint>, latest: Bar, f: real -> real)
    requires Rescales(f)
    ensures InverseHeadAndShouldersOf(Map(ScaleSwing(f), highs), Map(ScaleSwing(f), lows), ScaleBar(f)(latest))
            == ScaleFound(InverseHeadAndShouldersOf(highs, lows, latest), f)
  {
    hide Rescales, PctDiff, Symmetry, MeanPrice, ShouldersFrom, InverseShouldersFrom, Within, ScalePattern, ScaleFound;
    NothingScales(f);
    if |lows| >= 3 {
      var left, head, right := lows[|lows| - 3], lows[|lows| - 2], lows[|lows| - 1];
      UseLikeness(f, left.price, right.price);
      UseOrder(f, head.price, left.price);
      UseOrder(f, head.price, right.price);
      WithinScale(highs, left.index, right.index, f);
      var necklines := Within(highs, left.index, right.index);
      if |necklines| >= 2 {
        UseMean(f, necklines);
        ShouldersFromScale(left, head, right, MeanPrice(necklines), latest, f);
      }
    }
  }

  lemma TrendScale(highs: seq<SwingPoint>, lows: seq<SwingPoint>, latest: Bar, f: real -> real)
    requires Rescales(f)
    ensures TrendStructureOf(Map(ScaleSwing(f), highs), Map(ScaleSwing(f), lows), ScaleBar(f)(latest))
            == ScaleFound(TrendStructureOf(highs, lows, latest), f)
  {
    hide Rescales;
    if |highs| >= 2 && |lows| >= 2 {
      var h1, h2, l1, l2 :=
        highs[|highs| - 2].price, highs[|highs| - 1].price, lows[|lows| - 2].price, lows[|lows| - 1].price;
      UseOrder(f, h1, h2);
      UseOrder(f, h2, h1);
      UseOrder(f, l1, l2);
      UseOrder(f, l2, l1);
    }
  }

  lemma TriangleScale(highs: seq<SwingPoint>, lows: seq<SwingPoint>, latest: Bar, f: real -> real)
    requires Rescales(f) && latest.close > 0.0
    ensures TriangleOf(Map(ScaleSwing(f), highs), Map(ScaleSwing(f), lows), ScaleBar(f)(latest))
            == ScaleFound(TriangleOf(highs, lows, latest), f)
  {
    hide Rescales, Slope, SlopePct, DistancePct, TriangleKind;
    if |highs| >= 3 && |lows| >= 3 {
      var n, m := |highs|, |lows|;
      UseSlope(f, highs[n - 3], highs[n - 2], highs[n - 1]);
      UseSlope(f, lows[m - 3], lows[m - 2], lows[m - 1]);
      UseRelation(f, Slope(highs[n - 3], highs[n - 2], highs[n - 1]), latest.close);
      UseRelation(f, Slope(lows[m - 3], lows[m - 2], lows[m - 1]), latest.close);
    }
  }

  lemma {:induction false} BarExtremesScale(bars: seq<Bar>, f: real -> real)
    requires Rescales(f) && bars != []
    ensures HighOf(Map(ScaleBar(f), bars)) == f(HighOf(bars))
    ensures LowOf(Map(ScaleBar(f), bars)) == f(LowOf(bars))
  {
    hide Rescales, Max, Min;
    if |bars| > 1 {
      BarExtremesScale(bars[1..], f);
      assert Map(ScaleBar(f), bars)[1..] == Map(ScaleBar(f), bars[1..]);
      UseExtremes(f, bars[0].high, HighOf(bars[1..]));
      UseExtremes(f, bars[0].low, LowOf(bars[1..]));
    }
  }

  lemma RangeBreakFromScale(high: real, low: real, start: int, latest: Bar, f: real -> real)
    requires Rescales(f)
    ensures RangeBreakFrom(f(high), f(low), start, ScaleBar(f)(latest)) ==
            ScaleFound(RangeBreakFrom(high, low, start, latest), f)
  {
    hide Rescales, RangeQuality, DropPct, RisePct;
    UseDepth(f, high, low);
    UseOrder(f, high, latest.close);
    UseOrder(f, latest.close, low);
  }

  lemma RangeBreakScale(bars: seq<Bar>, f: real -> real)
    requires Rescales(f)
    ensures RangeBreakOf(Map(ScaleBar(f), bars)) == ScaleFound(RangeBreakOf(bars), f)
  {
    hide Rescales, HighOf, LowOf, RangeBreakFrom;
    var n := |bars|;
    if n >= RANGE_LOOKBACK + 1 {
      var window := bars[n - (RANGE_LOOKBACK + 1)..n - 1];
      assert Map(ScaleBar(f), bars)[n - (RANGE_LOOKBACK + 1)..n - 1] == Map(ScaleBar(f), window);
      BarExtremesScale(window, f);
      RangeBreakFromScale(HighOf(window), LowOf(window), window[0].timestamp, bars[n - 1], f);
    }
  }

  lemma {:induction false} FoundScale(candidates: seq<Option<ChartPattern>>, scaled: seq<Option<ChartPattern>>,
    f: real -> real)
    requires |candidates| == |scaled| && forall i | 0 <= i < |candidates| :: scaled[i] == ScaleFound(candidates[i], f)
    ensures Found(scaled) == Map(ScalePattern(f), Found(candidates))
  {
    if candidates != [] {
      FoundScale(candidates[1..], scaled[1..], f);
      if candidates[0].Some? {
        MapAppend(ScalePattern(f), [candidates[0].value], Found(candidates[1..]));
      }
    }
  }

  lemma CandidatesScale(highs: seq<SwingPoint>, lows: seq<SwingPoint>, bars: seq<Bar>, f: real -> real)
    requires Rescales(f) && bars != [] && bars[|bars| - 1].close > 0.0
    ensures var scaled := Candidates(Map(ScaleSwing(f), highs), Map(ScaleSwing(f), lows), Map(ScaleBar(f), bars));
            var candidates := Candidates(highs, lows, bars);
            |candidates| == |scaled| && forall i | 0 <= i < |candidates| :: scaled[i] == ScaleFound(candidates[i], f)
  {
    hide Rescales, DoubleTopOf, DoubleBottomOf, HeadAndShouldersOf, InverseHeadAndShouldersOf, TrendStructureOf,
      TriangleOf, RangeBreakOf, ScaleFound;
    var latest := bars[|bars| - 1];
    DoubleTopScale(highs, lows, latest, f);
    DoubleBottomScale(highs, lows, latest, f);
    ShouldersScale(highs, lows, latest, f);
    InverseShouldersScale(highs, lows, latest, f);
    TrendScale(highs, lows, latest, f);
    TriangleScale(highs, lows, latest, f);
    RangeBreakScale(bars, f);
  }

  lemma DetectScale(bars: seq<Bar>, swings: seq<SwingPoint>, f: real -> real)
    requires Rescales(f) && bars != [] && bars[|bars| - 1].close > 0.0
    ensures DetectPatterns(Map(ScaleBar(f), bars), Map(ScaleSwing(f), swings)) ==
            Map(ScalePattern(f), DetectPatterns(bars, swings))
  {
    hide Rescales, Candidates, OfKind, Found, ScaleFound, ScalePattern;
    OfKindScale(swings, High, f);
    OfKindScale(swings, Low, f);
    var highs, lows := OfKind(swings, High), OfKind(swings, Low);
    CandidatesScale(highs, lows, bars, f);
    FoundScale(Candidates(highs, lows, bars),
      Candidates(Map(ScaleSwing(f), highs), Map(ScaleSwing(f), lows), Map(ScaleBar(f), bars)), f);
  }

  // The scan.

  lemma ScaledBarValid(b: Bar, f: real -> real)
    requires Rescales(f) && ValidBar(b)
    ensures ValidBar(ScaleBar(f)(b))
  {
    hide Rescales;
    UseOrder(f, b.open, b.low);
    UseOrder(f, b.high, b.open);
    UseOrder(f, b.close, b.low);
    UseOrder(f, b.high, b.close);
    UseOrder(f, b.low, b.low);
  }

  lemma ScaledBarsValid(bars: seq<Bar>, f: real -> real)
    requires Rescales(f) && ValidBars(bars)
    ensures ValidBars(Map(ScaleBar(f), bars))
  {
    hide Rescales;
    var scaled := Map(ScaleBar(f), bars);
    forall b | b in scaled
      ensures ValidBar(b)
    {
      var i :| 0 <= i < |scaled| && scaled[i] == b;
      assert bars[i] in bars;
      ScaledBarValid(bars[i], f);
    }
  }

  lemma LatestCloses(bars: seq<Bar>)
    requires ValidBars(bars) && bars != []
    ensures bars[|bars| - 1].close > 0.0
  {
    assert ValidBar(bars[|bars| - 1]);
  }

  lemma ScanCarries(bars: seq<Bar>, f: real -> real)
    requires Rescales(f) && ValidBars(bars)
    ensures ValidBars(Map(ScaleBar(f), bars))
    ensures ScanBars(Map(ScaleBar(f), bars)) == ScaleScan(ScanBars(bars), f)
  {
    hide Rescales, SwingsUpTo, PriceLevels, DetectPatterns, ValidBars;
    ScaledBarsValid(bars, f);
    if |bars| >= MIN_PATTERN_BARS {
      LatestCloses(bars);
      SwingsScale(bars, |bars| - SWING_WINDOW, SWING_WINDOW, f);
      var swings := FractalSwings(bars, SWING_WINDOW);
      LevelsScale(swings, bars[|bars| - 1].close, LEVEL_TOLERANCE_PCT, MAX_LEVELS, f);
      DetectScale(bars, swings, f);
    }
  }

  /** Main result: multiplying every price by k > 0 keeps swings, clusters, level kinds, patterns and qualities;
   * only prices carry the factor.
   */
  lemma ScanIsScaleFree(bars: seq<Bar>, k: real)
    requires k > 0.0 && ValidBars(bars)
    ensures ValidBars(Map(ScaleBar(Times(k)), bars))
    ensures ScanBars(Map(ScaleBar(Times(k)), bars)) == ScaleScan(ScanBars(bars), Times(k))
  {
    hide Rescales, ScanBars, ScaleScan, ScaleBar;
    TimesRescales(k);
    ScanCarries(bars, Times(k));
  }

  /** And the net reading of the patterns is the same. */
  lemma {:induction false} NetDirectionIsScaleFree(patterns: seq<ChartPattern>, f: real -> real)
    ensures NetScore(Map(ScalePattern(f), patterns)) == NetScore(patterns)
    ensures NetDirection(Map(ScalePattern(f), patterns)) == NetDirection(patterns)
  {
    if patterns != [] {
      var front := patterns[..|patterns| - 1];
      NetDirectionIsScaleFree(front, f);
      assert Map(ScalePattern(f), patterns)[..|patterns| - 1] == Map(ScalePattern(f), front);
    }
  }
}
