/** What the patterns reported by a scan of real bars cannot say. */
module ScanFacts {
  import opened Numeric
  import opened Market
  import opened Signals
  import opened Swings
  import opened Levels
  import opened Patterns

  predicate Priced(swings: seq<SwingPoint>) { forall s | s in swings :: s.price > 0.0 }

  /** The swings a scan works from, of either kind: in time order, at positive prices. */
  lemma SwingsOfKind(bars: seq<Bar>, kind: SwingKind)
    requires ValidBars(bars)
    ensures var swings := OfKind(FractalSwings(bars, SWING_WINDOW), kind); IndexOrdered(swings) && Priced(swings)
  {
    var swings := FractalSwings(bars, SWING_WINDOW);
    SwingsExact(bars, |bars| - SWING_WINDOW, SWING_WINDOW);
    OfKindKeeps(swings, kind);
    forall s | s in swings
      ensures s.price > 0.0
    {
      assert IsSwing(bars, SWING_WINDOW, s);
      assert ValidBar(bars[s.index]);
    }
  }

  predicate OfKinds(found: Option<ChartPattern>, kinds: set<PatternKind>) { found.Some? ==> found.value.kind in kinds }

  lemma SwingDetectorKinds(highs: seq<SwingPoint>, lows: seq<SwingPoint>, latest: Bar)
    ensures OfKinds(DoubleTopOf(highs, lows, latest), {DoubleTop})
    ensures OfKinds(DoubleBottomOf(highs, lows, latest), {DoubleBottom})
    ensures OfKinds(HeadAndShouldersOf(highs, lows, latest), {HeadAndShoulders})
    ensures OfKinds(InverseHeadAndShouldersOf(highs, lows, latest), {InverseHeadAndShoulders})
    ensures OfKinds(TrendStructureOf(highs, lows, latest), {UptrendStructure, DowntrendStructure})
    ensures OfKinds(TriangleOf(highs, lows, latest), {AscendingTriangle, DescendingTriangle, SymmetricalTriangle})
  {
    hide PctDiff, DropPct, RisePct, Symmetry, Slope, SlopePct, Within, MeanPrice;
  }

  lemma RangeDetectorKinds(bars: seq<Bar>)
    ensures OfKinds(RangeBreakOf(bars), {RangeBreakout, RangeBreakdown})
  {
    hide HighOf, LowOf, RangeQuality;
  }

  /** A reported pattern comes from the detector of its kind. */
  lemma DetectedBy(bars: seq<Bar>, swings: seq<SwingPoint>, p: ChartPattern)
    requires bars != [] && p in DetectPatterns(bars, swings)
    ensures var highs, lows, latest := OfKind(swings, High), OfKind(swings, Low), bars[|bars| - 1];
            && (p.kind == DoubleTop ==> DoubleTopOf(highs, lows, latest) == Some(p))
            && (p.kind == DoubleBottom ==> DoubleBottomOf(highs, lows, latest) == Some(p))
            && (p.kind == HeadAndShoulders ==> HeadAndShouldersOf(highs, lows, latest) == Some(p))
            && (p.kind == InverseHeadAndShoulders ==> InverseHeadAndShouldersOf(highs, lows, latest) == Some(p))
            && (p.kind == UptrendStructure || p.kind == DowntrendStructure ==>
              TrendStructureOf(highs, lows, latest) == Some(p))
  {
    hide OfKind, DoubleTopOf, DoubleBottomOf, HeadAndShouldersOf, InverseHeadAndShouldersOf, TrendStructureOf,
      TriangleOf, RangeBreakOf;
    var highs, lows, latest := OfKind(swings, High), OfKind(swings, Low), bars[|bars| - 1];
    SwingDetectorKinds(highs, lows, latest);
    RangeDetectorKinds(bars);
    assert Some(p) in Candidates(highs, lows, bars);
  }

  /** A confirmed double top and a confirmed double bottom are never reported by one scan. */
  lemma ReportedDoublesExclude(bars: seq<Bar>, p: ChartPattern, q: ChartPattern)
    requires ValidBars(bars) && bars != []
    requires var patterns := DetectPatterns(bars, FractalSwings(bars, SWING_WINDOW)); p in patterns && q in patterns
    requires p.kind == DoubleTop && p.confirmed && q.kind == DoubleBottom
    ensures !q.confirmed
  {
    hide DoubleTopOf, DoubleBottomOf, IndexOrdered, OfKind, FractalSwings, DetectPatterns;
    var swings := FractalSwings(bars, SWING_WINDOW);
    SwingsOfKind(bars, High);
    SwingsOfKind(bars, Low);
    DetectedBy(bars, swings, p);
    DetectedBy(bars, swings, q);
    ConfirmedDoublesExclude(OfKind(swings, High), OfKind(swings, Low), bars[|bars| - 1]);
  }

  /** Both peaks of every reported double top stand above its neckline, so a confirming close is below both. */
  lemma ReportedTopStandsAboveNeckline(bars: seq<Bar>, p: ChartPattern)
    requires ValidBars(bars) && bars != [] && p in DetectPatterns(bars, FractalSwings(bars, SWING_WINDOW))
    requires p.kind == DoubleTop
    ensures p.shape.Double? && p.shape.first > p.shape.neckline && p.shape.second > p.shape.neckline
    ensures p.confirmed ==> bars[|bars| - 1].close < p.shape.neckline
  {
    var swings := FractalSwings(bars, SWING_WINDOW);
    hide FractalSwings, OfKind, DetectPatterns, IndexOrdered;
    SwingsOfKind(bars, High);
    DetectedBy(bars, swings, p);
    TopStandsAboveNeckline(OfKind(swings, High), OfKind(swings, Low), bars[|bars| - 1]);
  }

  lemma TopStandsAboveNeckline(highs: seq<SwingPoint>, lows: seq<SwingPoint>, latest: Bar)
    requires Priced(highs) && DoubleTopOf(highs, lows, latest).Some?
    ensures var p := DoubleTopOf(highs, lows, latest).value;
            && p.shape.Double? && p.shape.first > p.shape.neckline && p.shape.second > p.shape.neckline
            && (p.confirmed ==> latest.close < p.shape.neckline)
  {
    var first, second := highs[|highs| - 2], highs[|highs| - 1];
    var trough := Lowest(Within(lows, first.index, second.index)).price;
    hide PctDiff, DropPct, Symmetry;
    PeaksAboveNeckline(first.price, second.price, trough);
  }

  /** One scan never reports head and shoulders beside an uptrend, nor the inverse shape beside a downtrend. */
  lemma ReportedShouldersExcludeTrend(bars: seq<Bar>, p: ChartPattern, q: ChartPattern)
    requires bars != []
    requires var patterns := DetectPatterns(bars, FractalSwings(bars, SWING_WINDOW)); p in patterns && q in patterns
    ensures p.kind == HeadAndShoulders ==> q.kind != UptrendStructure
    ensures p.kind == InverseHeadAndShoulders ==> q.kind != DowntrendStructure
  {
    hide FractalSwings, OfKind, DetectPatterns, HeadAndShouldersOf, InverseHeadAndShouldersOf, TrendStructureOf;
    var swings := FractalSwings(bars, SWING_WINDOW);
    DetectedBy(bars, swings, p);
    DetectedBy(bars, swings, q);
    var highs, lows, latest := OfKind(swings, High), OfKind(swings, Low), bars[|bars| - 1];
    if TrendStructureOf(highs, lows, latest).Some? {
      ShouldersExcludeTrend(highs, lows, latest);
    }
  }
}
