/** What a scan reports: range breaks read off the bars, and every shape together. */
module ScanReports {
  import opened Numeric
  import opened Market
  import opened Signals
  import opened Swings
  import opened Levels
  import opened Patterns
  import opened ScanFacts
  import opened Readings
  import opened Triangles

  // Range breaks.

  /** The highest high and lowest low of the forty bars before the last. */
  ghost predicate RangeBefore(bars: seq<Bar>, high: real, low: real) {
    && |bars| >= 41
    && (forall i | |bars| - 41 <= i < |bars| - 1 :: low <= bars[i].low && bars[i].high <= high)
    && (exists i | |bars| - 41 <= i < |bars| - 1 :: bars[i].high == high)
    && (exists i | |bars| - 41 <= i < |bars| - 1 :: bars[i].low == low)
  }

  ghost predicate BreakAt(bars: seq<Bar>, p: ChartPattern, high: real, low: real) {
    && RangeBefore(bars, high, low) && low > 0.0
    && var latest := bars[|bars| - 1];
       && (match p.kind
           case RangeBreakout => latest.close > high && p.direction == Bullish
           case RangeBreakdown => latest.close < low && p.direction == Bearish
           case _ => false)
       && p.start == bars[|bars| - 41].timestamp && p.end == latest.timestamp
       && p.shape == Range(high, low, latest.close) && p.confirmed
       && Quantised(Min(1.0, 5.0 * (high - low) / low), p.quality, 1_000.0)
  }

  /** A close outside the range of the forty bars before it. */
  ghost predicate ReadsBreak(bars: seq<Bar>, p: ChartPattern) {
    exists high, low :: BreakAt(bars, p, high, low)
  }

  lemma {:induction false} ExtremesAttained(bars: seq<Bar>)
    requires bars != []
    ensures exists i | 0 <= i < |bars| :: bars[i].high == HighOf(bars)
    ensures exists i | 0 <= i < |bars| :: bars[i].low == LowOf(bars)
  {
    if |bars| == 1 {
      assert bars[0].high == HighOf(bars) && bars[0].low == LowOf(bars);
    } else {
      ExtremesAttained(bars[1..]);
      var i :| 0 <= i < |bars[1..]| && bars[1..][i].high == HighOf(bars[1..]);
      var j :| 0 <= j < |bars[1..]| && bars[1..][j].low == LowOf(bars[1..]);
      assert bars[i + 1].high == HighOf(bars) || bars[0].high == HighOf(bars);
      assert bars[j + 1].low == LowOf(bars) || bars[0].low == LowOf(bars);
    }
  }

  lemma RangeListed(bars: seq<Bar>, high: real, low: real)
    requires |bars| >= 41
    ensures var window := bars[|bars| - 41..|bars| - 1];
            RangeBefore(bars, high, low) <==> high == HighOf(window) && low == LowOf(window)
  {
    var n := |bars|;
    var window := bars[n - 41..n - 1];
    ExtremesBracket(window);
    ExtremesAttained(window);
    assert forall i | n - 41 <= i < n - 1 :: bars[i] == window[i - (n - 41)];
    assert forall i | n - 41 <= i < n - 1 :: bars[i] in window;
    var h :| 0 <= h < |window| && window[h].high == HighOf(window);
    var l :| 0 <= l < |window| && window[l].low == LowOf(window);
    assert bars[n - 41 + h].high == HighOf(window) && bars[n - 41 + l].low == LowOf(window);
    hide HighOf, LowOf;
  }

  lemma BreakQuality(high: real, low: real, quality: real)
    requires low > 0.0
    ensures Quantised(Min(1.0, 5.0 * (high - low) / low), quality, 1_000.0) <==> quality == RangeQuality(high, low)
  {
    var x := Min(1.0, 5.0 * (high - low) / low);
    FiveTimes(high - low, low);
    assert RangeQuality(high, low) == RoundTo(x, 1_000.0);
    hide RangeQuality, RoundTo, Quantised;
    RoundToQuantises(x, 1_000.0);
    if Quantised(x, quality, 1_000.0) {
      QuantisedUnique(x, quality, 1_000.0);
    }
  }

  lemma FiveTimes(span: real, low: real)
    requires low > 0.0
    ensures span / low * 100.0 / 20.0 == 5.0 * span / low
  {
  }

  lemma WindowPriced(bars: seq<Bar>, high: real, low: real)
    requires ValidBars(bars) && RangeBefore(bars, high, low)
    ensures 0.0 < low <= high
  {
    var i :| |bars| - 41 <= i < |bars| - 1 && bars[i].low == low;
    assert ValidBar(bars[i]);
  }

  lemma BreakRead(bars: seq<Bar>, p: ChartPattern)
    requires ValidBars(bars) && bars != []
    ensures RangeBreakOf(bars) == Some(p) <==> ReadsBreak(bars, p)
  {
    if |bars| >= 41 {
      var window := bars[|bars| - 41..|bars| - 1];
      var high, low := HighOf(window), LowOf(window);
      hide HighOf, LowOf, RangeQuality, Quantised, RangeBefore;
      forall h, l
        ensures RangeBefore(bars, h, l) <==> h == high && l == low
      {
        RangeListed(bars, h, l);
      }
      WindowPriced(bars, high, low);
      BreakQuality(high, low, p.quality);
      assert window[0] == bars[|bars| - 41];
      assert BreakAt(bars, p, high, low) <==> RangeBreakOf(bars) == Some(p);
    }
  }

  // The whole scan.

  /** What it takes for the pattern to be reported, by its kind. */
  ghost predicate Reads(bars: seq<Bar>, swings: seq<SwingPoint>, p: ChartPattern)
    requires bars != []
  {
    var latest := bars[|bars| - 1];
    match p.kind
    case DoubleTop => ReadsDoubleTop(swings, latest, p)
    case DoubleBottom => ReadsDoubleBottom(swings, latest, p)
    case HeadAndShoulders => ReadsShoulders(swings, latest, p)
    case InverseHeadAndShoulders => ReadsInverse(swings, latest, p)
    case UptrendStructure => ReadsStructure(swings, latest, p)
    case DowntrendStructure => ReadsStructure(swings, latest, p)
    case AscendingTriangle => ReadsTriangle(swings, latest, p)
    case DescendingTriangle => ReadsTriangle(swings, latest, p)
    case SymmetricalTriangle => ReadsTriangle(swings, latest, p)
    case RangeBreakout => ReadsBreak(bars, p)
    case RangeBreakdown => ReadsBreak(bars, p)
  }

  lemma SwingsInOrder(bars: seq<Bar>)
    requires ValidBars(bars)
    ensures IndexOrdered(FractalSwings(bars, 3)) && Priced(FractalSwings(bars, 3))
  {
    var swings := FractalSwings(bars, 3);
    SwingsExact(bars, |bars| - 3, 3);
    forall s | s in swings
      ensures s.price > 0.0
    {
      assert IsSwing(bars, 3, s);
      assert ValidBar(bars[s.index]);
    }
  }

  /** One of the detectors finds the pattern. */
  predicate FoundBySome(highs: seq<SwingPoint>, lows: seq<SwingPoint>, bars: seq<Bar>, p: ChartPattern)
    requires bars != []
  {
    var latest := bars[|bars| - 1];
    || DoubleTopOf(highs, lows, latest) == Some(p) || DoubleBottomOf(highs, lows, latest) == Some(p)
    || HeadAndShouldersOf(highs, lows, latest) == Some(p) || InverseHeadAndShouldersOf(highs, lows, latest) == Some(p)
    || TrendStructureOf(highs, lows, latest) == Some(p) || TriangleOf(highs, lows, latest) == Some(p)
    || RangeBreakOf(bars) == Some(p)
  }

  lemma DetectedBySome(bars: seq<Bar>, swings: seq<SwingPoint>, p: ChartPattern)
    requires bars != []
    ensures p in DetectPatterns(bars, swings) <==> FoundBySome(OfKind(swings, High), OfKind(swings, Low), bars, p)
  {
    hide OfKind, DoubleTopOf, DoubleBottomOf, HeadAndShouldersOf, InverseHeadAndShouldersOf, TrendStructureOf,
      TriangleOf, RangeBreakOf, Found;
    var highs, lows, latest := OfKind(swings, High), OfKind(swings, Low), bars[|bars| - 1];
    var candidates := Candidates(highs, lows, bars);
    assert candidates[0] == DoubleTopOf(highs, lows, latest) && candidates[1] == DoubleBottomOf(highs, lows, latest);
    assert candidates[2] == HeadAndShouldersOf(highs, lows, latest);
    assert candidates[3] == InverseHeadAndShouldersOf(highs, lows, latest);
    assert candidates[4] == TrendStructureOf(highs, lows, latest) && candidates[5] == TriangleOf(highs, lows, latest);
    assert candidates[6] == RangeBreakOf(bars);
  }

  lemma SwingShapesRead(bars: seq<Bar>, swings: seq<SwingPoint>, p: ChartPattern)
    requires ValidBars(bars) && bars != [] && IndexOrdered(swings) && Priced(swings)
    ensures FoundBySome(OfKind(swings, High), OfKind(swings, Low), bars, p) <==> Reads(bars, swings, p)
  {
    hide OfKind, DoubleTopOf, DoubleBottomOf, HeadAndShouldersOf, InverseHeadAndShouldersOf, TrendStructureOf,
      TriangleOf, RangeBreakOf, IndexOrdered, Priced, ReadsDoubleTop, ReadsDoubleBottom, ReadsShoulders, ReadsInverse,
      ReadsStructure, ReadsTriangle, ReadsBreak;
    var highs, lows, latest := OfKind(swings, High), OfKind(swings, Low), bars[|bars| - 1];
    assert ValidBar(latest);
    SwingDetectorKinds(highs, lows, latest);
    RangeDetectorKinds(bars);
    DoubleTopRead(swings, latest, p);
    DoubleBottomRead(swings, latest, p);
    ShouldersRead(swings, latest, p);
    InverseRead(swings, latest, p);
    StructureRead(swings, latest, p);
    TriangleRead(swings, latest, p);
    BreakRead(bars, p);
  }

  /**
   * Main result: a scan reports a pattern if and only if the bars and their swings read so. The swings are the bars
   * that dominate the three on either side; the reading fixes every field of the pattern.
   */
  lemma ScanReportsExactly(bars: seq<Bar>, p: ChartPattern)
    requires ValidBars(bars) && bars != []
    ensures p in DetectPatterns(bars, FractalSwings(bars, 3)) <==> Reads(bars, FractalSwings(bars, 3), p)
  {
    hide FractalSwings, DetectPatterns, Reads, FoundBySome, OfKind, IndexOrdered, Priced, ValidBars;
    var swings := FractalSwings(bars, 3);
    SwingsInOrder(bars);
    DetectedBySome(bars, swings, p);
    SwingShapesRead(bars, swings, p);
  }

  predicate ClosesAbove(bars: seq<Bar>) {
    |bars| >= 41 && forall i | |bars| - 41 <= i < |bars| - 1 :: bars[|bars| - 1].close > bars[i].high
  }

  predicate ClosesBelow(bars: seq<Bar>) {
    |bars| >= 41 && forall i | |bars| - 41 <= i < |bars| - 1 :: bars[|bars| - 1].close < bars[i].low
  }

  /**
   * A bullish, confirmed breakout is reported exactly when the last close exceeds every high of the forty bars before
   * it, a bearish, confirmed breakdown exactly when it is under every low, and no other range pattern ever is.
   */
  lemma RangeBreaksExactly(bars: seq<Bar>)
    requires ValidBars(bars) && bars != []
    ensures var patterns := DetectPatterns(bars, FractalSwings(bars, 3));
            && ((exists p | p in patterns :: p.kind == RangeBreakout) <==> ClosesAbove(bars))
            && ((exists p | p in patterns :: p.kind == RangeBreakdown) <==> ClosesBelow(bars))
            && (forall p | p in patterns && p.kind == RangeBreakout :: p.direction == Bullish && p.confirmed)
            && (forall p | p in patterns && p.kind == RangeBreakdown :: p.direction == Bearish && p.confirmed)
  {
    hide DetectPatterns, FractalSwings, ClosesAbove, ClosesBelow;
    var patterns := DetectPatterns(bars, FractalSwings(bars, 3));
    forall p | p in patterns
      ensures p.kind == RangeBreakout ==> ClosesAbove(bars) && p.direction == Bullish && p.confirmed
      ensures p.kind == RangeBreakdown ==> ClosesBelow(bars) && p.direction == Bearish && p.confirmed
    {
      ReportedBreakMeans(bars, p);
    }
    if ClosesAbove(bars) || ClosesBelow(bars) {
      var p := BreakReported(bars);
    }
  }

  lemma ReportedBreakMeans(bars: seq<Bar>, p: ChartPattern)
    requires ValidBars(bars) && bars != [] && p in DetectPatterns(bars, FractalSwings(bars, 3))
    ensures p.kind == RangeBreakout ==> ClosesAbove(bars) && p.direction == Bullish && p.confirmed
    ensures p.kind == RangeBreakdown ==> ClosesBelow(bars) && p.direction == Bearish && p.confirmed
  {
    hide DetectPatterns, FractalSwings, ClosesAbove, ClosesBelow, ReadsBreak;
    ScanReportsExactly(bars, p);
    if p.kind == RangeBreakout || p.kind == RangeBreakdown {
      BreakMeans(bars, p);
    }
  }

  lemma BreakReported(bars: seq<Bar>) returns (p: ChartPattern)
    requires ValidBars(bars) && bars != [] && (ClosesAbove(bars) || ClosesBelow(bars))
    ensures p in DetectPatterns(bars, FractalSwings(bars, 3))
    ensures p.kind == RangeBreakout <==> ClosesAbove(bars)
    ensures p.kind == RangeBreakdown <==> ClosesBelow(bars)
  {
    hide DetectPatterns, FractalSwings, ReadsBreak, ClosesAbove, ClosesBelow;
    p := BreakFound(bars);
    ScanReportsExactly(bars, p);
    BreakMeans(bars, p);
  }

  lemma BreakMeans(bars: seq<Bar>, p: ChartPattern)
    requires ReadsBreak(bars, p)
    ensures p.kind == RangeBreakout ==> ClosesAbove(bars) && p.direction == Bullish && p.confirmed
    ensures p.kind == RangeBreakdown ==> ClosesBelow(bars) && p.direction == Bearish && p.confirmed
  {
    hide Quantised;
  }

  lemma BreakFound(bars: seq<Bar>) returns (p: ChartPattern)
    requires ValidBars(bars) && (ClosesAbove(bars) || ClosesBelow(bars))
    ensures ReadsBreak(bars, p)
    ensures p.kind == if ClosesAbove(bars) then RangeBreakout else RangeBreakdown
    ensures p.kind == RangeBreakout ==> !ClosesBelow(bars)
  {
    var n := |bars|;
    var window := bars[n - 41..n - 1];
    assert ValidBar(bars[n - 41]);
    ExtremesAttained(window);
    var h :| 0 <= h < |window| && window[h].high == HighOf(window);
    var l :| 0 <= l < |window| && window[l].low == LowOf(window);
    assert window[h] == bars[n - 41 + h] && window[l] == bars[n - 41 + l];
    hide HighOf, LowOf, RangeQuality;
    p := RangeBreakOf(bars).value;
    BreakRead(bars, p);
  }

  /** The place of a kind's detector. */
  function Rank(kind: PatternKind): nat {
    match kind
    case DoubleTop => 0
    case DoubleBottom => 1
    case HeadAndShoulders => 2
    case InverseHeadAndShoulders => 3
    case UptrendStructure => 4
    case DowntrendStructure => 4
    case AscendingTriangle => 5
    case DescendingTriangle => 5
    case SymmetricalTriangle => 5
    case RangeBreakout => 6
    case RangeBreakdown => 6
  }

  predicate Ranked(patterns: seq<ChartPattern>) {
    forall i, j | 0 <= i < j < |patterns| :: Rank(patterns[i].kind) < Rank(patterns[j].kind)
  }

  lemma {:induction false} FoundRanked(candidates: seq<Option<ChartPattern>>, first: nat)
    requires forall k | 0 <= k < |candidates| ::
               candidates[k].Some? ==> Rank(candidates[k].value.kind) == first + k
    ensures Ranked(Found(candidates))
    ensures forall p | p in Found(candidates) :: Rank(p.kind) >= first
  {
    hide Rank;
    if candidates != [] {
      FoundRanked(candidates[1..], first + 1);
    }
  }

  /** Detector after detector, and at most one pattern from each. */
  lemma ReportedInOrder(bars: seq<Bar>, swings: seq<SwingPoint>)
    requires bars != []
    ensures Ranked(DetectPatterns(bars, swings))
  {
    hide OfKind, DoubleTopOf, DoubleBottomOf, HeadAndShouldersOf, InverseHeadAndShouldersOf, TrendStructureOf,
      TriangleOf, RangeBreakOf, Found, Ranked;
    var highs, lows, latest := OfKind(swings, High), OfKind(swings, Low), bars[|bars| - 1];
    SwingDetectorKinds(highs, lows, latest);
    RangeDetectorKinds(bars);
    FoundRanked(Candidates(highs, lows, bars), 0);
  }

  /** A swing of three bars on either side. */
  ghost predicate SwingOf(bars: seq<Bar>, s: SwingPoint) { IsSwing(bars, 3, s) }

  /**
   * Main result: a scan needs sixty bars; it reports the swings of three bars on either side in time order, the six
   * nearest levels to the last close, and exactly the patterns that read so, detector after detector.
   */
  lemma ScanMeans(bars: seq<Bar>)
    requires ValidBars(bars)
    ensures ScanBars(bars).TooShort? <==> |bars| < 60
    ensures |bars| >= 60 ==>
              && var scan, swings := ScanBars(bars), ScanBars(bars).swings;
                 && IndexOrdered(swings) && (forall s :: s in swings <==> SwingOf(bars, s))
                 && bars[|bars| - 1].close > 0.0
                 && scan.levels == PriceLevels(swings, bars[|bars| - 1].close, 1.5, 6)
                 && Ranked(scan.patterns) && forall p :: p in scan.patterns <==> Reads(bars, swings, p)
  {
    hide FractalSwings, DetectPatterns, Reads, SwingOf, IndexOrdered, Ranked, PriceLevels;
    if |bars| >= 60 {
      var swings := FractalSwings(bars, 3);
      assert bars[|bars| - 1] in bars;
      SwingsListed(bars);
      ReportedInOrder(bars, swings);
      forall p
        ensures p in DetectPatterns(bars, swings) <==> Reads(bars, swings, p)
      {
        ScanReportsExactly(bars, p);
      }
    }
  }

  lemma SwingsListed(bars: seq<Bar>)
    requires |bars| >= 3
    ensures var swings := FractalSwings(bars, 3);
            IndexOrdered(swings) && forall s :: s in swings <==> SwingOf(bars, s)
  {
    hide SwingsUpTo, IndexOrdered, Peak, Trough;
    SwingsExact(bars, |bars| - 3, 3);
  }
}
