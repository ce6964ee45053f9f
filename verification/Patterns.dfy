/** Chart pattern detectors: fixed proportions over the latest swings. */
module Patterns {
  import opened Numeric
  import opened Market
  import opened Signals
  import opened Swings
  import opened Levels

  const SWING_WINDOW := 3
  const PEAK_TOLERANCE_PCT := 3.0
  const MIN_TROUGH_DEPTH_PCT := 3.0
  const LEVEL_TOLERANCE_PCT := 1.5
  const RANGE_LOOKBACK := 40
  const MAX_LEVELS := 6
  const MIN_PATTERN_BARS := 60
  const FLAT_PCT := 0.05

  datatype PatternKind =
    | DoubleTop
    | DoubleBottom
    | HeadAndShoulders
    | InverseHeadAndShoulders
    | AscendingTriangle
    | DescendingTriangle
    | SymmetricalTriangle
    | UptrendStructure
    | DowntrendStructure
    | RangeBreakout
    | RangeBreakdown

  /** The named prices of a shape, before the four-decimal display rounding. */
  datatype Shape =
    | Double(first: real, second: real, neckline: real)
    | Shoulders(left: real, head: real, right: real, neckline: real)
    | Structure(priorHigh: real, recentHigh: real, priorLow: real, recentLow: real)
    | Triangle(resistance: real, support: real, highSlopePct: real, lowSlopePct: real)
    | Range(rangeHigh: real, rangeLow: real, close: real)

  datatype ChartPattern = ChartPattern(
    kind: PatternKind,
    direction: Direction,
    start: int,
    end: int,
    shape: Shape,
    confirmed: bool,
    quality: real)

  // Small helpers of the detectors.

  function OfKind(swings: seq<SwingPoint>, kind: SwingKind): seq<SwingPoint> {
    if swings == [] then []
    else if swings[0].kind == kind then [swings[0]] + OfKind(swings[1..], kind)
    else OfKind(swings[1..], kind)
  }

  function Within(swings: seq<SwingPoint>, first: int, last: int): (inside: seq<SwingPoint>)
    ensures forall s :: s in inside <==> s in swings && first < s.index < last
  {
    if swings == [] then []
    else if first < swings[0].index < last then [swings[0]] + Within(swings[1..], first, last)
    else Within(swings[1..], first, last)
  }

  /** `min(..., key=price)`: the first lowest. */
  function Lowest(swings: seq<SwingPoint>): (s: SwingPoint)
    requires swings != []
    ensures s in swings && forall t | t in swings :: s.price <= t.price
  {
    if |swings| == 1 then swings[0]
    else
      var rest := Lowest(swings[1..]);
      if swings[0].price <= rest.price then swings[0] else rest
  }

  /** `max(..., key=price)`: the first highest. */
  function Highest(swings: seq<SwingPoint>): (s: SwingPoint)
    requires swings != []
    ensures s in swings && forall t | t in swings :: s.price >= t.price
  {
    if |swings| == 1 then swings[0]
    else
      var rest := Highest(swings[1..]);
      if swings[0].price >= rest.price then swings[0] else rest
  }

  function Symmetry(left: real, right: real): real {
    RoundTo(Max(0.0, Min(1.0, 1.0 - PctDiff(left, right) / PEAK_TOLERANCE_PCT)), 1_000.0)
  }

  /** How far `low` lies under `high`, in percent of `high`. */
  function DropPct(high: real, low: real): real
    requires high != 0.0
  {
    (high - low) / high * 100.0
  }

  /** How far `high` lies over `low`, in percent of `low`. */
  function RisePct(high: real, low: real): real
    requires low != 0.0
  {
    (high - low) / low * 100.0
  }

  /** Least-squares slope through three points, in price per bar. */
  function Slope(a: SwingPoint, b: SwingPoint, c: SwingPoint): real {
    var meanX := (a.index + b.index + c.index) as real / 3.0;
    var meanY := (a.price + b.price + c.price) / 3.0;
    var dx, dy, dz := a.index as real - meanX, b.index as real - meanX, c.index as real - meanX;
    var spread := dx * dx + dy * dy + dz * dz;
    if spread == 0.0 then 0.0
    else (dx * (a.price - meanY) + dy * (b.price - meanY) + dz * (c.price - meanY)) / spread
  }

  // The detectors.

  function DoubleTopFrom(first: SwingPoint, second: SwingPoint, trough: real, latest: Bar): Option<ChartPattern> {
    var peak := Max(first.price, second.price);
    if peak == 0.0 || DropPct(peak, trough) < MIN_TROUGH_DEPTH_PCT then None
    else
      Some(ChartPattern(DoubleTop, Bearish, first.timestamp, second.timestamp,
                        Double(first.price, second.price, trough),
                        latest.close < trough, Symmetry(first.price, second.price)))
  }

  function DoubleTopOf(highs: seq<SwingPoint>, lows: seq<SwingPoint>, latest: Bar): Option<ChartPattern> {
    if |highs| < 2 then None
    else
      var first, second := highs[|highs| - 2], highs[|highs| - 1];
      if PctDiff(first.price, second.price) > PEAK_TOLERANCE_PCT then None
      else
        var between := Within(lows, first.index, second.index);
        if between == [] then None else DoubleTopFrom(first, second, Lowest(between).price, latest)
  }

  function DoubleBottomFrom(first: SwingPoint, second: SwingPoint, peak: real, latest: Bar): Option<ChartPattern> {
    var trough := Min(first.price, second.price);
    if trough == 0.0 || RisePct(peak, trough) < MIN_TROUGH_DEPTH_PCT then None
    else
      Some(ChartPattern(DoubleBottom, Bullish, first.timestamp, second.timestamp,
                        Double(first.price, second.price, peak),
                        latest.close > peak, Symmetry(first.price, second.price)))
  }

  function DoubleBottomOf(highs: seq<SwingPoint>, lows: seq<SwingPoint>, latest: Bar): Option<ChartPattern> {
    if |lows| < 2 then None
    else
      var first, second := lows[|lows| - 2], lows[|lows| - 1];
      if PctDiff(first.price, second.price) > PEAK_TOLERANCE_PCT then None
      else
        var between := Within(highs, first.index, second.index);
        if between == [] then None else DoubleBottomFrom(first, second, Highest(between).price, latest)
  }

  function ShouldersFrom(left: SwingPoint, head: SwingPoint, right: SwingPoint, neckline: real,
    latest: Bar): ChartPattern {
    ChartPattern(HeadAndShoulders, Bearish, left.timestamp, right.timestamp,
                 Shoulders(left.price, head.price, right.price, neckline),
                 latest.close < neckline, Symmetry(left.price, right.price))
  }

  function HeadAndShouldersOf(highs: seq<SwingPoint>, lows: seq<SwingPoint>, latest: Bar): Option<ChartPattern> {
    if |highs| < 3 then None
    else
      var left, head, right := highs[|highs| - 3], highs[|highs| - 2], highs[|highs| - 1];
      if !(head.price > left.price && head.price > right.price) then None
      else if PctDiff(left.price, right.price) > PEAK_TOLERANCE_PCT then None
      else
        var necklines := Within(lows, left.index, right.index);
        if |necklines| < 2 then None else Some(ShouldersFrom(left, head, right, MeanPrice(necklines), latest))
  }

  function InverseShouldersFrom(left: SwingPoint, head: SwingPoint, right: SwingPoint, neckline: real,
    latest: Bar): ChartPattern {
    ChartPattern(InverseHeadAndShoulders, Bullish, left.timestamp, right.timestamp,
                 Shoulders(left.price, head.price, right.price, neckline),
                 latest.close > neckline, Symmetry(left.price, right.price))
  }

  function InverseHeadAndShouldersOf(highs: seq<SwingPoint>, lows: seq<SwingPoint>, latest: Bar): Option<ChartPattern> {
    if |lows| < 3 then None
    else
      var left, head, right := lows[|lows| - 3], lows[|lows| - 2], lows[|lows| - 1];
      if !(head.price < left.price && head.price < right.price) then None
      else if PctDiff(left.price, right.price) > PEAK_TOLERANCE_PCT then None
      else
        var necklines := Within(highs, left.index, right.index);
        if |necklines| < 2 then None else Some(InverseShouldersFrom(left, head, right, MeanPrice(necklines), latest))
  }

  function Earlier(s: int, t: int): int { if s <= t then s else t }

  function TrendStructureOf(highs: seq<SwingPoint>, lows: seq<SwingPoint>, latest: Bar): Option<ChartPattern> {
    if |highs| < 2 || |lows| < 2 then None
    else
      var h1, h2 := highs[|highs| - 2], highs[|highs| - 1];
      var l1, l2 := lows[|lows| - 2], lows[|lows| - 1];
      var rising := h2.price > h1.price && l2.price > l1.price;
      var falling := h2.price < h1.price && l2.price < l1.price;
      if !rising && !falling then None
      else
        Some(ChartPattern(if rising then UptrendStructure else DowntrendStructure,
                          if rising then Bullish else Bearish,
                          Earlier(h1.timestamp, l1.timestamp), latest.timestamp,
                          Structure(h1.price, h2.price, l1.price, l2.price), true, 0.6))
  }

  /** A slope as percent of the latest close per bar. */
  function SlopePct(slope: real, close: real): real {
    var scale := if close > 0.0 then close / 100.0 else 1.0;
    slope / scale
  }

  function TriangleKind(highPct: real, lowPct: real): Option<(PatternKind, Direction)> {
    if Abs(highPct) <= FLAT_PCT && lowPct > FLAT_PCT then Some((AscendingTriangle, Bullish))
    else if Abs(lowPct) <= FLAT_PCT && highPct < -FLAT_PCT then Some((DescendingTriangle, Bearish))
    else if highPct < -FLAT_PCT && lowPct > FLAT_PCT then Some((SymmetricalTriangle, Neutral))
    else None
  }

  function TriangleOf(highs: seq<SwingPoint>, lows: seq<SwingPoint>, latest: Bar): Option<ChartPattern> {
    if |highs| < 3 || |lows| < 3 then None
    else
      var n, m := |highs|, |lows|;
      var highPct := SlopePct(Slope(highs[n - 3], highs[n - 2], highs[n - 1]), latest.close);
      var lowPct := SlopePct(Slope(lows[m - 3], lows[m - 2], lows[m - 1]), latest.close);
      match TriangleKind(highPct, lowPct)
      case None => None
      case Some((kind, direction)) =>
        Some(ChartPattern(kind, direction, Earlier(highs[n - 3].timestamp, lows[m - 3].timestamp), latest.timestamp,
                          Triangle(highs[n - 1].price, lows[m - 1].price, highPct, lowPct), false, 0.5))
  }

  function HighOf(bars: seq<Bar>): real
    requires bars != []
  {
    if |bars| == 1 then bars[0].high else Max(bars[0].high, HighOf(bars[1..]))
  }

  function LowOf(bars: seq<Bar>): real
    requires bars != []
  {
    if |bars| == 1 then bars[0].low else Min(bars[0].low, LowOf(bars[1..]))
  }

  function RangeQuality(high: real, low: real): real {
    var span := if low > 0.0 then RisePct(high, low) else 0.0;
    RoundTo(Min(1.0, span / 20.0), 1_000.0)
  }

  function RangeBreakFrom(high: real, low: real, start: int, latest: Bar): Option<ChartPattern> {
    if latest.close > high || latest.close < low then
      Some(ChartPattern(if latest.close > high then RangeBreakout else RangeBreakdown,
                        if latest.close > high then Bullish else Bearish,
                        start, latest.timestamp,
                        Range(high, low, latest.close), true, RangeQuality(high, low)))
    else None
  }

  function RangeBreakOf(bars: seq<Bar>): Option<ChartPattern> {
    if |bars| < RANGE_LOOKBACK + 1 then None
    else
      var window := bars[|bars| - (RANGE_LOOKBACK + 1)..|bars| - 1];
      RangeBreakFrom(HighOf(window), LowOf(window), window[0].timestamp, bars[|bars| - 1])
  }

  function Candidates(highs: seq<SwingPoint>, lows: seq<SwingPoint>, bars: seq<Bar>): seq<Option<ChartPattern>>
    requires bars != []
  {
    var latest := bars[|bars| - 1];
    [DoubleTopOf(highs, lows, latest),
     DoubleBottomOf(highs, lows, latest),
     HeadAndShouldersOf(highs, lows, latest),
     InverseHeadAndShouldersOf(highs, lows, latest),
     TrendStructureOf(highs, lows, latest),
     TriangleOf(highs, lows, latest),
     RangeBreakOf(bars)]
  }

  function Found(candidates: seq<Option<ChartPattern>>): (patterns: seq<ChartPattern>)
    ensures forall p :: p in patterns <==> Some(p) in candidates
  {
    if candidates == [] then []
    else if candidates[0].Some? then [candidates[0].value] + Found(candidates[1..])
    else Found(candidates[1..])
  }

  function DetectPatterns(bars: seq<Bar>, swings: seq<SwingPoint>): seq<ChartPattern>
    requires bars != []
  {
    Found(Candidates(OfKind(swings, High), OfKind(swings, Low), bars))
  }

  function Weight(p: ChartPattern): real {
    if p.direction == Neutral then 0.0
    else
      var weight := p.quality * (if p.confirmed then 1.0 else 0.5);
      if p.direction == Bullish then weight else -weight
  }

  function NetScore(patterns: seq<ChartPattern>): real {
    if patterns == [] then 0.0 else NetScore(patterns[..|patterns| - 1]) + Weight(Last(patterns))
  }

  function NetDirection(patterns: seq<ChartPattern>): Direction {
    var score := NetScore(patterns);
    if score > 0.25 then Bullish else if score < -0.25 then Bearish else Neutral
  }

  /** The quality of all patterns of one direction, confirmed or not. */
  function QualitySum(patterns: seq<ChartPattern>, direction: Direction, confirmed: bool): real {
    if patterns == [] then 0.0
    else
      (if patterns[0].direction == direction && patterns[0].confirmed == confirmed then patterns[0].quality else 0.0)
      + QualitySum(patterns[1..], direction, confirmed)
  }

  /** Confirmed quality and half the unconfirmed, bullish less bearish. */
  function Balance(patterns: seq<ChartPattern>): real {
    (QualitySum(patterns, Bullish, true) - QualitySum(patterns, Bearish, true))
    + (QualitySum(patterns, Bullish, false) - QualitySum(patterns, Bearish, false)) / 2.0
  }

  lemma {:induction false} QualitySnoc(front: seq<ChartPattern>, p: ChartPattern, d: Direction, confirmed: bool)
    ensures QualitySum(front + [p], d, confirmed) ==
            QualitySum(front, d, confirmed) + if p.direction == d && p.confirmed == confirmed then p.quality else 0.0
  {
    if front == [] {
      assert [p][1..] == [];
      assert front + [p] == [p];
    } else {
      assert (front + [p])[1..] == front[1..] + [p];
      QualitySnoc(front[1..], p, d, confirmed);
    }
  }

  lemma {:induction false} NetScoreIsBalance(patterns: seq<ChartPattern>)
    ensures NetScore(patterns) == Balance(patterns)
  {
    if patterns != [] {
      var front, p := patterns[..|patterns| - 1], Last(patterns);
      NetScoreIsBalance(front);
      QualitySnoc(front, p, Bullish, true);
      QualitySnoc(front, p, Bullish, false);
      QualitySnoc(front, p, Bearish, true);
      QualitySnoc(front, p, Bearish, false);
      assert patterns == front + [p];
      hide QualitySum;
    }
  }

  /** The net direction leans one way exactly when the balance of evidence passes a quarter that way. */
  lemma NetDirectionFollowsEvidence(patterns: seq<ChartPattern>)
    ensures NetDirection(patterns) == Bullish <==> Balance(patterns) > 0.25
    ensures NetDirection(patterns) == Bearish <==> Balance(patterns) < -0.25
  {
    NetScoreIsBalance(patterns);
  }

  method WeighPatterns(patterns: seq<ChartPattern>) returns (direction: Direction)
    ensures direction == NetDirection(patterns)
    ensures direction == Bullish <==> Balance(patterns) > 0.25
    ensures direction == Bearish <==> Balance(patterns) < -0.25
  {
    NetDirectionFollowsEvidence(patterns);
    var score := 0.0;
    for i := 0 to |patterns|
      invariant score == NetScore(patterns[..i])
    {
      assert patterns[..i + 1][..i] == patterns[..i];
      var p := patterns[i];
      if p.direction != Neutral {
        var weight := p.quality * (if p.confirmed then 1.0 else 0.5);
        score := score + if p.direction == Bullish then weight else -weight;
      }
    }
    assert patterns[..|patterns|] == patterns;
    direction := if score > 0.25 then Bullish else if score < -0.25 then Bearish else Neutral;
  }

  datatype Scan = TooShort | Scanned(swings: seq<SwingPoint>, levels: seq<PriceLevel>, patterns: seq<ChartPattern>)

  function ScanBars(bars: seq<Bar>): Scan
    requires ValidBars(bars)
  {
    if |bars| < MIN_PATTERN_BARS then TooShort
    else
      assert bars[|bars| - 1] in bars;
      var close := bars[|bars| - 1].close;
      var swings := FractalSwings(bars, SWING_WINDOW);
      Scanned(swings, PriceLevels(swings, close, LEVEL_TOLERANCE_PCT, MAX_LEVELS), DetectPatterns(bars, swings))
  }

  // What the reported patterns mean.

  lemma UnitRounding(x: real)
    ensures 0.0 <= RoundTo(Max(0.0, Min(1.0, x)), 1_000.0) <= 1.0
  {
    var y := Max(0.0, Min(1.0, x)) * 1_000.0;
    RoundHalfEvenMonotone(0.0, y);
    RoundHalfEvenMonotone(y, 1_000.0);
  }

  lemma RangeQualityInUnit(high: real, low: real)
    requires high >= low
    ensures 0.0 <= RangeQuality(high, low) <= 1.0
  {
    if low > 0.0 {
      QuotientAtMost(high - low, low, 0.0);
      UnitRounding(RisePct(high, low) / 20.0);
    } else {
      UnitRounding(0.0);
    }
  }

  lemma SymmetryInUnit(left: real, right: real)
    ensures 0.0 <= Symmetry(left, right) <= 1.0
  {
    UnitRounding(1.0 - PctDiff(left, right) / PEAK_TOLERANCE_PCT);
  }

  predicate InUnit(candidate: Option<ChartPattern>) {
    candidate.Some? ==> 0.0 <= candidate.value.quality <= 1.0
  }

  lemma SwingQuality(highs: seq<SwingPoint>, lows: seq<SwingPoint>, latest: Bar)
    ensures InUnit(DoubleTopOf(highs, lows, latest)) && InUnit(DoubleBottomOf(highs, lows, latest))
    ensures InUnit(HeadAndShouldersOf(highs, lows, latest)) && InUnit(InverseHeadAndShouldersOf(highs, lows, latest))
    ensures InUnit(TrendStructureOf(highs, lows, latest)) && InUnit(TriangleOf(highs, lows, latest))
  {
    if |highs| >= 2 { SymmetryInUnit(highs[|highs| - 2].price, highs[|highs| - 1].price); }
    if |lows| >= 2 { SymmetryInUnit(lows[|lows| - 2].price, lows[|lows| - 1].price); }
    if |highs| >= 3 { SymmetryInUnit(highs[|highs| - 3].price, highs[|highs| - 1].price); }
    if |lows| >= 3 { SymmetryInUnit(lows[|lows| - 3].price, lows[|lows| - 1].price); }
  }

  lemma {:induction false} ExtremesBracket(bars: seq<Bar>)
    requires bars != []
    ensures forall b | b in bars :: LowOf(bars) <= b.low && b.high <= HighOf(bars)
  {
    if |bars| > 1 {
      ExtremesBracket(bars[1..]);
    }
  }

  lemma RangeBreakQuality(bars: seq<Bar>)
    requires ValidBars(bars)
    ensures InUnit(RangeBreakOf(bars))
  {
    if |bars| >= RANGE_LOOKBACK + 1 {
      var window := bars[|bars| - (RANGE_LOOKBACK + 1)..|bars| - 1];
      var b := window[0];
      assert b in window && b in bars && ValidBar(b);
      ExtremesBracket(window);
      RangeQualityInUnit(HighOf(window), LowOf(window));
    }
  }

  /** Quality is always a share of one, so the model's own bound on it never rejects a pattern. */
  lemma QualityInUnit(bars: seq<Bar>, swings: seq<SwingPoint>, p: ChartPattern)
    requires ValidBars(bars) && bars != [] && p in DetectPatterns(bars, swings)
    ensures 0.0 <= p.quality <= 1.0
  {
    var highs, lows := OfKind(swings, High), OfKind(swings, Low);
    CandidatesInUnit(highs, lows, bars);
    assert InUnit(Some(p));
  }

  lemma CandidatesInUnit(highs: seq<SwingPoint>, lows: seq<SwingPoint>, bars: seq<Bar>)
    requires ValidBars(bars) && bars != []
    ensures forall c | c in Candidates(highs, lows, bars) :: InUnit(c)
  {
    SwingQuality(highs, lows, bars[|bars| - 1]);
    RangeBreakQuality(bars);
  }

  /** With equal tolerances on width and depth, both peaks of a double top stand above its neckline. */
  lemma PeaksAboveNeckline(first: real, second: real, trough: real)
    requires first > 0.0 && second > 0.0
    requires PctDiff(first, second) <= PEAK_TOLERANCE_PCT
    requires DropPct(Max(first, second), trough) >= MIN_TROUGH_DEPTH_PCT
    ensures first > trough && second > trough
  {
    var peak := Max(first, second);
    QuotientAtMost(Abs(first - second), (first + second) / 2.0, 0.03);
    QuotientAtMost(peak - trough, peak, 0.03);
  }

  lemma {:induction false} OfKindKeeps(swings: seq<SwingPoint>, kind: SwingKind)
    requires IndexOrdered(swings)
    ensures IndexOrdered(OfKind(swings, kind))
    ensures forall s :: s in OfKind(swings, kind) <==> s in swings && s.kind == kind
  {
    if swings != [] {
      OfKindKeeps(swings[1..], kind);
    }
  }

  /** Main result: a confirmed double top and a confirmed double bottom are never reported together. */
  lemma ConfirmedDoublesExclude(highs: seq<SwingPoint>, lows: seq<SwingPoint>, latest: Bar)
    requires IndexOrdered(highs) && IndexOrdered(lows)
    requires (forall s | s in highs :: s.price > 0.0) && (forall s | s in lows :: s.price > 0.0)
    requires DoubleTopOf(highs, lows, latest).Some? && DoubleTopOf(highs, lows, latest).value.confirmed
    ensures DoubleBottomOf(highs, lows, latest).Some? ==> !DoubleBottomOf(highs, lows, latest).value.confirmed
  {
    if DoubleBottomOf(highs, lows, latest).Some? {
      var h1, h2 := highs[|highs| - 2], highs[|highs| - 1];
      var l1, l2 := lows[|lows| - 2], lows[|lows| - 1];
      var between, above := Within(lows, h1.index, h2.index), Within(highs, l1.index, l2.index);
      PeaksAboveNeckline(h1.price, h2.price, Lowest(between).price);
      TopPeakLiesBetweenBottoms(highs, lows, between, above);
    }
  }

  /** When each pair straddles a swing of the other kind, one of the two top peaks lies between the two bottoms. */
  lemma TopPeakLiesBetweenBottoms(highs: seq<SwingPoint>, lows: seq<SwingPoint>, between: seq<SwingPoint>,
    above: seq<SwingPoint>)
    requires IndexOrdered(highs) && IndexOrdered(lows) && |highs| >= 2 && |lows| >= 2
    requires between == Within(lows, highs[|highs| - 2].index, highs[|highs| - 1].index) && between != []
    requires above == Within(highs, lows[|lows| - 2].index, lows[|lows| - 1].index) && above != []
    ensures highs[|highs| - 2] in above || highs[|highs| - 1] in above
  {
    assert between[0] in between && above[0] in above;
    AgainstLastTwo(lows, between[0]);
    AgainstLastTwo(highs, above[0]);
  }

  lemma AgainstLastTwo(swings: seq<SwingPoint>, s: SwingPoint)
    requires IndexOrdered(swings) && |swings| >= 2 && s in swings
    ensures s.index <= swings[|swings| - 1].index
    ensures s.index < swings[|swings| - 1].index ==> s.index <= swings[|swings| - 2].index
  {
    var i :| 0 <= i < |swings| && swings[i] == s;
    assert swings[|swings| - 2].index < swings[|swings| - 1].index;
  }

  /** Shape and structure cannot contradict: a lower right shoulder rules out a higher high, and mirrored. */
  lemma ShouldersExcludeTrend(highs: seq<SwingPoint>, lows: seq<SwingPoint>, latest: Bar)
    requires TrendStructureOf(highs, lows, latest).Some?
    ensures HeadAndShouldersOf(highs, lows, latest).Some? ==>
            TrendStructureOf(highs, lows, latest).value.kind == DowntrendStructure
    ensures InverseHeadAndShouldersOf(highs, lows, latest).Some? ==>
            TrendStructureOf(highs, lows, latest).value.kind == UptrendStructure
  {
  }
}
