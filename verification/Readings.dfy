/**
 * The double, shoulder and trend shapes read off the swings: for each the exact condition under which it is detected,
 * with its direction, confirmation, prices and quality.
 */
module Readings {
  import opened Numeric
  import opened Market
  import opened Signals
  import opened Swings
  import opened Levels
  import opened Patterns
  import opened ScanFacts

  // The latest swings of one kind.

  predicate In(swings: seq<SwingPoint>, kind: SwingKind, s: SwingPoint) { s in swings && s.kind == kind }

  /** `a` and `b` are the last two swings of the kind, `a` first. */
  ghost predicate LastTwo(swings: seq<SwingPoint>, kind: SwingKind, a: SwingPoint, b: SwingPoint) {
    && In(swings, kind, a) && In(swings, kind, b) && a.index < b.index
    && forall s | In(swings, kind, s) && s.index > a.index :: s == b
  }

  /** `a`, `b` and `c` are the last three swings of the kind, in time order. */
  ghost predicate LastThree(swings: seq<SwingPoint>, kind: SwingKind, a: SwingPoint, b: SwingPoint, c: SwingPoint) {
    && In(swings, kind, a) && LastTwo(swings, kind, b, c) && a.index < b.index
    && forall s | In(swings, kind, s) && s.index > a.index :: s == b || s == c
  }

  /** What comes after a place in an ordered list. */
  lemma AgainstEnd(of: seq<SwingPoint>, k: nat)
    requires IndexOrdered(of) && k < |of|
    ensures forall s | s in of && s.index > of[k].index :: s in of[k + 1..]
  {
    forall s | s in of && s.index > of[k].index
      ensures s in of[k + 1..]
    {
      var i :| 0 <= i < |of| && of[i] == s;
      assert i > k;
      assert of[k + 1..][i - (k + 1)] == s;
    }
  }

  lemma EndsOfList(swings: seq<SwingPoint>, kind: SwingKind)
    requires IndexOrdered(swings)
    ensures var of := OfKind(swings, kind);
            && (|of| >= 2 ==> LastTwo(swings, kind, of[|of| - 2], of[|of| - 1]))
            && (|of| >= 3 ==> LastThree(swings, kind, of[|of| - 3], of[|of| - 2], of[|of| - 1]))
  {
    hide OfKind, IndexOrdered, LastTwo;
    OfKindKeeps(swings, kind);
    var of := OfKind(swings, kind);
    if |of| >= 2 {
      EndsAreLast(swings, kind, of);
    }
    if |of| >= 3 {
      ThreeEnds(of);
    }
  }

  lemma EndsAreLast(swings: seq<SwingPoint>, kind: SwingKind, of: seq<SwingPoint>)
    requires IndexOrdered(of) && |of| >= 2 && forall s :: s in of <==> In(swings, kind, s)
    ensures LastTwo(swings, kind, of[|of| - 2], of[|of| - 1])
  {
    hide In;
    AgainstEnd(of, |of| - 2);
    assert of[|of| - 1..] == [of[|of| - 1]];
  }

  lemma ThreeEnds(of: seq<SwingPoint>)
    requires IndexOrdered(of) && |of| >= 3
    ensures of[|of| - 3].index < of[|of| - 2].index
    ensures forall s | s in of && s.index > of[|of| - 3].index :: s == of[|of| - 2] || s == of[|of| - 1]
  {
    AgainstEnd(of, |of| - 3);
    assert of[|of| - 2..] == [of[|of| - 2], of[|of| - 1]];
  }

  lemma LastTwoListed(swings: seq<SwingPoint>, kind: SwingKind, a: SwingPoint, b: SwingPoint)
    requires IndexOrdered(swings)
    ensures var of := OfKind(swings, kind);
            LastTwo(swings, kind, a, b) <==> |of| >= 2 && a == of[|of| - 2] && b == of[|of| - 1]
  {
    OfKindKeeps(swings, kind);
    EndsOfList(swings, kind);
    hide OfKind;
    var of := OfKind(swings, kind);
    if LastTwo(swings, kind, a, b) {
      assert a in of && b in of;
      var i :| 0 <= i < |of| && of[i] == a;
      var j :| 0 <= j < |of| && of[j] == b;
      OnlyAfter(of, i, j);
    }
  }

  /** In an ordered list, an element that alone comes after another is the last one, right after it. */
  lemma OnlyAfter(of: seq<SwingPoint>, i: nat, j: nat)
    requires IndexOrdered(of) && i < |of| && j < |of| && of[i].index < of[j].index
    requires forall s | s in of && s.index > of[i].index :: s == of[j]
    ensures i == |of| - 2 && j == |of| - 1
  {
    assert of[i + 1] in of && of[|of| - 1] in of;
    assert of[i + 1] == of[j] == of[|of| - 1];
  }

  lemma LastThreeListed(swings: seq<SwingPoint>, kind: SwingKind, a: SwingPoint, b: SwingPoint, c: SwingPoint)
    requires IndexOrdered(swings)
    ensures var of := OfKind(swings, kind);
            LastThree(swings, kind, a, b, c) <==>
              |of| >= 3 && a == of[|of| - 3] && b == of[|of| - 2] && c == of[|of| - 1]
  {
    OfKindKeeps(swings, kind);
    EndsOfList(swings, kind);
    LastTwoListed(swings, kind, b, c);
    hide OfKind, LastTwo;
    var of := OfKind(swings, kind);
    if LastThree(swings, kind, a, b, c) {
      assert a in of && b in of;
      var i :| 0 <= i < |of| && of[i] == a;
      OnlyTwoAfter(of, i);
    }
  }

  lemma OnlyTwoAfter(of: seq<SwingPoint>, i: nat)
    requires IndexOrdered(of) && |of| >= 2 && i < |of| && of[i].index < of[|of| - 2].index
    requires forall s | s in of && s.index > of[i].index :: s == of[|of| - 2] || s == of[|of| - 1]
    ensures i == |of| - 3
  {
    assert i < |of| - 2;
    assert of[i + 1] in of && of[i].index < of[i + 1].index;
    assert of[i + 1].index >= of[|of| - 2].index;
  }

  // What lies between two swings.

  predicate Between(swings: seq<SwingPoint>, kind: SwingKind, first: SwingPoint, last: SwingPoint, s: SwingPoint) {
    In(swings, kind, s) && first.index < s.index < last.index
  }

  /** The lowest low between two highs. */
  ghost predicate TroughBetween(swings: seq<SwingPoint>, a: SwingPoint, b: SwingPoint, price: real) {
    && (exists s :: Between(swings, Low, a, b, s) && s.price == price)
    && forall s | Between(swings, Low, a, b, s) :: price <= s.price
  }

  /** The highest high between two lows. */
  ghost predicate PeakBetween(swings: seq<SwingPoint>, a: SwingPoint, b: SwingPoint, price: real) {
    && (exists s :: Between(swings, High, a, b, s) && s.price == price)
    && forall s | Between(swings, High, a, b, s) :: s.price <= price
  }

  function CountBetween(swings: seq<SwingPoint>, kind: SwingKind, first: SwingPoint, last: SwingPoint): nat {
    if swings == [] then 0
    else
      (if swings[0].kind == kind && first.index < swings[0].index < last.index then 1 else 0)
      + CountBetween(swings[1..], kind, first, last)
  }

  function PricesBetween(swings: seq<SwingPoint>, kind: SwingKind, first: SwingPoint, last: SwingPoint): real {
    if swings == [] then 0.0
    else
      (if swings[0].kind == kind && first.index < swings[0].index < last.index then swings[0].price else 0.0)
      + PricesBetween(swings[1..], kind, first, last)
  }

  /** The mean price of the swings of the kind between two others; at least two are needed. */
  predicate AverageOver(swings: seq<SwingPoint>, kind: SwingKind, a: SwingPoint, b: SwingPoint, price: real) {
    && CountBetween(swings, kind, a, b) >= 2
    && price * CountBetween(swings, kind, a, b) as real == PricesBetween(swings, kind, a, b)
  }

  lemma {:induction false} PriceSumCons(s: SwingPoint, rest: seq<SwingPoint>)
    ensures PriceSum([s] + rest) == s.price + PriceSum(rest)
  {
    var all := [s] + rest;
    if rest == [] {
      assert all[..0] == [];
    } else {
      assert all[..|all| - 1] == [s] + rest[..|rest| - 1];
      PriceSumCons(s, rest[..|rest| - 1]);
    }
  }

  lemma {:induction false} BetweenTallies(swings: seq<SwingPoint>, kind: SwingKind, a: SwingPoint, b: SwingPoint)
    ensures var inside := Within(OfKind(swings, kind), a.index, b.index);
            |inside| == CountBetween(swings, kind, a, b) && PriceSum(inside) == PricesBetween(swings, kind, a, b)
  {
    if swings != [] {
      BetweenTallies(swings[1..], kind, a, b);
      if swings[0].kind == kind {
        assert OfKind(swings, kind)[1..] == OfKind(swings[1..], kind);
        if a.index < swings[0].index < b.index {
          PriceSumCons(swings[0], Within(OfKind(swings[1..], kind), a.index, b.index));
        }
      }
    }
  }

  lemma AverageListed(swings: seq<SwingPoint>, kind: SwingKind, a: SwingPoint, b: SwingPoint, price: real)
    ensures var inside := Within(OfKind(swings, kind), a.index, b.index);
            AverageOver(swings, kind, a, b, price) <==> |inside| >= 2 && price == MeanPrice(inside)
  {
    hide CountBetween, PricesBetween, Within, OfKind, PriceSum;
    BetweenTallies(swings, kind, a, b);
    var inside := Within(OfKind(swings, kind), a.index, b.index);
    if |inside| >= 2 {
      IsQuotient(price, PriceSum(inside), |inside| as real);
    }
  }

  lemma IsQuotient(q: real, x: real, y: real)
    requires y > 0.0
    ensures q * y == x <==> q == x / y
  {
  }

  lemma BetweenListed(swings: seq<SwingPoint>, kind: SwingKind, a: SwingPoint, b: SwingPoint)
    requires IndexOrdered(swings)
    ensures forall s :: s in Within(OfKind(swings, kind), a.index, b.index) <==> Between(swings, kind, a, b, s)
  {
    OfKindKeeps(swings, kind);
  }

  lemma TroughListed(swings: seq<SwingPoint>, a: SwingPoint, b: SwingPoint, price: real)
    requires IndexOrdered(swings)
    ensures var inside := Within(OfKind(swings, Low), a.index, b.index);
            TroughBetween(swings, a, b, price) <==> inside != [] && price == Lowest(inside).price
  {
    BetweenListed(swings, Low, a, b);
    hide Between, OfKind;
    var inside := Within(OfKind(swings, Low), a.index, b.index);
    if inside != [] {
      assert Between(swings, Low, a, b, Lowest(inside));
    }
  }

  lemma PeakListed(swings: seq<SwingPoint>, a: SwingPoint, b: SwingPoint, price: real)
    requires IndexOrdered(swings)
    ensures var inside := Within(OfKind(swings, High), a.index, b.index);
            PeakBetween(swings, a, b, price) <==> inside != [] && price == Highest(inside).price
  {
    BetweenListed(swings, High, a, b);
    hide Between, OfKind;
    var inside := Within(OfKind(swings, High), a.index, b.index);
    if inside != [] {
      assert Between(swings, High, a, b, Highest(inside));
    }
  }

  // Proportions, cross-multiplied.

  /** Two prices differ by at most three percent of their average. */
  predicate Alike(x: real, y: real) { 200.0 * Abs(x - y) <= 3.0 * (x + y) }

  /** How much of that tolerance the difference uses up. */
  function Gap(x: real, y: real): real
    requires x + y > 0.0
  {
    200.0 * Abs(x - y) / (3.0 * (x + y))
  }

  lemma AlikeIsTolerance(x: real, y: real)
    requires x > 0.0 && y > 0.0
    ensures Alike(x, y) <==> PctDiff(x, y) <= PEAK_TOLERANCE_PCT
    ensures PctDiff(x, y) / PEAK_TOLERANCE_PCT == Gap(x, y)
    ensures Alike(x, y) ==> 0.0 <= Gap(x, y) <= 1.0
  {
    var d, m := Abs(x - y), x + y;
    IsQuotient(d / (m / 2.0) * 100.0 / 3.0, 200.0 * d, 3.0 * m);
    assert d / (m / 2.0) * (m / 2.0) == d;
    assert d / (m / 2.0) * 100.0 / 3.0 * (3.0 * m) == 200.0 * d;
    QuotientAtMost(200.0 * d, 3.0 * m, 1.0);
    QuotientAtMost(200.0 * d, 3.0 * m, 0.0);
  }

  /** Quality of a shape with two like sides: one less the used-up tolerance, to three decimals. */
  ghost predicate SymmetryShown(x: real, y: real, quality: real)
    requires x + y > 0.0
  {
    Quantised(1.0 - Gap(x, y), quality, 1_000.0)
  }

  lemma SymmetryIsShown(x: real, y: real, quality: real)
    requires x > 0.0 && y > 0.0 && Alike(x, y)
    ensures SymmetryShown(x, y, quality) <==> quality == Symmetry(x, y)
  {
    AlikeIsTolerance(x, y);
    hide Gap, PctDiff, RoundTo, Quantised;
    assert Symmetry(x, y) == RoundTo(1.0 - Gap(x, y), 1_000.0);
    RoundToQuantises(1.0 - Gap(x, y), 1_000.0);
    if SymmetryShown(x, y, quality) {
      QuantisedUnique(1.0 - Gap(x, y), quality, 1_000.0);
    }
  }

  /** The trough lies at least three percent of the peak under it. */
  predicate Deep(peak: real, trough: real) { 100.0 * (peak - trough) >= 3.0 * peak }

  /** The peak lies at least three percent of the trough over it. */
  predicate Tall(trough: real, peak: real) { 100.0 * (peak - trough) >= 3.0 * trough }

  lemma DeepIsDrop(peak: real, trough: real)
    requires peak > 0.0
    ensures Deep(peak, trough) <==> DropPct(peak, trough) >= MIN_TROUGH_DEPTH_PCT
  {
    QuotientAtMost(peak - trough, peak, 0.03);
  }

  lemma TallIsRise(trough: real, peak: real)
    requires trough > 0.0
    ensures Tall(trough, peak) <==> RisePct(peak, trough) >= MIN_TROUGH_DEPTH_PCT
  {
    QuotientAtMost(peak - trough, trough, 0.03);
  }

  // The two doubles.

  ghost predicate DoubleTopAt(swings: seq<SwingPoint>, latest: Bar, p: ChartPattern, a: SwingPoint, b: SwingPoint,
                              neckline: real)
  {
    && LastTwo(swings, High, a, b) && TroughBetween(swings, a, b, neckline)
    && a.price + b.price > 0.0 && Alike(a.price, b.price)
    && (Deep(a.price, neckline) || Deep(b.price, neckline))
    && p.kind == DoubleTop && p.direction == Bearish && p.start == a.timestamp && p.end == b.timestamp
    && p.shape == Double(a.price, b.price, neckline)
    && (p.confirmed <==> latest.close < neckline)
    && SymmetryShown(a.price, b.price, p.quality)
  }

  /** The last two highs, alike, with a low deep enough between them. */
  ghost predicate ReadsDoubleTop(swings: seq<SwingPoint>, latest: Bar, p: ChartPattern) {
    exists a, b, neckline :: DoubleTopAt(swings, latest, p, a, b, neckline)
  }

  ghost predicate DoubleBottomAt(swings: seq<SwingPoint>, latest: Bar, p: ChartPattern, a: SwingPoint, b: SwingPoint,
                                 neckline: real)
  {
    && LastTwo(swings, Low, a, b) && PeakBetween(swings, a, b, neckline)
    && a.price + b.price > 0.0 && Alike(a.price, b.price)
    && (Tall(a.price, neckline) || Tall(b.price, neckline))
    && p.kind == DoubleBottom && p.direction == Bullish && p.start == a.timestamp && p.end == b.timestamp
    && p.shape == Double(a.price, b.price, neckline)
    && (p.confirmed <==> latest.close > neckline)
    && SymmetryShown(a.price, b.price, p.quality)
  }

  /** The last two lows, alike, with a high tall enough between them. */
  ghost predicate ReadsDoubleBottom(swings: seq<SwingPoint>, latest: Bar, p: ChartPattern) {
    exists a, b, neckline :: DoubleBottomAt(swings, latest, p, a, b, neckline)
  }

  lemma DeepestSide(x: real, y: real, trough: real)
    requires x > 0.0 && y > 0.0 && trough > 0.0
    ensures Deep(x, trough) || Deep(y, trough) <==> DropPct(Max(x, y), trough) >= MIN_TROUGH_DEPTH_PCT
  {
    DeepIsDrop(x, trough);
    DeepIsDrop(y, trough);
    DeepIsDrop(Max(x, y), trough);
  }

  lemma TallestSide(x: real, y: real, peak: real)
    requires x > 0.0 && y > 0.0
    ensures Tall(x, peak) || Tall(y, peak) <==> RisePct(peak, Min(x, y)) >= MIN_TROUGH_DEPTH_PCT
  {
    TallIsRise(x, peak);
    TallIsRise(y, peak);
    TallIsRise(Min(x, y), peak);
  }

  lemma DoubleTopRead(swings: seq<SwingPoint>, latest: Bar, p: ChartPattern)
    requires IndexOrdered(swings) && Priced(swings)
    ensures DoubleTopOf(OfKind(swings, High), OfKind(swings, Low), latest) == Some(p) <==>
            ReadsDoubleTop(swings, latest, p)
  {
    hide LastTwo, TroughBetween, Alike, Deep, SymmetryShown, Symmetry, PctDiff, DropPct, Max, Within, OfKind;
    forall a, b, neckline
      ensures DoubleTopAt(swings, latest, p, a, b, neckline) ==>
              DoubleTopOf(OfKind(swings, High), OfKind(swings, Low), latest) == Some(p)
    {
      if DoubleTopAt(swings, latest, p, a, b, neckline) {
        LastTwoListed(swings, High, a, b);
        TroughListed(swings, a, b, neckline);
        LastTwoPriced(swings, High, a, b);
        TroughPriced(swings, a, b, neckline);
        AlikeIsTolerance(a.price, b.price);
        DeepestSide(a.price, b.price, neckline);
        SymmetryIsShown(a.price, b.price, p.quality);
        PositiveMax(a.price, b.price);
      }
    }
    var highs, lows := OfKind(swings, High), OfKind(swings, Low);
    if DoubleTopOf(highs, lows, latest) == Some(p) {
      var a, b := highs[|highs| - 2], highs[|highs| - 1];
      var neckline := Lowest(Within(lows, a.index, b.index)).price;
      LastTwoListed(swings, High, a, b);
      TroughListed(swings, a, b, neckline);
      LastTwoPriced(swings, High, a, b);
      TroughPriced(swings, a, b, neckline);
      AlikeIsTolerance(a.price, b.price);
      DeepestSide(a.price, b.price, neckline);
      SymmetryIsShown(a.price, b.price, p.quality);
      assert DoubleTopAt(swings, latest, p, a, b, neckline);
    }
  }

  lemma PositiveMax(x: real, y: real)
    requires x > 0.0 && y > 0.0
    ensures Max(x, y) > 0.0 && Min(x, y) > 0.0
  {
  }

  lemma LastTwoPriced(swings: seq<SwingPoint>, kind: SwingKind, a: SwingPoint, b: SwingPoint)
    requires Priced(swings) && LastTwo(swings, kind, a, b)
    ensures a.price > 0.0 && b.price > 0.0
  {
  }

  lemma TroughPriced(swings: seq<SwingPoint>, a: SwingPoint, b: SwingPoint, price: real)
    requires Priced(swings) && TroughBetween(swings, a, b, price)
    ensures price > 0.0
  {
  }

  lemma DoubleBottomRead(swings: seq<SwingPoint>, latest: Bar, p: ChartPattern)
    requires IndexOrdered(swings) && Priced(swings)
    ensures DoubleBottomOf(OfKind(swings, High), OfKind(swings, Low), latest) == Some(p) <==>
            ReadsDoubleBottom(swings, latest, p)
  {
    hide LastTwo, PeakBetween, Alike, Tall, SymmetryShown, Symmetry, PctDiff, RisePct, Min, Within, OfKind;
    forall a, b, neckline
      ensures DoubleBottomAt(swings, latest, p, a, b, neckline) ==>
              DoubleBottomOf(OfKind(swings, High), OfKind(swings, Low), latest) == Some(p)
    {
      if DoubleBottomAt(swings, latest, p, a, b, neckline) {
        LastTwoListed(swings, Low, a, b);
        PeakListed(swings, a, b, neckline);
        LastTwoPriced(swings, Low, a, b);
        AlikeIsTolerance(a.price, b.price);
        TallestSide(a.price, b.price, neckline);
        SymmetryIsShown(a.price, b.price, p.quality);
        PositiveMax(a.price, b.price);
      }
    }
    var highs, lows := OfKind(swings, High), OfKind(swings, Low);
    if DoubleBottomOf(highs, lows, latest) == Some(p) {
      var a, b := lows[|lows| - 2], lows[|lows| - 1];
      var neckline := Highest(Within(highs, a.index, b.index)).price;
      LastTwoListed(swings, Low, a, b);
      PeakListed(swings, a, b, neckline);
      LastTwoPriced(swings, Low, a, b);
      AlikeIsTolerance(a.price, b.price);
      TallestSide(a.price, b.price, neckline);
      SymmetryIsShown(a.price, b.price, p.quality);
      assert DoubleBottomAt(swings, latest, p, a, b, neckline);
    }
  }

  // Head and shoulders.

  ghost predicate ShouldersAt(swings: seq<SwingPoint>, latest: Bar, p: ChartPattern, left: SwingPoint,
                              head: SwingPoint, right: SwingPoint, neckline: real)
  {
    && LastThree(swings, High, left, head, right) && AverageOver(swings, Low, left, right, neckline)
    && head.price > left.price && head.price > right.price
    && left.price + right.price > 0.0 && Alike(left.price, right.price)
    && p.kind == HeadAndShoulders && p.direction == Bearish && p.start == left.timestamp && p.end == right.timestamp
    && p.shape == Shoulders(left.price, head.price, right.price, neckline)
    && (p.confirmed <==> latest.close < neckline)
    && SymmetryShown(left.price, right.price, p.quality)
  }

  /** The last three highs, the middle one highest and the outer ones alike, over the mean of two lows or more. */
  ghost predicate ReadsShoulders(swings: seq<SwingPoint>, latest: Bar, p: ChartPattern) {
    exists left, head, right, neckline :: ShouldersAt(swings, latest, p, left, head, right, neckline)
  }

  ghost predicate InverseAt(swings: seq<SwingPoint>, latest: Bar, p: ChartPattern, left: SwingPoint,
                            head: SwingPoint, right: SwingPoint, neckline: real)
  {
    && LastThree(swings, Low, left, head, right) && AverageOver(swings, High, left, right, neckline)
    && head.price < left.price && head.price < right.price
    && left.price + right.price > 0.0 && Alike(left.price, right.price)
    && p.kind == InverseHeadAndShoulders && p.direction == Bullish
    && p.start == left.timestamp && p.end == right.timestamp
    && p.shape == Shoulders(left.price, head.price, right.price, neckline)
    && (p.confirmed <==> latest.close > neckline)
    && SymmetryShown(left.price, right.price, p.quality)
  }

  /** The mirror image: the last three lows, the middle one lowest, under the mean of two highs or more. */
  ghost predicate ReadsInverse(swings: seq<SwingPoint>, latest: Bar, p: ChartPattern) {
    exists left, head, right, neckline :: InverseAt(swings, latest, p, left, head, right, neckline)
  }

  lemma LastThreePriced(swings: seq<SwingPoint>, kind: SwingKind, a: SwingPoint, b: SwingPoint, c: SwingPoint)
    requires Priced(swings) && LastThree(swings, kind, a, b, c)
    ensures a.price > 0.0 && b.price > 0.0 && c.price > 0.0
  {
  }

  lemma ShouldersRead(swings: seq<SwingPoint>, latest: Bar, p: ChartPattern)
    requires IndexOrdered(swings) && Priced(swings)
    ensures HeadAndShouldersOf(OfKind(swings, High), OfKind(swings, Low), latest) == Some(p) <==>
            ReadsShoulders(swings, latest, p)
  {
    hide LastThree, AverageOver, MeanPrice, Alike, SymmetryShown, Symmetry, PctDiff, Within, OfKind;
    forall left, head, right, neckline
      ensures ShouldersAt(swings, latest, p, left, head, right, neckline) ==>
              HeadAndShouldersOf(OfKind(swings, High), OfKind(swings, Low), latest) == Some(p)
    {
      if ShouldersAt(swings, latest, p, left, head, right, neckline) {
        LastThreeListed(swings, High, left, head, right);
        AverageListed(swings, Low, left, right, neckline);
        LastThreePriced(swings, High, left, head, right);
        AlikeIsTolerance(left.price, right.price);
        SymmetryIsShown(left.price, right.price, p.quality);
      }
    }
    var highs, lows := OfKind(swings, High), OfKind(swings, Low);
    if HeadAndShouldersOf(highs, lows, latest) == Some(p) {
      var left, head, right := highs[|highs| - 3], highs[|highs| - 2], highs[|highs| - 1];
      var neckline := MeanPrice(Within(lows, left.index, right.index));
      LastThreeListed(swings, High, left, head, right);
      AverageListed(swings, Low, left, right, neckline);
      LastThreePriced(swings, High, left, head, right);
      AlikeIsTolerance(left.price, right.price);
      SymmetryIsShown(left.price, right.price, p.quality);
      assert ShouldersAt(swings, latest, p, left, head, right, neckline);
    }
  }

  lemma InverseRead(swings: seq<SwingPoint>, latest: Bar, p: ChartPattern)
    requires IndexOrdered(swings) && Priced(swings)
    ensures InverseHeadAndShouldersOf(OfKind(swings, High), OfKind(swings, Low), latest) == Some(p) <==>
            ReadsInverse(swings, latest, p)
  {
    hide LastThree, AverageOver, MeanPrice, Alike, SymmetryShown, Symmetry, PctDiff, Within, OfKind;
    forall left, head, right, neckline
      ensures InverseAt(swings, latest, p, left, head, right, neckline) ==>
              InverseHeadAndShouldersOf(OfKind(swings, High), OfKind(swings, Low), latest) == Some(p)
    {
      if InverseAt(swings, latest, p, left, head, right, neckline) {
        LastThreeListed(swings, Low, left, head, right);
        AverageListed(swings, High, left, right, neckline);
        LastThreePriced(swings, Low, left, head, right);
        AlikeIsTolerance(left.price, right.price);
        SymmetryIsShown(left.price, right.price, p.quality);
      }
    }
    var highs, lows := OfKind(swings, High), OfKind(swings, Low);
    if InverseHeadAndShouldersOf(highs, lows, latest) == Some(p) {
      var left, head, right := lows[|lows| - 3], lows[|lows| - 2], lows[|lows| - 1];
      var neckline := MeanPrice(Within(highs, left.index, right.index));
      LastThreeListed(swings, Low, left, head, right);
      AverageListed(swings, High, left, right, neckline);
      LastThreePriced(swings, Low, left, head, right);
      AlikeIsTolerance(left.price, right.price);
      SymmetryIsShown(left.price, right.price, p.quality);
      assert InverseAt(swings, latest, p, left, head, right, neckline);
    }
  }

  // Trend structure.

  ghost predicate StructureAt(swings: seq<SwingPoint>, latest: Bar, p: ChartPattern, h1: SwingPoint, h2: SwingPoint,
                              l1: SwingPoint, l2: SwingPoint)
  {
    && LastTwo(swings, High, h1, h2) && LastTwo(swings, Low, l1, l2)
    && (match p.kind
        case UptrendStructure => h2.price > h1.price && l2.price > l1.price && p.direction == Bullish
        case DowntrendStructure => h2.price < h1.price && l2.price < l1.price && p.direction == Bearish
        case _ => false)
    && p.start <= h1.timestamp && p.start <= l1.timestamp && (p.start == h1.timestamp || p.start == l1.timestamp)
    && p.end == latest.timestamp && p.shape == Structure(h1.price, h2.price, l1.price, l2.price)
    && p.confirmed && p.quality == 0.6
  }

  /** Higher highs with higher lows, or lower highs with lower lows. */
  ghost predicate ReadsStructure(swings: seq<SwingPoint>, latest: Bar, p: ChartPattern) {
    exists h1, h2, l1, l2 :: StructureAt(swings, latest, p, h1, h2, l1, l2)
  }

  lemma StructureRead(swings: seq<SwingPoint>, latest: Bar, p: ChartPattern)
    requires IndexOrdered(swings)
    ensures TrendStructureOf(OfKind(swings, High), OfKind(swings, Low), latest) == Some(p) <==>
            ReadsStructure(swings, latest, p)
  {
    hide LastTwo, OfKind;
    forall h1, h2, l1, l2
      ensures StructureAt(swings, latest, p, h1, h2, l1, l2) ==>
              TrendStructureOf(OfKind(swings, High), OfKind(swings, Low), latest) == Some(p)
    {
      LastTwoListed(swings, High, h1, h2);
      LastTwoListed(swings, Low, l1, l2);
    }
    var highs, lows := OfKind(swings, High), OfKind(swings, Low);
    if TrendStructureOf(highs, lows, latest) == Some(p) {
      var h1, h2, l1, l2 := highs[|highs| - 2], highs[|highs| - 1], lows[|lows| - 2], lows[|lows| - 1];
      LastTwoListed(swings, High, h1, h2);
      LastTwoListed(swings, Low, l1, l2);
      assert StructureAt(swings, latest, p, h1, h2, l1, l2);
    }
  }
}
