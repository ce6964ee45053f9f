/** Triangles read off the swings, and what a fitted slope is. */
module Triangles {
  import opened Numeric
  import opened Market
  import opened Signals
  import opened Swings
  import opened Patterns
  import opened ScaleLaws
  import opened Readings

  /**
   * `m` is the slope of the least-squares line through three points: the normal equation
   * m (n Sxx - Sx Sx) = n Sxy - Sx Sy.
   */
  predicate Fits(a: SwingPoint, b: SwingPoint, c: SwingPoint, m: real) {
    var x, y, z := a.index as real, b.index as real, c.index as real;
    m * (3.0 * (x * x + y * y + z * z) - (x + y + z) * (x + y + z)) ==
      3.0 * (x * a.price + y * b.price + z * c.price) - (x + y + z) * (a.price + b.price + c.price)
  }

  /** The slope, in percent of the close per bar. */
  predicate FitsPct(a: SwingPoint, b: SwingPoint, c: SwingPoint, close: real, pct: real) {
    Fits(a, b, c, pct * close / 100.0)
  }

  /** How far the line with slope `m` and value `k` at zero misses a point. */
  function Miss(s: SwingPoint, m: real, k: real): real { s.price - (k + m * s.index as real) }

  function Misfit(a: SwingPoint, b: SwingPoint, c: SwingPoint, m: real, k: real): real {
    Squares(Miss(a, m, k), Miss(b, m, k), Miss(c, m, k))
  }

  function Times(x: real, y: real): real { x * y }

  function Square(u: real): real { Times(u, u) }

  function Squares(u: real, v: real, w: real): real { Square(u) + Square(v) + Square(w) }

  lemma SpreadAsSums(x: real, y: real, z: real)
    ensures var mean := (x + y + z) / 3.0;
            3.0 * Squares(x - mean, y - mean, z - mean) ==
            3.0 * (x * x + y * y + z * z) - (x + y + z) * (x + y + z)
  {
  }

  lemma CovarianceAsSums(x: real, y: real, z: real, p: real, q: real, r: real)
    ensures var mean, level := (x + y + z) / 3.0, (p + q + r) / 3.0;
            3.0 * ((x - mean) * (p - level) + (y - mean) * (q - level) + (z - mean) * (r - level)) ==
            3.0 * (x * p + y * q + z * r) - (x + y + z) * (p + q + r)
  {
  }

  lemma SquaresPositive(d: real, e: real, f: real)
    requires d != e
    ensures Squares(d, e, f) > 0.0
  {
    hide Square;
    SquareSign(d);
    SquareSign(e);
    SquareSign(f);
  }

  lemma SquareSign(d: real)
    ensures Square(d) >= 0.0 && (d != 0.0 ==> Square(d) > 0.0)
  {
    hide Times;
    if d == 0.0 {
      ZeroTimes(d);
    } else {
      SameSign(d, d);
    }
  }

  lemma SameSign(x: real, y: real)
    requires (x > 0.0 && y > 0.0) || (x < 0.0 && y < 0.0)
    ensures Times(x, y) > 0.0
  {
  }

  lemma ZeroTimes(y: real)
    ensures Times(0.0, y) == 0.0
  {
  }

  lemma SlopeFits(a: SwingPoint, b: SwingPoint, c: SwingPoint, m: real)
    requires a.index < b.index < c.index
    ensures Fits(a, b, c, m) <==> m == Slope(a, b, c)
  {
    hide Slope, Squares;
    var x, y, z := a.index as real, b.index as real, c.index as real;
    var mean, level := (x + y + z) / 3.0, (a.price + b.price + c.price) / 3.0;
    var spread := Squares(x - mean, y - mean, z - mean);
    var lean := (x - mean) * (a.price - level) + (y - mean) * (b.price - level) + (z - mean) * (c.price - level);
    SquaresPositive(x - mean, y - mean, z - mean);
    SpreadAsSums(x, y, z);
    CovarianceAsSums(x, y, z, a.price, b.price, c.price);
    SlopeIsQuotient(a, b, c);
    IsQuotient(m, lean, spread);
    Thrice(m, spread, lean);
  }

  lemma SlopeIsQuotient(a: SwingPoint, b: SwingPoint, c: SwingPoint)
    requires a.index < b.index < c.index
    ensures var x, y, z := a.index as real, b.index as real, c.index as real;
            var mean, level := (x + y + z) / 3.0, (a.price + b.price + c.price) / 3.0;
            var lean := (x - mean) * (a.price - level) + (y - mean) * (b.price - level)
              + (z - mean) * (c.price - level);
            Slope(a, b, c) * Squares(x - mean, y - mean, z - mean) == lean
  {
    SlopeOfParts(a, b, c);
    var mean := (a.index + b.index + c.index) as real / 3.0;
    SquaresPositive(a.index as real - mean, b.index as real - mean, c.index as real - mean);
    assert (a.index + b.index + c.index) as real == a.index as real + b.index as real + c.index as real;
  }

  lemma Thrice(m: real, spread: real, lean: real)
    ensures m * (3.0 * spread) == 3.0 * lean <==> m * spread == lean
  {
  }

  lemma PctFits(a: SwingPoint, b: SwingPoint, c: SwingPoint, close: real, pct: real)
    requires a.index < b.index < c.index && close > 0.0
    ensures FitsPct(a, b, c, close, pct) <==> pct == SlopePct(Slope(a, b, c), close)
  {
    hide Slope, Fits;
    SlopeFits(a, b, c, pct * close / 100.0);
    IsQuotient(pct, Slope(a, b, c), close / 100.0);
    assert pct * (close / 100.0) == pct * close / 100.0;
  }

  /** No other line misses the three points by less, in squares, than the one with the fitted slope through their
   * means.
   */
  lemma FittedLineIsBest(a: SwingPoint, b: SwingPoint, c: SwingPoint, m: real, other: real, k: real)
    requires Fits(a, b, c, m)
    ensures var level := (a.price + b.price + c.price - m * (a.index + b.index + c.index) as real) / 3.0;
            Misfit(a, b, c, m, level) <= Misfit(a, b, c, other, k)
  {
    hide Fits, Misfit, Miss;
    var level := (a.price + b.price + c.price - m * (a.index + b.index + c.index) as real) / 3.0;
    var d, e := other - m, k - level;
    FittedMisses(a, b, c, m, level);
    ShiftedMisfits(a, b, c, m, level, d, e);
    assert m + d == other && level + e == k;
  }

  lemma ShiftedMisfits(a: SwingPoint, b: SwingPoint, c: SwingPoint, m: real, level: real, d: real, e: real)
    requires Miss(a, m, level) + Miss(b, m, level) + Miss(c, m, level) == 0.0
    requires a.index as real * Miss(a, m, level) + b.index as real * Miss(b, m, level)
             + c.index as real * Miss(c, m, level) == 0.0
    ensures Misfit(a, b, c, m, level) <= Misfit(a, b, c, m + d, level + e)
  {
    hide Squares, Miss;
    OtherLineMisses(a.index as real, b.index as real, c.index as real,
      Miss(a, m, level), Miss(b, m, level), Miss(c, m, level), d, e);
    MissShifts(a, m, level, d, e);
    MissShifts(b, m, level, d, e);
    MissShifts(c, m, level, d, e);
  }

  lemma FittedMisses(a: SwingPoint, b: SwingPoint, c: SwingPoint, m: real, level: real)
    requires Fits(a, b, c, m)
    requires level == (a.price + b.price + c.price - m * (a.index + b.index + c.index) as real) / 3.0
    ensures Miss(a, m, level) + Miss(b, m, level) + Miss(c, m, level) == 0.0
    ensures a.index as real * Miss(a, m, level) + b.index as real * Miss(b, m, level)
            + c.index as real * Miss(c, m, level) == 0.0
  {
    var x, y, z := a.index as real, b.index as real, c.index as real;
    assert (a.index + b.index + c.index) as real == x + y + z;
    NormalEquations(x, y, z, a.price, b.price, c.price, m, level);
  }

  lemma MissShifts(s: SwingPoint, m: real, level: real, d: real, e: real)
    ensures Miss(s, m + d, level + e) == Miss(s, m, level) - (e + d * s.index as real)
  {
  }

  /** Under the normal equation the misses sum to zero, and so do the misses weighted by place. */
  lemma NormalEquations(x: real, y: real, z: real, p: real, q: real, r: real, m: real, level: real)
    requires 3.0 * level == p + q + r - m * (x + y + z)
    requires m * (3.0 * (x * x + y * y + z * z) - (x + y + z) * (x + y + z)) ==
             3.0 * (x * p + y * q + z * r) - (x + y + z) * (p + q + r)
    ensures (p - (level + m * x)) + (q - (level + m * y)) + (r - (level + m * z)) == 0.0
    ensures x * (p - (level + m * x)) + y * (q - (level + m * y)) + z * (r - (level + m * z)) == 0.0
  {
    var sx, sxx, sxy, sy := x + y + z, x * x + y * y + z * z, x * p + y * q + z * r, p + q + r;
    assert m * (x + y + z) == m * x + m * y + m * z;
    assert x * (p - (level + m * x)) + y * (q - (level + m * y)) + z * (r - (level + m * z)) ==
      sxy - level * sx - m * sxx;
    assert 3.0 * (level * sx) == (sy - m * sx) * sx;
    assert (sy - m * sx) * sx == sx * sy - m * (sx * sx);
    assert m * (3.0 * sxx - sx * sx) == 3.0 * (m * sxx) - m * (sx * sx);
  }

  lemma OtherLineMisses(x: real, y: real, z: real, u: real, v: real, w: real, d: real, e: real)
    requires u + v + w == 0.0 && x * u + y * v + z * w == 0.0
    ensures Squares(u, v, w) <= Squares(u - (e + d * x), v - (e + d * y), w - (e + d * z))
  {
    hide Squares;
    assert (e + d * x) * u + (e + d * y) * v + (e + d * z) * w == e * (u + v + w) + d * (x * u + y * v + z * w);
    SquaresApart(u, v, w, e + d * x, e + d * y, e + d * z);
  }

  lemma SquaresApart(u: real, v: real, w: real, f: real, g: real, h: real)
    requires f * u + g * v + h * w == 0.0
    ensures Squares(u, v, w) <= Squares(u - f, v - g, w - h)
  {
    hide Square;
    SquareApart(u, f);
    SquareApart(v, g);
    SquareApart(w, h);
  }

  lemma SquareApart(u: real, f: real)
    ensures Square(u - f) >= Square(u) - 2.0 * (f * u)
  {
    SquareSign(f);
    assert (u - f) * (u - f) == u * u - 2.0 * (f * u) + f * f;
  }

  ghost predicate TriangleAt(swings: seq<SwingPoint>, latest: Bar, p: ChartPattern, h1: SwingPoint, h2: SwingPoint,
                             h3: SwingPoint, l1: SwingPoint, l2: SwingPoint, l3: SwingPoint)
  {
    && LastThree(swings, High, h1, h2, h3) && LastThree(swings, Low, l1, l2, l3)
    && p.shape.Triangle? && p.shape.resistance == h3.price && p.shape.support == l3.price
    && var high, low := p.shape.highSlopePct, p.shape.lowSlopePct;
       && FitsPct(h1, h2, h3, latest.close, high) && FitsPct(l1, l2, l3, latest.close, low)
       && (match p.kind
           case AscendingTriangle => -0.05 <= high <= 0.05 && low > 0.05 && p.direction == Bullish
           case DescendingTriangle => -0.05 <= low <= 0.05 && high < -0.05 && p.direction == Bearish
           case SymmetricalTriangle => high < -0.05 && low > 0.05 && p.direction == Neutral
           case _ => false)
       && p.start <= h1.timestamp && p.start <= l1.timestamp && (p.start == h1.timestamp || p.start == l1.timestamp)
       && p.end == latest.timestamp && !p.confirmed && p.quality == 0.5
  }

  /** Least-squares lines through the last three highs and lows that converge. */
  ghost predicate ReadsTriangle(swings: seq<SwingPoint>, latest: Bar, p: ChartPattern) {
    exists h1, h2, h3, l1, l2, l3 :: TriangleAt(swings, latest, p, h1, h2, h3, l1, l2, l3)
  }

  lemma LastThreeOrdered(swings: seq<SwingPoint>, kind: SwingKind, a: SwingPoint, b: SwingPoint, c: SwingPoint)
    requires LastThree(swings, kind, a, b, c)
    ensures a.index < b.index < c.index
  {
  }

  lemma TriangleRead(swings: seq<SwingPoint>, latest: Bar, p: ChartPattern)
    requires IndexOrdered(swings) && latest.close > 0.0
    ensures TriangleOf(OfKind(swings, High), OfKind(swings, Low), latest) == Some(p) <==>
            ReadsTriangle(swings, latest, p)
  {
    hide LastThree, OfKind, FitsPct, Slope, SlopePct;
    forall h1, h2, h3, l1, l2, l3
      ensures TriangleAt(swings, latest, p, h1, h2, h3, l1, l2, l3) ==>
              TriangleOf(OfKind(swings, High), OfKind(swings, Low), latest) == Some(p)
    {
      if TriangleAt(swings, latest, p, h1, h2, h3, l1, l2, l3) {
        LastThreeListed(swings, High, h1, h2, h3);
        LastThreeListed(swings, Low, l1, l2, l3);
        LastThreeOrdered(swings, High, h1, h2, h3);
        LastThreeOrdered(swings, Low, l1, l2, l3);
        PctFits(h1, h2, h3, latest.close, p.shape.highSlopePct);
        PctFits(l1, l2, l3, latest.close, p.shape.lowSlopePct);
      }
    }
    var highs, lows := OfKind(swings, High), OfKind(swings, Low);
    if TriangleOf(highs, lows, latest) == Some(p) {
      var h1, h2, h3 := highs[|highs| - 3], highs[|highs| - 2], highs[|highs| - 1];
      var l1, l2, l3 := lows[|lows| - 3], lows[|lows| - 2], lows[|lows| - 1];
      LastThreeListed(swings, High, h1, h2, h3);
      LastThreeListed(swings, Low, l1, l2, l3);
      LastThreeOrdered(swings, High, h1, h2, h3);
      LastThreeOrdered(swings, Low, l1, l2, l3);
      PctFits(h1, h2, h3, latest.close, p.shape.highSlopePct);
      PctFits(l1, l2, l3, latest.close, p.shape.lowSlopePct);
      assert TriangleAt(swings, latest, p, h1, h2, h3, l1, l2, l3);
    }
  }
}
