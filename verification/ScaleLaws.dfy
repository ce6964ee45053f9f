/** Multiplication by k > 0, and everything the chart scan asks of prices that it leaves alone. */
module ScaleLaws {
  import opened Numeric
  import opened Sorting
  import opened Market
  import opened Signals
  import opened Levels
  import opened Patterns

  // Rescaling every price by one function `f`.

  function ScaleBar(f: real -> real): Bar -> Bar {
    (b: Bar) => Bar(b.timestamp, f(b.open), f(b.high), f(b.low), f(b.close), b.volume)
  }

  function ScaleSwing(f: real -> real): SwingPoint -> SwingPoint {
    (s: SwingPoint) => s.(price := f(s.price))
  }

  function ScaleCluster(f: real -> real): seq<SwingPoint> -> seq<SwingPoint> {
    (c: seq<SwingPoint>) => Map(ScaleSwing(f), c)
  }

  function ScaleLevel(f: real -> real): PriceLevel -> PriceLevel {
    (l: PriceLevel) => l.(price := f(l.price))
  }

  function ScaleShape(shape: Shape, f: real -> real): Shape {
    match shape
    case Double(first, second, neckline) => Double(f(first), f(second), f(neckline))
    case Shoulders(left, head, right, neckline) => Shoulders(f(left), f(head), f(right), f(neckline))
    case Structure(h1, h2, l1, l2) => Structure(f(h1), f(h2), f(l1), f(l2))
    case Triangle(resistance, support, highSlopePct, lowSlopePct) => Triangle(f(resistance), f(support), highSlopePct,
      lowSlopePct)
    case Range(high, low, close) => Range(f(high), f(low), f(close))
  }

  function ScalePattern(f: real -> real): ChartPattern -> ChartPattern {
    (p: ChartPattern) => p.(shape := ScaleShape(p.shape, f))
  }

  function ScaleFound(candidate: Option<ChartPattern>, f: real -> real): Option<ChartPattern> {
    if candidate.Some? then Some(ScalePattern(f)(candidate.value)) else None
  }

  function ScaleScan(scan: Scan, f: real -> real): Scan {
    match scan
    case TooShort => TooShort
    case Scanned(swings, levels, patterns) =>
      Scanned(Map(ScaleSwing(f), swings), Map(ScaleLevel(f), levels), Map(ScalePattern(f), patterns))
  }

  // Everything the scan asks of prices comes out the same after `f`.

  predicate KeepsOrder(f: real -> real, x: real, y: real) {
    && (x < y <==> f(x) < f(y))
    && (f(x) > 0.0 <==> x > 0.0) && (f(x) == 0.0 <==> x == 0.0)
  }

  predicate KeepsLikeness(f: real -> real, x: real, y: real) {
    PctDiff(f(x), f(y)) == PctDiff(x, y) && Symmetry(f(x), f(y)) == Symmetry(x, y)
  }

  predicate KeepsDepth(f: real -> real, x: real, y: real) {
    && (x != 0.0 ==> f(x) != 0.0 && DropPct(f(x), f(y)) == DropPct(x, y))
    && (y != 0.0 ==> f(y) != 0.0 && RisePct(f(x), f(y)) == RisePct(x, y))
    && RangeQuality(f(x), f(y)) == RangeQuality(x, y)
  }

  predicate KeepsRelation(f: real -> real, x: real, close: real) {
    close > 0.0 ==>
      f(close) > 0.0 && DistancePct(f(x), f(close)) == DistancePct(x, close)
        && SlopePct(f(x), f(close)) == SlopePct(x, close)
  }

  predicate CarriesSlope(f: real -> real, a: SwingPoint, b: SwingPoint, c: SwingPoint) {
    Slope(ScaleSwing(f)(a), ScaleSwing(f)(b), ScaleSwing(f)(c)) == f(Slope(a, b, c))
  }

  predicate CarriesMean(f: real -> real, c: seq<SwingPoint>) {
    c != [] ==> MeanPrice(Map(ScaleSwing(f), c)) == f(MeanPrice(c))
  }

  ghost predicate Rescales(f: real -> real) {
    && (forall x: real, y: real :: KeepsOrder(f, x, y))
    && (forall x: real, y: real :: KeepsLikeness(f, x, y))
    && (forall x: real, y: real :: KeepsDepth(f, x, y))
    && (forall x: real, y: real :: KeepsRelation(f, x, y))
    && (forall a: SwingPoint, b: SwingPoint, c: SwingPoint :: CarriesSlope(f, a, b, c))
    && (forall c: seq<SwingPoint> :: CarriesMean(f, c))
  }

  function Times(k: real): real -> real {
    (x: real) => k * x
  }

  // Below, `kx` and `ky` are the products of `x` and `y` with `k`.

  lemma ScaleOrder(k: real, x: real, y: real, kx: real, ky: real)
    requires k > 0.0 && kx == k * x && ky == k * y
    ensures x < y <==> kx < ky
    ensures (kx > 0.0 <==> x > 0.0) && (kx == 0.0 <==> x == 0.0)
  {
    CancelFactor(y, x, k);
    CancelFactor(x, 0.0, k);
    CancelFactor(0.0, x, k);
  }

  lemma QuotientUnique(x: real, y: real, q: real)
    requires y != 0.0 && q * y == x
    ensures x / y == q
  {
  }

  lemma RatioScale(k: real, x: real, y: real, kx: real, ky: real)
    requires k > 0.0 && y != 0.0 && kx == k * x && ky == k * y
    ensures ky != 0.0 && kx / ky == x / y
  {
    var q := x / y;
    assert q * y == x;
    assert q * ky == k * (q * y);
    ScaleOrder(k, y, y, ky, ky);
    QuotientUnique(kx, ky, q);
  }

  lemma ScaledQuotient(k: real, x: real, y: real, kx: real)
    requires y != 0.0 && kx == k * x
    ensures kx / y == k * (x / y)
  {
    var q := x / y;
    assert q * y == x;
    assert k * q * y == k * (q * y);
    QuotientUnique(kx, y, k * q);
  }

  lemma MidpointScale(k: real, x: real, y: real, kx: real, ky: real)
    requires kx == k * x && ky == k * y
    ensures (kx + ky) / 2.0 == k * ((x + y) / 2.0) && kx - ky == k * (x - y)
  {
  }

  lemma AbsScale(k: real, x: real, kx: real)
    requires k > 0.0 && kx == k * x
    ensures Abs(kx) == k * Abs(x)
  {
    ScaleOrder(k, x, 0.0, kx, 0.0);
  }

  lemma PctDiffScale(k: real, x: real, y: real, kx: real, ky: real)
    requires k > 0.0 && kx == k * x && ky == k * y
    ensures PctDiff(kx, ky) == PctDiff(x, y)
  {
    var midpoint, scaled := (x + y) / 2.0, (kx + ky) / 2.0;
    MidpointScale(k, x, y, kx, ky);
    ScaleOrder(k, midpoint, midpoint, scaled, scaled);
    AbsScale(k, x - y, kx - ky);
    if midpoint > 0.0 {
      RatioScale(k, Abs(x - y), midpoint, Abs(kx - ky), scaled);
    }
  }

  lemma LikenessScale(k: real, x: real, y: real, kx: real, ky: real)
    requires k > 0.0 && kx == k * x && ky == k * y
    ensures PctDiff(kx, ky) == PctDiff(x, y) && Symmetry(kx, ky) == Symmetry(x, y)
  {
    PctDiffScale(k, x, y, kx, ky);
  }

  lemma DropScale(k: real, x: real, y: real, kx: real, ky: real)
    requires k > 0.0 && x != 0.0 && kx == k * x && ky == k * y
    ensures kx != 0.0 && DropPct(kx, ky) == DropPct(x, y)
  {
    MidpointScale(k, x, y, kx, ky);
    RatioScale(k, x - y, x, kx - ky, kx);
  }

  lemma RiseScale(k: real, x: real, y: real, kx: real, ky: real)
    requires k > 0.0 && y != 0.0 && kx == k * x && ky == k * y
    ensures ky != 0.0 && RisePct(kx, ky) == RisePct(x, y)
  {
    MidpointScale(k, x, y, kx, ky);
    RatioScale(k, x - y, y, kx - ky, ky);
  }

  lemma RangeQualityScale(k: real, x: real, y: real, kx: real, ky: real)
    requires k > 0.0 && kx == k * x && ky == k * y
    ensures RangeQuality(kx, ky) == RangeQuality(x, y)
  {
    ScaleOrder(k, y, y, ky, ky);
    if y > 0.0 {
      RiseScale(k, x, y, kx, ky);
    }
  }

  lemma DistanceScale(k: real, x: real, close: real, kx: real, kclose: real)
    requires k > 0.0 && close > 0.0 && kx == k * x && kclose == k * close
    ensures kclose > 0.0 && DistancePct(kx, kclose) == DistancePct(x, close)
  {
    ScaleOrder(k, close, close, kclose, kclose);
    MidpointScale(k, x, close, kx, kclose);
    RatioScale(k, x - close, close, kx - kclose, kclose);
  }

  lemma SlopePctScale(k: real, slope: real, close: real, kslope: real, kclose: real)
    requires k > 0.0 && close > 0.0 && kslope == k * slope && kclose == k * close
    ensures SlopePct(kslope, kclose) == SlopePct(slope, close)
  {
    ScaleOrder(k, close, close, kclose, kclose);
    RatioScale(k, slope, close / 100.0, kslope, kclose / 100.0);
  }

  lemma ThirdScale(k: real, a: real, b: real, c: real)
    ensures (k * a + k * b + k * c) / 3.0 == k * ((a + b + c) / 3.0)
  {
  }

  lemma CovarianceScale(k: real, dx: real, dy: real, dz: real, a: real, b: real, c: real, m: real)
    ensures dx * (k * a - k * m) + dy * (k * b - k * m) + dz * (k * c - k * m) ==
            k * (dx * (a - m) + dy * (b - m) + dz * (c - m))
  {
  }

  function Centre(a: SwingPoint, b: SwingPoint, c: SwingPoint): real { (a.price + b.price + c.price) / 3.0 }

  function Offset(p: SwingPoint, a: SwingPoint, b: SwingPoint, c: SwingPoint): real {
    p.index as real - (a.index + b.index + c.index) as real / 3.0
  }

  function Covariance(a: SwingPoint, b: SwingPoint, c: SwingPoint): real {
    Offset(a, a, b, c) * (a.price - Centre(a, b, c))
    + Offset(b, a, b, c) * (b.price - Centre(a, b, c))
    + Offset(c, a, b, c) * (c.price - Centre(a, b, c))
  }

  lemma SlopeOfParts(a: SwingPoint, b: SwingPoint, c: SwingPoint)
    ensures var dx, dy, dz := Offset(a, a, b, c), Offset(b, a, b, c), Offset(c, a, b, c);
            var spread := dx * dx + dy * dy + dz * dz;
            Slope(a, b, c) == if spread == 0.0 then 0.0 else Covariance(a, b, c) / spread
  {
  }

  lemma SlopeScale(k: real, a: SwingPoint, b: SwingPoint, c: SwingPoint, ka: SwingPoint, kb: SwingPoint, kc: SwingPoint)
    requires ka == a.(price := k * a.price) && kb == b.(price := k * b.price) && kc == c.(price := k * c.price)
    ensures Slope(ka, kb, kc) == k * Slope(a, b, c)
  {
    var dx, dy, dz := Offset(a, a, b, c), Offset(b, a, b, c), Offset(c, a, b, c);
    ThirdScale(k, a.price, b.price, c.price);
    CovarianceScale(k, dx, dy, dz, a.price, b.price, c.price, Centre(a, b, c));
    SlopeOfParts(a, b, c);
    SlopeOfParts(ka, kb, kc);
    var spread := dx * dx + dy * dy + dz * dz;
    if spread != 0.0 {
      ScaledQuotient(k, Covariance(a, b, c), spread, Covariance(ka, kb, kc));
    }
  }

  predicate Carried(k: real, x: real, kx: real) { kx == k * x }

  lemma SumStep(k: real, sum: real, price: real, ksum: real, kprice: real)
    requires Carried(k, sum, ksum) && Carried(k, price, kprice)
    ensures Carried(k, sum + price, ksum + kprice)
  {
  }

  lemma {:induction false} PriceSumScale(k: real, cluster: seq<SwingPoint>, scaled: seq<SwingPoint>)
    requires |scaled| == |cluster| && forall i | 0 <= i < |cluster| :: Carried(k, cluster[i].price, scaled[i].price)
    ensures Carried(k, PriceSum(cluster), PriceSum(scaled))
  {
    var n := |cluster|;
    if n > 0 {
      hide Carried;
      var front, kfront := cluster[..n - 1], scaled[..n - 1];
      PriceSumScale(k, front, kfront);
      SumStep(k, PriceSum(front), cluster[n - 1].price, PriceSum(kfront), scaled[n - 1].price);
    }
  }

  lemma QuotientCarried(k: real, x: real, y: real, kx: real)
    requires y != 0.0 && Carried(k, x, kx)
    ensures Carried(k, x / y, kx / y)
  {
    ScaledQuotient(k, x, y, kx);
  }

  lemma OrderLaw(k: real, x: real, y: real)
    requires k > 0.0
    ensures KeepsOrder(Times(k), x, y)
  {
    ScaleOrder(k, x, y, Times(k)(x), Times(k)(y));
  }

  lemma LikenessLaw(k: real, x: real, y: real)
    requires k > 0.0
    ensures KeepsLikeness(Times(k), x, y)
  {
    LikenessScale(k, x, y, Times(k)(x), Times(k)(y));
  }

  lemma DepthLaw(k: real, x: real, y: real)
    requires k > 0.0
    ensures KeepsDepth(Times(k), x, y)
  {
    var kx, ky := Times(k)(x), Times(k)(y);
    if x != 0.0 {
      DropScale(k, x, y, kx, ky);
    }
    if y != 0.0 {
      RiseScale(k, x, y, kx, ky);
    }
    RangeQualityScale(k, x, y, kx, ky);
  }

  lemma RelationLaw(k: real, x: real, close: real)
    requires k > 0.0
    ensures KeepsRelation(Times(k), x, close)
  {
    if close > 0.0 {
      DistanceScale(k, x, close, Times(k)(x), Times(k)(close));
      SlopePctScale(k, x, close, Times(k)(x), Times(k)(close));
    }
  }

  lemma SlopeLaw(k: real, a: SwingPoint, b: SwingPoint, c: SwingPoint)
    ensures CarriesSlope(Times(k), a, b, c)
  {
    var f := ScaleSwing(Times(k));
    SlopeScale(k, a, b, c, f(a), f(b), f(c));
  }

  lemma MeanLaw(k: real, c: seq<SwingPoint>)
    ensures CarriesMean(Times(k), c)
  {
    if c != [] {
      var scaled := Map(ScaleSwing(Times(k)), c);
      PriceSumScale(k, c, scaled);
      QuotientCarried(k, PriceSum(c), |c| as real, PriceSum(scaled));
    }
  }

  /** Changing the currency unit is a rescaling. */
  lemma TimesRescales(k: real)
    requires k > 0.0
    ensures Rescales(Times(k))
  {
    hide KeepsOrder, KeepsLikeness, KeepsDepth, KeepsRelation, CarriesSlope, CarriesMean;
    forall x: real, y: real
      ensures KeepsOrder(Times(k), x, y) && KeepsLikeness(Times(k), x, y)
      ensures KeepsDepth(Times(k), x, y) && KeepsRelation(Times(k), x, y)
    {
      OrderLaw(k, x, y);
      LikenessLaw(k, x, y);
      DepthLaw(k, x, y);
      RelationLaw(k, x, y);
    }
    forall a: SwingPoint, b: SwingPoint, c: SwingPoint
      ensures CarriesSlope(Times(k), a, b, c)
    {
      SlopeLaw(k, a, b, c);
    }
    forall c: seq<SwingPoint>
      ensures CarriesMean(Times(k), c)
    {
      MeanLaw(k, c);
    }
  }
}
