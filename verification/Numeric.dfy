/** Exact-arithmetic counterparts of the rounding the platform relies on. */
module Numeric {

  datatype Option<+T> = None | Some(value: T)

  /** Python's `round`: the nearest integer, ties to the even one. */
  function RoundHalfEven(x: real): (n: int)
    ensures n as real - 0.5 <= x <= n as real + 0.5
    ensures x == n as real + 0.5 || x == n as real - 0.5 ==> n % 2 == 0
  {
    var low := x.Floor;
    var rest := x - low as real;
    if rest < 0.5 || (rest == 0.5 && low % 2 == 0) then low else low + 1
  }

  lemma RoundHalfEvenMonotone(x: real, y: real)
    requires x <= y
    ensures RoundHalfEven(x) <= RoundHalfEven(y)
  {
  }

  /** `round(x, places)` for a scale of `10 ** places`. */
  function RoundTo(x: real, scale: real): real
    requires scale > 0.0
  {
    RoundHalfEven(x * scale) as real / scale
  }

  predicate Steps(n: int, shown: real, scale: real) { shown * scale == n as real }

  /** `shown` is `exact` to the nearest whole multiple of 1 / scale, of two equally near ones the even multiple. */
  ghost predicate Quantised(exact: real, shown: real, scale: real) {
    exists n: int | Steps(n, shown, scale) ::
      && n as real - 0.5 <= exact * scale <= n as real + 0.5
      && (exact * scale == n as real - 0.5 || exact * scale == n as real + 0.5 ==> n % 2 == 0)
  }

  lemma RoundToQuantises(x: real, scale: real)
    requires scale > 0.0
    ensures Quantised(x, RoundTo(x, scale), scale)
  {
    var n := RoundHalfEven(x * scale);
    assert n as real / scale * scale == n as real;
    assert Steps(n, RoundTo(x, scale), scale);
  }

  lemma QuantisedUnique(x: real, shown: real, scale: real)
    requires scale > 0.0 && Quantised(x, shown, scale)
    ensures shown == RoundTo(x, scale)
  {
    var n: int :| Steps(n, shown, scale)
      && n as real - 0.5 <= x * scale <= n as real + 0.5
      && (x * scale == n as real - 0.5 || x * scale == n as real + 0.5 ==> n % 2 == 0);
    assert n == RoundHalfEven(x * scale);
    assert shown == shown * scale / scale;
  }

  /** Python's `int(x)` and Decimal's ROUND_DOWN: drop the fraction. */
  function Truncate(x: real): (n: int)
    ensures x >= 0.0 ==> 0 <= n && n as real <= x < n as real + 1.0
    ensures x <= 0.0 ==> n <= 0 && n as real - 1.0 < x <= n as real
  {
    if x >= 0.0 then x.Floor else -((-x).Floor)
  }

  lemma TruncateMonotone(x: real, y: real)
    requires x <= y
    ensures Truncate(x) <= Truncate(y)
  {
  }

  /** For a non-negative quotient, whole units fit exactly when they do not exceed the truncation. */
  lemma TruncatedQuotient(budget: real, unit: real, n: int)
    requires budget >= 0.0 && unit > 0.0
    ensures n <= Truncate(budget / unit) <==> n as real * unit <= budget
  {
    var q := budget / unit;
    QuotientAtMost(budget, unit, n as real);
    QuotientAtMost(budget, unit, 0.0);
    assert n <= q.Floor <==> n as real <= q;
    if q < n as real {
    } else {
      assert n as real * unit <= q * unit;
    }
  }

  /** Clearing a positive denominator. */
  lemma QuotientAtMost(x: real, y: real, z: real)
    requires y > 0.0
    ensures x / y <= z <==> x <= z * y
    ensures x / y < z <==> x < z * y
  {
    var q := x / y;
    assert q * y == x;
    if q < z {
      assert q * y < z * y;
    } else {
      assert q * y >= z * y;
    }
  }

  lemma CancelFactor(x: real, y: real, k: real)
    requires k > 0.0
    ensures x * k <= y * k <==> x <= y
  {
    if x <= y {
      assert (y - x) * k >= 0.0;
    } else {
      assert (x - y) * k > 0.0;
    }
  }

  function Abs(x: real): real { if x >= 0.0 then x else -x }

  function Max(x: real, y: real): real { if x >= y then x else y }

  function Min(x: real, y: real): real { if x <= y then x else y }

  function Sum(xs: seq<real>): real {
    if xs == [] then 0.0 else xs[0] + Sum(xs[1..])
  }

}
