/** Decimal arithmetic as .NET performs it: a 96-bit coefficient, at most 28 decimals, exact results rounded to the
    nearest representable value, ties to even. */
module Decimals {
  import opened Rial

  const MAX_COEFFICIENT: real := 79228162514264337593543950335.0

  function Ten(n: nat): (power: real)
    ensures power >= 1.0
  {
    if n == 0 then 1.0 else 10.0 * Ten(n - 1)
  }

  function TenInt(n: nat): (power: nat)
    ensures power >= 1
  {
    if n == 0 then 1 else 10 * TenInt(n - 1)
  }

  /** A value in units of its `p`-th decimal. */
  function Scaled(x: real, p: nat): real {
    x * Ten(p)
  }

  /** The most decimals, up to `most`, with which a value still fits the coefficient. */
  function Places(x: real, most: nat): (p: nat)
    ensures p <= most
  {
    if most == 0 || x * Ten(most) <= MAX_COEFFICIENT then most else Places(x, most - 1)
  }

  function Nearest(y: real): int {
    var below := y.Floor;
    var rest := y - below as real;
    if rest < 0.5 then below
    else if rest > 0.5 then below + 1
    else if below % 2 == 0 then below else below + 1
  }

  /** The nearest multiple of one part in `t`. */
  function RoundTo(x: real, t: real): real
    requires t > 0.0
  {
    Nearest(x * t) as real / t
  }

  /** An exact non-negative result as a decimal. */
  function Dec(x: real): real {
    RoundTo(x, Ten(Places(x, 28)))
  }

  function Mul(x: real, y: real): real { Dec(x * y) }

  function Div(x: real, y: real): real
    requires y > 0.0
  {
    Dec(x / y)
  }

  // ---- powers of ten ----

  lemma {:induction false} TenAdds(m: nat, n: nat)
    ensures Ten(m + n) == Ten(m) * Ten(n)
  {
    if m > 0 {
      TenAdds(m - 1, n);
      assert Ten(m + n) == 10.0 * Ten(m - 1 + n);
    }
  }

  lemma {:induction false} TenIsWhole(n: nat)
    ensures Ten(n) == TenInt(n) as real
  {
    if n > 0 {
      TenIsWhole(n - 1);
      assert (10 * TenInt(n - 1)) as real == 10.0 * TenInt(n - 1) as real;
    }
  }

  lemma {:induction false} TenGrows(m: nat, n: nat)
    requires m <= n
    ensures Ten(m) <= Ten(n)
  {
    if m < n {
      TenGrows(m, n - 1);
    }
  }

  // ---- rounding ----

  lemma NearestIsNear(y: real)
    ensures -0.5 <= Nearest(y) as real - y <= 0.5
  {
  }

  lemma NearestOfWhole(n: int)
    ensures Nearest(n as real) == n
  {
    FloorIs(n as real, n);
  }

  /** A value that fits with some decimals has at least as many. */
  lemma {:induction false} EnoughPlaces(x: real, p: nat, most: nat)
    requires p <= most && x >= 0.0 && x * Ten(p) <= MAX_COEFFICIENT
    ensures Places(x, most) >= p
  {
    if p < most && x * Ten(most) > MAX_COEFFICIENT {
      EnoughPlaces(x, p, most - 1);
    }
  }

  lemma Product(x: real, y: real, z: real)
    requires x >= 0.0 && y <= z
    ensures x * y <= x * z
  {
  }

  /** Rounding moves a value by at most half a unit of the last decimal it certainly keeps. */
  lemma DecIsClose(x: real, p: nat, unit: real)
    requires x >= 0.0 && p <= 28 && Scaled(x, p) <= MAX_COEFFICIENT
    requires unit > 0.0 && Scaled(unit, p) >= 0.5
    ensures -unit <= Dec(x) - x <= unit && Dec(x) >= 0.0
  {
    hide RoundTo, Scaled, Places;
    EnoughScaled(x, p);
    TenGrows(p, Places(x, 28));
    ScaledIs(unit, p);
    RoundToIsClose(x, Ten(Places(x, 28)), Ten(p), unit, Scaled(unit, p));
    RoundNonNegative(x, Ten(Places(x, 28)));
  }

  lemma ScaledIs(unit: real, p: nat)
    ensures Scaled(unit, p) == unit * Ten(p)
  {
  }

  lemma RoundToIsClose(x: real, t: real, small: real, unit: real, half: real)
    requires 0.0 < small <= t && unit > 0.0 && half == unit * small && half >= 0.5
    ensures -unit <= RoundTo(x, t) - x <= unit
  {
    hide RoundTo;
    RoundToIsNear(x, t, small);
    var d := RoundTo(x, t) - x;
    Unscaled(d, small, unit, half, d * small);
  }

  lemma RoundToIsNear(x: real, t: real, small: real)
    requires 0.0 < small <= t
    ensures -0.5 <= (RoundTo(x, t) - x) * small <= 0.5
  {
    hide Nearest;
    NearestIsNear(x * t);
    var n := Nearest(x * t) as real;
    var y := n / t;
    Quotient(n, t);
    Distributes(y, x, t);
    Shrinks(y - x, small, t);
  }

  lemma Distributes(y: real, x: real, t: real)
    ensures (y - x) * t == y * t - x * t
  {
  }

  /** Half a unit in the last decimal, as a difference; `a` and `b` name the products. */
  lemma Unscaled(d: real, t: real, unit: real, a: real, b: real)
    requires t > 0.0 && unit > 0.0 && a == unit * t && a >= 0.5 && b == d * t && -0.5 <= b <= 0.5
    ensures -unit <= d <= unit
  {
    NotAbove(d, t, unit, a, b);
    assert -b == -d * t;
    NotAbove(-d, t, unit, a, -b);
  }

  lemma NotAbove(d: real, t: real, unit: real, a: real, b: real)
    requires t > 0.0 && a == unit * t && a >= 0.5 && b == d * t && b <= 0.5
    ensures d <= unit
  {
    assert (d - unit) * t == b - a;
    if d > unit {
      PositiveProduct(d - unit, t);
    }
  }

  lemma PositiveProduct(x: real, y: real)
    requires x > 0.0 && y > 0.0
    ensures x * y > 0.0
  {
  }

  /** Bounds of a product. */
  lemma Bounded(x: real, y: real, a: real, b: real)
    requires 0.0 <= x <= a && 0.0 <= y <= b
    ensures 0.0 <= x * y <= a * b
  {
    Product(y, x, a);
    Product(a, y, b);
    Product(x, 0.0, y);
  }

  lemma RoundNonNegative(x: real, t: real)
    requires x >= 0.0 && t > 0.0
    ensures RoundTo(x, t) >= 0.0
  {
    hide Nearest;
    Product(x, 0.0, t);
    NearestNonNegative(x * t);
    NonNegativeQuotient(Nearest(x * t) as real, t);
  }

  lemma NonNegativeQuotient(n: real, t: real)
    requires n >= 0.0 && t > 0.0
    ensures n / t >= 0.0
  {
  }

  lemma NearestNonNegative(y: real)
    requires y >= 0.0
    ensures Nearest(y) >= 0
  {
  }

  lemma Quotient(n: real, t: real)
    requires t > 0.0
    ensures n / t * t == n
  {
  }

  /** A smaller factor leaves a bounded product bounded. */
  lemma Shrinks(d: real, small: real, large: real)
    requires 0.0 < small <= large && -0.5 <= d * large <= 0.5
    ensures -0.5 <= d * small <= 0.5
  {
    if d >= 0.0 {
      Product(d, small, large);
    } else {
      Product(-d, small, large);
    }
  }

  /** A value with few enough decimals is not rounded at all. */
  lemma DecIsExact(x: real, p: nat, n: nat)
    requires x >= 0.0 && p <= 28 && Scaled(x, p) == n as real && Scaled(x, p) <= MAX_COEFFICIENT
    ensures Dec(x) == x
  {
    hide RoundTo, Scaled, Places;
    var q := Places(x, 28);
    EnoughScaled(x, p);
    MoreDecimals(x, p, q, n);
    RoundScaled(x, q, n * TenInt(q - p));
  }

  lemma EnoughScaled(x: real, p: nat)
    requires p <= 28 && x >= 0.0 && Scaled(x, p) <= MAX_COEFFICIENT
    ensures Places(x, 28) >= p
  {
    EnoughPlaces(x, p, 28);
  }

  lemma RoundScaled(x: real, q: nat, n: int)
    requires Scaled(x, q) == n as real
    ensures RoundTo(x, Ten(q)) == x
  {
    RoundToIsExact(x, Ten(q), n);
  }

  lemma MoreDecimals(x: real, p: nat, q: nat, n: nat)
    requires p <= q && Scaled(x, p) == n as real
    ensures Scaled(x, q) == (n * TenInt(q - p)) as real
  {
    hide Scaled, Ten, TenInt;
    TenAdds(p, q - p);
    TenIsWhole(q - p);
    ScaledIs(x, p);
    ScaledIs(x, q);
    Regroup(x, Ten(p), Ten(q - p), Ten(q), n, TenInt(q - p));
  }

  lemma Regroup(x: real, small: real, step: real, large: real, n: nat, k: nat)
    requires x * small == n as real && step == k as real && large == small * step
    ensures x * large == (n * k) as real
  {
    Associates(x, small, step);
    WholeProduct(n, k);
  }

  lemma RoundToIsExact(x: real, t: real, n: int)
    requires t > 0.0 && x * t == n as real
    ensures RoundTo(x, t) == x
  {
    hide Nearest;
    NearestOfWhole(n);
    Cancel(x, t);
  }

  lemma Associates(x: real, y: real, z: real)
    ensures x * (y * z) == (x * y) * z
  {
  }

  lemma WholeProduct(m: nat, n: nat)
    ensures (m * n) as real == m as real * n as real
  {
  }

  lemma Cancel(x: real, t: real)
    requires t > 0.0
    ensures x * t / t == x
  {
  }

  /** Ten times a value that already fills the coefficient is rounded in the same digit. */
  lemma DecTimesTen(x: real, p: nat)
    requires x >= 0.0 && 0 < p <= 28 && Places(x, 28) == p
    requires Scaled(x, p) <= MAX_COEFFICIENT && Scaled(x, p) * 10.0 > MAX_COEFFICIENT
    ensures Dec(10.0 * x) == 10.0 * Dec(x)
    ensures Places(10.0 * x, 28) == p - 1 && Scaled(10.0 * x, p - 1) == Scaled(x, p)
  {
    hide RoundTo, Scaled, Places;
    ScaledTimesTen(x, p - 1);
    ScaledTimesTen(x, p);
    FewerScaled(10.0 * x, p);
    EnoughScaled(10.0 * x, p - 1);
    NextTen(p - 1);
    RoundTenTimes(x, Ten(p - 1));
  }

  lemma ScaledTimesTen(x: real, p: nat)
    ensures Scaled(10.0 * x, p) == Scaled(x, p + 1) == Scaled(x, p) * 10.0
  {
    TenTimes(x, Ten(p));
  }

  lemma FewerScaled(x: real, p: nat)
    requires 0 < p <= 28 && x >= 0.0 && Scaled(x, p) > MAX_COEFFICIENT
    ensures Places(x, 28) < p
  {
    FewerPlaces(x, p, 28);
  }

  lemma NextTen(n: nat)
    ensures Ten(n + 1) == 10.0 * Ten(n)
  {
  }

  lemma TenTimes(x: real, t: real)
    ensures 10.0 * x * t == x * (10.0 * t) == x * t * 10.0
  {
  }

  lemma RoundTenTimes(x: real, t: real)
    requires t > 0.0
    ensures RoundTo(10.0 * x, t) == 10.0 * RoundTo(x, 10.0 * t)
  {
    hide Nearest;
    TenTimes(x, t);
    TenTimesQuotient(Nearest(x * (10.0 * t)) as real, t);
  }

  lemma TenTimesQuotient(n: real, t: real)
    requires t > 0.0
    ensures n / t == 10.0 * (n / (10.0 * t))
  {
    var q := n / (10.0 * t);
    assert q * (10.0 * t) == n;
    assert (10.0 * q) * t == n;
  }

  /** A value too large for `p` decimals has fewer. */
  lemma {:induction false} FewerPlaces(x: real, p: nat, most: nat)
    requires 0 < p <= most && x >= 0.0 && x * Ten(p) > MAX_COEFFICIENT
    ensures Places(x, most) < p
  {
    TenGrows(p, most);
    Product(x, Ten(p), Ten(most));
    if p < most {
      FewerPlaces(x, p, most - 1);
    }
  }
}
