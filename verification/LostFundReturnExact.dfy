/** Exactly which lost-fund returns are paid one rial short, for amounts up to a million million rials. */
module LostFundReturnExact {
  import opened Rial
  import opened Decimals
  import opened LostFundReturn

  const MAX_WITHDRAWN := 1000000000000
  const MAX_DAYS := 10000

  // ---- the condition ----

  /** The decimals the elapsed days are kept with. */
  function DayPlaces(ticks: nat): nat {
    Places(ticks as real / TICKS_PER_DAY as real, 28)
  }

  /** The elapsed days in units of their last decimal are this many twenty-sevenths above a whole number; one to
      thirteen are lost in rounding, more are rounded up. */
  function Residue(ticks: nat): nat {
    if DayPlaces(ticks) < 14 then 0 else ticks * (3125 * TenInt(DayPlaces(ticks) - 14)) % 27
  }

  /** What the rounded days take from the interest: so many seventy-fifths of a unit of their last decimal. */
  function Loss(withdrawn: nat, ticks: nat): nat {
    withdrawn * Residue(ticks)
  }

  /** The return is a whole number of rials, the days were rounded down, and what that takes from the interest is more
      than the last rounding puts back: more than half a unit of the interest's last decimal, or three halves where the
      return has only two decimals more than the interest. */
  predicate ShortByOne(withdrawn: nat, ticks: nat) {
    var whole := Exact(withdrawn, ticks);
    var day, interest, paid := DayPlaces(ticks), Places((365 * whole) as real, 28), Places(whole as real, 28);
    && withdrawn * ticks % PARTS == 0
    && 1 <= Residue(ticks) <= 13
    && (if paid == interest + 3
        then 2 * (Loss(withdrawn, ticks) * TenInt(interest)) > 75 * TenInt(day)
        else 2 * (Loss(withdrawn, ticks) * TenInt(interest)) >= 225 * TenInt(day))
  }

  // ---- rounding never goes below a whole number it started above ----

  lemma NearestAtLeast(y: real, n: int)
    requires y >= n as real
    ensures Nearest(y) >= n
  {
  }

  lemma RoundedTimes(x: real, t: real)
    requires t > 0.0
    ensures RoundTo(x, t) * t == Nearest(x * t) as real
  {
    hide Nearest;
    Quotient(Nearest(x * t) as real, t);
  }

  lemma RoundAtLeast(x: real, t: nat, n: nat)
    requires t > 0 && x >= n as real
    ensures RoundTo(x, t as real) >= n as real
  {
    hide Nearest, RoundTo;
    var ten, whole := t as real, n * t;
    Product(ten, n as real, x);
    WholeProduct(n, t);
    assert x * ten >= whole as real;
    NearestAtLeast(x * ten, whole);
    RoundedTimes(x, ten);
    Cancels(RoundTo(x, ten), n as real, ten);
  }

  lemma Cancels(x: real, y: real, t: real)
    requires t > 0.0 && x * t >= y * t
    ensures x >= y
  {
  }

  lemma AtLeast(x: real, n: nat)
    requires x >= n as real
    ensures Dec(x) >= n as real
  {
    hide RoundTo, Places, Ten, TenInt;
    TenIsWhole(Places(x, 28));
    RoundAtLeast(x, TenInt(Places(x, 28)), n);
  }

  // ---- between two whole rials nothing goes wrong ----

  lemma MorePowers()
    ensures Ten(13) == 10000000000000.0 && Ten(15) == 1000000000000000.0
    ensures Ten(14) == 100000000000000.0
  {
    Powers();
    NextTen(12);
    NextTen(13);
    NextTen(14);
  }

  lemma InterestClose(yearly: real, days: real, x: real, exact: real)
    requires 0.0 <= yearly <= 360000000000.0 && 0.0 <= x <= 10000.0 && 0.0 <= days && exact == yearly * x
    requires -0.0000000000000000000000005 <= days - x <= 0.0000000000000000000000005
    ensures -0.00000000000023 <= Mul(yearly, days) - exact <= 0.00000000000023
    ensures 0.0 <= Mul(yearly, days) <= 3600360000000001.0
  {
    hide Dec;
    MorePowers();
    Bounded(yearly, days, 360000000000.0, 10001.0);
    ErrorScales(yearly, days, x, 0.0000000000000000000000005, 360000000000.0);
    DecIsClose(yearly * days, 13, 0.00000000000005);
  }

  lemma YearClose(interest: real)
    requires 0.0 <= interest <= 3600360000000001.0
    ensures -0.0000000000000005 <= Div(interest, DAY_COUNT_BASIS) - interest / 365.0 <= 0.0000000000000005
  {
    hide Dec;
    MorePowers();
    DecIsClose(interest / 365.0, 15, 0.0000000000000005);
  }

  /** The unfloored return is off by less than one part. */
  lemma ReturnClose(withdrawn: nat, ticks: nat)
    requires withdrawn <= MAX_WITHDRAWN && ticks <= MAX_DAYS * TICKS_PER_DAY
    ensures var exact := withdrawn as real * 0.36 * (ticks as real / TICKS_PER_DAY as real);
            && -1.0 / PARTS as real < ExactReturn(withdrawn as real, ticks) - exact / 365.0 < 1.0 / PARTS as real
  {
    hide Mul, Div, ElapsedDays;
    YearlyReturn(withdrawn);
    DaysNear(ticks);
    var x, days := ticks as real / TICKS_PER_DAY as real, ElapsedDays(ticks);
    var yearly := withdrawn as real * 0.36;
    var exact := yearly * x;
    InterestClose(yearly, days, x, exact);
    var interest := Mul(yearly, days);
    YearClose(interest);
    assert ExactReturn(withdrawn as real, ticks) == Div(interest, DAY_COUNT_BASIS);
    assert -0.00000000000000064 <= interest / 365.0 - exact / 365.0 <= 0.00000000000000064;
    assert 1.0 / PARTS as real > 0.00000000000000114;
  }

  /** A return that is not whole is paid exactly; a whole one is paid exactly or one rial short. */
  lemma OnlyWholeReturnsFallShort(withdrawn: nat, ticks: nat)
    requires withdrawn <= MAX_WITHDRAWN && ticks <= MAX_DAYS * TICKS_PER_DAY
    ensures var paid, exact := Payable(withdrawn as real, ticks), Exact(withdrawn, ticks);
            && exact - 1 <= paid <= exact
            && (withdrawn * ticks % PARTS != 0 ==> paid == exact)
  {
    hide ExactReturn;
    ReturnClose(withdrawn, ticks);
    ExactValue(withdrawn, ticks);
    var q, m := Exact(withdrawn, ticks), withdrawn * ticks % PARTS;
    var y, part := ExactReturn(withdrawn as real, ticks), 1.0 / PARTS as real;
    assert m as real / PARTS as real == m as real * part;
    PartsOf(m, part);
    assert q as real + m as real * part - part < y < q as real + m as real * part + part;
    assert y.Floor as real <= y < y.Floor as real + 1.0;
  }

  lemma PartsOf(m: nat, part: real)
    requires m < PARTS && part == 1.0 / PARTS as real
    ensures m as real * part <= 1.0 - part && m as real * part >= 0.0
    ensures m >= 1 ==> m as real * part >= part
  {
    Product(part, m as real, (PARTS - 1) as real);
    assert (PARTS - 1) as real * part == 1.0 - part;
  }

  // ---- the days ----

  /** Units of the last decimal a day's tick is worth, times twenty-seven. */
  function Unit(p: nat): nat
    requires p >= 14
  {
    3125 * TenInt(p - 14)
  }

  lemma TickUnits(p: nat)
    requires p >= 14
    ensures Ten(p) == TICKS_PER_DAY as real / 27.0 * Unit(p) as real
  {
    TenAdds(14, p - 14);
    TenIsWhole(p - 14);
    MorePowers();
    assert Unit(p) as real == 3125.0 * Ten(p - 14);
  }

  lemma DaysHavePlaces(ticks: nat)
    requires ticks <= MAX_DAYS * TICKS_PER_DAY
    ensures 24 <= DayPlaces(ticks) <= 28
  {
    Powers();
    EnoughPlaces(ticks as real / TICKS_PER_DAY as real, 24, 28);
  }

  /** What rounding takes from a number of twenty-sevenths, or adds to it. */
  function TakenFrom(residue: nat): int {
    if residue <= 13 then residue else residue - 27
  }

  function Taken(ticks: nat): int {
    TakenFrom(Residue(ticks))
  }

  lemma TwentySevenths(n: nat)
    ensures Nearest(n as real / 27.0) as real == n as real / 27.0 - TakenFrom(n % 27) as real / 27.0
  {
    var a, r := n / 27, n % 27;
    assert n as real / 27.0 == a as real + r as real / 27.0;
    FloorIs(n as real / 27.0, a);
  }

  lemma RoundedSevenths(x: real, t: real, n: nat)
    requires t > 0.0 && x * t == n as real / 27.0
    ensures RoundTo(x, t) * t == x * t - TakenFrom(n % 27) as real / 27.0
  {
    hide RoundTo, Nearest;
    RoundedTimes(x, t);
    TwentySevenths(n);
    NearestSame(x * t, n as real / 27.0);
  }

  lemma NearestSame(x: real, y: real)
    requires x == y
    ensures Nearest(x) == Nearest(y)
  {
  }

  lemma ResidueIs(ticks: nat)
    requires DayPlaces(ticks) >= 14
    ensures Residue(ticks) == ticks * Unit(DayPlaces(ticks)) % 27
  {
    hide TenInt;
  }

  lemma DaysAre(ticks: nat)
    ensures ElapsedDays(ticks) == RoundTo(ticks as real / TICKS_PER_DAY as real, Ten(DayPlaces(ticks)))
  {
    hide RoundTo, Places, Ten;
  }

  lemma DaysRounded(ticks: nat)
    requires ticks <= MAX_DAYS * TICKS_PER_DAY
    ensures var x, p := ticks as real / TICKS_PER_DAY as real, DayPlaces(ticks);
            ElapsedDays(ticks) * Ten(p) == x * Ten(p) - Taken(ticks) as real / 27.0
  {
    hide DayPlaces, Residue, ElapsedDays, Nearest, Ten, TenInt, RoundTo, Unit, TakenFrom;
    DaysHavePlaces(ticks);
    DaysAre(ticks);
    ResidueIs(ticks);
    var p := DayPlaces(ticks);
    TickUnits(p);
    UnitsOf(ticks as real / TICKS_PER_DAY as real, ticks, Unit(p), Ten(p));
    RoundedSevenths(ticks as real / TICKS_PER_DAY as real, Ten(p), ticks * Unit(p));
  }

  lemma UnitsOf(x: real, ticks: nat, unit: nat, ten: real)
    requires x == ticks as real / TICKS_PER_DAY as real && ten == TICKS_PER_DAY as real / 27.0 * unit as real
    ensures x * ten == (ticks * unit) as real / 27.0
  {
    WholeProduct(ticks, unit);
    var t, u := ticks as real, unit as real;
    assert x * ten == t / 864000000000.0 * (32000000000.0 * u);
    Regrouped(t, u);
  }

  lemma Regrouped(t: real, u: real)
    ensures t / 864000000000.0 * (32000000000.0 * u) == t * u / 27.0
  {
  }

  // ---- the interest before it is rounded ----

  lemma WholeInterest(withdrawn: nat, ticks: nat)
    requires withdrawn * ticks % PARTS == 0
    ensures withdrawn as real * 0.36 * (ticks as real / TICKS_PER_DAY as real)
            == 365.0 * Exact(withdrawn, ticks) as real
  {
    ExactValue(withdrawn, ticks);
  }

  /** The interest on the rounded days, before it is rounded itself. */
  function Interest(withdrawn: nat, ticks: nat): real {
    withdrawn as real * 0.36 * ElapsedDays(ticks)
  }

  /** The interest on the rounded days, against the whole interest it should be. */
  lemma InterestRounded(withdrawn: nat, ticks: nat)
    requires ticks <= MAX_DAYS * TICKS_PER_DAY && withdrawn * ticks % PARTS == 0
    ensures var p := DayPlaces(ticks);
            Interest(withdrawn, ticks) * Ten(p) ==
            365.0 * Exact(withdrawn, ticks) as real * Ten(p) - (withdrawn * Taken(ticks)) as real / 75.0
  {
    hide DayPlaces, Residue, ElapsedDays, Taken, Exact;
    DaysRounded(ticks);
    WholeInterest(withdrawn, ticks);
    var x, days := ticks as real / TICKS_PER_DAY as real, ElapsedDays(ticks);
    Scales(withdrawn as real, x, days, Ten(DayPlaces(ticks)), Taken(ticks) as real);
    assert (withdrawn * Taken(ticks)) as real == withdrawn as real * Taken(ticks) as real;
  }

  lemma Scales(w: real, x: real, days: real, ten: real, c: real)
    requires days * ten == x * ten - c / 27.0
    ensures w * 0.36 * days * ten == w * 0.36 * x * ten - w * c / 75.0
  {
    var y := w * 0.36;
    assert y * days * ten == y * (days * ten);
    assert y * (x * ten - c / 27.0) == y * x * ten - y * (c / 27.0);
    assert y * (c / 27.0) == w * c / 75.0;
  }

  /** Days that are exact or rounded up never cost a rial. */
  lemma RoundedUpIsExact(withdrawn: nat, ticks: nat)
    requires withdrawn <= MAX_WITHDRAWN && ticks <= MAX_DAYS * TICKS_PER_DAY
    requires withdrawn * ticks % PARTS == 0 && (withdrawn == 0 || Taken(ticks) <= 0)
    ensures Payable(withdrawn as real, ticks) >= Exact(withdrawn, ticks)
  {
    hide DayPlaces, Residue, Interest, Taken, Dec, ExactReturn, Exact;
    InterestRounded(withdrawn, ticks);
    var q, product := Exact(withdrawn, ticks), Interest(withdrawn, ticks);
    NotPositive(withdrawn, Taken(ticks));
    var whole := (365 * q) as real;
    assert whole == 365.0 * q as real;
    Cancels(product, whole, Ten(DayPlaces(ticks)));
    AtLeast(product, 365 * q);
    ReturnIs(withdrawn, ticks);
    AtLeast(Dec(product) / 365.0, q);
  }

  lemma ReturnIs(withdrawn: nat, ticks: nat)
    requires withdrawn <= 1000000000000000000000000
    ensures ExactReturn(withdrawn as real, ticks) == Dec(Dec(Interest(withdrawn, ticks)) / 365.0)
  {
    hide Dec, ElapsedDays, Div, Mul;
    YearlyReturn(withdrawn);
    var yearly, days := Mul(Mul(withdrawn as real, MONTHLY_RATE), MONTHS_PER_YEAR), ElapsedDays(ticks);
    MulIs(yearly, days, Interest(withdrawn, ticks));
    DivIs(Mul(yearly, days));
  }

  lemma MulIs(x: real, y: real, product: real)
    requires product == x * y
    ensures Mul(x, y) == Dec(product)
  {
    hide Dec;
    DecSame(x * y, product);
  }

  lemma DecSame(x: real, y: real)
    requires x == y
    ensures Dec(x) == Dec(y)
  {
  }

  lemma DivIs(x: real)
    ensures Div(x, DAY_COUNT_BASIS) == Dec(x / 365.0)
  {
  }

  lemma NotPositive(w: nat, c: int)
    requires w == 0 || c <= 0
    ensures w * c <= 0
  {
  }

  // ---- just below a whole number ----

  /** A whole number that needs one decimal more than fits lies well above the largest coefficient with it. */
  lemma Gap(n: nat, p: nat)
    requires p >= 14 && n as real * Ten(p) > MAX_COEFFICIENT
    ensures n as real * Ten(p) >= MAX_COEFFICIENT + 60000000000000.0
    ensures p >= 20 ==> n as real * Ten(p) >= MAX_COEFFICIENT + 80000000000000000000.0
  {
    hide Ten, TenInt;
    MorePowers();
    Multiple(n, p, 14, Ten(14));
    GapOf(n * TenInt(p - 14));
    if p >= 20 {
      TwentyPlaces();
      Multiple(n, p, 20, Ten(20));
      LargeGapOf(n * TenInt(p - 20));
    }
  }

  lemma TwentyPlaces()
    ensures Ten(20) == 100000000000000000000.0
  {
    MorePowers();
    assert Ten(20) == 100000.0 * Ten(15) by { TenAdds(5, 15); }
  }

  lemma Multiple(n: nat, p: nat, m: nat, t: real)
    requires m <= p && t == Ten(m)
    ensures n as real * Ten(p) == (n * TenInt(p - m)) as real * t
  {
    hide Ten, TenInt;
    TenAdds(m, p - m);
    TenIsWhole(p - m);
    WholeProduct(n, TenInt(p - m));
    Associates(n as real, Ten(p - m), t);
  }

  lemma GapOf(a: nat)
    requires a as real * 100000000000000.0 > MAX_COEFFICIENT
    ensures a as real * 100000000000000.0 >= MAX_COEFFICIENT + 60000000000000.0
  {
    assert a >= 792281625142644;
  }

  lemma LargeGapOf(a: nat)
    requires a as real * 100000000000000000000.0 > MAX_COEFFICIENT
    ensures a as real * 100000000000000000000.0 >= MAX_COEFFICIENT + 80000000000000000000.0
  {
    assert a >= 792281626;
  }

  /** A value this little below a whole number is kept with as many decimals. */
  lemma SlightlyLess(n: nat, d: real, p: nat)
    requires Places(n as real, 28) == p && p >= 13 && 0.0 <= d <= n as real && n as real * Ten(13) <= MAX_COEFFICIENT
    requires p < 28 ==> d * Ten(p + 1) < (if p >= 19 then 80000000000000000000.0 else 60000000000000.0)
    ensures Places(n as real - d, 28) == p
  {
    hide Ten, Places;
    PlacesFit(n as real, 28, 13);
    Product(Ten(p), n as real - d, n as real);
    EnoughPlaces(n as real - d, p, 28);
    if p < 28 {
      TooManyDigits(n as real, p);
      Gap(n, p + 1);
      Minus(n as real, d, Ten(p + 1));
      FewerPlaces(n as real - d, p + 1, 28);
    }
  }

  lemma TooManyDigits(x: real, p: nat)
    requires x >= 0.0 && Places(x, 28) == p < 28
    ensures x * Ten(p + 1) > MAX_COEFFICIENT
  {
    hide Ten, Places;
    if x * Ten(p + 1) <= MAX_COEFFICIENT {
      EnoughPlaces(x, p + 1, 28);
    }
  }

  lemma {:induction false} PlacesFit(x: real, most: nat, least: nat)
    requires least <= most && x >= 0.0 && x * Ten(least) <= MAX_COEFFICIENT
    ensures x * Ten(Places(x, most)) <= MAX_COEFFICIENT
  {
    if x * Ten(most) > MAX_COEFFICIENT && most > least {
      PlacesFit(x, most - 1, least);
    }
  }

  /** Rounding a value this far below an even number. */
  lemma NearestBelow(n: int, v: real)
    requires n % 2 == 0 && v >= 0.0
    ensures var j := n - Nearest(n as real - v);
            && 0 <= j && j as real <= v + 0.5
            && (j >= 1 <==> v > 0.5) && (j >= 2 <==> v >= 1.5)
  {
    NearestIsNear(n as real - v);
  }

  lemma EvenPower(n: nat, p: nat)
    requires p >= 1
    ensures n * TenInt(p) % 2 == 0
  {
    var half := n * (5 * TenInt(p - 1));
    assert n * TenInt(p) == 2 * half;
  }

  /** A value a little below a whole number loses so many units of its last decimal. */
  lemma RoundedBelow(n: nat, d: real, p: nat) returns (j: nat)
    requires Places(n as real, 28) == p && p >= 13 && 0.0 <= d <= n as real && n as real * Ten(13) <= MAX_COEFFICIENT
    requires p < 28 ==> d * Ten(p + 1) < (if p >= 19 then 80000000000000000000.0 else 60000000000000.0)
    ensures Dec(n as real - d) * Ten(p) == n as real * Ten(p) - j as real
    ensures j as real <= d * Ten(p) + 0.5
    ensures (j >= 1 <==> d * Ten(p) > 0.5) && (j >= 2 <==> d * Ten(p) >= 1.5)
  {
    hide Places, Nearest, Ten, TenInt, Dec;
    SlightlyLess(n, d, p);
    var units, v := n * TenInt(p), d * Ten(p);
    UnitsBelow(n, d, p, units, v);
    NearestBelow(units, v);
    j := units - Nearest(units as real - v);
    DecTimes(n as real - d, p, units as real - v);
  }

  lemma UnitsBelow(n: nat, d: real, p: nat, units: nat, v: real)
    requires p >= 1 && d >= 0.0 && units == n * TenInt(p) && v == d * Ten(p)
    ensures units % 2 == 0 && v >= 0.0
    ensures n as real * Ten(p) == units as real && (n as real - d) * Ten(p) == units as real - v
  {
    hide Ten, TenInt;
    TenIsWhole(p);
    EvenPower(n, p);
    WholeProduct(n, TenInt(p));
    PositiveTimes(d, Ten(p));
    Minus(n as real, d, Ten(p));
  }

  lemma PositiveTimes(x: real, y: real)
    requires x >= 0.0 && y >= 0.0
    ensures x * y >= 0.0
  {
  }

  lemma Minus(x: real, y: real, t: real)
    ensures (x - y) * t == x * t - y * t
  {
  }

  lemma DecTimes(x: real, p: nat, scaled: real)
    requires Places(x, 28) == p && x * Ten(p) == scaled
    ensures Dec(x) * Ten(p) == Nearest(scaled) as real
  {
    hide Places, Nearest, Ten, RoundTo;
    RoundedTimes(x, Ten(p));
    NearestSame(x * Ten(p), scaled);
  }

  lemma DecimalsOf(whole: nat)
    requires 1 <= whole <= 10000000000000
    ensures var interest, paid := Places((365 * whole) as real, 28), Places(whole as real, 28);
            13 <= interest <= 26 && interest + 2 <= paid <= interest + 3 && paid <= 28
    ensures (365 * whole) as real * Ten(13) <= MAX_COEFFICIENT && whole as real * Ten(13) <= MAX_COEFFICIENT
  {
    hide Ten;
    var x, y := (365 * whole) as real, whole as real;
    assert x == 365.0 * y;
    MorePowers();
    Powers();
    NextTen(26);
    EnoughPlaces(x, 13, 28);
    Product(Ten(27), 365.0, x);
    FewerPlaces(x, 27, 28);
    var k := Places(x, 28);
    PlacesFit(x, 28, 13);
    NextTen(k);
    NextTen(k + 1);
    assert y * Ten(k + 2) == 100.0 * (y * Ten(k));
    EnoughPlaces(y, k + 2, 28);
    if k + 4 <= 28 {
      NextTen(k + 2);
      NextTen(k + 3);
      TooManyDigits(x, k);
      assert y * Ten(k + 4) == 1000.0 * (y * Ten(k + 1));
      FewerPlaces(y, k + 4, 28);
    }
  }

  /** A product in units of another power of ten. */
  lemma Shift(d: real, p: nat, n: nat, lost: real)
    requires d >= 0.0 && d * Ten(p) == lost && p >= 24 && n <= 27
    ensures d * Ten(n) <= 1000.0 * lost && (n <= p ==> d * Ten(n) <= lost)
  {
    hide Ten;
    NextTen(p);
    NextTen(p + 1);
    NextTen(p + 2);
    TenGrows(n, p + 3);
    Product(d, Ten(n), Ten(p + 3));
    assert d * Ten(p + 3) == 1000.0 * (d * Ten(p));
    if n <= p {
      TenGrows(n, p);
      Product(d, Ten(n), Ten(p));
    }
  }

  /** What the interest lacks after the days were rounded down. */
  lemma Lacking(withdrawn: nat, ticks: nat) returns (d: real)
    requires 1 <= withdrawn <= MAX_WITHDRAWN && ticks <= MAX_DAYS * TICKS_PER_DAY
    requires withdrawn * ticks % PARTS == 0 && Taken(ticks) >= 1
    ensures Interest(withdrawn, ticks) == (365 * Exact(withdrawn, ticks)) as real - d
    ensures 0.0 <= d <= (365 * Exact(withdrawn, ticks)) as real
    ensures d * Ten(DayPlaces(ticks)) == Loss(withdrawn, ticks) as real / 75.0
    ensures 1 <= Exact(withdrawn, ticks) <= 10000000000000
    ensures Loss(withdrawn, ticks) as real / 75.0 <= 174000000000.0
  {
    hide DayPlaces, Residue, Taken, Interest, Ten, Exact;
    var whole := (365 * Exact(withdrawn, ticks)) as real;
    assert whole == 365.0 * Exact(withdrawn, ticks) as real;
    d := whole - Interest(withdrawn, ticks);
    InterestRounded(withdrawn, ticks);
    Minus(whole, Interest(withdrawn, ticks), Ten(DayPlaces(ticks)));
    TakenFits(withdrawn, ticks);
    NotNegative(d, Ten(DayPlaces(ticks)));
    ExactRange(withdrawn, ticks);
    InterestNotNegative(withdrawn, ticks);
  }

  lemma NotNegative(d: real, t: real)
    requires t > 0.0 && d * t >= 0.0
    ensures d >= 0.0
  {
  }

  lemma TakenFits(withdrawn: nat, ticks: nat)
    requires withdrawn <= MAX_WITHDRAWN && Taken(ticks) >= 1
    ensures withdrawn * Taken(ticks) == Loss(withdrawn, ticks) <= 13 * MAX_WITHDRAWN
    ensures ticks >= 1
  {
    hide DayPlaces;
    TimesAtMost(withdrawn, Residue(ticks), MAX_WITHDRAWN, 13);
  }

  lemma TimesAtMost(x: nat, y: nat, a: nat, b: nat)
    requires x <= a && y <= b
    ensures 0 <= x * y <= a * b
  {
  }

  lemma ExactRange(withdrawn: nat, ticks: nat)
    requires 1 <= withdrawn <= MAX_WITHDRAWN && ticks <= MAX_DAYS * TICKS_PER_DAY
    requires withdrawn * ticks % PARTS == 0 && Taken(ticks) >= 1
    ensures 1 <= Exact(withdrawn, ticks) <= 10000000000000
  {
    hide Taken;
    TakenFits(withdrawn, ticks);
    TimesAtMost(withdrawn, ticks, MAX_WITHDRAWN, MAX_DAYS * TICKS_PER_DAY);
    TimesAtLeastOne(withdrawn, ticks);
    WholeParts(withdrawn * ticks);
  }

  lemma TimesAtLeastOne(x: nat, y: nat)
    requires x >= 1 && y >= 1
    ensures x * y >= 1
  {
  }

  lemma WholeParts(n: nat)
    requires 1 <= n <= MAX_WITHDRAWN * (MAX_DAYS * TICKS_PER_DAY) && n % PARTS == 0
    ensures 1 <= n / PARTS <= 10000000000000
  {
  }

  lemma InterestNotNegative(withdrawn: nat, ticks: nat)
    requires ticks <= MAX_DAYS * TICKS_PER_DAY
    ensures Interest(withdrawn, ticks) >= 0.0
  {
    hide ElapsedDays;
    DaysNear(ticks);
    PositiveTimes(withdrawn as real * 0.36, ElapsedDays(ticks));
  }

  /** Comparing a loss in the interest's units with one in the days' units. */
  lemma InUnits(d: real, k: nat, p: nat, lost: nat, v: real, n: nat)
    requires d * Ten(p) == lost as real / 75.0 && v == d * Ten(k) && n == lost * TenInt(k)
    ensures v > 0.5 <==> 2 * n > 75 * TenInt(p)
    ensures v >= 1.5 <==> 2 * n >= 225 * TenInt(p)
  {
    hide Ten, TenInt;
    TenIsWhole(k);
    TenIsWhole(p);
    InWholeUnits(d, Ten(k), Ten(p), TenInt(k), TenInt(p), lost, v, n);
  }

  lemma InWholeUnits(d: real, small: real, large: real, a: nat, b: nat, lost: nat, v: real, n: nat)
    requires large > 0.0 && small == a as real && large == b as real
    requires d * large == lost as real / 75.0 && v == d * small && n == lost * a
    ensures v > 0.5 <==> 2 * n > 75 * b
    ensures v >= 1.5 <==> 2 * n >= 225 * b
  {
    WholeProduct(lost, a);
    Exchange(d, small, large, lost as real);
    Compared(v, large, v * large, n);
  }

  lemma Compared(v: real, t: real, scaled: real, n: nat)
    requires t > 0.0 && scaled == v * t && scaled == n as real / 75.0
    ensures v > 0.5 <==> 2.0 * n as real > 75.0 * t
    ensures v >= 1.5 <==> 2.0 * n as real >= 225.0 * t
  {
    Compare(v, 0.5, t, scaled, 0.5 * t);
    Compare(v, 1.5, t, scaled, 1.5 * t);
  }

  lemma Exchange(x: real, y: real, z: real, m: real)
    requires x * z == m / 75.0
    ensures x * y * z == m * y / 75.0
  {
    assert x * y * z == x * z * y;
  }

  lemma Compare(x: real, y: real, t: real, xt: real, yt: real)
    requires t > 0.0 && xt == x * t && yt == y * t
    ensures x > y <==> xt > yt
    ensures x >= y <==> xt >= yt
  {
    Minus(x, y, t);
    if x > y {
      PositiveProduct(x - y, t);
    } else if x < y {
      PositiveProduct(y - x, t);
      Minus(y, x, t);
    }
  }

  lemma FirstRounding(withdrawn: nat, ticks: nat) returns (j: nat)
    requires 1 <= withdrawn <= MAX_WITHDRAWN && ticks <= MAX_DAYS * TICKS_PER_DAY
    requires withdrawn * ticks % PARTS == 0 && Taken(ticks) >= 1
    ensures 1 <= Exact(withdrawn, ticks) <= 10000000000000
    ensures var whole := 365 * Exact(withdrawn, ticks);
            var k, p, lost := Places(whole as real, 28), DayPlaces(ticks), Loss(withdrawn, ticks);
            && Dec(Interest(withdrawn, ticks)) * Ten(k) == whole as real * Ten(k) - j as real
            && j <= 174000000000001 && (k <= 16 ==> j <= 174000000001)
            && (j >= 1 <==> 2 * (lost * TenInt(k)) > 75 * TenInt(p))
            && (j >= 2 <==> 2 * (lost * TenInt(k)) >= 225 * TenInt(p))
  {
    hide DayPlaces, Loss, Taken, Interest, Ten, TenInt, Exact, Dec, Places;
    var d := Lacking(withdrawn, ticks);
    var whole := 365 * Exact(withdrawn, ticks);
    var k, p, lost := Places(whole as real, 28), DayPlaces(ticks), Loss(withdrawn, ticks);
    DaysHavePlaces(ticks);
    DecimalsOf(Exact(withdrawn, ticks));
    j := InterestRounding(whole, d, k, p, lost);
    DecSame(whole as real - d, Interest(withdrawn, ticks));
  }

  lemma InterestRounding(whole: nat, d: real, k: nat, p: nat, lost: nat) returns (j: nat)
    requires 0.0 <= d <= whole as real && d * Ten(p) == lost as real / 75.0 && lost as real / 75.0 <= 174000000000.0
    requires Places(whole as real, 28) == k && 13 <= k <= 26 && p >= 24 && whole as real * Ten(13) <= MAX_COEFFICIENT
    ensures Dec(whole as real - d) * Ten(k) == whole as real * Ten(k) - j as real
    ensures j <= 174000000000001 && (k <= 16 ==> j <= 174000000001)
    ensures j >= 1 <==> 2 * (lost * TenInt(k)) > 75 * TenInt(p)
    ensures j >= 2 <==> 2 * (lost * TenInt(k)) >= 225 * TenInt(p)
  {
    hide Ten, TenInt, Dec, Places;
    Shift(d, p, k, lost as real / 75.0);
    Shift(d, p, k + 1, lost as real / 75.0);
    j := RoundedBelow(whole, d, k);
    InUnits(d, k, p, lost, d * Ten(k), lost * TenInt(k));
  }

  /** What a 365th of the interest is rounded to. */
  lemma SecondRounding(q: nat, interest: real, j: nat)
    requires 1 <= q <= 10000000000000 && interest >= 0.0
    requires var k := Places((365 * q) as real, 28);
             && interest * Ten(k) == (365 * q) as real * Ten(k) - j as real
             && j <= 174000000000001 && (k <= 16 ==> j <= 174000000001)
    ensures var k, f := Places((365 * q) as real, 28), Places(q as real, 28);
            var paid := Dec(interest / 365.0);
            && paid <= q as real
            && (paid < q as real <==> if f == k + 3 then j >= 1 else j >= 2)
  {
    hide Ten, TenInt, Dec, Places;
    var k, f := Places((365 * q) as real, 28), Places(q as real, 28);
    DecimalsOf(q);
    var e, x := q as real - interest / 365.0, j as real / 365.0;
    Divided(q, interest, Ten(k), j);
    FurtherPowers(e, k, x);
    YearRounding(q, e, f, if f == k + 3 then 1000.0 * x else 100.0 * x);
    DecSame(q as real - e, interest / 365.0);
  }

  lemma YearRounding(q: nat, e: real, f: nat, units: real)
    requires q as real * Ten(13) <= MAX_COEFFICIENT && Places(q as real, 28) == f && f >= 15
    requires 0.0 <= e <= q as real && e * Ten(f) == units
    requires units <= 480000000000000.0 && (f <= 18 ==> units <= 480000000000.0)
    ensures Dec(q as real - e) <= q as real && (Dec(q as real - e) < q as real <==> units > 0.5)
  {
    hide Ten, TenInt, Dec, Places;
    NextTen(f);
    Times(e, Ten(f), 10.0);
    var i := RoundedBelow(q, e, f);
    Compare(q as real, Dec(q as real - e), Ten(f), q as real * Ten(f), Dec(q as real - e) * Ten(f));
  }

  lemma Divided(q: nat, interest: real, t: real, j: nat)
    requires t > 0.0 && interest >= 0.0 && interest * t == (365 * q) as real * t - j as real
    ensures (q as real - interest / 365.0) * t == j as real / 365.0
    ensures 0.0 <= q as real - interest / 365.0 <= q as real
  {
    var x, y := q as real, interest / 365.0;
    assert (365 * q) as real == 365.0 * x;
    assert interest * t == 365.0 * (y * t);
    assert 365.0 * x * t == 365.0 * (x * t);
    Minus(x, y, t);
    NotNegative(x - y, t);
  }

  lemma FurtherPowers(e: real, k: nat, x: real)
    requires e * Ten(k) == x
    ensures e * Ten(k + 2) == 100.0 * x && e * Ten(k + 3) == 1000.0 * x && e * Ten(k + 4) == 10000.0 * x
  {
    hide Ten;
    NextTen(k);
    NextTen(k + 1);
    NextTen(k + 2);
    NextTen(k + 3);
    var t := Ten(k);
    assert Ten(k + 2) == 100.0 * t && Ten(k + 3) == 1000.0 * t && Ten(k + 4) == 10000.0 * t;
    Times(e, t, 100.0);
    Times(e, t, 1000.0);
    Times(e, t, 10000.0);
  }

  lemma Times(x: real, y: real, c: real)
    ensures x * (c * y) == c * (x * y)
  {
  }

  /** Days that were rounded down cost a rial exactly under the condition. */
  lemma RoundedDownFallsShortIff(withdrawn: nat, ticks: nat)
    requires 1 <= withdrawn <= MAX_WITHDRAWN && ticks <= MAX_DAYS * TICKS_PER_DAY
    requires withdrawn * ticks % PARTS == 0 && Taken(ticks) >= 1
    ensures Payable(withdrawn as real, ticks) < Exact(withdrawn, ticks) <==> ShortByOne(withdrawn, ticks)
  {
    hide DayPlaces, Residue, Loss, Taken, Interest, Ten, TenInt, Exact, Dec, Places, ExactReturn;
    TakenIs(ticks);
    var j := FirstRounding(withdrawn, ticks);
    var q, interest := Exact(withdrawn, ticks), Dec(Interest(withdrawn, ticks));
    InterestNotNegative(withdrawn, ticks);
    AtLeast(Interest(withdrawn, ticks), 0);
    SecondRounding(q, interest, j);
    ReturnIs(withdrawn, ticks);
    var paid := ExactReturn(withdrawn as real, ticks);
    assert paid.Floor as real <= paid < paid.Floor as real + 1.0;
  }

  /** For all amounts up to a million million rials and periods up to ten thousand days the program never pays more than
      the exact floor, and pays one rial less exactly under a condition on the amount and the ticks. */
  lemma PaysExactUnlessShort(withdrawn: nat, ticks: nat)
    requires withdrawn <= MAX_WITHDRAWN && ticks <= MAX_DAYS * TICKS_PER_DAY
    ensures Payable(withdrawn as real, ticks) ==
            Exact(withdrawn, ticks) - (if ShortByOne(withdrawn, ticks) then 1 else 0)
  {
    hide DayPlaces, Taken, TenInt, Exact, Places, Payable;
    OnlyWholeReturnsFallShort(withdrawn, ticks);
    if withdrawn * ticks % PARTS == 0 {
      TakenIs(ticks);
      if withdrawn == 0 || Taken(ticks) <= 0 {
        RoundedUpIsExact(withdrawn, ticks);
        NoneShort(withdrawn, ticks);
      } else {
        RoundedDownFallsShortIff(withdrawn, ticks);
      }
    }
  }

  lemma TakenIs(ticks: nat)
    ensures Taken(ticks) >= 1 <==> 1 <= Residue(ticks) <= 13
  {
    hide DayPlaces;
  }

  lemma NoneShort(withdrawn: nat, ticks: nat)
    requires withdrawn == 0 || !(1 <= Residue(ticks) <= 13)
    ensures !ShortByOne(withdrawn, ticks)
  {
    hide DayPlaces, Residue, Exact, Places, Ten;
    if withdrawn == 0 {
      TenIsWhole(DayPlaces(ticks));
      assert withdrawn * Residue(ticks) == 0;
    }
  }

  /** Ticks divisible by twenty-seven make a finite decimal of days: their return is exact. */
  lemma DivisibleTicksAreExact(withdrawn: nat, ticks: nat)
    requires withdrawn <= MAX_WITHDRAWN && ticks <= MAX_DAYS * TICKS_PER_DAY && ticks % 27 == 0
    ensures Payable(withdrawn as real, ticks) == Exact(withdrawn, ticks)
  {
    hide DayPlaces, TenInt, Exact, Places, Payable;
    PaysExactUnlessShort(withdrawn, ticks);
    if DayPlaces(ticks) >= 14 {
      DivisibleProduct(ticks, 3125 * TenInt(DayPlaces(ticks) - 14));
    }
    NoneShort(withdrawn, ticks);
  }

  lemma DivisibleProduct(x: nat, y: nat)
    requires x % 27 == 0
    ensures x * y % 27 == 0
  {
    assert x * y == 27 * (x / 27 * y);
  }
}
