/** Where decimal rounding does cross a rial: a family of returns that should be whole and are paid one rial short. */
module LostFundReturnLoss {
  import opened Rial
  import opened Decimals
  import opened LostFundReturn

  /** Eight hours. */
  const THIRD_OF_A_DAY := 288000000000

  /** A third, to 28 decimals. */
  const THIRD := 3333333333333333333333333333.0 / 10000000000000000000000000000.0
  /** The interest on 9125 rials for a third of a day, before and after rounding, and a 365th of it. */
  const INTEREST := 3285.0 * THIRD
  const ROUNDED_INTEREST := 10949999999999999999999999999.0 / 10000000000000000000000000.0
  const RETURN := 29999999999999999999999999997.0 / 10000000000000000000000000000.0

  function Grown(x: real, m: nat): real {
    Ten(m) * x
  }

  lemma GrownNext(x: real, m: nat)
    ensures Grown(x, 0) == x && Grown(x, m + 1) == 10.0 * Grown(x, m)
    ensures x >= 0.0 ==> Grown(x, m) >= 0.0
  {
    NextTen(m);
    TenTimes(x, Ten(m));
    if x >= 0.0 {
      Product(x, 0.0, Ten(m));
    }
  }

  /** Rounding commutes with powers of ten once the coefficient is full. */
  lemma {:induction false} DecTimesPower(x: real, p: nat, m: nat)
    requires x >= 0.0 && m <= p <= 28 && Places(x, 28) == p
    requires Scaled(x, p) <= MAX_COEFFICIENT && Scaled(x, p) * 10.0 > MAX_COEFFICIENT
    ensures Dec(Grown(x, m)) == Grown(Dec(x), m)
    ensures Places(Grown(x, m), 28) == p - m && Scaled(Grown(x, m), p - m) == Scaled(x, p)
  {
    hide Dec, Scaled, Grown;
    if m > 0 {
      DecTimesPower(x, p, m - 1);
      GrownNext(x, m - 1);
      GrownNext(Dec(x), m - 1);
      DecTimesTen(Grown(x, m - 1), p - (m - 1));
    } else {
      GrownNext(x, 0);
      GrownNext(Dec(x), 0);
    }
  }

  lemma ThirdOfADay()
    ensures ElapsedDays(THIRD_OF_A_DAY) == THIRD
  {
    Powers();
    var x := 288000000000.0 / 864000000000.0;
    assert Places(x, 28) == 28;
    FloorIs(x * Ten(28), 3333333333333333333333333333);
    assert Nearest(x * Ten(28)) == 3333333333333333333333333333;
  }

  lemma InterestRounds()
    ensures Places(INTEREST, 28) == 25 && Dec(INTEREST) == ROUNDED_INTEREST
    ensures Scaled(INTEREST, 25) <= MAX_COEFFICIENT && Scaled(INTEREST, 25) * 10.0 > MAX_COEFFICIENT
  {
    Powers();
    var x := INTEREST;
    FewerPlaces(x, 26, 28);
    EnoughPlaces(x, 25, 28);
    FloorIs(x * Ten(25), 10949999999999999999999999998);
    assert Nearest(x * Ten(25)) == 10949999999999999999999999999;
  }

  lemma ReturnRounds()
    ensures var x := ROUNDED_INTEREST / 365.0;
            && Places(x, 28) == 28 && Dec(x) == RETURN
            && Scaled(x, 28) <= MAX_COEFFICIENT && Scaled(x, 28) * 10.0 > MAX_COEFFICIENT
  {
    Powers();
    var x := ROUNDED_INTEREST / 365.0;
    EnoughPlaces(x, 28, 28);
    FloorIs(x * Ten(28), 29999999999999999999999999997);
    assert Nearest(x * Ten(28)) == 29999999999999999999999999997;
  }

  function Withdrawn(m: nat): nat {
    9125 * TenInt(m)
  }

  lemma {:induction false} TenIntGrows(m: nat, n: nat)
    requires m <= n
    ensures 1 <= TenInt(m) <= TenInt(n)
  {
    if m < n {
      TenIntGrows(m, n - 1);
    } else if m > 0 {
      TenIntGrows(m - 1, m - 1);
    }
  }

  lemma TwentyZeros()
    ensures TenInt(20) == 100000000000000000000
  {
    assert TenInt(5) == 100000;
    assert TenInt(10) == 10000000000;
    assert TenInt(15) == 1000000000000000;
  }

  /** A contribution of 9125 rials times any power of ten, withdrawn for eight hours, earns exactly three rials times
      that power, and the program pays one rial less. */
  lemma EightHoursPayOneRialLess(m: nat)
    requires m <= 20
    ensures Exact(Withdrawn(m), THIRD_OF_A_DAY) == 3 * TenInt(m)
    ensures Payable(Withdrawn(m) as real, THIRD_OF_A_DAY) == 3 * TenInt(m) - 1
  {
    hide Mul, Div, Dec, ElapsedDays, Grown;
    TenIntGrows(m, 20);
    TwentyZeros();
    YearlyReturn(Withdrawn(m));
    ThirdOfADay();
    InterestOf(m);
    ReturnOfPower(m);
    FloorOfReturn(m);
    assert Withdrawn(m) * THIRD_OF_A_DAY == 3 * TenInt(m) * PARTS;
  }

  lemma InterestOf(m: nat)
    requires m <= 20
    ensures Mul(Withdrawn(m) as real * 0.36, THIRD) == Grown(ROUNDED_INTEREST, m)
  {
    hide Dec, Grown;
    InterestRounds();
    DecTimesPower(INTEREST, 25, m);
    InterestGrows(m);
  }

  lemma InterestGrows(m: nat)
    ensures Withdrawn(m) as real * 0.36 * THIRD == Grown(INTEREST, m)
  {
    TenIsWhole(m);
    assert Withdrawn(m) as real == 9125.0 * Ten(m);
  }

  lemma ReturnOfPower(m: nat)
    requires m <= 20
    ensures Div(Grown(ROUNDED_INTEREST, m), DAY_COUNT_BASIS) == Grown(RETURN, m)
  {
    hide Dec, Grown;
    ReturnRounds();
    DecTimesPower(ROUNDED_INTEREST / 365.0, 28, m);
    ReturnGrows(m);
  }

  lemma ReturnGrows(m: nat)
    ensures Grown(ROUNDED_INTEREST, m) / 365.0 == Grown(ROUNDED_INTEREST / 365.0, m)
  {
  }

  lemma FloorOfReturn(m: nat)
    requires m <= 20
    ensures Grown(RETURN, m).Floor == 3 * TenInt(m) - 1
  {
    TenIsWhole(m);
    TenGrows(m, 24);
    Powers();
    assert (3 * TenInt(m)) as real == 3.0 * Ten(m);
    FloorIs(Ten(m) * RETURN, 3 * TenInt(m) - 1);
  }

  // ---- a return that is not whole ----

  /** Five million million rials over almost twenty-five years. */
  const LARGE := 5313398015807
  const LONG := 7815736189642943
  const LONG_DAYS := 9045990960234887731481481481.0 / 1000000000000000000000000.0
  const LARGE_INTEREST := 17303382150883239999999999999.0 / 1000000000000.0
  const LARGE_RETURN := 47406526440775999999999999997.0 / 1000000000000000.0

  /** Rounding to the nearer neighbour with this many decimals. */
  lemma Rounds(x: real, p: nat, t: real, n: nat)
    requires x >= 0.0 && p < 28 && t == Ten(p) && x * (10.0 * t) > MAX_COEFFICIENT && x * t <= MAX_COEFFICIENT
    requires n as real - 0.5 < x * t < n as real + 0.5
    ensures Dec(x) == n as real / t
  {
    hide Ten, Places, Nearest;
    assert Places(x, 28) == p by {
      NextTen(p);
      EnoughPlaces(x, p, 28);
      FewerPlaces(x, p + 1, 28);
    }
    assert Dec(x) == RoundTo(x, t);
    RoundsToNearest(x, t, n);
  }

  lemma RoundsToNearest(x: real, t: real, n: nat)
    requires t > 0.0 && n as real - 0.5 < x * t < n as real + 0.5
    ensures RoundTo(x, t) == n as real / t
  {
    hide Nearest;
    NearestIs(x * t, n);
  }

  lemma NearestIs(y: real, n: nat)
    requires n as real - 0.5 < y < n as real + 0.5
    ensures Nearest(y) == n
  {
    if y >= n as real {
      FloorIs(y, n);
    } else {
      FloorIs(y, n - 1);
    }
  }

  lemma LargeSteps()
    ensures ElapsedDays(LONG) == LONG_DAYS
    ensures Dec(LARGE as real * 0.36 * LONG_DAYS) == LARGE_INTEREST
    ensures Dec(LARGE_INTEREST / 365.0) == LARGE_RETURN
  {
    hide Dec, Ten;
    Powers();
    NextTen(12);
    NextTen(13);
    NextTen(14);
    Rounds(LONG as real / TICKS_PER_DAY as real, 24, 1000000000000000000000000.0, 9045990960234887731481481481);
    Rounds(LARGE as real * 0.36 * LONG_DAYS, 12, 1000000000000.0, 17303382150883239999999999999);
    Rounds(LARGE_INTEREST / 365.0, 15, 1000000000000000.0, 47406526440775999999999999997);
  }

  /** Beyond five million million rials even a return that is not whole can be paid one rial short. */
  lemma LargeReturnFallsShort()
    ensures LARGE * LONG % PARTS == 1
    ensures Payable(LARGE as real, LONG) == Exact(LARGE, LONG) - 1
  {
    hide Mul, Div, Dec, ElapsedDays;
    YearlyReturn(LARGE);
    LargeSteps();
    assert Mul(LARGE as real * 0.36, LONG_DAYS) == LARGE_INTEREST by { UnfoldMul(LARGE as real * 0.36, LONG_DAYS); }
    assert Div(LARGE_INTEREST, DAY_COUNT_BASIS) == LARGE_RETURN by { UnfoldDiv(LARGE_INTEREST); }
    FloorIs(LARGE_RETURN, 47406526440775);
    assert ExactReturn(LARGE as real, LONG) == LARGE_RETURN;
    assert LARGE * LONG == 47406526440776 * PARTS + 1;
    assert Exact(LARGE, LONG) == 47406526440776;
  }

  /** Eighteen million million rials over almost two and a half years. */
  const LARGER := 18439122718943
  const SHORTER := 738020605908193
  const SHORTER_DAYS := 8541905160974456018518518519.0 / 10000000000000000000000000.0
  const LARGER_INTEREST := 56701885506040999999999999999.0 / 10000000000000.0
  const LARGER_RETURN := 15534763152340000000000000000.0 / 1000000000000000.0

  lemma LargerSteps()
    ensures ElapsedDays(SHORTER) == SHORTER_DAYS
    ensures Dec(LARGER as real * 0.36 * SHORTER_DAYS) == LARGER_INTEREST
    ensures Dec(LARGER_INTEREST / 365.0) == LARGER_RETURN
  {
    hide Dec, Ten;
    Powers();
    NextTen(12);
    NextTen(13);
    NextTen(14);
    Rounds(SHORTER as real / TICKS_PER_DAY as real, 25, 10000000000000000000000000.0, 8541905160974456018518518519);
    Rounds(LARGER as real * 0.36 * SHORTER_DAYS, 13, 10000000000000.0, 56701885506040999999999999999);
    Rounds(LARGER_INTEREST / 365.0, 15, 1000000000000000.0, 15534763152340000000000000000);
  }

  /** And a return just below a whole rial can be paid one rial more than the exact floor. */
  lemma LargeReturnPaysOneMore()
    ensures LARGER * SHORTER % PARTS == PARTS - 1
    ensures Payable(LARGER as real, SHORTER) == Exact(LARGER, SHORTER) + 1
  {
    hide Mul, Div, Dec, ElapsedDays;
    YearlyReturn(LARGER);
    LargerSteps();
    assert Mul(LARGER as real * 0.36, SHORTER_DAYS) == LARGER_INTEREST by {
      UnfoldMul(LARGER as real * 0.36, SHORTER_DAYS);
    }
    assert Div(LARGER_INTEREST, DAY_COUNT_BASIS) == LARGER_RETURN by { UnfoldDiv(LARGER_INTEREST); }
    FloorIs(LARGER_RETURN, 15534763152340);
    assert ExactReturn(LARGER as real, SHORTER) == LARGER_RETURN;
    assert LARGER * SHORTER == 15534763152340 * PARTS - 1;
    assert Exact(LARGER, SHORTER) == 15534763152339;
  }

  lemma UnfoldMul(x: real, y: real)
    ensures Mul(x, y) == Dec(x * y)
  {
  }

  lemma UnfoldDiv(x: real)
    ensures Div(x, DAY_COUNT_BASIS) == Dec(x / 365.0)
  {
  }
}
