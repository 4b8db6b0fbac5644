/** The contractual lost-fund return: 3% per month, simple, by actual days over 365, floored once. */
module LostFundReturn {
  import opened Texts
  import opened Rial
  import opened Arrears
  import opened Decimals

  const MONTHLY_RATE := 0.03
  const MONTHS_PER_YEAR := 12.0
  const DAY_COUNT_BASIS := 365.0
  const TICKS_PER_DAY := 864000000000
  /** 365 days of ticks over 0.36: the return per rial and tick is one part in this. */
  const PARTS := 876000000000000

  // ---- the program ----

  function ElapsedDays(ticks: nat): real {
    Div(ticks as real, TICKS_PER_DAY as real)
  }

  function ExactReturn(withdrawn: real, ticks: nat): real {
    Div(Mul(Mul(Mul(withdrawn, MONTHLY_RATE), MONTHS_PER_YEAR), ElapsedDays(ticks)), DAY_COUNT_BASIS)
  }

  /** `CalculateAccruedReturn`: the payable return. */
  function AccruedReturn(withdrawn: real, rate: real, withdrawnAt: int, repaidAt: int): Result<real> {
    if rate != MONTHLY_RATE then Err(InvalidOperation)
    else if !WholeNonNegative(withdrawn) || repaidAt < withdrawnAt then Err(BadArgument)
    else Ok(Payable(withdrawn, repaidAt - withdrawnAt) as real)
  }

  function Payable(withdrawn: real, ticks: nat): int {
    ExactReturn(withdrawn, ticks).Floor
  }

  // ---- exact arithmetic ----

  /** The return without intermediate rounding. */
  function Exact(withdrawn: nat, ticks: nat): nat {
    withdrawn * ticks / PARTS
  }

  lemma ExactBounds(withdrawn: nat, ticks: nat)
    ensures PARTS * Exact(withdrawn, ticks) <= withdrawn * ticks < PARTS * (Exact(withdrawn, ticks) + 1)
  {
  }

  /** Repaying in two periods never costs more than in one. */
  lemma SplittingNeverPaysMore(withdrawn: nat, first: nat, second: nat)
    ensures Exact(withdrawn, first) + Exact(withdrawn, second) <= Exact(withdrawn, first + second)
            <= Exact(withdrawn, first) + Exact(withdrawn, second) + 1
  {
    ExactBounds(withdrawn, first);
    ExactBounds(withdrawn, second);
    ExactBounds(withdrawn, first + second);
    assert withdrawn * (first + second) == withdrawn * first + withdrawn * second;
  }

  datatype Exposure = Exposure(withdrawn: nat, ticks: nat)

  function RialTicks(exposures: seq<Exposure>): nat {
    if exposures == [] then 0 else exposures[0].withdrawn * exposures[0].ticks + RialTicks(exposures[1..])
  }

  function TotalReturn(exposures: seq<Exposure>): nat {
    if exposures == [] then 0 else Exact(exposures[0].withdrawn, exposures[0].ticks) + TotalReturn(exposures[1..])
  }

  /** Flooring each of several exposures loses less than one rial apiece against the exact total. */
  lemma {:induction false} EachFloorLosesLessThanARial(exposures: seq<Exposure>)
    ensures PARTS * TotalReturn(exposures) <= RialTicks(exposures)
    ensures exposures != [] ==> RialTicks(exposures) < PARTS * (TotalReturn(exposures) + |exposures|)
  {
    if exposures != [] {
      ExactBounds(exposures[0].withdrawn, exposures[0].ticks);
      EachFloorLosesLessThanARial(exposures[1..]);
    }
  }

  // ---- decimal arithmetic ----

  lemma Powers()
    ensures Ten(0) == 1.0 && Ten(2) == 100.0 && Ten(6) == 1000000.0 && Ten(10) == 10000000000.0
    ensures Ten(12) == 1000000000000.0 && Ten(24) == 1000000000000000000000000.0
    ensures Ten(25) == 10000000000000000000000000.0 && Ten(26) == 100000000000000000000000000.0
    ensures Ten(28) == 10000000000000000000000000000.0
  {
    assert Ten(3) == 1000.0 by { assert Ten(1) == 10.0; }
    TenAdds(3, 3);
    TenAdds(6, 6);
    TenAdds(12, 12);
    assert Ten(10) == 10000000000.0 by { assert Ten(8) == 100000000.0; }
    NextTen(24);
    NextTen(25);
    NextTen(26);
    NextTen(27);
  }

  /** The yearly return of a whole amount has two decimals and is not rounded. */
  lemma YearlyReturn(withdrawn: nat)
    requires withdrawn <= 1000000000000000000000000
    ensures Mul(Mul(withdrawn as real, MONTHLY_RATE), MONTHS_PER_YEAR) == withdrawn as real * 0.36
  {
    hide Dec;
    Powers();
    var monthly := withdrawn as real * MONTHLY_RATE;
    assert Scaled(monthly, 2) == (3 * withdrawn) as real;
    DecIsExact(monthly, 2, 3 * withdrawn);
    var yearly := monthly * MONTHS_PER_YEAR;
    assert yearly == withdrawn as real * 0.36;
    assert Scaled(yearly, 2) == (36 * withdrawn) as real;
    DecIsExact(yearly, 2, 36 * withdrawn);
  }

  lemma WholeDays(days: nat)
    requires days <= 1000000000000000000000000
    ensures ElapsedDays(days * TICKS_PER_DAY) == days as real
  {
    hide Dec;
    Powers();
    var x := (days * TICKS_PER_DAY) as real / TICKS_PER_DAY as real;
    assert x == days as real;
    DecIsExact(x, 0, days);
  }

  /** Over whole days the program pays exactly the floor, for every amount below the decimal range. */
  lemma WholeDaysAreExact(withdrawn: nat, days: nat)
    requires withdrawn <= 1000000000000000000000000 && days <= 1000000000000000000000000
    requires withdrawn * days <= 100000000000000000000000
    ensures Payable(withdrawn as real, days * TICKS_PER_DAY) == Exact(withdrawn, days * TICKS_PER_DAY)
  {
    hide Mul, Div, ElapsedDays;
    YearlyReturn(withdrawn);
    WholeDays(days);
    InterestOfDays(withdrawn, days);
    DayOfInterest(withdrawn * days);
    WholeDayTicks(withdrawn, days);
  }

  lemma InterestOfDays(withdrawn: nat, days: nat)
    requires withdrawn * days <= 100000000000000000000000
    ensures Mul(withdrawn as real * 0.36, days as real) == 0.36 * (withdrawn * days) as real
  {
    hide Dec;
    WholeProduct(withdrawn, days);
    ThirtySixHundredths(withdrawn * days);
    Reordered(withdrawn as real, days as real);
  }

  lemma Reordered(x: real, y: real)
    ensures x * 0.36 * y == 0.36 * (x * y)
  {
  }

  lemma ThirtySixHundredths(n: nat)
    requires n <= 100000000000000000000000
    ensures Dec(0.36 * n as real) == 0.36 * n as real
  {
    hide Dec;
    Powers();
    assert Scaled(0.36 * n as real, 2) == (36 * n) as real;
    DecIsExact(0.36 * n as real, 2, 36 * n);
  }

  lemma DayOfInterest(n: nat)
    requires n <= 100000000000000000000000
    ensures Div(0.36 * n as real, DAY_COUNT_BASIS).Floor == 36 * n / 36500
  {
    hide Dec;
    YearOfHundredths(n);
    QuotientNear(n);
  }

  lemma WholeDayTicks(withdrawn: nat, days: nat)
    ensures Exact(withdrawn, days * TICKS_PER_DAY) == 36 * (withdrawn * days) / 36500
  {
    SameFraction(withdrawn * days);
    assert withdrawn * (days * TICKS_PER_DAY) == withdrawn * days * TICKS_PER_DAY;
  }

  lemma YearOfHundredths(n: nat)
    ensures 0.36 * n as real / 365.0 == (36 * n) as real / 36500.0
  {
    assert (36 * n) as real == 36.0 * n as real;
  }

  lemma SameFraction(n: nat)
    ensures n * TICKS_PER_DAY / PARTS == 36 * n / 36500
  {
    var q, m := 36 * n / 36500, 36 * n % 36500;
    assert 36 * n == 36500 * q + m;
    assert n * TICKS_PER_DAY == PARTS * q + 24000000000 * m;
  }

  /** A fraction of 36500 is never rounded across a whole number. */
  lemma QuotientNear(n: nat)
    requires n <= 100000000000000000000000
    ensures Dec((36 * n) as real / 36500.0).Floor == 36 * n / 36500
  {
    hide Dec;
    Powers();
    var x := (36 * n) as real / 36500.0;
    var q, m := 36 * n / 36500, 36 * n % 36500;
    assert (36 * n) as real == 36500.0 * q as real + m as real;
    assert x == q as real + m as real / 36500.0;
    assert Scaled(x, 6) <= MAX_COEFFICIENT;
    DecIsClose(x, 6, 0.0000005);
    if m == 0 {
      assert Scaled(x, 0) == q as real;
      DecIsExact(x, 0, q);
    }
    FloorIs(Dec(x), q);
  }

  // ---- parts of a day ----

  /** The error of a product of a factor with a nearly right value. */
  lemma ErrorScales(factor: real, y: real, x: real, error: real, limit: real)
    requires 0.0 <= factor <= limit && -error <= y - x <= error && error >= 0.0
    ensures -(limit * error) <= factor * y - factor * x <= limit * error
  {
    var d := y - x;
    assert factor * y - factor * x == factor * d;
    Product(error, factor, limit);
    if d >= 0.0 {
      Product(factor, d, error);
    } else {
      Product(factor, -d, error);
    }
  }

  /** Days are right to 24 decimals, over almost thirty years. */
  lemma DaysNear(ticks: nat)
    requires ticks <= 10000 * TICKS_PER_DAY
    ensures var x := ticks as real / TICKS_PER_DAY as real;
            && 0.0 <= x <= 10000.0 && ElapsedDays(ticks) >= 0.0
            && -0.0000000000000000000000005 <= ElapsedDays(ticks) - x <= 0.0000000000000000000000005
  {
    hide Dec;
    Powers();
    var x := ticks as real / TICKS_PER_DAY as real;
    assert Scaled(x, 24) <= MAX_COEFFICIENT;
    DecIsClose(x, 24, 0.0000000000000000000000005);
  }

  /** The unfloored return is right to eleven decimals. */
  lemma ReturnNear(withdrawn: nat, ticks: nat)
    requires withdrawn <= 1000000000000000 && ticks <= 10000 * TICKS_PER_DAY
    ensures var exact := withdrawn as real * 0.36 * (ticks as real / TICKS_PER_DAY as real);
            -0.0000000000012 <= ExactReturn(withdrawn as real, ticks) - exact / 365.0 <= 0.0000000000012
  {
    hide Mul, Div, ElapsedDays;
    YearlyReturn(withdrawn);
    DaysNear(ticks);
    var x, days := ticks as real / TICKS_PER_DAY as real, ElapsedDays(ticks);
    var yearly := withdrawn as real * 0.36;
    var exact := yearly * x;
    InterestNear(yearly, days, x, exact);
    var interest := Mul(yearly, days);
    YearNear(interest);
    var year := ExactReturn(withdrawn as real, ticks);
    assert year == Div(interest, DAY_COUNT_BASIS);
    assert -0.0000000000012 <= year - exact / 365.0 <= 0.0000000000012;
  }

  lemma InterestNear(yearly: real, days: real, x: real, exact: real)
    requires 0.0 <= yearly <= 360000000000000.0 && 0.0 <= x <= 10000.0 && 0.0 <= days && exact == yearly * x
    requires -0.0000000000000000000000005 <= days - x <= 0.0000000000000000000000005
    ensures -0.00000000024 <= Mul(yearly, days) - exact <= 0.00000000024
    ensures 0.0 <= Mul(yearly, days) <= 3601000000000000001.0
  {
    hide Dec;
    Powers();
    Bounded(yearly, days, 360000000000000.0, 10001.0);
    ErrorScales(yearly, days, x, 0.0000000000000000000000005, 360000000000000.0);
    DecIsClose(yearly * days, 10, 0.00000000005);
  }

  lemma YearNear(interest: real)
    requires 0.0 <= interest <= 3601000000000000001.0
    ensures -0.0000000000005 <= Div(interest, DAY_COUNT_BASIS) - interest / 365.0 <= 0.0000000000005
  {
    hide Dec;
    Powers();
    DecIsClose(interest / 365.0, 12, 0.0000000000005);
  }

  lemma ExactValue(withdrawn: nat, ticks: nat)
    ensures var exact := withdrawn as real * 0.36 * (ticks as real / TICKS_PER_DAY as real);
            exact / 365.0 == Exact(withdrawn, ticks) as real + (withdrawn * ticks % PARTS) as real / PARTS as real
  {
    var n, q, m := withdrawn * ticks, Exact(withdrawn, ticks), withdrawn * ticks % PARTS;
    WholeProduct(withdrawn, ticks);
    assert n == PARTS * q + m;
    assert n as real == 876000000000000.0 * q as real + m as real;
    OneQuotient(withdrawn as real, ticks as real);
  }

  lemma OneQuotient(x: real, y: real)
    ensures x * 0.36 * (y / 864000000000.0) / 365.0 == x * y / 876000000000000.0
  {
  }

  /** For all amounts up to a million billion rials and periods up to ten thousand days the program is at most one rial
      off, and right unless the exact return lies within 1100 parts of 876 million million of a whole rial. */
  lemma OffByOneOnlyNextToAWholeRial(withdrawn: nat, ticks: nat)
    requires withdrawn <= 1000000000000000 && ticks <= 10000 * TICKS_PER_DAY
    ensures var m := withdrawn * ticks % PARTS;
            var paid, exact := Payable(withdrawn as real, ticks), Exact(withdrawn, ticks);
            && exact - 1 <= paid <= exact + 1
            && (m >= 1100 ==> paid >= exact) && (m <= PARTS - 1100 ==> paid <= exact)
  {
    hide ExactReturn;
    ReturnNear(withdrawn, ticks);
    ExactValue(withdrawn, ticks);
    var y, q, m := ExactReturn(withdrawn as real, ticks), Exact(withdrawn, ticks), withdrawn * ticks % PARTS;
    assert y.Floor as real <= y < y.Floor as real + 1.0;
  }
}
