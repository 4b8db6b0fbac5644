/** `FullDepositCalculator` in decimal arithmetic: rounding never crosses a rial, and what converting back costs. */
module DepositConversion {
  import opened Texts
  import opened Rial
  import opened Decimals

  const RATIO := 0.03
  /** Amounts below this keep at least two decimals. */
  const BOUND := 100000000000000000000000000.0

  // ---- the program ----

  function Calculate(cash: real, rent: real): real
    requires WholeNonNegative(cash) && WholeNonNegative(rent)
  {
    Dec(cash + Dec(rent / RATIO)).Floor as real
  }

  function DepositFromRent(rent: real): real
    requires WholeNonNegative(rent)
  {
    Dec(rent / RATIO).Floor as real
  }

  function RentFromDeposit(deposit: real): real
    requires WholeNonNegative(deposit)
  {
    Dec(deposit * RATIO).Floor as real
  }

  // ---- rounding ----

  lemma HundredthsFit(x: real)
    requires 0.0 <= x <= 7.0 * BOUND
    ensures Scaled(x, 2) <= MAX_COEFFICIENT && Ten(2) == 100.0 && Ten(0) == 1.0 && Scaled(x, 0) == x
  {
    assert Ten(1) == 10.0;
  }

  /** Below the bound a result is off by at most half a hundredth, and a whole one not at all. */
  lemma Close(x: real)
    requires 0.0 <= x <= 7.0 * BOUND
    ensures -0.005 <= Dec(x) - x <= 0.005
    ensures Whole(x) ==> Dec(x) == x
  {
    HundredthsFit(x);
    assert Scaled(0.005, 2) == 0.5;
    DecIsClose(x, 2, 0.005);
    if Whole(x) {
      DecIsExact(x, 0, x.Floor);
    }
  }

  /** A hundred thirds of a whole amount: a whole part and no, one or two thirds. */
  lemma Thirds(n: nat)
    ensures n as real / RATIO == (100 * n / 3) as real + (100 * n % 3) as real / 3.0
  {
    var q, f := 100 * n / 3, 100 * n % 3;
    assert 100 * n == 3 * q + f;
    assert 100.0 * n as real == 3.0 * q as real + f as real;
    assert n as real / RATIO * 3.0 == 100.0 * n as real;
  }

  lemma FloorNear(x: real, n: int, third: nat)
    requires third <= 2 && -0.02 <= x - (n as real + third as real / 3.0) <= 0.02
    requires third == 0 ==> x == n as real
    ensures x.Floor == n
  {
    FloorIs(x, n);
  }

  lemma WholePlus(cash: real, q: int)
    requires WholeNonNegative(cash) && q >= 0
    ensures Whole(cash + q as real) && (cash + q as real).Floor == cash.Floor + q
  {
    assert (cash.Floor + q) as real == cash + q as real;
    FloorIs(cash + q as real, cash.Floor + q);
  }

  /** Two roundings, of the quotient and of the sum, never move the deposit across a rial: as long as it stays below
      the bound, the program's result is the exact floor. */
  lemma RoundingKeepsTheRial(cash: real, rent: real)
    requires WholeNonNegative(cash) && WholeNonNegative(rent) && cash + rent / RATIO < BOUND
    ensures Calculate(cash, rent) == FullDeposit(cash, rent)
    ensures Calculate(cash, rent) == (cash.Floor + 100 * rent.Floor / 3) as real
  {
    hide Dec, Whole;
    var n := rent.Floor;
    WholeIsFloor(rent);
    var q, f := 100 * n / 3, 100 * n % 3;
    Thirds(n);
    var x := rent / RATIO;
    Close(x);
    var y := Dec(x);
    if f == 0 {
      WholeInt(q);
    }
    Close(cash + y);
    WholePlus(cash, q);
    if f == 0 {
      assert y == q as real;
    }
    WholeIsFloor(cash);
    assert (cash.Floor + q) as real == cash + q as real;
    FloorNear(Dec(cash + y), cash.Floor + q, f);
    FullDepositIsHundredThirds(cash, rent);
  }

  lemma WholeIsFloor(x: real)
    requires WholeNonNegative(x)
    ensures x == x.Floor as real && x.Floor >= 0
  {
  }

  lemma WholeInt(n: int)
    ensures Whole(n as real)
  {
    FloorIs(n as real, n);
  }

  // ---- converting there and back ----

  lemma DepositOfRent(rent: nat)
    requires rent as real / RATIO < BOUND
    ensures WholeNonNegative(rent as real)
    ensures DepositFromRent(rent as real) == (100 * rent / 3) as real
  {
    hide Dec, Whole;
    FloorIs(rent as real, rent);
    WholeInt(rent);
    WholeInt(0);
    var q, f := 100 * rent / 3, 100 * rent % 3;
    Thirds(rent);
    Close(rent as real / RATIO);
    if f == 0 {
      WholeInt(q);
    }
    FloorNear(Dec(rent as real / RATIO), q, f);
  }

  lemma RentOfDeposit(deposit: nat)
    requires deposit as real < BOUND
    ensures WholeNonNegative(deposit as real)
    ensures RentFromDeposit(deposit as real) == (3 * deposit / 100) as real
  {
    hide Dec, Whole;
    WholeInt(deposit);
    var x := deposit as real * RATIO;
    HundredthsFit(x);
    assert Scaled(x, 2) == (3 * deposit) as real by {
      hide Whole;
      ThreeHundredths(deposit);
    }
    DecIsExact(x, 2, 3 * deposit);
    var q, m := 3 * deposit / 100, 3 * deposit % 100;
    assert 3 * deposit == 100 * q + m;
    assert 3.0 * deposit as real == 100.0 * q as real + m as real;
    FloorIs(x, q);
  }

  lemma ThreeHundredths(n: nat)
    ensures Scaled(n as real * RATIO, 2) == (3 * n) as real
  {
    assert Ten(2) == 100.0 by { assert Ten(1) == 10.0; }
    assert (3 * n) as real == 3.0 * n as real;
  }

  /** Rent to deposit and back gives the rent again when three divides it, and one rial less otherwise. */
  lemma RentRoundTrip(rent: nat)
    requires rent as real / RATIO < BOUND
    ensures WholeNonNegative(rent as real) && WholeNonNegative(DepositFromRent(rent as real))
    ensures RentFromDeposit(DepositFromRent(rent as real)) == (if rent % 3 == 0 then rent else rent - 1) as real
  {
    hide Dec, Whole, DepositFromRent, RentFromDeposit;
    DepositOfRent(rent);
    var q := 100 * rent / 3;
    Thirds(rent);
    RentOfDeposit(q);
    RentArithmetic(rent);
  }

  lemma RentArithmetic(rent: nat)
    ensures 3 * (100 * rent / 3) / 100 == if rent % 3 == 0 then rent else rent - 1
  {
    var k, m := rent / 3, rent % 3;
    assert rent == 3 * k + m;
    assert 100 * rent / 3 == 100 * k + 100 * m / 3;
  }

  /** Deposit to rent and back loses a third of the last two digits of three deposits, rounded up: 0 to 33 rials. */
  lemma DepositRoundTrip(deposit: nat)
    requires deposit as real < BOUND
    ensures WholeNonNegative(deposit as real) && WholeNonNegative(RentFromDeposit(deposit as real))
    ensures var back := DepositFromRent(RentFromDeposit(deposit as real));
            back == (deposit - (3 * deposit % 100 + 2) / 3) as real && deposit as real - 33.0 <= back <= deposit as real
  {
    hide Dec, Whole, DepositFromRent, RentFromDeposit;
    RentOfDeposit(deposit);
    var r := 3 * deposit / 100;
    DepositArithmetic(deposit);
    Thirds(r);
    DepositOfRent(r);
  }

  lemma DepositArithmetic(deposit: nat)
    ensures var r, s := 3 * deposit / 100, 3 * deposit % 100;
            100 * r / 3 == deposit - (s + 2) / 3 && (s + 2) / 3 <= 33 && (r as real / RATIO <= deposit as real)
  {
    var r, s := 3 * deposit / 100, 3 * deposit % 100;
    assert 3 * deposit == 100 * r + s;
    Thirds(r);
    assert 100 * r == 3 * (100 * r / 3) + 100 * r % 3;
    assert 3.0 * deposit as real == 100.0 * r as real + s as real;
  }

  // ---- the loan ceiling ----

  /** The ceiling of a grade is a product with two decimals, so decimal rounding leaves it exact as well. */
  lemma CeilingKeepsTheRial(full: nat, subGrade: string)
    requires full as real < BOUND && LoanRatio(subGrade).Some?
    ensures var ratio := LoanRatio(subGrade).value;
            Mul(full as real, ratio) == full as real * ratio
            && Mul(full as real, ratio).Floor as real == MaximumLoan(full as real, ratio)
  {
    hide Dec;
    var ratio := LoanRatio(subGrade).value;
    var k := RatioInHundredths(subGrade);
    var x := full as real * ratio;
    HundredthsFit(x);
    assert Scaled(x, 2) == full as real * (ratio * 100.0);
    WholeProduct(full, k);
    DecIsExact(x, 2, full * k);
  }

  lemma RatioInHundredths(subGrade: string) returns (k: nat)
    requires LoanRatio(subGrade).Some?
    ensures k <= 55 && LoanRatio(subGrade).value * 100.0 == k as real
  {
    hide Trim;
    var r := LoanRatio(subGrade).value;
    k := if r == 0.55 then 55 else if r == 0.45 then 45 else if r == 0.40 then 40 else if r == 0.35 then 35 else 30;
  }
}
