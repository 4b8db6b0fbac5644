/** Whole-rial money rules and the deposit, grade and allocation formulas (exact arithmetic). */
module Rial {
  import opened Texts

  /** `rial == decimal.Truncate(rial)`. */
  predicate Whole(x: real) {
    x.Floor as real == x
  }

  /** What `RialAmountPolicy.RequireWholeNonNegative` lets through. */
  predicate WholeNonNegative(x: real) {
    x >= 0.0 && Whole(x)
  }

  /** `FullDepositCalculator.Calculate` on accepted arguments. */
  function FullDeposit(cash: real, rent: real): real {
    (cash + rent / 0.03).Floor as real
  }

  /** `CreditGradePolicy`: fifteen sub-grades, trimmed and compared ignoring case; no default. */
  function LoanRatio(subGrade: string): Option<real> {
    var g := Trim(subGrade);
    if |g| != 2 || !('1' <= g[1] <= '3') then None
    else if g[0] == 'A' || g[0] == 'a' then Some(0.55)
    else if g[0] == 'B' || g[0] == 'b' then Some(0.45)
    else if g[0] == 'C' || g[0] == 'c' then Some(0.40)
    else if g[0] == 'D' || g[0] == 'd' then Some(0.35)
    else if g[0] == 'E' || g[0] == 'e' then Some(0.30)
    else None
  }

  /** The table: a letter from A to E of either case fixes the ratio, a digit from 1 to 3 must follow, and nothing else
      has a ratio. */
  lemma LoanRatioTable(subGrade: string)
    ensures LoanRatio(subGrade).Some? <==>
            exists letter, digit :: Trim(subGrade) == [letter, digit] && letter in "AaBbCcDdEe" && digit in "123"
    ensures LoanRatio(subGrade).Some? ==>
              && Trim(subGrade) != ""
              && var letter, ratio := Trim(subGrade)[0], LoanRatio(subGrade).value;
              && (letter in "Aa" ==> ratio == 0.55)
              && (letter in "Bb" ==> ratio == 0.45)
              && (letter in "Cc" ==> ratio == 0.40)
              && (letter in "Dd" ==> ratio == 0.35)
              && (letter in "Ee" ==> ratio == 0.30)
  {
    hide Trim;
    var g := Trim(subGrade);
    if |g| == 2 {
      assert g == [g[0], g[1]];
    }
  }

  /** `CreditAllocationCalculator.CalculateMaximumLoan` once the ratio is known. */
  function MaximumLoan(full: real, ratio: real): real {
    (full * ratio).Floor as real
  }

  lemma WholeDifference(full: real, part: real)
    requires Whole(full) && Whole(part) && part <= full
    ensures WholeNonNegative(full - part)
  {
    assert full - part == (full.Floor - part.Floor) as real;
  }

  /** The ceiling is the part of the deposit that the ratio allows, rounded down to whole rials; it never reaches 56% of
      the deposit. */
  lemma MaximumLoanBounds(full: real, subGrade: string)
    requires WholeNonNegative(full) && LoanRatio(subGrade).Some?
    ensures var m := MaximumLoan(full, LoanRatio(subGrade).value);
            && WholeNonNegative(m) && m <= full * LoanRatio(subGrade).value < m + 1.0
            && m <= full * 0.55 && (full > 0.0 ==> m < full)
  {
    hide LoanRatio;
    var r := LoanRatio(subGrade).value;
    LoanRatioTable(subGrade);
    assert 0.0 <= full * r <= full * 0.55;
  }

  lemma FloorIs(x: real, n: int)
    requires n as real <= x < (n + 1) as real
    ensures x.Floor == n
  {
  }

  /** 0.03 per month means one hundred thirds: the deposit is the cash plus 100/3 rents, rounded down. */
  lemma FullDepositIsHundredThirds(cash: real, rent: real)
    requires WholeNonNegative(cash) && WholeNonNegative(rent)
    ensures FullDeposit(cash, rent) == (cash.Floor + 100 * rent.Floor / 3) as real
    ensures WholeNonNegative(FullDeposit(cash, rent))
  {
    var q := 100 * rent.Floor / 3;
    HundredThirds(rent.Floor);
    FloorIs(cash + rent / 0.03, cash.Floor + q);
  }

  lemma HundredThirds(n: nat)
    ensures (100 * n / 3) as real <= n as real / 0.03 < (100 * n / 3 + 1) as real
  {
    var q := 100 * n / 3;
    assert 3 * q <= 100 * n < 3 * q + 3;
    assert (3 * q) as real == 3.0 * q as real;
    assert (100 * n) as real == 100.0 * n as real;
    assert n as real / 0.03 * 3.0 == 100.0 * n as real;
  }
}
