/** The cancellation split: when it is refused, and what it deducts when it is not. */
module Cancellation {
  import opened Rial
  import opened Sorting
  import opened Arrears
  import opened Contribution
  import opened Decimals
  import opened LostFundReturn
  import LostFundReturnExact

  /** An accrual under the current policy with a payable amount in whole rials. */
  predicate Acceptable(a: Accrual) {
    a.version == POLICY_VERSION && WholeNonNegative(a.payable)
  }

  /** The payable amounts added up, from the last to the first. */
  function PayableSum(accruals: seq<Accrual>): real {
    if accruals == [] then 0.0 else PayableSum(accruals[..|accruals| - 1]) + accruals[|accruals| - 1].payable
  }

  function But(accruals: seq<Accrual>, i: nat): seq<Accrual>
    requires i < |accruals|
  {
    accruals[..i] + accruals[i + 1..]
  }

  /** Whichever accrual is taken out, the sum is its amount and that of the others. */
  lemma {:induction false} SumBut(accruals: seq<Accrual>, i: nat)
    requires i < |accruals|
    ensures PayableSum(accruals) == PayableSum(But(accruals, i)) + accruals[i].payable
    decreases |accruals|
  {
    var last := |accruals| - 1;
    if i == last {
      assert But(accruals, i) == accruals[..last];
    } else {
      SumBut(accruals[..last], i);
      assert But(accruals, i)[..last - 1] == But(accruals[..last], i);
      assert But(accruals, i)[last - 1] == accruals[last];
    }
  }

  lemma TakenOut(accruals: seq<Accrual>, i: nat)
    requires i < |accruals|
    ensures multiset(But(accruals, i)) == multiset(accruals) - multiset{accruals[i]}
  {
    assert accruals == accruals[..i] + [accruals[i]] + accruals[i + 1..];
  }

  /** The order of the accruals does not matter to their sum. */
  lemma {:induction false} SumIgnoresOrder(a: seq<Accrual>, b: seq<Accrual>)
    requires multiset(a) == multiset(b)
    ensures PayableSum(a) == PayableSum(b)
    decreases |a|
  {
    SameSize(a, b);
    if a != [] {
      assert a[0] in multiset(b);
      var i :| 0 <= i < |b| && b[i] == a[0];
      SumBut(a, 0);
      SumBut(b, i);
      TakenOut(a, 0);
      TakenOut(b, i);
      SumIgnoresOrder(But(a, 0), But(b, i));
    }
  }

  /** The running total over acceptable accruals is what it started from and their sum. */
  lemma {:induction false} TotalIsSum(accruals: seq<Accrual>, start: real)
    requires forall i :: 0 <= i < |accruals| ==> Acceptable(accruals[i])
    ensures Total(accruals, start) == Ok(start + PayableSum(accruals))
  {
    hide Whole;
    if accruals != [] {
      TotalIsSum(accruals[1..], start + accruals[0].payable);
      SumBut(accruals, 0);
      assert But(accruals, 0) == accruals[1..];
    }
  }

  /** The first accrual that is not acceptable gives the error, whatever comes behind it. */
  lemma {:induction false} TotalStops(accruals: seq<Accrual>, start: real, i: nat)
    requires i < |accruals| && !Acceptable(accruals[i])
    requires forall j :: 0 <= j < i ==> Acceptable(accruals[j])
    ensures Total(accruals, start) ==
            Err(if accruals[i].version != POLICY_VERSION then InvalidOperation else BadArgument)
  {
    hide Whole;
    if i > 0 {
      TotalStops(accruals[1..], start + accruals[0].payable, i - 1);
    }
  }

  lemma FirstBad(accruals: seq<Accrual>) returns (i: nat)
    ensures i <= |accruals| && forall j :: 0 <= j < i ==> Acceptable(accruals[j])
    ensures i < |accruals| ==> !Acceptable(accruals[i])
  {
    i := 0;
    while i < |accruals| && Acceptable(accruals[i])
      invariant i <= |accruals| && forall j :: 0 <= j < i ==> Acceptable(accruals[j])
    {
      i := i + 1;
    }
  }

  /** A contribution is split exactly when it is a whole amount, every accrual is acceptable and together they do not
      exceed it: the lost-fund return is then their sum, and the owner gets the rest to the rial. */
  lemma SettleDecides(posted: real, accruals: seq<Accrual>)
    ensures var acceptable := forall i :: 0 <= i < |accruals| ==> Acceptable(accruals[i]);
            && (Settle(posted, accruals).Ok? <==>
                  WholeNonNegative(posted) && acceptable && PayableSum(accruals) <= posted)
            && (Settle(posted, accruals).Ok? ==>
                  Settle(posted, accruals).value ==
                  Settlement(posted, PayableSum(accruals), posted - PayableSum(accruals)))
            && (WholeNonNegative(posted) && acceptable && PayableSum(accruals) > posted ==>
                  Settle(posted, accruals) == Err(InvalidOperation))
  {
    hide Whole, Acceptable;
    var i := FirstBad(accruals);
    if i < |accruals| {
      TotalStops(accruals, 0.0, i);
    } else {
      TotalIsSum(accruals, 0.0);
    }
  }

  /** What is refused for: a contribution that is no whole amount first; then the first accrual in order that is not
      acceptable, its policy version before its amount. */
  lemma SettleRefusal(posted: real, accruals: seq<Accrual>, i: nat)
    requires i < |accruals| && !Acceptable(accruals[i])
    requires forall j :: 0 <= j < i ==> Acceptable(accruals[j])
    ensures Settle(posted, accruals) ==
            Err(if WholeNonNegative(posted) && accruals[i].version != POLICY_VERSION then InvalidOperation
                else BadArgument)
  {
    hide Whole, Acceptable;
    TotalStops(accruals, 0.0, i);
  }

  /** Accruals in another order are split alike. */
  lemma SettleIgnoresOrder(posted: real, a: seq<Accrual>, b: seq<Accrual>)
    requires multiset(a) == multiset(b)
    ensures Settle(posted, a).Ok? <==> Settle(posted, b).Ok?
    ensures Settle(posted, a).Ok? ==> Settle(posted, a) == Settle(posted, b)
  {
    hide Settle, Acceptable, WholeNonNegative;
    SettleDecides(posted, a);
    SettleDecides(posted, b);
    SumIgnoresOrder(a, b);
    forall i | 0 <= i < |a| ensures exists j :: 0 <= j < |b| && b[j] == a[i] {
      assert a[i] in multiset(b);
    }
    forall i | 0 <= i < |b| ensures exists j :: 0 <= j < |a| && a[j] == b[i] {
      assert b[i] in multiset(a);
    }
  }

  // ---- the accruals themselves ----

  lemma NothingNegative(x: real, y: real)
    requires x >= 0.0 && y >= 0.0
    ensures Mul(x, y) >= 0.0 && (y > 0.0 ==> Div(x, y) >= 0.0)
  {
    hide Dec;
    assert x * y >= 0.0;
    LostFundReturnExact.AtLeast(x * y, 0);
    if y > 0.0 {
      assert x / y >= 0.0;
      LostFundReturnExact.AtLeast(x / y, 0);
    }
  }

  lemma PayableIsNotNegative(withdrawn: real, ticks: nat)
    requires withdrawn >= 0.0
    ensures Payable(withdrawn, ticks) >= 0
  {
    hide Mul, Div;
    NothingNegative(withdrawn, MONTHLY_RATE);
    NothingNegative(Mul(withdrawn, MONTHLY_RATE), MONTHS_PER_YEAR);
    NothingNegative(ticks as real, TICKS_PER_DAY as real);
    NothingNegative(Mul(Mul(withdrawn, MONTHLY_RATE), MONTHS_PER_YEAR), ElapsedDays(ticks));
    NothingNegative(Mul(Mul(Mul(withdrawn, MONTHLY_RATE), MONTHS_PER_YEAR), ElapsedDays(ticks)), DAY_COUNT_BASIS);
  }

  /** A return accrues exactly for three per cent a month, a whole amount and no repayment before the withdrawal, the
      rate being checked first; it is then a whole amount, as a settlement asks for. */
  lemma AccrualDecides(withdrawn: real, rate: real, withdrawnAt: int, repaidAt: int)
    ensures var accrued := AccruedReturn(withdrawn, rate, withdrawnAt, repaidAt);
            && (rate != 0.03 ==> accrued == Err(InvalidOperation))
            && (rate == 0.03 && (!WholeNonNegative(withdrawn) || repaidAt < withdrawnAt) ==>
                  accrued == Err(BadArgument))
            && (rate == 0.03 && WholeNonNegative(withdrawn) && withdrawnAt <= repaidAt ==>
                  && accrued == Ok(Payable(withdrawn, repaidAt - withdrawnAt) as real)
                  && Acceptable(Accrual(POLICY_VERSION, accrued.value)))
  {
    hide Payable;
    if WholeNonNegative(withdrawn) && withdrawnAt <= repaidAt {
      PayableIsNotNegative(withdrawn, repaidAt - withdrawnAt);
    }
  }

  /** Over whole days that is thirty-six per cent a year by actual days over 365, rounded down once. */
  lemma AccruesOverWholeDays(withdrawn: nat, days: nat, withdrawnAt: int)
    requires withdrawn <= 1000000000000000000000000 && days <= 1000000000000000000000000
    requires withdrawn * days <= 100000000000000000000000
    ensures AccruedReturn(withdrawn as real, 0.03, withdrawnAt, withdrawnAt + days * 864000000000) ==
            Ok((36 * (withdrawn * days) / 36500) as real)
  {
    hide Payable;
    AccrualDecides(withdrawn as real, 0.03, withdrawnAt, withdrawnAt + days * 864000000000);
    WholeDaysAreExact(withdrawn, days);
    WholeDayTicks(withdrawn, days);
  }
}
