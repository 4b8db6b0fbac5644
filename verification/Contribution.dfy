/** The tenant contribution: its balance, the cancellation split, and conservation over every run. */
module Contribution {
  import opened Texts
  import opened Rial
  import opened Arrears
  import opened ArrearsTheorems

  datatype Balance = Balance(posted: real, available: real)

  /** `TenantContributionBalanceSnapshot.Calculate`. */
  function BalanceOf(initial: real, replenishments: real, coverage: real, reserved: real): Result<Balance> {
    if !WholeNonNegative(initial) || !WholeNonNegative(replenishments)
       || !WholeNonNegative(coverage) || !WholeNonNegative(reserved)
    then Err(BadArgument)
    else
      var posted := initial + replenishments - coverage;
      if posted < 0.0 || posted - reserved < 0.0 then Err(InvalidOperation) else Ok(Balance(posted, posted - reserved))
  }

  // ---- cancellation ----

  const POLICY_VERSION := "lost-fund-return-simple-3pct-365-v1"

  datatype Accrual = Accrual(version: string, payable: real)
  datatype Settlement = Settlement(before: real, lostFundReturn: real, ownerResidual: real)

  /** The running total over the accruals; the first bad accrual decides the error. */
  function Total(accruals: seq<Accrual>, sum: real): Result<real> {
    if accruals == [] then Ok(sum)
    else if accruals[0].version != POLICY_VERSION then Err(InvalidOperation)
    else if !WholeNonNegative(accruals[0].payable) then Err(BadArgument)
    else Total(accruals[1..], sum + accruals[0].payable)
  }

  function Settle(posted: real, accruals: seq<Accrual>): Result<Settlement> {
    if !WholeNonNegative(posted) then Err(BadArgument)
    else
      match Total(accruals, 0.0)
      case Err(e) => Err(e)
      case Ok(lost) => if lost > posted then Err(InvalidOperation) else Ok(Settlement(posted, lost, posted - lost))
  }

  /** `CancellationFinancialSettlementCalculator.Calculate`. */
  method CalculateSettlement(posted: real, accruals: seq<Accrual>) returns (result: Result<Settlement>)
    ensures result == Settle(posted, accruals)
  {
    hide Whole;
    if !WholeNonNegative(posted) {
      return Err(BadArgument);
    }
    var lostFundReturn := 0.0;
    for i := 0 to |accruals|
      invariant Total(accruals[i..], lostFundReturn) == Total(accruals, 0.0)
    {
      var accrual := accruals[i];
      assert accruals[i..][0] == accrual && accruals[i..][1..] == accruals[i + 1..];
      if accrual.version != POLICY_VERSION {
        return Err(InvalidOperation);
      }
      if !WholeNonNegative(accrual.payable) {
        return Err(BadArgument);
      }
      lostFundReturn := lostFundReturn + accrual.payable;
    }
    assert accruals[|accruals|..] == [];
    if lostFundReturn > posted {
      return Err(InvalidOperation);
    }
    result := Ok(Settlement(posted, lostFundReturn, posted - lostFundReturn));
  }

  // ---- runs ----

  /** A contract's contribution: coverages posted, coverages reserved and not decided yet, confirmed replenishments. */
  datatype Ledger = Ledger(initial: real, covered: seq<Item>, reserved: seq<Item>, replenished: real)

  datatype Event =
    | Reserve(targets: seq<Item>)
    | Confirm(i: nat)
    | Fail(i: nat)
    | Repay(lostFundReturn: real, tendered: real)

  function CurrentBalance(l: Ledger): Result<Balance> {
    BalanceOf(l.initial, l.replenished, Sum(l.covered), Sum(l.reserved))
  }

  predicate AllValid(items: seq<Item>) {
    forall i :: 0 <= i < |items| ==> Valid(items[i])
  }

  /** What a reservation is asked for: due components that no coverage exists for, under new ids. */
  predicate Fresh(l: Ledger, targets: seq<Item>) {
    AllValid(targets) && Unique(l.covered + l.reserved + targets)
  }

  function Without(items: seq<Item>, i: nat): seq<Item>
    requires i < |items|
  {
    items[..i] + items[i + 1..]
  }

  /** A reservation needs the available balance, the posting of a confirmed coverage the posted balance, a repayment
      the full plan; anything else is refused and changes nothing. */
  function Step(l: Ledger, e: Event): Ledger {
    match e
    case Reserve(targets) =>
      if Fresh(l, targets) && CurrentBalance(l).Ok? && CurrentBalance(l).value.available >= Sum(targets)
      then l.(reserved := l.reserved + targets) else l
    case Confirm(i) =>
      if i < |l.reserved| && CurrentBalance(l).Ok? && CurrentBalance(l).value.posted >= l.reserved[i].amount
      then l.(covered := l.covered + [l.reserved[i]], reserved := Without(l.reserved, i)) else l
    case Fail(i) =>
      if i < |l.reserved| then l.(reserved := Without(l.reserved, i)) else l
    case Repay(lostFundReturn, tendered) =>
      match FullPaymentPlan(l.covered, l.replenished, lostFundReturn, tendered)
      case Err(_) => l
      case Ok(plan) => l.(replenished := l.replenished + plan.principal)
  }

  function Run(l: Ledger, events: seq<Event>): Ledger {
    if events == [] then l else Step(Run(l, events[..|events| - 1]), events[|events| - 1])
  }

  /** Reservations never exceed what is posted, and replenishments never what was covered. */
  predicate Sound(l: Ledger) {
    && AllValid(l.covered) && AllValid(l.reserved) && Unique(l.covered + l.reserved)
    && WholeNonNegative(l.initial) && WholeNonNegative(l.replenished)
    && l.replenished <= Sum(l.covered)
    && Sum(l.covered) + Sum(l.reserved) <= l.initial + l.replenished
  }

  lemma {:induction false} SumConcat(items: seq<Item>, more: seq<Item>)
    ensures Sum(items + more) == Sum(items) + Sum(more)
  {
    if items == [] {
      assert [] + more == more;
    } else {
      SumConcat(items[1..], more);
      assert (items + more)[1..] == items[1..] + more;
    }
  }

  /** Taking one item out of the sum. */
  lemma SumWithout(items: seq<Item>, i: nat)
    requires i < |items|
    ensures Sum(Without(items, i)) == Sum(items) - items[i].amount
  {
    SumConcat(items[..i], items[i..]);
    SumConcat(items[..i], items[i + 1..]);
    assert items == items[..i] + items[i..] && items[i..][1..] == items[i + 1..];
  }

  lemma SumOne(item: Item)
    ensures Sum([item]) == item.amount
  {
    assert [item][1..] == [];
  }

  /** An accepted coverage and the other reservations hold the same items as before. */
  lemma MovedIsUnique(covered: seq<Item>, reserved: seq<Item>, i: nat)
    requires i < |reserved| && Unique(covered + reserved)
    ensures Unique(covered + [reserved[i]] + Without(reserved, i)) && Unique(covered + Without(reserved, i))
  {
    var moved, item := covered + [reserved[i]] + Without(reserved, i), reserved[i];
    assert reserved == reserved[..i] + [item] + reserved[i + 1..];
    assert multiset(moved) == multiset(covered + reserved);
    UniqueIsPermuted(covered + reserved, moved);
    var others := covered + Without(reserved, i);
    forall j, k | 0 <= j < k < |others| ensures others[j].reference != others[k].reference {
      assert others[j] == moved[if j < |covered| then j else j + 1];
      assert others[k] == moved[if k < |covered| then k else k + 1];
    }
  }

  lemma UniquePrefix(items: seq<Item>, more: seq<Item>)
    requires Unique(items + more)
    ensures Unique(items)
  {
    forall i, j | 0 <= i < j < |items| ensures items[i].reference != items[j].reference {
      assert (items + more)[i] == items[i] && (items + more)[j] == items[j];
    }
  }

  /** What a sound ledger's calculations say. */
  lemma SoundIsCalculable(l: Ledger)
    requires Sound(l)
    ensures WholeNonNegative(Sum(l.covered)) && WholeNonNegative(Sum(l.reserved))
    ensures var posted := l.initial + l.replenished - Sum(l.covered);
            CurrentBalance(l) == Ok(Balance(posted, posted - Sum(l.reserved)))
    ensures Outstanding(l.covered, l.replenished).Ok?
  {
    hide Valid, Whole, References, Drain, OldestFirst;
    WholeTotal(l.covered);
    WholeTotal(l.reserved);
    UniquePrefix(l.covered, l.reserved);
    DistinctCountMeansUnique(l.covered);
  }

  lemma ReserveKeeps(l: Ledger, targets: seq<Item>)
    requires Sound(l)
    ensures Sound(Step(l, Reserve(targets)))
  {
    hide Valid, Whole, Sum, Unique;
    SoundIsCalculable(l);
    SumConcat(l.reserved, targets);
    assert l.covered + l.reserved + targets == l.covered + (l.reserved + targets);
  }

  /** A decided reservation leaves the reserve, into what is covered when it is confirmed. */
  lemma DecisionKeeps(l: Ledger, i: nat)
    requires Sound(l)
    ensures Sound(Step(l, Confirm(i))) && Sound(Step(l, Fail(i)))
  {
    hide Valid, Whole, Sum, Unique;
    if i < |l.reserved| {
      SumWithout(l.reserved, i);
      SumConcat(l.covered, [l.reserved[i]]);
      SumOne(l.reserved[i]);
      ValidAmount(l.reserved[i]);
      MovedIsUnique(l.covered, l.reserved, i);
    }
  }

  lemma ValidAmount(item: Item)
    requires Valid(item)
    ensures item.amount > 0.0
  {
  }

  lemma RepayKeeps(l: Ledger, lostFundReturn: real, tendered: real)
    requires Sound(l)
    ensures Sound(Step(l, Repay(lostFundReturn, tendered)))
  {
    hide Valid, Whole, Outstanding, Unique;
    FullPlanClearsEverything(l.covered, l.replenished, lostFundReturn, tendered);
    SoundIsCalculable(l);
  }

  lemma StepKeeps(l: Ledger, e: Event)
    requires Sound(l)
    ensures Sound(Step(l, e)) && Step(l, e).initial == l.initial
  {
    hide Sound;
    match e
    case Reserve(targets) => ReserveKeeps(l, targets);
    case Confirm(i) => DecisionKeeps(l, i);
    case Fail(i) => DecisionKeeps(l, i);
    case Repay(lostFundReturn, tendered) => RepayKeeps(l, lostFundReturn, tendered);
  }

  lemma {:induction false} RunKeeps(l: Ledger, events: seq<Event>)
    requires Sound(l)
    ensures Sound(Run(l, events)) && Run(l, events).initial == l.initial
  {
    hide Sound, Step;
    if events != [] {
      RunKeeps(l, events[..|events| - 1]);
      StepKeeps(Run(l, events[..|events| - 1]), events[|events| - 1]);
    }
  }

  lemma StartIsSound(initial: real)
    requires WholeNonNegative(initial)
    ensures Sound(Ledger(initial, [], [], 0.0))
  {
    ZeroIsWhole();
  }

  /** Conservation: after any run of reservations, confirmed and failed coverages and full repayments the balance and
      the arrears can be calculated; what is posted plus what is outstanding is the contribution the tenant put in, what
      is posted is what is available plus what is reserved, and a cancellation splits what is posted exactly. */
  lemma ContributionIsConserved(initial: real, events: seq<Event>, accruals: seq<Accrual>)
    requires WholeNonNegative(initial)
    ensures var l := Run(Ledger(initial, [], [], 0.0), events);
            var balance := CurrentBalance(l);
            var arrears := Outstanding(l.covered, l.replenished);
            && l.initial == initial && l.replenished <= Sum(l.covered)
            && balance.Ok? && arrears.Ok?
            && balance.value.posted + arrears.value.outstanding == initial
            && balance.value.available + Sum(l.reserved) == balance.value.posted && balance.value.available >= 0.0
            && (Settle(balance.value.posted, accruals).Ok? ==>
                  var s := Settle(balance.value.posted, accruals).value;
                  s.lostFundReturn + s.ownerResidual + arrears.value.outstanding == initial && s.ownerResidual >= 0.0)
  {
    hide Valid, Whole, References, Drain, OldestFirst, Step, Total, Unique;
    var start := Ledger(initial, [], [], 0.0);
    StartIsSound(initial);
    RunKeeps(start, events);
    var l := Run(start, events);
    SoundIsCalculable(l);
    OutstandingConserves(l.covered, l.replenished);
  }

  /** A coverage that the provider confirms is always posted: the branch for a posted balance below its amount is never
      taken, since the amount was reserved. */
  lemma ConfirmedCoverageIsPosted(initial: real, events: seq<Event>, i: nat)
    requires WholeNonNegative(initial) && i < |Run(Ledger(initial, [], [], 0.0), events).reserved|
    ensures var l := Run(Ledger(initial, [], [], 0.0), events);
            var after := Step(l, Confirm(i));
            && after.covered == l.covered + [l.reserved[i]]
            && CurrentBalance(after).Ok? && CurrentBalance(l).Ok?
            && CurrentBalance(after).value.posted == CurrentBalance(l).value.posted - l.reserved[i].amount
            && CurrentBalance(after).value.available == CurrentBalance(l).value.available
  {
    hide Valid, Whole, Step, Unique, Outstanding;
    var start := Ledger(initial, [], [], 0.0);
    StartIsSound(initial);
    RunKeeps(start, events);
    ReservedIsPosted(Run(start, events), i);
  }

  /** A coverage that fails gives its reservation back: nothing is posted for it, and its amount is available again. */
  lemma FailedCoverageIsReleased(initial: real, events: seq<Event>, i: nat)
    requires WholeNonNegative(initial) && i < |Run(Ledger(initial, [], [], 0.0), events).reserved|
    ensures var l := Run(Ledger(initial, [], [], 0.0), events);
            var after := Step(l, Fail(i));
            && after.covered == l.covered && after.replenished == l.replenished
            && multiset(after.reserved) == multiset(l.reserved) - multiset{l.reserved[i]}
            && CurrentBalance(after).Ok? && CurrentBalance(l).Ok?
            && CurrentBalance(after).value.posted == CurrentBalance(l).value.posted
            && CurrentBalance(after).value.available == CurrentBalance(l).value.available + l.reserved[i].amount
  {
    hide Valid, Whole, Sum, Unique, Outstanding, Run;
    var start := Ledger(initial, [], [], 0.0);
    StartIsSound(initial);
    RunKeeps(start, events);
    var l := Run(start, events);
    SoundIsCalculable(l);
    SumWithout(l.reserved, i);
    DecisionKeeps(l, i);
    SoundIsCalculable(Step(l, Fail(i)));
    assert l.reserved == l.reserved[..i] + [l.reserved[i]] + l.reserved[i + 1..];
  }

  lemma ReservedIsPosted(l: Ledger, i: nat)
    requires Sound(l) && i < |l.reserved|
    ensures var after := Step(l, Confirm(i));
            && after.covered == l.covered + [l.reserved[i]]
            && CurrentBalance(after).Ok? && CurrentBalance(l).Ok?
            && CurrentBalance(after).value.posted == CurrentBalance(l).value.posted - l.reserved[i].amount
            && CurrentBalance(after).value.available == CurrentBalance(l).value.available
  {
    hide Valid, Whole, Sum, Unique, Outstanding;
    SoundIsCalculable(l);
    SumWithout(l.reserved, i);
    SumConcat(l.covered, [l.reserved[i]]);
    SumOne(l.reserved[i]);
    WithoutNonNegative(l.reserved, i);
    DecisionKeeps(l, i);
    SoundIsCalculable(Step(l, Confirm(i)));
  }

  lemma WithoutNonNegative(items: seq<Item>, i: nat)
    requires AllValid(items) && i < |items|
    ensures Sum(Without(items, i)) >= 0.0
  {
    ValidIsPositive(Without(items, i));
    SumNonNegative(Without(items, i));
  }

  /** A reservation is accepted exactly up to what the tenant put in and paid back. */
  lemma ReservedUpToTheContribution(l: Ledger, targets: seq<Item>)
    requires Sound(l) && Fresh(l, targets)
    ensures Step(l, Reserve(targets)).reserved == l.reserved + targets <==>
            Sum(l.covered) + Sum(l.reserved) + Sum(targets) <= l.initial + l.replenished
  {
    hide Valid, Whole, Unique, Outstanding;
    SoundIsCalculable(l);
  }

  /** After a full repayment the posted balance is the whole initial contribution again, whatever is reserved, and the
      repayment cannot be made twice. */
  lemma RepaymentRestoresBalance(l: Ledger, lostFundReturn: real, tendered: real)
    requires Sound(l) && FullPaymentPlan(l.covered, l.replenished, lostFundReturn, tendered).Ok?
    ensures var after := Step(l, Repay(lostFundReturn, tendered));
            && CurrentBalance(after) == Ok(Balance(l.initial, l.initial - Sum(l.reserved)))
            && after.reserved == l.reserved
            && FullPaymentPlan(after.covered, after.replenished, lostFundReturn, tendered).Err?
  {
    hide Valid, Whole, References, Outstanding, Unique;
    FullPlanClearsEverything(l.covered, l.replenished, lostFundReturn, tendered);
    var after := Step(l, Repay(lostFundReturn, tendered));
    FullPlanClearsEverything(after.covered, after.replenished, lostFundReturn, tendered);
    RepayKeeps(l, lostFundReturn, tendered);
    SoundIsCalculable(after);
  }
}
