/** Tenant arrears: oldest-first application of replenishments, and the full-payment rule. */
module Arrears {
  import opened Texts
  import opened Rial
  import opened Sorting

  type Guid = nat

  /** A covered obligation, or what remains of one. */
  datatype Item = Item(reference: Guid, month: int, component: int, amount: real)

  datatype Error = BadArgument | InvalidOperation
  datatype Result<+T> = Ok(value: T) | Err(error: Error)

  datatype Snapshot = Snapshot(covered: real, replenished: real, outstanding: real, oldestFirst: seq<Item>)
  datatype Plan = Plan(tendered: real, principal: real, lostFundReturn: real, before: Snapshot)

  predicate Valid(item: Item) {
    item.reference != 0 && item.month >= 1 && item.component >= 0 && WholeNonNegative(item.amount) && item.amount != 0.0
  }

  /** By contract month, then component, then reference. */
  predicate Before(a: Item, b: Item) {
    || a.month < b.month
    || (a.month == b.month && a.component < b.component)
    || (a.month == b.month && a.component == b.component && a.reference < b.reference)
  }

  function OldestFirst(items: seq<Item>): seq<Item> {
    Sort(Before, items)
  }

  function Sum(items: seq<Item>): real {
    if items == [] then 0.0 else items[0].amount + Sum(items[1..])
  }

  function References(items: seq<Item>): set<Guid> {
    set i | 0 <= i < |items| :: items[i].reference
  }

  predicate Unique(items: seq<Item>) {
    forall i, j :: 0 <= i < j < |items| ==> items[i].reference != items[j].reference
  }

  predicate Positive(items: seq<Item>) {
    forall i :: 0 <= i < |items| ==> items[i].amount > 0.0
  }

  predicate Sorted(items: seq<Item>) {
    StrictlyOrdered(Before, items)
  }

  /** Apply an amount to the items in order; what is left of each, paid ones dropped. */
  function Drain(items: seq<Item>, amount: real): seq<Item> {
    if items == [] then []
    else
      var applied := if amount <= items[0].amount then amount else items[0].amount;
      var rest := Drain(items[1..], amount - applied);
      if items[0].amount - applied > 0.0 then [items[0].(amount := items[0].amount - applied)] + rest else rest
  }

  function Outstanding(items: seq<Item>, replenished: real): Result<Snapshot> {
    if !WholeNonNegative(replenished) then Err(BadArgument)
    else if exists i :: 0 <= i < |items| && !Valid(items[i]) then Err(BadArgument)
    else if |References(items)| != |items| then Err(BadArgument)
    else if replenished > Sum(items) then Err(InvalidOperation)
    else
      var left := Drain(OldestFirst(items), replenished);
      Ok(Snapshot(Sum(items), replenished, Sum(left), left))
  }

  // ---- the program ----

  /** `CalculateOutstanding`. */
  method CalculateOutstanding(items: seq<Item>, replenished: real) returns (result: Result<Snapshot>)
    ensures result == Outstanding(items, replenished)
  {
    hide Valid, Whole, Sum, OldestFirst, Drain;
    if !WholeNonNegative(replenished) {
      return Err(BadArgument);
    }
    for i := 0 to |items|
      invariant forall k :: 0 <= k < i ==> Valid(items[k])
    {
      if !Valid(items[i]) {
        return Err(BadArgument);
      }
    }
    var ordered := OldestFirst(items);
    if |References(items)| != |items| {
      return Err(BadArgument);
    }
    var total := Sum(items);
    if replenished > total {
      return Err(InvalidOperation);
    }
    var outstanding := ApplyInOrder(ordered, replenished);
    result := Ok(Snapshot(total, replenished, Sum(outstanding), outstanding));
  }

  /** The loop over the ordered items. */
  method ApplyInOrder(ordered: seq<Item>, replenished: real) returns (outstanding: seq<Item>)
    ensures outstanding == Drain(ordered, replenished)
  {
    var priorRemaining := replenished;
    outstanding := [];
    for i := 0 to |ordered|
      invariant outstanding + Drain(ordered[i..], priorRemaining) == Drain(ordered, replenished)
    {
      var item := ordered[i];
      var priorApplied := if priorRemaining <= item.amount then priorRemaining else item.amount;
      ghost var rest := Drain(ordered[i + 1..], priorRemaining - priorApplied);
      assert ordered[i..][1..] == ordered[i + 1..];
      priorRemaining := priorRemaining - priorApplied;
      var remaining := item.amount - priorApplied;
      if remaining > 0.0 {
        var left := item.(amount := remaining);
        assert outstanding + ([left] + rest) == (outstanding + [left]) + rest;
        outstanding := outstanding + [left];
      }
    }
    assert ordered[|ordered|..] == [];
  }

  /** `CreateFullPaymentPlan`. */
  function FullPaymentPlan(items: seq<Item>, replenished: real, lostFundReturn: real, tendered: real): Result<Plan> {
    if !WholeNonNegative(lostFundReturn) || !WholeNonNegative(tendered) then Err(BadArgument)
    else
      match Outstanding(items, replenished)
      case Err(e) => Err(e)
      case Ok(before) =>
        if before.outstanding <= 0.0 || tendered != before.outstanding + lostFundReturn then Err(InvalidOperation)
        else Ok(Plan(tendered, before.outstanding, lostFundReturn, before))
  }

  // ---- draining ----

  /** What is applied and what is left make up the whole. */
  lemma {:induction false} DrainConserves(items: seq<Item>, amount: real)
    requires Positive(items) && 0.0 <= amount <= Sum(items)
    ensures Sum(Drain(items, amount)) + amount == Sum(items)
  {
    if items != [] {
      var applied := if amount <= items[0].amount then amount else items[0].amount;
      SumNonNegative(items[1..]);
      DrainConserves(items[1..], amount - applied);
      var rest := Drain(items[1..], amount - applied);
      if items[0].amount - applied > 0.0 {
        assert ([items[0].(amount := items[0].amount - applied)] + rest)[1..] == rest;
      }
    }
  }

  lemma {:induction false} SumNonNegative(items: seq<Item>)
    requires Positive(items)
    ensures Sum(items) >= 0.0
  {
    if items != [] {
      SumNonNegative(items[1..]);
    }
  }

  lemma {:induction false} DrainNothing(items: seq<Item>)
    requires Positive(items)
    ensures Drain(items, 0.0) == items
  {
    if items != [] {
      DrainNothing(items[1..]);
      assert items == [items[0]] + items[1..];
    }
  }

  lemma {:induction false} DrainKeepsPositive(items: seq<Item>, amount: real)
    requires Positive(items)
    ensures Positive(Drain(items, amount))
  {
    if items != [] {
      var applied := if amount <= items[0].amount then amount else items[0].amount;
      DrainKeepsPositive(items[1..], amount - applied);
    }
  }

  /** Two payments one after the other are one payment of their sum. */
  lemma {:induction false} DrainComposes(items: seq<Item>, first: real, second: real)
    requires Positive(items) && first >= 0.0 && second >= 0.0
    ensures Drain(Drain(items, first), second) == Drain(items, first + second)
  {
    if items != [] {
      var head, tail := items[0], items[1..];
      if first < head.amount {
        var left := head.(amount := head.amount - first);
        DrainNothing(tail);
        var once := Drain(items, first);
        assert once == [left] + tail;
        assert once[0] == left && once[1..] == tail;
      } else {
        DrainComposes(tail, first - head.amount, second);
        assert first + second - head.amount == (first - head.amount) + second;
        if first + second == head.amount {
          DrainNothing(tail);
        }
      }
    }
  }
}
