/** Laws of the arrears policy over every list of covered items and every sequence of payments. */
module ArrearsTheorems {
  import opened Texts
  import opened Rial
  import opened Sorting
  import opened Arrears

  // ---- references ----

  /** The distinct count equals the length exactly when no reference repeats. */
  lemma {:induction false} DistinctCountMeansUnique(items: seq<Item>)
    ensures |References(items)| <= |items|
    ensures |References(items)| == |items| <==> Unique(items)
    decreases |items|
  {
    if items != [] {
      var init, last := items[..|items| - 1], items[|items| - 1];
      DistinctCountMeansUnique(init);
      assert References(items) == References(init) + {last.reference} by {
        forall r | r in References(items) ensures r in References(init) + {last.reference} {
          var i :| 0 <= i < |items| && items[i].reference == r;
          assert i < |init| ==> init[i].reference == r;
        }
        forall r | r in References(init) ensures r in References(items) {
          var i :| 0 <= i < |init| && init[i].reference == r;
          assert items[i].reference == r;
        }
        assert items[|items| - 1].reference == last.reference;
      }
      if last.reference in References(init) {
        var i :| 0 <= i < |init| && init[i].reference == last.reference;
        assert items[i].reference == items[|items| - 1].reference;
        assert References(items) == References(init);
      } else {
        forall i, j | 0 <= i < j < |items| && Unique(init) ensures items[i].reference != items[j].reference {
          if j < |init| {
            assert init[i].reference != init[j].reference;
          } else {
            assert init[i].reference in References(init);
          }
        }
        if Unique(items) {
          assert Unique(init);
        }
      }
    }
  }

  // ---- sorting ----

  lemma {:induction false} SumOfInsert(item: Item, sorted: seq<Item>)
    ensures Sum(Insert(Before, item, sorted)) == Sum(sorted) + item.amount
  {
    if sorted == [] || !Before(sorted[0], item) {
      assert ([item] + sorted)[1..] == sorted;
    } else {
      SumOfInsert(item, sorted[1..]);
      var rest := Insert(Before, item, sorted[1..]);
      assert ([sorted[0]] + rest)[1..] == rest;
    }
  }

  lemma {:induction false} OrderingKeepsTheSum(items: seq<Item>)
    ensures Sum(OldestFirst(items)) == Sum(items)
  {
    if items != [] {
      OrderingKeepsTheSum(items[1..]);
      SumOfInsert(items[0], OldestFirst(items[1..]));
    }
  }

  lemma OldestFirstKeeps(items: seq<Item>)
    ensures multiset(OldestFirst(items)) == multiset(items) && |OldestFirst(items)| == |items|
    ensures Sum(OldestFirst(items)) == Sum(items)
  {
    SortPermutes(Before, items);
    OrderingKeepsTheSum(items);
  }

  /** Items with different references are strictly ordered: no two have the same rank. */
  lemma OldestFirstSorts(items: seq<Item>)
    requires Unique(items)
    ensures Sorted(OldestFirst(items))
  {
    hide OldestFirst;
    OldestFirstKeeps(items);
    UniqueIsPermuted(items, OldestFirst(items));
    OldestFirstOrders(items);
  }

  lemma OldestFirstOrders(items: seq<Item>)
    ensures Ordered(Before, OldestFirst(items))
  {
    SortOrders(Before, items);
  }

  lemma UniqueIsPermuted(items: seq<Item>, others: seq<Item>)
    requires Unique(items) && multiset(items) == multiset(others)
    ensures Unique(others)
  {
    hide Unique;
    SameElements(items, others);
    DistinctCountMeansUnique(items);
    DistinctCountMeansUnique(others);
  }

  lemma SortedIsOrdered(items: seq<Item>)
    requires Sorted(items)
    ensures Ordered(Before, items)
  {
  }

  /** The answer, accepted or refused, does not depend on the order in which the items are given. */
  lemma OrderDoesNotMatter(items: seq<Item>, others: seq<Item>, replenished: real)
    requires multiset(items) == multiset(others)
    ensures Outstanding(items, replenished) == Outstanding(others, replenished)
  {
    hide Valid, Whole, Drain;
    SameElements(items, others);
    OldestFirstKeeps(items);
    OldestFirstKeeps(others);
    DistinctCountMeansUnique(items);
    DistinctCountMeansUnique(others);
    if |References(items)| == |items| {
      OldestFirstSorts(items);
      OldestFirstSorts(others);
      SortedIsOrdered(OldestFirst(items));
      OneOrder(Before, OldestFirst(items), OldestFirst(others));
    }
  }

  lemma SameElements(items: seq<Item>, others: seq<Item>)
    requires multiset(items) == multiset(others)
    ensures |items| == |others| && References(items) == References(others)
    ensures (exists i :: 0 <= i < |items| && !Valid(items[i])) <==> (exists i :: 0 <= i < |others| && !Valid(others[i]))
  {
    hide Valid;
    SameSize(items, others);
    forall i | 0 <= i < |items| ensures items[i] in others {
      assert items[i] in multiset(others);
    }
    forall i | 0 <= i < |others| ensures others[i] in items {
      assert others[i] in multiset(items);
    }
  }

  // ---- the closed form ----

  /** How many items an amount pays off completely. */
  function PaidOff(items: seq<Item>, amount: real): nat {
    if items == [] || amount < items[0].amount then 0 else 1 + PaidOff(items[1..], amount - items[0].amount)
  }

  /** The amount reaches the running total of the first `k` items and not that of the next. */
  predicate PaysOff(items: seq<Item>, amount: real, k: nat) {
    && k <= |items| && Sum(items[..k]) <= amount
    && (k < |items| ==> amount < Sum(items[..k + 1]))
  }

  /** What is left once `k` items are paid off: the rest, the first of it reduced. */
  function Remainder(items: seq<Item>, amount: real, k: nat): seq<Item>
    requires k <= |items|
  {
    if k == |items| then [] else [items[k].(amount := Sum(items[..k + 1]) - amount)] + items[k + 1..]
  }

  lemma NoneReached(items: seq<Item>, amount: real)
    requires Positive(items) && items != [] && 0.0 <= amount < items[0].amount
    ensures PaysOff(items, amount, 0) && Drain(items, amount) == Remainder(items, amount, 0)
  {
    DrainNothing(items[1..]);
    assert items[..1] == [items[0]] && [items[0]][1..] == [] && items[..0] == [];
  }

  lemma OneMoreReached(items: seq<Item>, amount: real, k: nat)
    requires items != [] && amount >= items[0].amount
    requires PaysOff(items[1..], amount - items[0].amount, k)
    ensures PaysOff(items, amount, k + 1)
    ensures Remainder(items, amount, k + 1) == Remainder(items[1..], amount - items[0].amount, k)
  {
    var tail := items[1..];
    assert items[..k + 1][1..] == tail[..k];
    if k < |tail| {
      assert items[..k + 2][1..] == tail[..k + 1];
      assert items[k + 2..] == tail[k + 1..];
    }
  }

  /** The items paid off are those whose running total the amount reaches; the outstanding list is the rest, with at
      most its first item reduced. */
  lemma {:induction false} OutstandingIsASuffix(items: seq<Item>, amount: real)
    requires Positive(items) && amount >= 0.0
    ensures var k := PaidOff(items, amount);
            PaysOff(items, amount, k) && Drain(items, amount) == Remainder(items, amount, k)
  {
    hide Remainder, PaysOff;
    if items == [] {
      Empty(amount);
    } else if amount < items[0].amount {
      NoneReached(items, amount);
    } else {
      OutstandingIsASuffix(items[1..], amount - items[0].amount);
      OneMoreReached(items, amount, PaidOff(items[1..], amount - items[0].amount));
    }
  }

  lemma Empty(amount: real)
    requires amount >= 0.0
    ensures PaysOff([], amount, 0) && Remainder([], amount, 0) == []
  {
  }

  lemma DrainKeepsOrder(items: seq<Item>, amount: real)
    requires Positive(items) && amount >= 0.0 && Sorted(items) && Unique(items)
    ensures Sorted(Drain(items, amount)) && Unique(Drain(items, amount))
  {
    OutstandingIsASuffix(items, amount);
    var k, left := PaidOff(items, amount), Drain(items, amount);
    forall i | 0 <= i < |left|
      ensures left[i].reference == items[k + i].reference && left[i].month == items[k + i].month
              && left[i].component == items[k + i].component
    {
    }
  }

  lemma {:induction false} DrainKeepsValid(items: seq<Item>, amount: real)
    requires WholeNonNegative(amount) && forall i :: 0 <= i < |items| ==> Valid(items[i])
    ensures forall i :: 0 <= i < |Drain(items, amount)| ==> Valid(Drain(items, amount)[i])
  {
    hide Whole;
    if items != [] {
      assert Valid(items[0]);
      var applied := if amount <= items[0].amount then amount else items[0].amount;
      WholeDifference(amount, applied);
      WholeDifference(items[0].amount, applied);
      DrainKeepsValid(items[1..], amount - applied);
    }
  }

  lemma ValidIsPositive(items: seq<Item>)
    requires forall i :: 0 <= i < |items| ==> Valid(items[i])
    ensures Positive(items)
  {
  }

  // ---- payments ----

  /** What an accepted calculation says: outstanding and replenished amounts make up the coverage exactly, and the
      list is the oldest-first remainder. */
  lemma OutstandingConserves(items: seq<Item>, replenished: real)
    requires Outstanding(items, replenished).Ok?
    ensures var s := Outstanding(items, replenished).value;
            && s.covered == Sum(items) && s.outstanding + s.replenished == s.covered && s.outstanding >= 0.0
            && s.outstanding == Sum(s.oldestFirst) && s.oldestFirst == Drain(OldestFirst(items), replenished)
            && Positive(s.oldestFirst) && Sorted(s.oldestFirst)
  {
    hide Valid, Whole, OldestFirst, Drain;
    AcceptedItems(items, replenished);
    DrainConserves(OldestFirst(items), replenished);
    DrainKeepsPositive(OldestFirst(items), replenished);
    DrainKeepsOrder(OldestFirst(items), replenished);
    SumNonNegative(Drain(OldestFirst(items), replenished));
  }

  /** What is accepted and why not: amounts, items and references are checked before the sum. */
  lemma OutstandingDecides(items: seq<Item>, replenished: real)
    ensures var proper := && WholeNonNegative(replenished)
                          && (forall i :: 0 <= i < |items| ==> Valid(items[i])) && Unique(items);
            && (Outstanding(items, replenished).Ok? <==> proper && replenished <= Sum(items))
            && (!proper ==> Outstanding(items, replenished) == Err(BadArgument))
            && (proper && replenished > Sum(items) ==> Outstanding(items, replenished) == Err(InvalidOperation))
  {
    hide Valid, Whole, Unique, References, Drain, OldestFirst;
    DistinctCountMeansUnique(items);
  }

  /** Nothing is paid on an item while anything is owed for an earlier contract month, or for an earlier component or a
      smaller reference of the same month. */
  lemma OldestIsPaidFirst(items: seq<Item>, replenished: real, older: nat, newer: nat)
    requires Outstanding(items, replenished).Ok? && older < |items| && newer < |items|
    requires var a, b := items[older], items[newer];
             || a.month < b.month
             || (a.month == b.month && a.component < b.component)
             || (a.month == b.month && a.component == b.component && a.reference < b.reference)
    ensures var left := Outstanding(items, replenished).value.oldestFirst;
            (exists i :: 0 <= i < |left| && left[i].reference == items[older].reference) ==> items[newer] in left
  {
    hide Valid, Whole, OldestFirst, Drain, Unique, Sorted;
    AcceptedItems(items, replenished);
    var ordered := OldestFirst(items);
    var p := PlaceOf(items, older);
    var q := PlaceOf(items, newer);
    PlacedBefore(ordered, p, q);
    DrainedInOrder(ordered, replenished, p, q);
  }

  lemma PlaceOf(items: seq<Item>, i: nat) returns (p: nat)
    requires i < |items|
    ensures p < |OldestFirst(items)| && OldestFirst(items)[p] == items[i]
  {
    hide OldestFirst;
    OldestFirstKeeps(items);
    assert items[i] in multiset(OldestFirst(items));
    p :| p < |OldestFirst(items)| && OldestFirst(items)[p] == items[i];
  }

  lemma DrainedInOrder(ordered: seq<Item>, amount: real, p: nat, q: nat)
    requires Positive(ordered) && Unique(ordered) && amount >= 0.0 && p < q < |ordered|
    ensures var left := Drain(ordered, amount);
            (exists i :: 0 <= i < |left| && left[i].reference == ordered[p].reference) ==> ordered[q] in left
  {
    hide Drain;
    OutstandingIsASuffix(ordered, amount);
    var left, k := Drain(ordered, amount), PaidOff(ordered, amount);
    if i :| 0 <= i < |left| && left[i].reference == ordered[p].reference {
      assert ordered[k + i].reference == ordered[p].reference;
      assert left[q - k] == ordered[q];
    }
  }

  lemma PlacedBefore(ordered: seq<Item>, p: nat, q: nat)
    requires Sorted(ordered) && p < |ordered| && q < |ordered|
    requires var a, b := ordered[p], ordered[q];
             || a.month < b.month
             || (a.month == b.month && a.component < b.component)
             || (a.month == b.month && a.component == b.component && a.reference < b.reference)
    ensures p < q
  {
  }

  /** Accepted items, put in order. */
  lemma AcceptedItems(items: seq<Item>, replenished: real)
    requires Outstanding(items, replenished).Ok?
    ensures var ordered := OldestFirst(items);
            && |ordered| == |items| && Sum(ordered) == Sum(items)
            && (forall i :: 0 <= i < |ordered| ==> Valid(ordered[i]))
            && Positive(ordered) && Sorted(ordered) && Unique(ordered)
  {
    hide Valid, Whole, Drain;
    OldestFirstKeeps(items);
    DistinctCountMeansUnique(items);
    OldestFirstSorts(items);
    var ordered := OldestFirst(items);
    SameElements(ordered, items);
    DistinctCountMeansUnique(ordered);
    ValidIsPositive(ordered);
  }

  /** Paying a second amount off what the first left is paying both at once off the original items, refusals
      included. */
  lemma PaymentsCompose(items: seq<Item>, first: real, second: real)
    requires Outstanding(items, first).Ok? && WholeNonNegative(second)
    ensures var left := Outstanding(items, first).value;
            Outstanding(items, first + second) ==
            match Outstanding(left.oldestFirst, second)
            case Err(e) => Err(InvalidOperation)
            case Ok(s) => Ok(Snapshot(left.covered, first + second, s.outstanding, s.oldestFirst))
    ensures Outstanding(Outstanding(items, first).value.oldestFirst, second).Err? ==>
              Outstanding(Outstanding(items, first).value.oldestFirst, second).error == InvalidOperation
  {
    hide Valid, Whole, Drain, OldestFirst, References;
    var ordered := OldestFirst(items);
    AcceptedItems(items, first);
    var left := Drain(ordered, first);
    DrainConserves(ordered, first);
    DrainKeepsValid(ordered, first);
    ValidIsPositive(left);
    DrainKeepsOrder(ordered, first);
    DistinctCountMeansUnique(left);
    StaysOrdered(left);
    DrainComposes(ordered, first, second);
    WholeSum(first, second);
  }

  lemma WholeSum(x: real, y: real)
    requires WholeNonNegative(x) && WholeNonNegative(y)
    ensures WholeNonNegative(x + y)
  {
    var n := x.Floor + y.Floor;
    assert n as real == x + y;
    FloorIs(x + y, n);
  }

  lemma StaysOrdered(items: seq<Item>)
    requires Sorted(items) && Unique(items)
    ensures OldestFirst(items) == items
  {
    hide OldestFirst;
    OldestFirstKeeps(items);
    OldestFirstSorts(items);
    SortedIsOrdered(OldestFirst(items));
    OneOrder(Before, OldestFirst(items), items);
  }

  /** A plan is accepted exactly for the full outstanding principal plus the full return, when anything is
      outstanding; and carrying it out leaves nothing outstanding. */
  lemma FullPlanClearsEverything(items: seq<Item>, replenished: real, lostFundReturn: real, tendered: real)
    ensures var plan := FullPaymentPlan(items, replenished, lostFundReturn, tendered);
            && (plan.Ok? <==>
                && WholeNonNegative(lostFundReturn) && WholeNonNegative(tendered)
                && Outstanding(items, replenished).Ok?
                && Sum(items) > replenished && tendered == Sum(items) - replenished + lostFundReturn)
            && (plan.Ok? ==>
                  && plan.value.principal == Sum(items) - replenished
                  && Outstanding(items, replenished + plan.value.principal) ==
                     Ok(Snapshot(Sum(items), Sum(items), 0.0, [])))
  {
    hide Valid, Whole, Drain, OldestFirst, References;
    if Outstanding(items, replenished).Ok? {
      OutstandingConserves(items, replenished);
      AcceptedItems(items, replenished);
      WholeTotal(OldestFirst(items));
      NothingLeft(OldestFirst(items));
    }
  }

  lemma {:induction false} WholeTotal(items: seq<Item>)
    requires forall i :: 0 <= i < |items| ==> Valid(items[i])
    ensures WholeNonNegative(Sum(items))
  {
    hide Whole;
    if items == [] {
      assert Whole(0.0) by { ZeroIsWhole(); }
    } else {
      assert Valid(items[0]);
      WholeTotal(items[1..]);
      WholeSum(items[0].amount, Sum(items[1..]));
    }
  }

  lemma ZeroIsWhole()
    ensures Whole(0.0)
  {
  }

  lemma NothingLeft(items: seq<Item>)
    requires Positive(items)
    ensures Drain(items, Sum(items)) == [] && Sum([]) == 0.0
  {
    SumNonNegative(items);
    OutstandingIsASuffix(items, Sum(items));
    var k := PaidOff(items, Sum(items));
    if k < |items| {
      PrefixBounded(items, k + 1);
    }
  }

  lemma {:induction false} PrefixBounded(items: seq<Item>, k: nat)
    requires Positive(items) && k <= |items|
    ensures Sum(items[..k]) <= Sum(items)
  {
    if k > 0 {
      PrefixBounded(items[1..], k - 1);
      assert items[..k][1..] == items[1..][..k - 1];
    } else {
      SumNonNegative(items);
    }
  }
}
