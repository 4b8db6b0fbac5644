/** The gate into normal settlement: `EfNormalMaturityService.PrepareAsync`. */
module Maturity {
  import opened Texts
  import opened Sorting
  import opened Workflows
  import opened Delinquency

  type Guid = nat

  const MONTHS := 12

  datatype Obligation = Obligation(id: Guid, month: int, dueAt: int, closedAt: Option<int>, status: ObligationStatus)
  datatype Coverage = Coverage(contractId: Guid, obligationId: Guid, succeeded: bool)
  datatype LostReturn = LostReturn(contractId: Guid, calculated: Option<real>)

  /** The rows the gate reads. Obligations are those of the contract; the other tables are whole. */
  datatype Rows = Rows(
    obligations: seq<Obligation>,
    delinquency: Option<(bool, nat)>,
    settlements: nat,
    coverages: seq<Coverage>,
    lostReturns: seq<LostReturn>)

  datatype Outcome = NotFound | AlreadyPrepared | InvalidState | NotMature | Blocked | Prepared

  // ---- the query's order ----

  predicate EarlierMonth(a: Obligation, b: Obligation) {
    a.month < b.month
  }

  function ByMonth(rows: seq<Obligation>): (r: seq<Obligation>)
    ensures |r| == |rows|
  {
    Sort(EarlierMonth, rows)
  }

  /** `SequenceEqual(Enumerable.Range(1, 12))`. */
  predicate Numbered(rows: seq<Obligation>) {
    forall i :: 0 <= i < |rows| ==> rows[i].month == i + 1
  }

  predicate Finished(o: Obligation) {
    o.closedAt.Some? && (o.status == Paid || o.status == Covered)
  }

  function CoveredIds(rows: seq<Obligation>): seq<Guid> {
    if rows == [] then []
    else (if rows[0].status == Covered then [rows[0].id] else []) + CoveredIds(rows[1..])
  }

  /** The distinct covered obligations with a succeeded transfer. */
  function SucceededIds(ids: seq<Guid>, coverages: seq<Coverage>): set<Guid> {
    set c | c in coverages && c.succeeded && c.obligationId in ids :: c.obligationId
  }

  /** What stands in the way of a lease in this status at this time. */
  function Gate(contractId: Guid, status: LeaseStatus, rows: Rows, now: int): Outcome {
    if status.SettlementPending? || status.Settled? then AlreadyPrepared
    else if status != Active then InvalidState
    else
      var months := ByMonth(rows.obligations);
      if |months| != MONTHS || !Numbered(months) then NotMature
      else
        var final := months[MONTHS - 1];
        if final.dueAt > now || final.closedAt.None? || final.closedAt.value > now
           || exists o :: o in months && !Finished(o)
        then NotMature
        else if rows.delinquency.Some?
                && (rows.delinquency.value.0 || rows.delinquency.value.1 >= CANCELLATION_THRESHOLD)
        then Blocked
        else if rows.settlements > 0 then Blocked
        else if |CoveredIds(months)| > 0
                && |SucceededIds(CoveredIds(months), rows.coverages)| != |CoveredIds(months)|
        then Blocked
        else if exists c :: c in rows.coverages && c.contractId == contractId && !c.succeeded then Blocked
        else if exists r :: r in rows.lostReturns && r.contractId == contractId && r.calculated.None? then Blocked
        else Prepared
  }

  /** The service's view of one contract. */
  class NormalMaturityService {
    var status: Option<LeaseStatus>
    var transitions: seq<Edge<LeaseStatus>>

    constructor (status: Option<LeaseStatus>)
      ensures this.status == status && transitions == []
    {
      this.status := status;
      transitions := [];
    }

    method PrepareAsync(contractId: Guid, rows: Rows, now: int) returns (outcome: Outcome)
      modifies this
      ensures outcome == if old(status).None? then NotFound else Gate(contractId, old(status).value, rows, now)
      ensures outcome == Prepared ==>
                && status == Some(SettlementPending)
                && transitions == old(transitions) + [Edge(Active, SettlementPending)]
                && LeaseEdge(Active, SettlementPending)
      ensures outcome != Prepared ==> status == old(status) && transitions == old(transitions)
    {
      hide ByMonth;
      if status.None? {
        return NotFound;
      }
      var current := status.value;
      if current == SettlementPending || current == Settled {
        return AlreadyPrepared;
      }
      if current != Active {
        return InvalidState;
      }
      var obligations := ByMonth(rows.obligations);
      if |obligations| != MONTHS || !Numbered(obligations) {
        return NotMature;
      }
      var final := obligations[MONTHS - 1];
      if final.dueAt > now || final.closedAt.None? || final.closedAt.value > now {
        return NotMature;
      }
      for i := 0 to |obligations|
        invariant forall k :: 0 <= k < i ==> Finished(obligations[k])
      {
        if !Finished(obligations[i]) {
          assert obligations[i] in obligations;
          return NotMature;
        }
      }
      if rows.delinquency.Some?
         && (rows.delinquency.value.0 || rows.delinquency.value.1 >= CANCELLATION_THRESHOLD)
      {
        return Blocked;
      }
      if rows.settlements > 0 {
        return Blocked;
      }
      var covered := CoveredIds(obligations);
      if |covered| > 0 {
        var succeeded := SucceededIds(covered, rows.coverages);
        if |succeeded| != |covered| {
          return Blocked;
        }
      }
      var unresolved := exists c :: c in rows.coverages && c.contractId == contractId && !c.succeeded;
      if unresolved {
        return Blocked;
      }
      var open := exists r :: r in rows.lostReturns && r.contractId == contractId && r.calculated.None?;
      if open {
        return Blocked;
      }
      status := Some(SettlementPending);
      transitions := transitions + [Edge(current, SettlementPending)];
      outcome := Prepared;
    }
  }

  // ---- what the gate means ----

  predicate Ascending(rows: seq<Obligation>) {
    forall i, j :: 0 <= i < j < |rows| ==> rows[i].month <= rows[j].month
  }

  lemma ByMonthAscends(rows: seq<Obligation>)
    ensures Ascending(ByMonth(rows))
  {
    SortOrders(EarlierMonth, rows);
  }

  lemma SameRows(rows: seq<Obligation>, o: Obligation)
    ensures o in ByMonth(rows) <==> o in rows
  {
    SortPermutes(EarlierMonth, rows);
    assert o in multiset(ByMonth(rows)) <==> o in multiset(rows);
  }

  /** Every month from 1 to 12 is there. */
  predicate AllMonths(rows: seq<Obligation>) {
    forall m :: 1 <= m <= MONTHS ==> HasMonth(rows, m)
  }

  predicate HasMonth(rows: seq<Obligation>, m: int) {
    exists o :: o in rows && o.month == m
  }

  /** Twelve rows in month order carry the numbers 1 to 12 exactly when none of the twelve months is missing. */
  lemma NumberedMeansAllMonths(rows: seq<Obligation>)
    requires |rows| == MONTHS && Ascending(rows)
    ensures Numbered(rows) <==> AllMonths(rows)
  {
    if Numbered(rows) {
      forall m | 1 <= m <= MONTHS ensures HasMonth(rows, m) {
        assert rows[m - 1] in rows;
      }
    }
    if AllMonths(rows) {
      CountsUp(rows, MONTHS);
      forall i | 0 <= i < |rows| ensures rows[i].month == i + 1 {
        CountsUp(rows, i + 1);
      }
    }
  }

  /** With all months present the row of month `m` sits at place `m - 1`, by pigeonhole from both ends. */
  lemma CountsUp(rows: seq<Obligation>, m: nat)
    requires |rows| == MONTHS && Ascending(rows) && AllMonths(rows) && 1 <= m <= MONTHS
    ensures rows[m - 1].month == m
  {
    AtLeast(rows, m);
    AtMost(rows, m);
  }

  lemma InOrder(rows: seq<Obligation>, i: nat, j: nat)
    requires Ascending(rows) && i < |rows| && j < |rows|
    ensures i < j ==> rows[i].month <= rows[j].month
  {
  }

  /** Some row of month `m` has at least `m - 1` rows before it. */
  lemma {:induction false} AtMost(rows: seq<Obligation>, m: nat)
    requires |rows| == MONTHS && Ascending(rows) && AllMonths(rows) && 1 <= m <= MONTHS
    ensures rows[m - 1].month <= m
    ensures exists i :: m - 1 <= i < |rows| && rows[i].month == m
  {
    assert HasMonth(rows, m);
    var o :| o in rows && o.month == m;
    var i :| 0 <= i < |rows| && rows[i] == o;
    if m > 1 {
      AtMost(rows, m - 1);
      var j :| m - 2 <= j < |rows| && rows[j].month == m - 1;
      InOrder(rows, i, j);
    }
    assert m - 1 == i || rows[m - 1].month <= rows[i].month;
  }

  /** And at least `MONTHS - m` rows behind it. */
  lemma {:induction false} AtLeast(rows: seq<Obligation>, m: nat)
    requires |rows| == MONTHS && Ascending(rows) && AllMonths(rows) && 1 <= m <= MONTHS
    ensures rows[m - 1].month >= m
    ensures exists i :: 0 <= i <= m - 1 && rows[i].month == m
    decreases MONTHS - m
  {
    assert HasMonth(rows, m);
    var o :| o in rows && o.month == m;
    var i :| 0 <= i < |rows| && rows[i] == o;
    if m < MONTHS {
      AtLeast(rows, m + 1);
      var j :| 0 <= j <= m && rows[j].month == m + 1;
      InOrder(rows, j, i);
    }
    assert i == m - 1 || rows[i].month <= rows[m - 1].month;
  }

  // ---- covered months ----

  lemma {:induction false} CoveredIdsAre(rows: seq<Obligation>, id: Guid)
    ensures id in CoveredIds(rows) <==> exists o :: o in rows && o.status == Covered && o.id == id
  {
    if rows != [] {
      CoveredIdsAre(rows[1..], id);
      assert forall o :: o in rows <==> o == rows[0] || o in rows[1..];
    }
  }

  function Elements(ids: seq<Guid>): set<Guid> {
    set id | id in ids
  }

  lemma {:induction false} ElementsBounded(ids: seq<Guid>)
    ensures |Elements(ids)| <= |ids|
    ensures (forall i, j :: 0 <= i < j < |ids| ==> ids[i] != ids[j]) ==> |Elements(ids)| == |ids|
  {
    if ids != [] {
      ElementsBounded(ids[1..]);
      assert Elements(ids) == {ids[0]} + Elements(ids[1..]);
      if ids[0] in ids[1..] {
        assert Elements(ids) == Elements(ids[1..]);
        var k :| 0 <= k < |ids[1..]| && ids[1..][k] == ids[0];
        assert ids[k + 1] == ids[0];
      } else {
        assert forall i, j :: 0 <= i < j < |ids[1..]| ==> ids[1..][i] == ids[i + 1] && ids[1..][j] == ids[j + 1];
      }
    }
  }

  lemma SubsetOfSameSize(small: set<Guid>, large: set<Guid>)
    requires small <= large && |small| == |large|
    ensures small == large
  {
    if small != large {
      var x :| x in large && x !in small;
      SubsetSize(small, large - {x});
    }
  }

  lemma {:induction false} SubsetSize(small: set<Guid>, large: set<Guid>)
    requires small <= large
    ensures |small| <= |large|
    decreases small
  {
    if small != {} {
      var x :| x in small;
      SubsetSize(small - {x}, large - {x});
    }
  }

  predicate HasTransfer(id: Guid, coverages: seq<Coverage>) {
    exists c :: c in coverages && c.succeeded && c.obligationId == id
  }

  predicate DistinctIds(ids: seq<Guid>) {
    forall i, j :: 0 <= i < j < |ids| ==> ids[i] != ids[j]
  }

  /** The distinct count matches exactly when every covered month has a succeeded transfer. */
  lemma CountMeansAllTransferred(ids: seq<Guid>, coverages: seq<Coverage>)
    requires DistinctIds(ids)
    ensures |SucceededIds(ids, coverages)| == |ids| <==> forall id :: id in ids ==> HasTransfer(id, coverages)
  {
    var succeeded := SucceededIds(ids, coverages);
    ElementsBounded(ids);
    assert succeeded <= Elements(ids);
    if |succeeded| == |ids| {
      SubsetOfSameSize(succeeded, Elements(ids));
      forall id | id in ids ensures HasTransfer(id, coverages) {
        assert id in Elements(ids);
        assert id in succeeded;
      }
    }
    if forall id :: id in ids ==> HasTransfer(id, coverages) {
      forall id | id in Elements(ids) ensures id in succeeded {
        assert HasTransfer(id, coverages);
      }
      assert succeeded == Elements(ids);
    }
  }

  // ---- the gate, both ways ----

  function Ids(rows: seq<Obligation>): seq<Guid> {
    if rows == [] then [] else [rows[0].id] + Ids(rows[1..])
  }

  lemma {:induction false} IdsAre(rows: seq<Obligation>, id: Guid)
    ensures |Ids(rows)| == |rows|
    ensures id in Ids(rows) <==> exists o :: o in rows && o.id == id
  {
    if rows != [] {
      IdsAre(rows[1..], id);
      assert forall o :: o in rows <==> o == rows[0] || o in rows[1..];
    }
  }

  lemma ElementsOf(ids: seq<Guid>)
    requires ids != []
    ensures Elements(ids) == {ids[0]} + Elements(ids[1..])
    ensures ids[0] in Elements(ids[1..]) <==> ids[0] in ids[1..]
  {
  }

  lemma {:induction false} DistinctByCount(ids: seq<Guid>)
    requires |Elements(ids)| == |ids|
    ensures DistinctIds(ids)
  {
    hide Elements;
    if ids != [] {
      ElementsBounded(ids[1..]);
      ElementsOf(ids);
      OneMoreElement(ids[0], Elements(ids[1..]));
      DistinctByCount(ids[1..]);
      OneMoreDistinct(ids[0], ids[1..]);
      assert ids == [ids[0]] + ids[1..];
    }
  }

  lemma OneMoreElement(id: Guid, ids: set<Guid>)
    ensures |{id} + ids| == if id in ids then |ids| else |ids| + 1
  {
    if id in ids {
      assert {id} + ids == ids;
    }
  }

  lemma OneMoreDistinct(id: Guid, ids: seq<Guid>)
    requires id !in ids && DistinctIds(ids)
    ensures DistinctIds([id] + ids)
  {
  }

  /** Putting rows in order keeps their ids distinct. */
  lemma SortedIdsDistinct(rows: seq<Obligation>)
    requires DistinctIds(Ids(rows))
    ensures DistinctIds(Ids(ByMonth(rows)))
  {
    ElementsBounded(Ids(rows));
    IdsAre(rows, 0);
    IdsAre(ByMonth(rows), 0);
    forall id: Guid ensures id in Ids(ByMonth(rows)) <==> id in Ids(rows) {
      IdsAre(rows, id);
      IdsAre(ByMonth(rows), id);
      forall o: Obligation ensures o in ByMonth(rows) <==> o in rows {
        SameRows(rows, o);
      }
    }
    assert Elements(Ids(ByMonth(rows))) == Elements(Ids(rows));
    DistinctByCount(Ids(ByMonth(rows)));
  }

  lemma HeadIsFresh(ids: seq<Guid>)
    requires DistinctIds(ids) && ids != []
    ensures ids[0] !in ids[1..]
  {
    forall k | 1 <= k < |ids| ensures ids[k] != ids[0] {
    }
    assert forall k :: 0 <= k < |ids[1..]| ==> ids[1..][k] == ids[k + 1];
  }

  lemma {:induction false} CoveredIdsDistinct(rows: seq<Obligation>)
    requires DistinctIds(Ids(rows))
    ensures DistinctIds(CoveredIds(rows))
  {
    if rows != [] {
      assert Ids(rows)[1..] == Ids(rows[1..]);
      forall i, j | 0 <= i < j < |Ids(rows[1..])| ensures Ids(rows[1..])[i] != Ids(rows[1..])[j] {
        assert Ids(rows)[i + 1] == Ids(rows[1..])[i] && Ids(rows)[j + 1] == Ids(rows[1..])[j];
      }
      CoveredIdsDistinct(rows[1..]);
      HeadIsFresh(Ids(rows));
      CoveredIdsAre(rows[1..], rows[0].id);
      IdsAre(rows[1..], rows[0].id);
    }
  }

  /** Nothing about this contract is unresolved. */
  predicate Resolved(contractId: Guid, rows: Rows) {
    && (rows.delinquency.Some? ==>
          !rows.delinquency.value.0 && rows.delinquency.value.1 < CANCELLATION_THRESHOLD)
    && rows.settlements == 0
    && (forall c :: c in rows.coverages && c.contractId == contractId ==> c.succeeded)
    && (forall r :: r in rows.lostReturns && r.contractId == contractId ==> r.calculated.Some?)
  }

  /** The twelve contract months are all there and closed, each paid, or covered by a succeeded transfer, and the last
      fell due and was closed by now. */
  predicate Mature(rows: Rows, now: int) {
    && |rows.obligations| == MONTHS && AllMonths(rows.obligations)
    && (forall o :: o in rows.obligations ==>
          && Finished(o)
          && (o.status == Covered ==> HasTransfer(o.id, rows.coverages))
          && (o.month == MONTHS ==> o.dueAt <= now && o.closedAt.value <= now))
  }

  /** An active contract enters normal settlement exactly when it is mature and nothing is unresolved. */
  lemma PreparedMeansMature(contractId: Guid, rows: Rows, now: int)
    requires DistinctIds(Ids(rows.obligations))
    ensures Gate(contractId, Active, rows, now) == Prepared <==> Mature(rows, now) && Resolved(contractId, rows)
  {
    hide ByMonth, CoveredIds, SucceededIds, Ids, HasTransfer, DistinctIds;
    var months := ByMonth(rows.obligations);
    ByMonthAscends(rows.obligations);
    forall o: Obligation ensures o in months <==> o in rows.obligations {
      SameRows(rows.obligations, o);
    }
    SortedIdsDistinct(rows.obligations);
    CoveredIdsDistinct(months);
    CountMeansAllTransferred(CoveredIds(months), rows.coverages);
    forall id: Guid ensures id in CoveredIds(months) <==> exists o :: o in months && o.status == Covered && o.id == id {
      CoveredIdsAre(months, id);
    }
    if |months| == MONTHS {
      NumberedMeansAllMonths(months);
      AllMonthsAgree(months, rows.obligations);
      LastMonth(months);
    }
  }

  /** The twelve contract months are all there, closed and settled one way or the other, and over by now. */
  predicate Over(rows: Rows, now: int) {
    && |rows.obligations| == MONTHS && AllMonths(rows.obligations)
    && (forall o :: o in rows.obligations ==>
          && o.closedAt.Some? && (o.status == Paid || o.status == Covered)
          && (o.month == MONTHS ==> o.dueAt <= now && o.closedAt.value <= now))
  }

  /** And which answer it is otherwise: a contract under settlement is prepared already and no other than an active one
      is looked at; its months come before anything unresolved. */
  lemma GateDecides(contractId: Guid, status: LeaseStatus, rows: Rows, now: int)
    requires DistinctIds(Ids(rows.obligations))
    ensures Gate(contractId, status, rows, now) ==
            if status == SettlementPending || status == Settled then AlreadyPrepared
            else if status != Active then InvalidState
            else if !Over(rows, now) then NotMature
            else if Mature(rows, now) && Resolved(contractId, rows) then Prepared
            else Blocked
  {
    hide ByMonth, CoveredIds, SucceededIds, Ids, HasTransfer, DistinctIds;
    var months := ByMonth(rows.obligations);
    ByMonthAscends(rows.obligations);
    forall o: Obligation ensures o in months <==> o in rows.obligations {
      SameRows(rows.obligations, o);
    }
    if |months| == MONTHS {
      NumberedMeansAllMonths(months);
      AllMonthsAgree(months, rows.obligations);
      LastMonth(months);
    }
    PreparedMeansMature(contractId, rows, now);
  }

  lemma AllMonthsAgree(a: seq<Obligation>, b: seq<Obligation>)
    requires forall o :: o in a <==> o in b
    ensures AllMonths(a) <==> AllMonths(b)
  {
    forall m ensures HasMonth(a, m) <==> HasMonth(b, m) {
    }
  }

  lemma LastMonth(months: seq<Obligation>)
    requires |months| == MONTHS
    ensures Numbered(months) ==> forall o :: o in months ==> (o.month == MONTHS <==> o == months[MONTHS - 1])
  {
  }
}
