/** The bounded candidate queries of the reconciliation worker: which candidates a pass takes, and whose turn comes. */
module WorkerTurns {
  import opened Sorting

  type Id = nat

  /** A selected row with the time its query is ordered by. */
  datatype Candidate = Candidate(at: int, id: Id)

  predicate Earlier(a: Candidate, b: Candidate) {
    a.at < b.at || (a.at == b.at && a.id < b.id)
  }

  // ---- one query ----

  /** `orderby time, id` and `Take(limit)`. */
  function Batch(rows: seq<Candidate>, limit: nat): seq<Candidate> {
    var sorted := Sort(Earlier, rows);
    if |sorted| <= limit then sorted else sorted[..limit]
  }

  function Ahead(queue: set<Candidate>, c: Candidate): set<Candidate> {
    set other | other in queue && Earlier(other, c)
  }

  /** Those with fewer candidates ahead of them than fit a batch. */
  function Taken(queue: set<Candidate>, limit: nat): set<Candidate> {
    set c | c in queue && |Ahead(queue, c)| < limit
  }

  function Elements(rows: seq<Candidate>): set<Candidate> {
    set c | c in rows
  }

  predicate Distinct(rows: seq<Candidate>) {
    forall i, j :: 0 <= i < j < |rows| ==> rows[i] != rows[j]
  }

  lemma {:induction false} DistinctCount(rows: seq<Candidate>)
    requires Distinct(rows)
    ensures |Elements(rows)| == |rows|
  {
    if rows != [] {
      DistinctCount(rows[1..]);
      assert Elements(rows) == {rows[0]} + Elements(rows[1..]);
      assert forall i :: 0 <= i < |rows[1..]| ==> rows[1..][i] == rows[i + 1];
    }
  }

  lemma SortedRows(rows: seq<Candidate>)
    requires Distinct(rows)
    ensures var sorted := Sort(Earlier, rows);
            StrictlyOrdered(Earlier, sorted) && Elements(sorted) == Elements(rows) && Distinct(sorted)
  {
    var sorted := Sort(Earlier, rows);
    SortPermutes(Earlier, rows);
    SortOrders(Earlier, rows);
    forall c: Candidate ensures c in sorted <==> c in rows {
      assert c in multiset(sorted) <==> c in multiset(rows);
    }
    forall i, j | 0 <= i < j < |sorted| ensures sorted[i] != sorted[j] {
      TwiceCounts(sorted, i, j);
      OnceCounts(rows, sorted[i]);
    }
  }

  lemma TwiceCounts(rows: seq<Candidate>, i: nat, j: nat)
    requires i < j < |rows|
    ensures rows[i] == rows[j] ==> multiset(rows)[rows[i]] >= 2
  {
    assert rows == rows[..j] + [rows[j]] + rows[j + 1..];
    assert rows[i] in rows[..j];
  }

  lemma {:induction false} OnceCounts(rows: seq<Candidate>, c: Candidate)
    requires Distinct(rows)
    ensures multiset(rows)[c] <= 1
  {
    if rows != [] {
      assert rows == [rows[0]] + rows[1..];
      assert forall i :: 0 <= i < |rows[1..]| ==> rows[1..][i] == rows[i + 1];
      OnceCounts(rows[1..], c);
      if c == rows[0] {
        assert c !in rows[1..];
      }
    }
  }

  /** A pass takes exactly the rows with fewer than `limit` ahead of them. */
  lemma BatchTakesTheFirst(rows: seq<Candidate>, limit: nat)
    requires Distinct(rows)
    ensures Elements(Batch(rows, limit)) == Taken(Elements(rows), limit)
  {
    SortedRows(rows);
    var sorted, queue := Sort(Earlier, rows), Elements(rows);
    forall i | 0 <= i < |sorted| ensures |Ahead(queue, sorted[i])| == i {
      RankIs(sorted, i);
    }
    var batch := Batch(rows, limit);
    forall c: Candidate ensures c in batch <==> c in Taken(queue, limit) {
      if c in sorted {
        var i :| 0 <= i < |sorted| && sorted[i] == c;
        if i < limit {
          assert batch[i] == c;
        }
      }
    }
  }

  lemma RankIs(sorted: seq<Candidate>, i: nat)
    requires StrictlyOrdered(Earlier, sorted) && Distinct(sorted) && i < |sorted|
    ensures |Ahead(Elements(sorted), sorted[i])| == i
  {
    DistinctCount(sorted[..i]);
    var ahead := Ahead(Elements(sorted), sorted[i]);
    forall c: Candidate ensures c in ahead <==> c in sorted[..i] {
      if c in ahead {
        var k :| 0 <= k < |sorted| && sorted[k] == c;
        assert k < i;
      }
    }
    assert ahead == Elements(sorted[..i]);
  }

  // ---- one pass after the other ----

  datatype Row<+W> = Row(at: int, state: W)

  type Fleet<+W> = map<Id, Row<W>>

  /** What a pass does to the row of a candidate it takes. */
  type Visit<!W> = (Id, Row<W>) -> Row<W>

  function Queue<W>(selects: W -> bool, fleet: Fleet<W>): set<Candidate> {
    set id | id in fleet && selects(fleet[id].state) :: Candidate(fleet[id].at, id)
  }

  function Pass<W>(selects: W -> bool, limit: nat, call: Visit<W>, fleet: Fleet<W>): Fleet<W> {
    var taken := Taken(Queue(selects, fleet), limit);
    map id | id in fleet :: if Candidate(fleet[id].at, id) in taken then call(id, fleet[id]) else fleet[id]
  }

  /** Still selected, and not behind any other row it was ahead of. */
  predicate KeepsPlace<W>(selects: W -> bool, before: Row<W>, after: Row<W>) {
    selects(after.state) && after.at == before.at
  }

  /** The candidates a pass takes that give up their place. */
  function Released<W>(selects: W -> bool, limit: nat, call: Visit<W>, fleet: Fleet<W>): set<Candidate> {
    set c | c in Taken(Queue(selects, fleet), limit)
            && c.id in fleet && !KeepsPlace(selects, fleet[c.id], call(c.id, fleet[c.id]))
  }

  /** A row keeps its time or gets one after this. */
  ghost predicate StampsAfter<W(!new)>(call: Visit<W>, at: int) {
    forall id, row :: call(id, row).at == row.at || call(id, row).at > at
  }

  lemma TakenAreAhead(queue: set<Candidate>, limit: nat, c: Candidate, d: Candidate)
    requires c in queue && c !in Taken(queue, limit) && d in Taken(queue, limit)
    ensures Earlier(d, c)
  {
    if !Earlier(d, c) {
      assert Ahead(queue, c) <= Ahead(queue, d);
      Fewer(Ahead(queue, c), Ahead(queue, d));
    }
  }

  lemma {:induction false} Fewer(small: set<Candidate>, large: set<Candidate>)
    requires small <= large
    ensures |small| <= |large|
  {
    if small != {} {
      var c :| c in small;
      Fewer(small - {c}, large - {c});
    }
  }

  /** The candidates a pass takes that stay where they are. */
  function Staying<W>(selects: W -> bool, limit: nat, call: Visit<W>, fleet: Fleet<W>): set<Candidate> {
    Taken(Queue(selects, fleet), limit) - Released(selects, limit, call, fleet)
  }

  lemma {:induction false} Enumerated(queue: set<Candidate>) returns (rows: seq<Candidate>)
    ensures Distinct(rows) && Elements(rows) == queue
  {
    if queue == {} {
      rows := [];
    } else {
      var c :| c in queue;
      var others := Enumerated(queue - {c});
      rows := [c] + others;
      assert forall d :: d in Elements(rows) <==> d == c || d in Elements(others);
      forall j | 0 < j < |rows| ensures rows[j] != c {
        assert rows[j] in Elements(others);
      }
    }
  }

  /** While somebody waits the batch is full. */
  lemma FullBatch(queue: set<Candidate>, limit: nat, c: Candidate)
    requires c in queue && c !in Taken(queue, limit)
    ensures |Taken(queue, limit)| == limit
  {
    var rows := Enumerated(queue);
    BatchTakesTheFirst(rows, limit);
    SortedRows(rows);
    var sorted := Sort(Earlier, rows);
    if |sorted| > limit {
      DistinctCount(sorted[..limit]);
    }
  }

  lemma ReleasedCount<W>(selects: W -> bool, limit: nat, call: Visit<W>, fleet: Fleet<W>, c: Candidate)
    requires c in Queue(selects, fleet) && c !in Taken(Queue(selects, fleet), limit)
    ensures |Released(selects, limit, call, fleet)| == limit - |Staying(selects, limit, call, fleet)|
  {
    FullBatch(Queue(selects, fleet), limit, c);
    var taken, released := Taken(Queue(selects, fleet), limit), Released(selects, limit, call, fleet);
    assert taken == released + Staying(selects, limit, call, fleet);
  }

  /** Whoever waits is left alone by a pass, and has exactly those fewer ahead that gave up their place. */
  lemma PassMovesUp<W(!new)>(selects: W -> bool, limit: nat, call: Visit<W>, fleet: Fleet<W>, c: Candidate)
    requires StampsAfter(call, c.at)
    requires c in Queue(selects, fleet) && c !in Taken(Queue(selects, fleet), limit)
    ensures var after, released := Pass(selects, limit, call, fleet), Released(selects, limit, call, fleet);
            && after[c.id] == fleet[c.id] && c in Queue(selects, after)
            && Ahead(Queue(selects, after), c) == Ahead(Queue(selects, fleet), c) - released
            && |Ahead(Queue(selects, after), c)| == |Ahead(Queue(selects, fleet), c)| - |released|
  {
    var queue, after := Queue(selects, fleet), Pass(selects, limit, call, fleet);
    var released := Released(selects, limit, call, fleet);
    forall d | d in Taken(queue, limit) ensures Earlier(d, c) {
      TakenAreAhead(queue, limit, c, d);
    }
    forall d: Candidate
      ensures d in Ahead(Queue(selects, after), c) <==> d in Ahead(queue, c) - released
    {
      if d.id in fleet {
        assert StampsAfter(call, c.at);
        assert after[d.id] == if Candidate(fleet[d.id].at, d.id) in Taken(queue, limit)
                              then call(d.id, fleet[d.id]) else fleet[d.id];
      }
    }
    assert released <= Ahead(queue, c);
  }

  /** What one pass, and whatever happens before the next, may do to those who wait: rows come, change and go, but
      none gets ahead of this candidate and its own row is left alone. */
  ghost predicate Follows<W(!new)>(selects: W -> bool, limit: nat, call: Visit<W>, before: Fleet<W>, after: Fleet<W>,
                                   c: Candidate)
  {
    var passed := Pass(selects, limit, call, before);
    && c.id in passed && c.id in after && after[c.id] == passed[c.id]
    && forall id :: id in after && selects(after[id].state) ==>
         || after[id].at > c.at
         || (id in passed && selects(passed[id].state) && after[id].at == passed[id].at)
  }

  /** When nobody else does anything between two passes. */
  lemma PassFollows<W(!new)>(selects: W -> bool, limit: nat, call: Visit<W>, fleet: Fleet<W>, c: Candidate,
                             ids: set<Id>)
    requires c.id in fleet
    ensures Follows(selects, limit, call, fleet, Pass(selects, limit, call, fleet), c)
    ensures LeftAlone(selects, limit, call, fleet, Pass(selects, limit, call, fleet), ids)
  {
  }

  predicate HasTurn<W>(selects: W -> bool, limit: nat, fleet: Fleet<W>, c: Candidate) {
    c in Taken(Queue(selects, fleet), limit)
  }

  /** Others do not come between. */
  lemma MovesUp<W(!new)>(selects: W -> bool, limit: nat, call: Visit<W>, before: Fleet<W>, after: Fleet<W>,
                         c: Candidate)
    requires StampsAfter(call, c.at) && Follows(selects, limit, call, before, after, c)
    requires c in Queue(selects, before) && !HasTurn(selects, limit, before, c)
    ensures c in Queue(selects, after) && after[c.id] == before[c.id]
    ensures |Ahead(Queue(selects, after), c)| <=
            |Ahead(Queue(selects, before), c)| - |Released(selects, limit, call, before)|
  {
    hide Released, Taken;
    PassMovesUp(selects, limit, call, before, c);
    var passed := Pass(selects, limit, call, before);
    Fewer(Ahead(Queue(selects, after), c), Ahead(Queue(selects, passed), c));
  }

  /** It is this candidate's turn, or so many others give up their place. */
  predicate Moves<W>(selects: W -> bool, limit: nat, call: Visit<W>, fleet: Fleet<W>, c: Candidate, rate: nat) {
    HasTurn(selects, limit, fleet, c) || |Released(selects, limit, call, fleet)| >= rate
  }

  ghost predicate SameRow<W>(before: Fleet<W>, after: Fleet<W>, id: Id) {
    id in before && id in after && after[id] == before[id]
  }

  /** If every pass has enough candidates give up their place, this candidate's turn comes in time, and until then its
      row is left alone. */
  lemma {:induction false} TurnComes<W(!new)>(selects: W -> bool, limit: nat, calls: seq<Visit<W>>,
                                              fleets: seq<Fleet<W>>, c: Candidate, rate: nat)
    returns (k: nat)
    requires calls != [] && |fleets| == |calls| && c in Queue(selects, fleets[0])
    requires |Ahead(Queue(selects, fleets[0]), c)| < limit + rate * (|calls| - 1)
    requires forall k :: 0 <= k < |calls| ==>
               && StampsAfter(calls[k], c.at)
               && (c in Queue(selects, fleets[k]) ==> Moves(selects, limit, calls[k], fleets[k], c, rate))
    requires forall k :: 0 <= k < |calls| - 1 && !HasTurn(selects, limit, fleets[k], c) ==>
               Follows(selects, limit, calls[k], fleets[k], fleets[k + 1], c)
    ensures k < |calls| && HasTurn(selects, limit, fleets[k], c) && SameRow(fleets[0], fleets[k], c.id)
    decreases |calls|
  {
    hide Queue, Released, Pass, Ahead, Taken, Follows;
    Present(selects, fleets[0], c);
    if HasTurn(selects, limit, fleets[0], c) {
      k := 0;
    } else {
      FirstInLine(selects, limit, fleets[0], c);
      Less(rate, |calls|);
      assert Moves(selects, limit, calls[0], fleets[0], c, rate);
      assert Follows(selects, limit, calls[0], fleets[0], fleets[0 + 1], c);
      MovesUp(selects, limit, calls[0], fleets[0], fleets[1], c);
      Present(selects, fleets[1], c);
      forall j | 0 <= j < |calls| - 1
        ensures && StampsAfter(calls[1..][j], c.at)
                && (c in Queue(selects, fleets[1..][j]) ==>
                      Moves(selects, limit, calls[1..][j], fleets[1..][j], c, rate))
      {
        assert StampsAfter(calls[j + 1], c.at);
      }
      forall j | 0 <= j < |calls| - 2 && !HasTurn(selects, limit, fleets[1..][j], c)
        ensures Follows(selects, limit, calls[1..][j], fleets[1..][j], fleets[1..][j + 1], c)
      {
        assert !HasTurn(selects, limit, fleets[j + 1], c);
      }
      var later := TurnComes(selects, limit, calls[1..], fleets[1..], c, rate);
      k := later + 1;
    }
  }

  lemma Present<W>(selects: W -> bool, fleet: Fleet<W>, c: Candidate)
    requires c in Queue(selects, fleet)
    ensures c.id in fleet
  {
  }

  lemma FirstInLine<W>(selects: W -> bool, limit: nat, fleet: Fleet<W>, c: Candidate)
    requires c in Queue(selects, fleet) && !HasTurn(selects, limit, fleet, c)
    ensures |Ahead(Queue(selects, fleet), c)| >= limit
  {
  }

  lemma Less(rate: nat, n: nat)
    requires n > 1
    ensures rate * (n - 1) - rate == rate * (n - 1 - 1)
  {
  }

  /** These candidates are ahead and will keep their place. */
  ghost predicate Blocking<W(!new)>(selects: W -> bool, fleet: Fleet<W>, c: Candidate, ids: set<Id>,
                                    keeps: (Id, W) -> bool)
  {
    forall id :: id in ids ==>
      id in fleet && selects(fleet[id].state) && keeps(id, fleet[id].state) && Earlier(Candidate(fleet[id].at, id), c)
  }

  ghost predicate Holds<W(!new)>(selects: W -> bool, call: Visit<W>, ids: set<Id>, keeps: (Id, W) -> bool) {
    forall id, row: Row<W> :: id in ids && selects(row.state) && keeps(id, row.state) ==>
      KeepsPlace(selects, row, call(id, row)) && keeps(id, call(id, row).state)
  }

  /** Nothing but the pass changes these rows. */
  ghost predicate LeftAlone<W(!new)>(selects: W -> bool, limit: nat, call: Visit<W>, before: Fleet<W>, after: Fleet<W>,
                                     ids: set<Id>)
  {
    var passed := Pass(selects, limit, call, before);
    forall id :: id in ids && id in passed ==> id in after && after[id] == passed[id]
  }

  lemma BlockingStays<W(!new)>(selects: W -> bool, limit: nat, call: Visit<W>, before: Fleet<W>, after: Fleet<W>,
                               c: Candidate, ids: set<Id>, keeps: (Id, W) -> bool)
    requires Blocking(selects, before, c, ids, keeps) && Holds(selects, call, ids, keeps)
    requires LeftAlone(selects, limit, call, before, after, ids)
    ensures Blocking(selects, after, c, ids, keeps)
  {
    hide Taken, Queue;
    forall id | id in ids
      ensures id in after && selects(after[id].state) && keeps(id, after[id].state)
              && Earlier(Candidate(after[id].at, id), c)
    {
      assert after[id] == before[id] || after[id] == call(id, before[id]);
    }
  }

  /** If as many candidates as fit a batch are ahead, keep their place whenever they are called, and are left alone
      otherwise, the turn never comes, in any number of passes and whatever becomes of the rest. */
  lemma {:induction false} TurnNeverComes<W(!new)>(selects: W -> bool, limit: nat, calls: seq<Visit<W>>,
                                                   fleets: seq<Fleet<W>>, c: Candidate, ids: set<Id>,
                                                   keeps: (Id, W) -> bool)
    requires |fleets| == |calls| + 1 && |ids| >= limit
    requires c in Queue(selects, fleets[0]) && Blocking(selects, fleets[0], c, ids, keeps)
    requires forall k :: 0 <= k < |calls| ==>
               && StampsAfter(calls[k], c.at) && Holds(selects, calls[k], ids, keeps)
               && Follows(selects, limit, calls[k], fleets[k], fleets[k + 1], c)
               && LeftAlone(selects, limit, calls[k], fleets[k], fleets[k + 1], ids)
    ensures forall k :: 0 <= k < |fleets| ==>
              && SameRow(fleets[0], fleets[k], c.id)
              && c in Queue(selects, fleets[k]) && !HasTurn(selects, limit, fleets[k], c)
    decreases |calls|
  {
    hide Queue, Pass, Ahead, Taken, Blocking, Holds, Follows, LeftAlone;
    NotYet(selects, limit, fleets[0], c, ids, keeps);
    Present(selects, fleets[0], c);
    if calls != [] {
      assert Follows(selects, limit, calls[0], fleets[0], fleets[0 + 1], c);
      MovesUp(selects, limit, calls[0], fleets[0], fleets[1], c);
      BlockingStays(selects, limit, calls[0], fleets[0], fleets[1], c, ids, keeps);
      forall k | 0 <= k < |calls[1..]|
        ensures && StampsAfter(calls[1..][k], c.at) && Holds(selects, calls[1..][k], ids, keeps)
                && Follows(selects, limit, calls[1..][k], fleets[1..][k], fleets[1..][k + 1], c)
                && LeftAlone(selects, limit, calls[1..][k], fleets[1..][k], fleets[1..][k + 1], ids)
      {
        assert Holds(selects, calls[k + 1], ids, keeps);
      }
      TurnNeverComes(selects, limit, calls[1..], fleets[1..], c, ids, keeps);
      forall k | 0 <= k < |fleets|
        ensures && SameRow(fleets[0], fleets[k], c.id)
                && c in Queue(selects, fleets[k]) && !HasTurn(selects, limit, fleets[k], c)
      {
        if k > 0 {
          assert fleets[1..][k - 1] == fleets[k];
        }
      }
    }
  }

  lemma NotYet<W(!new)>(selects: W -> bool, limit: nat, fleet: Fleet<W>, c: Candidate, ids: set<Id>,
                        keeps: (Id, W) -> bool)
    requires |ids| >= limit && Blocking(selects, fleet, c, ids, keeps)
    ensures !HasTurn(selects, limit, fleet, c)
  {
    var places := set id | id in ids :: Candidate(fleet[id].at, id);
    SameCount(fleet, ids, places);
    Fewer(places, Ahead(Queue(selects, fleet), c));
  }

  lemma {:induction false} SameCount<W>(fleet: Fleet<W>, ids: set<Id>, places: set<Candidate>)
    requires forall id :: id in ids ==> id in fleet
    requires places == set id | id in ids :: Candidate(fleet[id].at, id)
    ensures |places| == |ids|
    decreases ids
  {
    if ids != {} {
      var id :| id in ids;
      var fewer := places - {Candidate(fleet[id].at, id)};
      assert fewer == set other | other in ids - {id} :: Candidate(fleet[other].at, other);
      SameCount(fleet, ids - {id}, fewer);
    }
  }
}
