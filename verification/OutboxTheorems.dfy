/** What the outbox guarantees over every interleaving of workers, failed publishes and crashes. */
module OutboxTheorems {
  import opened Texts
  import opened Outbox

  /** Committing one worker's batch leaves the rows of the others alone. */
  lemma CommittedKeeps(w: World, pid: nat, error: Option<string>)
    requires Inv(w) && pid in w.sending
    ensures var v := w.(table := Committed(w.table, w.sending[pid], error), sending := w.sending - {pid});
            Inv(v) && Grows(w, v)
  {
    var s := w.sending[pid];
    var table := Committed(w.table, s, error);
    var v := w.(table := table, sending := w.sending - {pid});
    assert SendingInv(w, pid);
    forall id | id in w.table
      ensures id in table && table[id].id == id && MessageOf(table[id]) == MessageOf(w.table[id])
      ensures table[id].at == w.table[id].at && w.table[id].attempts <= table[id].attempts
      ensures !Holds(s, id) ==> table[id] == w.table[id]
      ensures table[id].processed ==> MessageOf(table[id]) in w.confirmed && table[id].lastError.None?
      ensures w.table[id].processed ==> table[id] == w.table[id]
    {
      if i :| 0 <= i < |s.batch| && s.batch[i].id == id {
        assert Holds(s, id);
        assert !w.table[id].processed;
      }
    }
    forall q | q in v.sending ensures SendingInv(v, q) {
      assert SendingInv(w, q);
      forall i | 0 <= i < |v.sending[q].batch|
        ensures v.sending[q].batch[i].id in v.table && v.table[v.sending[q].batch[i].id] == v.sending[q].batch[i]
      {
        assert Holds(w.sending[q], v.sending[q].batch[i].id);
        assert !Holds(s, v.sending[q].batch[i].id);
      }
    }
  }

  lemma TakeKeeps(limit: nat, w: World, pid: nat, batch: seq<OutboxRow>)
    requires Inv(w) && pid !in w.sending && Selects(w, limit, batch)
    ensures Inv(w.(sending := w.sending[pid := Sending(batch, 0)]))
  {
    var v := w.(sending := w.sending[pid := Sending(batch, 0)]);
    forall q, id | q in w.sending && Holds(w.sending[q], id) ensures Locked(w, id) {
    }
    forall q | q in v.sending ensures SendingInv(v, q) {
      if q != pid {
        assert SendingInv(w, q);
      }
    }
  }

  lemma AddKeeps(w: World, row: OutboxRow)
    requires Inv(w) && row.id !in w.table && !row.processed
    ensures var v := w.(table := w.table[row.id := row]); Inv(v) && Grows(w, v)
  {
    var v := w.(table := w.table[row.id := row]);
    forall q | q in v.sending ensures SendingInv(v, q) {
      assert SendingInv(w, q);
    }
  }

  /** A message of the table may reach the broker at any time. */
  lemma ArrivalKeeps(w: World, id: Guid)
    requires Inv(w) && id in w.table
    ensures var v := w.(arrived := w.arrived + {MessageOf(w.table[id])}); Inv(v) && Grows(w, v)
  {
    var v := w.(arrived := w.arrived + {MessageOf(w.table[id])});
    forall q | q in v.sending ensures SendingInv(v, q) {
      assert SendingInv(w, q);
    }
  }

  /** A confirmed publish moves its batch on by one row. */
  lemma ConfirmKeeps(w: World, pid: nat)
    requires Inv(w) && pid in w.sending && w.sending[pid].published < |w.sending[pid].batch|
    requires MessageOf(w.sending[pid].batch[w.sending[pid].published]) in w.arrived
    ensures var s := w.sending[pid];
            var v := w.(confirmed := w.confirmed + {MessageOf(s.batch[s.published])},
                        sending := w.sending[pid := s.(published := s.published + 1)]);
            Inv(v) && Grows(w, v)
  {
    var s := w.sending[pid];
    var v := w.(confirmed := w.confirmed + {MessageOf(s.batch[s.published])},
                sending := w.sending[pid := s.(published := s.published + 1)]);
    forall q | q in v.sending ensures SendingInv(v, q) {
      assert SendingInv(w, q);
    }
    forall q, id | q in v.sending && Holds(v.sending[q], id) ensures Holds(w.sending[q], id) {
    }
  }

  lemma DropKeeps(w: World, pid: nat)
    requires Inv(w)
    ensures var v := w.(sending := w.sending - {pid}); Inv(v) && Grows(w, v)
  {
    var v := w.(sending := w.sending - {pid});
    forall q | q in v.sending ensures SendingInv(v, q) {
      assert SendingInv(w, q);
    }
  }

  lemma GrowsTransitive(a: World, b: World, c: World)
    requires Grows(a, b) && Grows(b, c)
    ensures Grows(a, c)
  {
  }

  lemma StepKeeps(limit: nat, w: World, e: Event)
    requires Inv(w)
    ensures Inv(Step(limit, w, e)) && Grows(w, Step(limit, w, e))
  {
    hide Inv, Grows, Selects, Committed;
    GrowsSelf(w);
    match e
    case Add(row) => if row.id !in w.table && !row.processed { AddKeeps(w, row); }
    case Take(pid, batch) =>
      if pid !in w.sending && Selects(w, limit, batch) {
        TakeKeeps(limit, w, pid, batch);
        TakeGrows(w, pid, batch);
      }
    case Send(pid, answer) =>
      if pid in w.sending && w.sending[pid].published < |w.sending[pid].batch| {
        SendKeeps(limit, w, pid, answer);
      }
    case Commit(pid) =>
      if pid in w.sending && w.sending[pid].published == |w.sending[pid].batch| { CommittedKeeps(w, pid, None); }
    case Crash(pid) => DropKeeps(w, pid);
  }

  lemma SendKeeps(limit: nat, w: World, pid: nat, answer: Publish)
    requires Inv(w) && pid in w.sending && w.sending[pid].published < |w.sending[pid].batch|
    ensures Inv(Step(limit, w, Send(pid, answer))) && Grows(w, Step(limit, w, Send(pid, answer)))
  {
    hide Inv, Grows, Committed;
    var s := w.sending[pid];
    var row := s.batch[s.published];
    NextRow(w, pid);
    GrowsSelf(w);
    ArrivalKeeps(w, row.id);
    var v := if answer.Confirmed? || answer.arrived then w.(arrived := w.arrived + {MessageOf(row)}) else w;
    match answer
    case Confirmed =>
      ConfirmKeeps(v, pid);
      GrowsTransitive(w, v, Step(limit, w, Send(pid, answer)));
    case Failed(error, arrived) =>
      CommittedKeeps(v, pid, Some(error));
      GrowsTransitive(w, v, v.(table := Committed(v.table, s, Some(error)), sending := v.sending - {pid}));
    case Stopped(arrived) =>
      DropKeeps(v, pid);
      GrowsTransitive(w, v, v.(sending := v.sending - {pid}));
  }

  lemma NextRow(w: World, pid: nat)
    requires Inv(w) && pid in w.sending && w.sending[pid].published < |w.sending[pid].batch|
    ensures var row := w.sending[pid].batch[w.sending[pid].published]; row.id in w.table && w.table[row.id] == row
  {
    assert SendingInv(w, pid);
  }

  lemma GrowsSelf(w: World)
    ensures Grows(w, w)
  {
  }

  lemma TakeGrows(w: World, pid: nat, batch: seq<OutboxRow>)
    ensures Grows(w, w.(sending := w.sending[pid := Sending(batch, 0)]))
  {
  }

  lemma {:induction false} RunKeeps(limit: nat, w: World, events: seq<Event>)
    requires Inv(w)
    ensures Inv(Run(limit, w, events)) && Grows(w, Run(limit, w, events))
    decreases |events|
  {
    hide Inv, Grows, Step;
    GrowsSelf(w);
    if events != [] {
      var v := Step(limit, w, events[0]);
      StepKeeps(limit, w, events[0]);
      RunKeeps(limit, v, events[1..]);
      GrowsTransitive(w, v, Run(limit, v, events[1..]));
    }
  }

  /** In every run a processed row carries no error and its message was confirmed by the broker; only rows of the
      table ever reach the broker; no row is lost or altered, and none is processed again. */
  lemma ProcessedMeansConfirmed(limit: nat, before: seq<Event>, after: seq<Event>, id: Guid)
    ensures var w := Run(limit, INITIAL, before);
            var v := Run(limit, w, after);
            && (id in w.table && w.table[id].processed ==>
                  && Message(id, w.table[id].kind, w.table[id].payload) in w.confirmed
                  && id in v.table && v.table[id] == w.table[id])
            && (id in w.table ==> id in v.table && MessageOf(v.table[id]) == MessageOf(w.table[id]))
            && forall m :: m in w.arrived ==> m.id in w.table && m == MessageOf(w.table[m.id])
  {
    hide Step, Run;
    RunKeeps(limit, INITIAL, before);
    RunKeeps(limit, Run(limit, INITIAL, before), after);
  }

  /** Two workers never hold the same row, so no row is published by two of them at the same time. */
  lemma LocksAreExclusive(limit: nat, events: seq<Event>, p: nat, q: nat, id: Guid)
    ensures var w := Run(limit, INITIAL, events);
            p in w.sending && q in w.sending && Holds(w.sending[p], id) && Holds(w.sending[q], id) ==> p == q
  {
    hide Step, Run;
    RunKeeps(limit, INITIAL, events);
  }

  /** The event ends this worker's transaction with a commit: its whole batch is confirmed, or a publish failed. */
  predicate Commits(w: World, e: Event, pid: nat) {
    && pid in w.sending
    && ( || (e == Commit(pid) && w.sending[pid].published == |w.sending[pid].batch|)
         || (e.Send? && e.pid == pid && e.answer.Failed? && w.sending[pid].published < |w.sending[pid].batch|))
  }

  /** Confirmed also means processed, once committed: in every run the rows published so far are then processed on one
      more attempt and without an error, the one whose publish failed carries its error and is tried again, and no other
      row changes. */
  lemma CommittedMeansProcessed(limit: nat, events: seq<Event>, e: Event, pid: nat)
    requires Commits(Run(limit, INITIAL, events), e, pid)
    ensures var w := Run(limit, INITIAL, events);
            var v, s := Step(limit, w, e), w.sending[pid];
            && s.published <= |s.batch| && pid !in v.sending && v.table.Keys == w.table.Keys
            && (forall i :: 0 <= i < |s.batch| ==> s.batch[i].id in w.table)
            && (forall i :: 0 <= i < s.published ==>
                  var row := s.batch[i];
                  v.table[row.id] ==
                  OutboxRow(row.id, row.at, row.kind, row.payload, row.attempts + 1, true, None))
            && (e.Send? ==>
                  var row := s.batch[s.published];
                  v.table[row.id] ==
                  OutboxRow(row.id, row.at, row.kind, row.payload, row.attempts + 1, false, Some(e.answer.error)))
            && (forall id :: id in w.table
                             && (forall i :: 0 <= i < |s.batch| && (i < s.published || e.Send?) && i <= s.published ==>
                                   s.batch[i].id != id) ==>
                  v.table[id] == w.table[id])
  {
    hide Run;
    RunKeeps(limit, INITIAL, events);
    var w := Run(limit, INITIAL, events);
    assert SendingInv(w, pid);
    BatchIsDistinct(w, pid);
  }

  /** Nothing else writes to the rows: a publish that is confirmed or stopped, a crash and a new selection leave every
      row as it was. */
  lemma OnlyCommitsWrite(limit: nat, w: World, e: Event, id: Guid)
    requires id in w.table && forall pid :: !Commits(w, e, pid)
    ensures var v := Step(limit, w, e); id in v.table && v.table[id] == w.table[id]
  {
    if e.Commit? {
      assert !Commits(w, e, e.pid);
    } else if e.Send? {
      assert !Commits(w, e, e.pid);
    }
  }

  lemma BatchIsDistinct(w: World, pid: nat)
    requires pid in w.sending && SendingInv(w, pid)
    ensures forall i, j :: 0 <= i < j < |w.sending[pid].batch| ==>
              w.sending[pid].batch[i].id != w.sending[pid].batch[j].id
  {
    var batch := w.sending[pid].batch;
    forall i, j | 0 <= i < j < |batch| ensures batch[i].id != batch[j].id {
      assert Before(batch[i], batch[j]);
    }
  }

  // ---- the batch method is a run of these steps ----

  function Sends(pid: nat, answers: seq<Publish>): seq<Event> {
    seq(|answers|, i requires 0 <= i < |answers| => Send(pid, answers[i]))
  }

  /** Publishing a whole batch step by step leaves in the table what the batch method leaves in its rows. */
  lemma DispatchIsARun(limit: nat, w: World, pid: nat, answers: seq<Publish>, i: nat)
    requires Inv(w) && pid in w.sending && w.sending[pid].published == 0
    requires |answers| == |w.sending[pid].batch| && i < |answers|
    ensures var batch := w.sending[pid].batch;
            var v := Run(limit, w, Sends(pid, answers) + [Commit(pid)]);
            && pid !in v.sending && batch[i].id in v.table
            && v.table[batch[i].id] == Dispatched(batch, answers, i)
  {
    hide Inv, Step, Run, Committed, Dispatched, Sends;
    var k := FirstBad(answers);
    var batch := w.sending[pid].batch;
    Confirms(limit, w, pid, answers[..k]);
    var m := Run(limit, w, Sends(pid, answers[..k]));
    RunKeeps(limit, w, Sends(pid, answers[..k]));
    var rest := Sends(pid, answers[k..]) + [Commit(pid)];
    SendsSplit(pid, answers, k);
    RunAppend(limit, w, Sends(pid, answers[..k]), rest);
    Closing(limit, m, pid, answers, rest[0], i);
    OneStep(limit, m, rest);
    Ignored(limit, Step(limit, m, rest[0]), pid, rest[1..]);
  }

  lemma SendsSplit(pid: nat, answers: seq<Publish>, k: nat)
    requires k <= |answers|
    ensures var rest := Sends(pid, answers[k..]) + [Commit(pid)];
            && Sends(pid, answers) + [Commit(pid)] == Sends(pid, answers[..k]) + rest
            && rest[0] == (if k < |answers| then Send(pid, answers[k]) else Commit(pid))
            && (forall e :: e in rest[1..] ==> (e.Send? || e.Commit?) && e.pid == pid)
  {
  }

  lemma OneStep(limit: nat, w: World, events: seq<Event>)
    requires events != []
    ensures Run(limit, w, events) == Run(limit, Step(limit, w, events[0]), events[1..])
  {
    hide Step;
  }

  /** While publishes are confirmed only the counter moves. */
  lemma {:induction false} Confirms(limit: nat, w: World, pid: nat, answers: seq<Publish>)
    requires pid in w.sending && w.sending[pid].published + |answers| <= |w.sending[pid].batch|
    requires forall i :: 0 <= i < |answers| ==> answers[i] == Confirmed
    ensures var v := Run(limit, w, Sends(pid, answers));
            && v.table == w.table && pid in v.sending
            && v.sending[pid] == w.sending[pid].(published := w.sending[pid].published + |answers|)
    decreases |answers|
  {
    if answers != [] {
      assert Sends(pid, answers) == [Send(pid, answers[0])] + Sends(pid, answers[1..]);
      assert Sends(pid, answers)[1..] == Sends(pid, answers[1..]);
      Confirms(limit, Step(limit, w, Send(pid, answers[0])), pid, answers[1..]);
    }
  }

  /** The step that ends the transaction: the first bad publish, or the commit. */
  lemma {:induction false} Closing(limit: nat, w: World, pid: nat, answers: seq<Publish>, e: Event, i: nat)
    requires Inv(w) && pid in w.sending && |answers| == |w.sending[pid].batch| && i < |answers|
    requires w.sending[pid].published == FirstBad(answers)
    requires e == if FirstBad(answers) < |answers| then Send(pid, answers[FirstBad(answers)]) else Commit(pid)
    ensures var batch := w.sending[pid].batch;
            var v := Step(limit, w, e);
            && pid !in v.sending && batch[i].id in v.table
            && v.table[batch[i].id] == Dispatched(batch, answers, i)
  {
    var s := w.sending[pid];
    assert SendingInv(w, pid);
    forall j | 0 <= j < |s.batch| && j != i ensures s.batch[j].id != s.batch[i].id {
      assert j < i ==> Before(s.batch[j], s.batch[i]);
      assert i < j ==> Before(s.batch[i], s.batch[j]);
    }
  }

  lemma {:induction false} Ignored(limit: nat, w: World, pid: nat, events: seq<Event>)
    requires pid !in w.sending
    requires forall e :: e in events ==> (e.Send? || e.Commit?) && e.pid == pid
    ensures Run(limit, w, events) == w
    decreases |events|
  {
    if events != [] {
      assert events[0] in events;
      Ignored(limit, w, pid, events[1..]);
    }
  }

  lemma {:induction false} RunAppend(limit: nat, w: World, first: seq<Event>, second: seq<Event>)
    ensures Run(limit, w, first + second) == Run(limit, Run(limit, w, first), second)
    decreases |first|
  {
    hide Step;
    if first == [] {
      assert first + second == second;
    } else {
      assert (first + second)[1..] == first[1..] + second;
      RunAppend(limit, Step(limit, w, first[0]), first[1..], second);
    }
  }
}
