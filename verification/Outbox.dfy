/** The outbox dispatcher: locked batches published in order, committed all at once or not at all. */
module Outbox {
  import opened Texts

  type Guid = nat

  datatype OutboxRow = OutboxRow(
    id: Guid, at: int, kind: string, payload: string, attempts: nat, processed: bool, lastError: Option<string>)

  datatype Message = Message(id: Guid, kind: string, payload: string)

  function MessageOf(row: OutboxRow): Message {
    Message(row.id, row.kind, row.payload)
  }

  /** How a publish with publisher confirms ends. A failed or stopped one may have reached the broker. */
  datatype Publish = Confirmed | Failed(error: string, arrived: bool) | Stopped(arrived: bool)

  datatype DispatchResult = Empty | Published | PublishFailed | Cancelled

  // ---- one batch ----

  /** The first publish that is not confirmed; the batch size when there is none. */
  function FirstBad(answers: seq<Publish>): (k: nat)
    ensures k <= |answers|
    ensures forall i :: 0 <= i < k ==> answers[i] == Confirmed
    ensures k < |answers| ==> answers[k] != Confirmed
  {
    if answers == [] || answers[0] != Confirmed then 0 else 1 + FirstBad(answers[1..])
  }

  function Sent(row: OutboxRow): OutboxRow {
    row.(attempts := row.attempts + 1, processed := true, lastError := None)
  }

  function NotSent(row: OutboxRow, error: string): OutboxRow {
    row.(attempts := row.attempts + 1, lastError := Some(error))
  }

  /** Row `i` of a batch once the dispatch is over: rows before the first bad publish are sent, that one carries the
      error, later ones are untouched; a stopped dispatch is rolled back. */
  function Dispatched(batch: seq<OutboxRow>, answers: seq<Publish>, i: nat): OutboxRow
    requires |batch| == |answers| && i < |batch|
  {
    var k := FirstBad(answers);
    if k < |batch| && answers[k].Stopped? then batch[i]
    else if i < k then Sent(batch[i])
    else if i == k then NotSent(batch[i], answers[k].error)
    else batch[i]
  }

  /** `DispatchBatchAsync` over the rows it selected, with what each publish would answer. */
  method DispatchBatch(messages: array<OutboxRow>, answers: seq<Publish>)
    returns (result: DispatchResult, sent: seq<Message>)
    requires messages.Length == |answers|
    modifies messages
    ensures forall i :: 0 <= i < messages.Length ==> messages[i] == Dispatched(old(messages[..]), answers, i)
    ensures var k := FirstBad(answers);
            && (result == Empty <==> messages.Length == 0)
            && (result == Published <==> messages.Length > 0 && k == messages.Length)
            && (result == PublishFailed <==> k < messages.Length && answers[k].Failed?)
            && (result == Cancelled <==> k < messages.Length && answers[k].Stopped?)
            && |sent| == (if k < messages.Length && answers[k].arrived then k + 1 else k)
            && forall i :: 0 <= i < |sent| ==> sent[i] == MessageOf(old(messages[i]))
  {
    sent := [];
    if messages.Length == 0 {
      return Empty, sent;
    }
    var saved := messages[..];
    var index := 0;
    while index < messages.Length
      invariant 0 <= index <= messages.Length
      invariant saved == old(messages[..])
      invariant forall i :: 0 <= i < index ==> answers[i] == Confirmed
      invariant forall i :: 0 <= i < index ==> messages[i] == Sent(saved[i])
      invariant forall i :: index <= i < messages.Length ==> messages[i] == saved[i]
      invariant |sent| == index && forall i :: 0 <= i < index ==> sent[i] == MessageOf(saved[i])
    {
      var message := messages[index];
      message := message.(attempts := message.attempts + 1);
      messages[index] := message;
      match answers[index] {
        case Confirmed =>
          sent := sent + [MessageOf(message)];
          messages[index] := message.(processed := true, lastError := None);
        case Stopped(arrived) =>
          IsFirstBad(answers, index);
          sent := if arrived then sent + [MessageOf(message)] else sent;
          // The cancellation is rethrown and the transaction is disposed uncommitted.
          forall i | 0 <= i < messages.Length {
            messages[i] := saved[i];
          }
          return Cancelled, sent;
        case Failed(error, arrived) =>
          IsFirstBad(answers, index);
          sent := if arrived then sent + [MessageOf(message)] else sent;
          messages[index] := message.(lastError := Some(error));
          return PublishFailed, sent;
      }
      index := index + 1;
    }
    assert FirstBad(answers) == messages.Length;
    result := Published;
  }

  lemma {:induction false} IsFirstBad(answers: seq<Publish>, index: nat)
    requires index < |answers| && answers[index] != Confirmed
    requires forall i :: 0 <= i < index ==> answers[i] == Confirmed
    ensures FirstBad(answers) == index
  {
    if index > 0 {
      IsFirstBad(answers[1..], index - 1);
    }
  }

  // ---- many workers ----

  /** `ORDER BY "OccurredAtUtc", "Id"`. */
  predicate Before(a: OutboxRow, b: OutboxRow) {
    a.at < b.at || (a.at == b.at && a.id < b.id)
  }

  /** A worker's open transaction: the rows it locked, and how many of them are published. */
  datatype Sending = Sending(batch: seq<OutboxRow>, published: nat)

  /** `arrived` is what reached the broker, `confirmed` what it confirmed to some worker. */
  datatype World = World(
    table: map<Guid, OutboxRow>, sending: map<nat, Sending>, arrived: set<Message>, confirmed: set<Message>)

  const INITIAL := World(map[], map[], {}, {})

  predicate Holds(s: Sending, id: Guid) {
    exists i :: 0 <= i < |s.batch| && s.batch[i].id == id
  }

  predicate Locked(w: World, id: Guid) {
    exists pid :: pid in w.sending && Holds(w.sending[pid], id)
  }

  /** What the locking query may return: the first unprocessed rows nobody holds, in order, up to the limit. */
  ghost predicate Selects(w: World, limit: nat, batch: seq<OutboxRow>) {
    && |batch| <= limit
    && (forall i, j :: 0 <= i < j < |batch| ==> Before(batch[i], batch[j]))
    && (forall i :: 0 <= i < |batch| ==>
          && batch[i].id in w.table && w.table[batch[i].id] == batch[i]
          && !batch[i].processed && !Locked(w, batch[i].id))
    && (forall id :: id in w.table && !w.table[id].processed && !Locked(w, id) && w.table[id] !in batch ==>
          |batch| == limit && forall i :: 0 <= i < |batch| ==> Before(batch[i], w.table[id]))
  }

  datatype Event =
    | Add(row: OutboxRow)
    | Take(pid: nat, batch: seq<OutboxRow>)
    | Send(pid: nat, answer: Publish)
    | Commit(pid: nat)
    | Crash(pid: nat)

  /** The rows of a batch as they are committed: `published` of them sent, the next one perhaps with an error. */
  function Committed(table: map<Guid, OutboxRow>, s: Sending, error: Option<string>): map<Guid, OutboxRow>
    requires s.published <= |s.batch|
  {
    map id | id in table ::
      if exists i :: 0 <= i < s.published && s.batch[i].id == id then Sent(table[id])
      else if error.Some? && s.published < |s.batch| && s.batch[s.published].id == id
           then NotSent(table[id], error.value)
      else table[id]
  }

  ghost function Step(limit: nat, w: World, e: Event): World {
    match e
    case Add(row) =>
      if row.id in w.table || row.processed then w else w.(table := w.table[row.id := row])
    case Take(pid, batch) =>
      if pid in w.sending || !Selects(w, limit, batch) then w
      else w.(sending := w.sending[pid := Sending(batch, 0)])
    case Send(pid, answer) =>
      if pid !in w.sending || w.sending[pid].published >= |w.sending[pid].batch| then w
      else
        var s := w.sending[pid];
        var message := MessageOf(s.batch[s.published]);
        (match answer
         case Confirmed =>
           w.(sending := w.sending[pid := s.(published := s.published + 1)],
              arrived := w.arrived + {message}, confirmed := w.confirmed + {message})
         case Failed(error, arrived) =>
           w.(table := Committed(w.table, s, Some(error)), sending := w.sending - {pid},
              arrived := if arrived then w.arrived + {message} else w.arrived)
         case Stopped(arrived) =>
           w.(sending := w.sending - {pid}, arrived := if arrived then w.arrived + {message} else w.arrived))
    case Commit(pid) =>
      if pid !in w.sending || w.sending[pid].published != |w.sending[pid].batch| then w
      else w.(table := Committed(w.table, w.sending[pid], None), sending := w.sending - {pid})
    case Crash(pid) => w.(sending := w.sending - {pid})
  }

  ghost function Run(limit: nat, w: World, events: seq<Event>): World
    decreases |events|
  {
    if events == [] then w else Run(limit, Step(limit, w, events[0]), events[1..])
  }

  ghost predicate SendingInv(w: World, pid: nat)
    requires pid in w.sending
  {
    var s := w.sending[pid];
    && s.published <= |s.batch|
    && (forall i :: 0 <= i < |s.batch| ==> s.batch[i].id in w.table && w.table[s.batch[i].id] == s.batch[i]
                                           && !s.batch[i].processed)
    && (forall i :: 0 <= i < s.published ==> MessageOf(s.batch[i]) in w.confirmed)
    && (forall i, j :: 0 <= i < j < |s.batch| ==> Before(s.batch[i], s.batch[j]))
  }

  ghost predicate Inv(w: World) {
    && (forall id :: id in w.table ==> w.table[id].id == id)
    && (forall id :: id in w.table && w.table[id].processed ==>
          MessageOf(w.table[id]) in w.confirmed && w.table[id].lastError.None?)
    && (forall pid :: pid in w.sending ==> SendingInv(w, pid))
    && (forall p, q, id :: p in w.sending && q in w.sending && Holds(w.sending[p], id) && Holds(w.sending[q], id) ==>
          p == q)
    && w.confirmed <= w.arrived
    && (forall m :: m in w.arrived ==> m.id in w.table && MessageOf(w.table[m.id]) == m)
  }

  /** Rows keep their identity and content, and stay processed; the broker forgets nothing it was sent. */
  ghost predicate Grows(a: World, b: World) {
    && (forall id :: id in a.table ==>
          && id in b.table && MessageOf(b.table[id]) == MessageOf(a.table[id]) && b.table[id].at == a.table[id].at
          && a.table[id].attempts <= b.table[id].attempts
          && (a.table[id].processed ==> b.table[id] == a.table[id]))
    && a.arrived <= b.arrived && a.confirmed <= b.confirmed
  }
}
