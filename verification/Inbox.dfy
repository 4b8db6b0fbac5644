/** The cancellation notification consumer: deliveries handled in several commits, with exceptions and crashes
    between any two of them. */
module Inbox {
  import opened Texts
  import opened Columns

  type Guid = nat

  datatype Settings = Settings(
    maxAttempts: nat,
    /** `TryParseNotification`: the error of an unreadable payload, None for a readable one. */
    parse: (string, string) -> Option<string>)

  /** The options reader clamps the limit to 1..100. */
  predicate ValidSettings(cfg: Settings) {
    cfg.maxAttempts >= 1
  }

  datatype InboxRow = InboxRow(kind: string, attempts: nat, processed: bool, lastError: Option<string>)

  /** Committed inbox rows, delivered audits and review rows per message; calls made to the adapter; handlings
      that crashed or could not record their failure. */
  datatype Store = Store(
    rows: map<Guid, InboxRow>,
    delivered: multiset<Guid>,
    reviews: multiset<Guid>,
    calls: multiset<Guid>,
    lost: multiset<Guid>)

  datatype DeliveryStatus = WasDelivered | DefinitelyFailed | Uncertain
  datatype Reply = Reply(
    status: DeliveryStatus, provider: string, reference: Option<string>, reason: Option<string>)

  /** Where a handling stands; `row` is the entity it loaded and goes on changing. */
  datatype Stage =
    | Received
    | Inserted
    | Counted(row: InboxRow)
    | Checking(row: InboxRow)
    | Calling(row: InboxRow)
    | Answered(row: InboxRow, reply: Reply)
    | Failing(error: string)

  datatype Handling = Handling(id: Guid, kind: string, payload: string, stage: Stage)

  datatype Outcome = Acknowledge | Retry | ReviewQueued

  /** The effect of one step: on to another stage, or done. */
  datatype Move = Go(store: Store, stage: Stage) | End(store: Store, outcome: Outcome)

  const TYPE_MISMATCH := "cancellation_notification_message_type_mismatch"
  const DELIVERY_FAILED := "cancellation_notification_delivery_failed"
  const UNCONFIRMED := "cancellation_notification_delivery_confirmation_invalid"
  const INDETERMINATE := "cancellation_notification_delivery_indeterminate"
  const NOT_SAVED := "An error occurred while saving the entity changes."
  const PROCESSING_FAILED := "cancellation_notification_processing_failed"

  function NormalizeReason(reason: Option<string>, fallback: string): string {
    if BlankOption(reason) then fallback else Trim(reason.value)
  }

  /** The audit row of a reply names its provider as the actor and quotes reference or reason: saving it fails when the
      actor is too long or a quoted text contains U+0000. */
  predicate Recordable(reply: Reply) {
    && Fits("notification:" + Trim(reply.provider), ACTOR_LENGTH)
    && '\0' !in Quoted(reply)
  }

  function Quoted(reply: Reply): string {
    match reply.status
    case WasDelivered => if BlankOption(reply.reference) then UNCONFIRMED else Trim(reply.reference.value)
    case DefinitelyFailed => NormalizeReason(reply.reason, DELIVERY_FAILED)
    case Uncertain => NormalizeReason(reply.reason, INDETERMINATE)
  }

  function Written(store: Store, id: Guid, row: InboxRow): Store {
    store.(rows := store.rows[id := row])
  }

  /** `QueueReview` and the save: the row is processed with this error and a review row goes out. */
  function Reviewed(store: Store, id: Guid, row: InboxRow, reason: string): Store {
    Written(store, id, row.(processed := true, lastError := Some(reason)))
      .(reviews := store.reviews + multiset{id})
  }

  function DeliveredOnce(store: Store, id: Guid, row: InboxRow): Store {
    Written(store, id, row.(processed := true, lastError := None)).(delivered := store.delivered + multiset{id})
  }

  /** One step of a handling up to its next commit or call. `stateError` is what `ValidateRecipientStateAsync`
      finds, `reply` what the adapter answers. */
  function Next(cfg: Settings, store: Store, h: Handling, stateError: Option<string>, reply: Reply): Move {
    match h.stage
    case Received =>
      if h.id == 0 then Go(store, Failing("Message id is required."))
      else if h.id in store.rows then Go(store, Inserted)
      else Go(Written(store, h.id, InboxRow(h.kind, 0, false, None)), Inserted)
    case Inserted =>
      if h.id !in store.rows then Go(store, Failing("Sequence contains no elements."))
      else
        var row := store.rows[h.id];
        if row.processed then End(store, Acknowledge)
        else if row.kind != h.kind then End(Reviewed(store, h.id, row, TYPE_MISMATCH), ReviewQueued)
        else
          var counted := row.(attempts := row.attempts + 1, lastError := None);
          Go(Written(store, h.id, counted), Counted(counted))
    case Counted(row) =>
      (match (cfg.parse)(h.kind, h.payload)
       case Some(error) => End(Reviewed(store, h.id, row, error), ReviewQueued)
       case None => Go(store, Checking(row)))
    case Checking(row) =>
      (match stateError
       case Some(error) => End(Reviewed(store, h.id, row, error), ReviewQueued)
       case None => Go(store, Calling(row)))
    case Calling(row) => Go(store.(calls := store.calls + multiset{h.id}), Answered(row, reply))
    case Answered(row, said) => Conclude(cfg, store, h.id, row, said)
    case Failing(error) => RecordFailure(cfg, store, h.id, error)
  }

  /** From the adapter's reply to the last commit of `HandleAsync`. */
  function Conclude(cfg: Settings, store: Store, id: Guid, row: InboxRow, reply: Reply): Move {
    if !Recordable(reply) then Go(store, Failing(NOT_SAVED))
    else if reply.status == WasDelivered && !BlankOption(reply.reference) then
      End(DeliveredOnce(store, id, row), Acknowledge)
    else if reply.status == DefinitelyFailed then
      End(Reviewed(store, id, row, NormalizeReason(reply.reason, DELIVERY_FAILED)), ReviewQueued)
    else
      var reason := if reply.status == WasDelivered then UNCONFIRMED
                    else NormalizeReason(reply.reason, INDETERMINATE);
      if row.attempts >= cfg.maxAttempts then End(Reviewed(store, id, row, reason), ReviewQueued)
      else End(Written(store, id, row.(lastError := Some(reason))), Retry)
  }

  /** `RecordFailureAsync` after an exception; Acknowledge and ReviewQueued stand for its answer true. */
  function RecordFailure(cfg: Settings, store: Store, id: Guid, error: string): Move {
    if id !in store.rows then End(store, Retry)
    else
      var row := store.rows[id];
      if row.processed then End(store, Acknowledge)
      else if row.attempts >= cfg.maxAttempts then End(Reviewed(store, id, row, PROCESSING_FAILED), ReviewQueued)
      else End(Written(store, id, row.(lastError := Some(error))), Retry)
  }

  // ---- runs ----

  datatype Event =
    | Deliver(pid: nat, id: Guid, kind: string, payload: string)
    | Proceed(pid: nat, stateError: Option<string>, reply: Reply)
    /** An exception in this step; `done` when its commit or call took place all the same. */
    | Raise(pid: nat, done: bool, error: string, stateError: Option<string>, reply: Reply)
    | Crash(pid: nat)

  datatype World = World(store: Store, active: map<nat, Handling>)

  const INITIAL := World(Store(map[], multiset{}, multiset{}, multiset{}, multiset{}), map[])

  function Lost(store: Store, id: Guid): Store {
    store.(lost := store.lost + multiset{id})
  }

  function Step(cfg: Settings, w: World, e: Event): World {
    match e
    case Deliver(pid, id, kind, payload) =>
      if pid in w.active then w else w.(active := w.active[pid := Handling(id, kind, payload, Received)])
    case Proceed(pid, stateError, reply) =>
      if pid !in w.active then w
      else
        var h := w.active[pid];
        (match Next(cfg, w.store, h, stateError, reply)
         case Go(store, stage) => World(store, w.active[pid := h.(stage := stage)])
         case End(store, _) => World(store, w.active - {pid}))
    case Raise(pid, done, error, stateError, reply) =>
      if pid !in w.active then w
      else
        var h := w.active[pid];
        var store := if done then Next(cfg, w.store, h, stateError, reply).store else w.store;
        if h.stage.Failing? then World(Lost(store, h.id), w.active - {pid})
        else World(store, w.active[pid := h.(stage := Failing(error))])
    case Crash(pid) =>
      if pid !in w.active then w else World(Lost(w.store, w.active[pid].id), w.active - {pid})
  }

  function Run(cfg: Settings, w: World, events: seq<Event>): World
    decreases |events|
  {
    if events == [] then w else Run(cfg, Step(cfg, w, events[0]), events[1..])
  }

  /** No message is in hand twice. */
  predicate Idle(w: World, id: Guid) {
    forall pid :: pid in w.active ==> w.active[pid].id != id
  }

  predicate Single(w: World, e: Event) {
    e.Deliver? ==> Idle(w, e.id)
  }

  /** A run in which a message is only delivered while no handling of it is under way. */
  predicate Exclusive(cfg: Settings, w: World, events: seq<Event>)
    decreases |events|
  {
    events == [] || (Single(w, events[0]) && Exclusive(cfg, Step(cfg, w, events[0]), events[1..]))
  }

  // ---- invariant ----

  function Finals(store: Store, id: Guid): nat {
    store.delivered[id] + store.reviews[id]
  }

  /** What the committed rows of one message say about its audits, review rows, calls and attempts. */
  predicate RowInv(cfg: Settings, store: Store, id: Guid) {
    if id !in store.rows then Finals(store, id) == 0 && store.calls[id] == 0
    else
      var row := store.rows[id];
      && Finals(store, id) == (if row.processed then 1 else 0)
      && (row.processed ==> (row.lastError.None? <==> store.delivered[id] == 1))
      && store.calls[id] <= row.attempts <= cfg.maxAttempts + store.lost[id]
  }

  /** An unprocessed message still has an attempt left, or was lost often enough. */
  predicate Open(cfg: Settings, store: Store, id: Guid) {
    id in store.rows && !store.rows[id].processed ==> store.rows[id].attempts < cfg.maxAttempts + store.lost[id]
  }

  predicate HandlingInv(cfg: Settings, store: Store, h: Handling) {
    match h.stage
    case Received => Open(cfg, store, h.id)
    case Inserted => Open(cfg, store, h.id)
    case Failing(_) => true
    case Answered(row, _) => h.id in store.rows && store.rows[h.id] == row && !row.processed
    case _ =>
      && h.id in store.rows && store.rows[h.id] == h.stage.row && !h.stage.row.processed
      && store.calls[h.id] < h.stage.row.attempts
  }

  ghost predicate Inv(cfg: Settings, w: World) {
    && (forall id: Guid :: RowInv(cfg, w.store, id))
    && (forall pid :: pid in w.active ==> HandlingInv(cfg, w.store, w.active[pid]))
    && (forall p, q :: p in w.active && q in w.active && w.active[p].id == w.active[q].id ==> p == q)
    && (forall id: Guid :: Idle(w, id) ==> Open(cfg, w.store, id))
  }

  /** Everything stored about one message is the same in both. */
  predicate SameFor(a: Store, b: Store, id: Guid) {
    && (id in a.rows <==> id in b.rows)
    && (id in a.rows ==> a.rows[id] == b.rows[id])
    && a.delivered[id] == b.delivered[id] && a.reviews[id] == b.reviews[id]
    && a.calls[id] == b.calls[id] && a.lost[id] == b.lost[id]
  }

  /** A step concerns its own message only. */
  lemma NextIsLocal(cfg: Settings, store: Store, h: Handling, stateError: Option<string>, reply: Reply, id: Guid)
    requires id != h.id
    ensures SameFor(store, Next(cfg, store, h, stateError, reply).store, id)
  {
    hide Recordable, NormalizeReason, BlankOption;
  }

  /** The step's message is as the invariant wants it afterwards. */
  predicate Good(cfg: Settings, before: Store, h: Handling, m: Move) {
    && RowInv(cfg, m.store, h.id)
    && (m.Go? ==> HandlingInv(cfg, m.store, h.(stage := m.stage)))
    && (m.End? ==> Open(cfg, m.store, h.id))
    && m.store.lost == before.lost
    && (h.id in before.rows && before.rows[h.id].processed ==> m.store == before)
  }

  lemma ReviewedGood(cfg: Settings, store: Store, id: Guid, row: InboxRow, reason: string)
    requires RowInv(cfg, store, id) && id in store.rows && !store.rows[id].processed
    requires row.attempts == store.rows[id].attempts
    ensures var v := Reviewed(store, id, row, reason);
            RowInv(cfg, v, id) && Open(cfg, v, id) && v.lost == store.lost
  {
  }

  lemma DeliveredGood(cfg: Settings, store: Store, id: Guid, row: InboxRow)
    requires RowInv(cfg, store, id) && id in store.rows && !store.rows[id].processed
    requires row.attempts == store.rows[id].attempts
    ensures var v := DeliveredOnce(store, id, row);
            RowInv(cfg, v, id) && Open(cfg, v, id) && v.lost == store.lost
  {
  }

  /** Recording an error keeps the row unprocessed; it is good when attempts are left. */
  lemma WrittenGood(cfg: Settings, store: Store, id: Guid, row: InboxRow)
    requires RowInv(cfg, store, id) && id in store.rows && !store.rows[id].processed && !row.processed
    requires row.attempts == store.rows[id].attempts < cfg.maxAttempts
    ensures var v := Written(store, id, row);
            RowInv(cfg, v, id) && Open(cfg, v, id) && v.lost == store.lost
  {
  }

  lemma EarlyGood(cfg: Settings, store: Store, h: Handling, stateError: Option<string>, reply: Reply)
    requires ValidSettings(cfg) && RowInv(cfg, store, h.id) && HandlingInv(cfg, store, h)
    requires h.stage.Received? || h.stage.Inserted?
    ensures Good(cfg, store, h, Next(cfg, store, h, stateError, reply))
  {
    hide Reviewed;
    if h.stage.Inserted? && h.id in store.rows && !store.rows[h.id].processed && store.rows[h.id].kind != h.kind {
      ReviewedGood(cfg, store, h.id, store.rows[h.id], TYPE_MISMATCH);
    }
  }

  lemma MiddleGood(cfg: Settings, store: Store, h: Handling, stateError: Option<string>, reply: Reply)
    requires RowInv(cfg, store, h.id) && HandlingInv(cfg, store, h)
    requires h.stage.Counted? || h.stage.Checking? || h.stage.Calling?
    ensures Good(cfg, store, h, Next(cfg, store, h, stateError, reply))
  {
    hide Reviewed;
    forall reason: string
      ensures var v := Reviewed(store, h.id, h.stage.row, reason);
              RowInv(cfg, v, h.id) && Open(cfg, v, h.id) && v.lost == store.lost
    {
      ReviewedGood(cfg, store, h.id, h.stage.row, reason);
    }
  }

  lemma ConcludeGood(cfg: Settings, store: Store, h: Handling, row: InboxRow, reply: Reply)
    requires RowInv(cfg, store, h.id) && HandlingInv(cfg, store, h) && h.stage == Answered(row, reply)
    ensures Good(cfg, store, h, Conclude(cfg, store, h.id, row, reply))
  {
    hide Reviewed, DeliveredOnce, Written, NormalizeReason, BlankOption, RowInv, Open, Recordable;
    DeliveredGood(cfg, store, h.id, row);
    forall reason: string
      ensures var v := Reviewed(store, h.id, row, reason);
              RowInv(cfg, v, h.id) && Open(cfg, v, h.id) && v.lost == store.lost
    {
      ReviewedGood(cfg, store, h.id, row, reason);
    }
    if row.attempts < cfg.maxAttempts {
      forall reason: string
        ensures var v := Written(store, h.id, row.(lastError := Some(reason)));
                RowInv(cfg, v, h.id) && Open(cfg, v, h.id) && v.lost == store.lost
      {
        WrittenGood(cfg, store, h.id, row.(lastError := Some(reason)));
      }
    }
  }

  lemma FailureGood(cfg: Settings, store: Store, h: Handling)
    requires RowInv(cfg, store, h.id) && h.stage.Failing?
    ensures Good(cfg, store, h, RecordFailure(cfg, store, h.id, h.stage.error))
  {
    hide Reviewed, Written;
    if h.id in store.rows && !store.rows[h.id].processed {
      var row := store.rows[h.id];
      ReviewedGood(cfg, store, h.id, row, PROCESSING_FAILED);
      if row.attempts < cfg.maxAttempts {
        WrittenGood(cfg, store, h.id, row.(lastError := Some(h.stage.error)));
      }
    }
  }

  /** What one step does to its own message. */
  lemma NextKeeps(cfg: Settings, store: Store, h: Handling, stateError: Option<string>, reply: Reply)
    requires ValidSettings(cfg) && RowInv(cfg, store, h.id) && HandlingInv(cfg, store, h)
    ensures Good(cfg, store, h, Next(cfg, store, h, stateError, reply))
  {
    hide RowInv, Good, Conclude, RecordFailure, Open;
    match h.stage
    case Failing(error) => FailureGood(cfg, store, h);
    case Answered(row, said) => ConcludeGood(cfg, store, h, row, said);
    case Received => EarlyGood(cfg, store, h, stateError, reply);
    case Inserted => EarlyGood(cfg, store, h, stateError, reply);
    case _ => MiddleGood(cfg, store, h, stateError, reply);
  }

  /** A world that differs from a good one only in the message of `pid`, which is good again, is good. */
  lemma Restored(cfg: Settings, w: World, v: World, pid: nat)
    requires Inv(cfg, w) && pid in w.active
    requires v.active - {pid} == w.active - {pid}
    requires pid in v.active ==> v.active[pid].id == w.active[pid].id && HandlingInv(cfg, v.store, v.active[pid])
    requires pid !in v.active ==> Open(cfg, v.store, w.active[pid].id)
    requires RowInv(cfg, v.store, w.active[pid].id)
    requires forall id: Guid :: id != w.active[pid].id ==> SameFor(w.store, v.store, id)
    ensures Inv(cfg, v)
  {
    var own := w.active[pid].id;
    forall q | q in v.active && q != pid
      ensures q in w.active && v.active[q] == w.active[q] && v.active[q].id != own
    {
      assert q in (v.active - {pid}) && q in (w.active - {pid});
      assert v.active[q] == (v.active - {pid})[q] == (w.active - {pid})[q];
    }
    forall id: Guid ensures RowInv(cfg, v.store, id) {
      assert RowInv(cfg, w.store, id);
      if id != own {
        assert SameFor(w.store, v.store, id);
      }
    }
    forall q | q in v.active ensures HandlingInv(cfg, v.store, v.active[q]) {
      if q != pid {
        assert HandlingInv(cfg, w.store, w.active[q]);
        assert SameFor(w.store, v.store, v.active[q].id);
      }
    }
    forall id: Guid | Idle(v, id) ensures Open(cfg, v.store, id) {
      if id != own {
        assert SameFor(w.store, v.store, id);
        assert Idle(w, id) by {
          forall q | q in w.active ensures w.active[q].id != id {
            if q != pid {
              assert q in (w.active - {pid}) && q in (v.active - {pid});
              assert v.active[q] == w.active[q];
            }
          }
        }
      }
    }
  }

  lemma StepKeeps(cfg: Settings, w: World, e: Event)
    requires ValidSettings(cfg) && Inv(cfg, w) && Single(w, e)
    ensures Inv(cfg, Step(cfg, w, e))
  {
    hide Next, RowInv, Open, HandlingInv, SameFor;
    var v := Step(cfg, w, e);
    match e
    case Deliver(pid, id, kind, payload) => DeliverKeeps(cfg, w, e);
    case Proceed(pid, stateError, reply) =>
      if pid in w.active {
        var h := w.active[pid];
        assert RowInv(cfg, w.store, h.id) && HandlingInv(cfg, w.store, h);
        NextKeeps(cfg, w.store, h, stateError, reply);
        forall id: Guid | id != h.id ensures SameFor(w.store, v.store, id) {
          NextIsLocal(cfg, w.store, h, stateError, reply, id);
        }
        Restored(cfg, w, v, pid);
      }
    case Raise(pid, done, error, stateError, reply) =>
      if pid in w.active {
        RaiseKeeps(cfg, w, pid, done, error, stateError, reply);
      }
    case Crash(pid) =>
      if pid in w.active {
        LostKeeps(cfg, w, pid);
      }
  }

  lemma DeliverKeeps(cfg: Settings, w: World, e: Event)
    requires Inv(cfg, w) && e.Deliver? && Single(w, e)
    ensures Inv(cfg, Step(cfg, w, e))
  {
    hide RowInv, Open, Next;
    if e.pid !in w.active {
      var v := Step(cfg, w, e);
      assert Idle(w, e.id);
      forall id: Guid | Idle(v, id) ensures Open(cfg, v.store, id) {
        forall q | q in w.active ensures w.active[q].id != id {
          assert q in v.active && v.active[q] == w.active[q];
        }
        assert Idle(w, id);
      }
    }
  }

  /** Losing a handling gives its message one more attempt. */
  lemma LostGood(cfg: Settings, store: Store, id: Guid)
    requires RowInv(cfg, store, id)
    ensures RowInv(cfg, Lost(store, id), id) && Open(cfg, Lost(store, id), id)
    ensures forall other: Guid :: other != id ==> SameFor(store, Lost(store, id), other)
  {
  }

  lemma LostKeeps(cfg: Settings, w: World, pid: nat)
    requires Inv(cfg, w) && pid in w.active
    ensures Inv(cfg, World(Lost(w.store, w.active[pid].id), w.active - {pid}))
  {
    hide RowInv, Open, SameFor, Lost;
    var own := w.active[pid].id;
    assert RowInv(cfg, w.store, own);
    LostGood(cfg, w.store, own);
    Restored(cfg, w, World(Lost(w.store, own), w.active - {pid}), pid);
  }

  lemma RaiseKeeps(cfg: Settings, w: World, pid: nat, done: bool, error: string, stateError: Option<string>,
                   reply: Reply)
    requires ValidSettings(cfg) && Inv(cfg, w) && pid in w.active
    ensures Inv(cfg, Step(cfg, w, Raise(pid, done, error, stateError, reply)))
  {
    hide Next, RowInv, Open, SameFor, Lost;
    var h := w.active[pid];
    var v := Step(cfg, w, Raise(pid, done, error, stateError, reply));
    assert RowInv(cfg, w.store, h.id) && HandlingInv(cfg, w.store, h);
    NextKeeps(cfg, w.store, h, stateError, reply);
    var store := if done then Next(cfg, w.store, h, stateError, reply).store else w.store;
    LostGood(cfg, store, h.id);
    forall id: Guid | id != h.id ensures SameFor(w.store, v.store, id) {
      NextIsLocal(cfg, w.store, h, stateError, reply, id);
      SameReflexive(w.store, id);
      if h.stage.Failing? {
        assert SameFor(store, Lost(store, h.id), id);
        SameTransitive(w.store, store, v.store, id);
      }
    }
    Restored(cfg, w, v, pid);
  }

  lemma SameTransitive(a: Store, b: Store, c: Store, id: Guid)
    requires SameFor(a, b, id) && SameFor(b, c, id)
    ensures SameFor(a, c, id)
  {
  }

  lemma SameReflexive(store: Store, id: Guid)
    ensures SameFor(store, store, id)
  {
  }

  lemma {:induction false} RunKeeps(cfg: Settings, w: World, events: seq<Event>)
    requires ValidSettings(cfg) && Inv(cfg, w) && Exclusive(cfg, w, events)
    ensures Inv(cfg, Run(cfg, w, events))
    decreases |events|
  {
    hide Inv, Step, Single;
    if events != [] {
      StepKeeps(cfg, w, events[0]);
      RunKeeps(cfg, Step(cfg, w, events[0]), events[1..]);
    }
  }
}
