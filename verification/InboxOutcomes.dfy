/** What a delivery comes to: for every message and every reply the one outcome, with its reason. */
module InboxOutcomes {
  import opened Texts
  import opened Inbox
  import opened InboxTheorems

  /** The adapter vouches for the delivery with a reference. */
  predicate Confirms(reply: Reply) {
    reply.status == WasDelivered && reply.reference.Some? && !Blank(reply.reference.value)
  }

  /** What was stored under this id belongs to a message of another type. */
  predicate Mismatched(store: Store, id: Guid, kind: string) {
    id in store.rows && store.rows[id].kind != kind
  }

  /** Type, payload and recipient are in order: the adapter is asked. */
  predicate Asks(cfg: Settings, store: Store, id: Guid, kind: string, payload: string, stateError: Option<string>) {
    !Mismatched(store, id, kind) && (cfg.parse)(kind, payload).None? && stateError.None?
  }

  function OnceIf(b: bool, id: Guid): multiset<Guid> {
    if b then multiset{id} else multiset{}
  }

  /** The message is done with, for this reason, and goes to a person. */
  predicate SentToReview(store: Store, m: Move, id: Guid, attempts: nat, reason: string) {
    && m.End? && m.outcome == ReviewQueued
    && id in m.store.rows && m.store.rows[id].processed && m.store.rows[id].lastError == Some(reason)
    && m.store.rows[id].attempts == attempts
    && m.store.reviews == store.reviews + multiset{id} && m.store.delivered == store.delivered
  }

  /** The message is to come again, with this error on record. */
  predicate HandedBack(store: Store, m: Move, id: Guid, attempts: nat, error: string) {
    && m.End? && m.outcome == Retry
    && id in m.store.rows && !m.store.rows[id].processed && m.store.rows[id].lastError == Some(error)
    && m.store.rows[id].attempts == attempts
    && m.store.reviews == store.reviews && m.store.delivered == store.delivered
  }

  /** The message is done with and recorded as delivered. */
  predicate RecordedAsDelivered(store: Store, m: Move, id: Guid, attempts: nat) {
    && m.End? && m.outcome == Acknowledge
    && id in m.store.rows && m.store.rows[id].processed && m.store.rows[id].lastError == None
    && m.store.rows[id].attempts == attempts
    && m.store.reviews == store.reviews && m.store.delivered == store.delivered + multiset{id}
  }

  /** What a reply on the `attempts`-th attempt must come to. */
  predicate RightEnd(cfg: Settings, store: Store, m: Move, id: Guid, attempts: nat, reply: Reply) {
    if !Recordable(reply) then
      if attempts < cfg.maxAttempts then HandedBack(store, m, id, attempts, NOT_SAVED)
      else SentToReview(store, m, id, attempts, PROCESSING_FAILED)
    else
      match reply.status
      case WasDelivered =>
        if Confirms(reply) then RecordedAsDelivered(store, m, id, attempts)
        else if attempts < cfg.maxAttempts then HandedBack(store, m, id, attempts, UNCONFIRMED)
        else SentToReview(store, m, id, attempts, UNCONFIRMED)
      case DefinitelyFailed => SentToReview(store, m, id, attempts, GivenReason(reply, DELIVERY_FAILED))
      case Uncertain =>
        if attempts < cfg.maxAttempts then HandedBack(store, m, id, attempts, GivenReason(reply, INDETERMINATE))
        else SentToReview(store, m, id, attempts, GivenReason(reply, INDETERMINATE))
  }

  /** The adapter's reason in its own words, if it gives one. */
  function GivenReason(reply: Reply, otherwise: string): string {
    if reply.reason.Some? && !Blank(reply.reason.value) then Trim(reply.reason.value) else otherwise
  }

  lemma ConcludesRight(cfg: Settings, store: Store, h: Handling, stateError: Option<string>, reply: Reply)
    requires h.stage.Answered? && !h.stage.row.processed
    requires h.id in store.rows && store.rows[h.id] == h.stage.row
    ensures var m := Finish(cfg, store, h, stateError, reply);
            && RightEnd(cfg, store, m, h.id, h.stage.row.attempts, h.stage.reply)
            && m.store == store.(rows := store.rows[h.id := m.store.rows[h.id]], reviews := m.store.reviews,
                                 delivered := m.store.delivered)
            && m.store.rows[h.id].kind == h.stage.row.kind
  {
    hide Trim, Recordable, Finish;
    FinishUnfolds(cfg, store, h, stateError, reply);
    if !Recordable(h.stage.reply) {
      FinishUnfolds(cfg, store, h.(stage := Failing(NOT_SAVED)), stateError, reply);
    }
  }

  /** From a counted attempt on: the checks, then the adapter. */
  lemma CountedOutcome(cfg: Settings, store: Store, h: Handling, stateError: Option<string>, reply: Reply)
    requires h.stage.Counted? && !h.stage.row.processed
    requires h.id in store.rows && store.rows[h.id] == h.stage.row
    ensures var m, id, attempts := Finish(cfg, store, h, stateError, reply), h.id, h.stage.row.attempts;
            var parseError := (cfg.parse)(h.kind, h.payload);
            var asks := parseError.None? && stateError.None?;
            && (parseError.Some? ==> SentToReview(store, m, id, attempts, parseError.value))
            && (parseError.None? && stateError.Some? ==> SentToReview(store, m, id, attempts, stateError.value))
            && (asks ==> RightEnd(cfg, store, m, id, attempts, reply))
            && m.store.calls == store.calls + OnceIf(asks, id)
            && m.store.delivered == store.delivered + OnceIf(asks && Recordable(reply) && Confirms(reply), id)
            && m.store.reviews == store.reviews + OnceIf(m.outcome == ReviewQueued, id)
            && id in m.store.rows && m.store.rows == store.rows[id := m.store.rows[id]]
            && m.store.rows[id].kind == h.stage.row.kind && m.store.lost == store.lost
  {
    hide Trim, Finish, Recordable, RightEnd, Confirms;
    var row := h.stage.row;
    FinishUnfolds(cfg, store, h, stateError, reply);
    FinishUnfolds(cfg, store, h.(stage := Checking(row)), stateError, reply);
    FinishUnfolds(cfg, store, h.(stage := Calling(row)), stateError, reply);
    if (cfg.parse)(h.kind, h.payload).None? && stateError.None? {
      var called, answered := store.(calls := store.calls + multiset{h.id}), h.(stage := Answered(row, reply));
      ConcludesRight(cfg, called, answered, stateError, reply);
      SameRightEnd(cfg, called, store, Finish(cfg, called, answered, stateError, reply), h.id, row.attempts, reply);
    }
  }

  /** From the row on record on. */
  lemma RecordedOutcome(cfg: Settings, store: Store, h: Handling, stateError: Option<string>, reply: Reply)
    requires h.stage == Inserted && h.id in store.rows && !store.rows[h.id].processed
    ensures var m, id, before := Finish(cfg, store, h, stateError, reply), h.id, store.rows[h.id].attempts;
            var parseError, asks := (cfg.parse)(h.kind, h.payload), Asks(cfg, store, id, h.kind, h.payload, stateError);
            && (Mismatched(store, id, h.kind) ==> SentToReview(store, m, id, before, TYPE_MISMATCH))
            && (!Mismatched(store, id, h.kind) && parseError.Some? ==>
                  SentToReview(store, m, id, before + 1, parseError.value))
            && (!Mismatched(store, id, h.kind) && parseError.None? && stateError.Some? ==>
                  SentToReview(store, m, id, before + 1, stateError.value))
            && (asks ==> RightEnd(cfg, store, m, id, before + 1, reply))
            && m.store.calls == store.calls + OnceIf(asks, id)
            && m.store.delivered == store.delivered + OnceIf(asks && Recordable(reply) && Confirms(reply), id)
            && m.store.reviews == store.reviews + OnceIf(m.outcome == ReviewQueued, id)
            && id in m.store.rows && m.store.rows == store.rows[id := m.store.rows[id]]
            && m.store.rows[id].kind == store.rows[id].kind && m.store.lost == store.lost
  {
    hide Trim, Finish, Recordable, RightEnd, Confirms;
    FinishUnfolds(cfg, store, h, stateError, reply);
    if !Mismatched(store, h.id, h.kind) {
      var row := store.rows[h.id].(attempts := store.rows[h.id].attempts + 1, lastError := None);
      var counted := Written(store, h.id, row);
      CountedOutcome(cfg, counted, h.(stage := Counted(row)), stateError, reply);
      if Asks(cfg, store, h.id, h.kind, h.payload, stateError) {
        var m := Finish(cfg, counted, h.(stage := Counted(row)), stateError, reply);
        SameRightEnd(cfg, counted, store, m, h.id, row.attempts, reply);
      }
    }
  }

  /** What an end must look like depends on the audits and reviews there were, and what it adds to them. */
  lemma SameRightEnd(cfg: Settings, a: Store, b: Store, m: Move, id: Guid, attempts: nat, reply: Reply)
    requires RightEnd(cfg, a, m, id, attempts, reply) && a.reviews == b.reviews && a.delivered == b.delivered && m.End?
    ensures RightEnd(cfg, b, m, id, attempts, reply)
    ensures m.store.delivered == b.delivered + OnceIf(Recordable(reply) && Confirms(reply), id)
    ensures m.store.reviews == b.reviews + OnceIf(m.outcome == ReviewQueued, id)
  {
    hide Recordable;
  }

  /** An undisturbed handling of a message that is not finished: a delivered audit results exactly when type, payload
      and recipient are in order and the reply can be saved and confirms the delivery; otherwise the message is reviewed
      once, for the reason of the first check that fails, or handed back while attempts are left. Nothing else changes,
      and the adapter is asked exactly when the checks pass. */
  lemma HandlingOutcome(cfg: Settings, store: Store, id: Guid, kind: string, payload: string,
                        stateError: Option<string>, reply: Reply)
    requires id != 0 && !Settled(store, id)
    ensures var m := Finish(cfg, store, Handling(id, kind, payload, Received), stateError, reply);
            var asks, before := Asks(cfg, store, id, kind, payload, stateError), Attempts(store, id);
            && m.store.delivered == store.delivered + OnceIf(asks && Recordable(reply) && Confirms(reply), id)
            && m.store.calls == store.calls + OnceIf(asks, id)
            && m.store.reviews == store.reviews + OnceIf(m.outcome == ReviewQueued, id)
            && (Mismatched(store, id, kind) ==> SentToReview(store, m, id, before, TYPE_MISMATCH))
            && (!Mismatched(store, id, kind) && (cfg.parse)(kind, payload).Some? ==>
                  SentToReview(store, m, id, before + 1, (cfg.parse)(kind, payload).value))
            && (!Mismatched(store, id, kind) && (cfg.parse)(kind, payload).None? && stateError.Some? ==>
                  SentToReview(store, m, id, before + 1, stateError.value))
            && (asks ==> RightEnd(cfg, store, m, id, before + 1, reply))
            && m.store.rows.Keys == store.rows.Keys + {id} && m.store.lost == store.lost
            && (forall other :: other in store.rows && other != id ==> m.store.rows[other] == store.rows[other])
            && m.store.rows[id].kind == (if id in store.rows then store.rows[id].kind else kind)
  {
    hide Trim, Finish, Recordable, RightEnd, Confirms;
    var h := Handling(id, kind, payload, Received);
    FinishUnfolds(cfg, store, h, stateError, reply);
    var known := Next(cfg, store, h, stateError, reply).store;
    RecordedOutcome(cfg, known, h.(stage := Inserted), stateError, reply);
    if Asks(cfg, store, id, kind, payload, stateError) {
      var m := Finish(cfg, known, h.(stage := Inserted), stateError, reply);
      SameRightEnd(cfg, known, store, m, id, Attempts(store, id) + 1, reply);
    }
  }

  /** Recording an exception: the message is reviewed on its last attempt and handed back with the error before. */
  lemma FailureOutcome(cfg: Settings, store: Store, h: Handling, stateError: Option<string>, reply: Reply)
    requires h.stage.Failing? && h.id in store.rows && !store.rows[h.id].processed
    ensures var m := Finish(cfg, store, h, stateError, reply);
            && (if Attempts(store, h.id) < cfg.maxAttempts
                then HandedBack(store, m, h.id, Attempts(store, h.id), h.stage.error)
                else SentToReview(store, m, h.id, Attempts(store, h.id), PROCESSING_FAILED))
            && m.store == store.(rows := store.rows[h.id := m.store.rows[h.id]], reviews := m.store.reviews)
  {
  }

  // ---- over runs ----

  /** The message the adapter vouches for in this event. */
  function VouchedFor(w: World, e: Event): set<Guid> {
    if e.Proceed? && e.pid in w.active && w.active[e.pid].stage.Calling? && Confirms(e.reply)
    then {w.active[e.pid].id} else {}
  }

  /** All messages it vouches for in a run. */
  function Vouched(cfg: Settings, w: World, events: seq<Event>): set<Guid>
    decreases |events|
  {
    if events == [] then {} else VouchedFor(w, events[0]) + Vouched(cfg, Step(cfg, w, events[0]), events[1..])
  }

  /** Every delivered audit, and every confirming reply in hand, is for one of these messages. */
  ghost predicate Backed(w: World, ids: set<Guid>) {
    && (forall id: Guid :: w.store.delivered[id] > 0 ==> id in ids)
    && (forall pid :: pid in w.active && w.active[pid].stage.Answered? && Confirms(w.active[pid].stage.reply) ==>
          w.active[pid].id in ids)
  }

  lemma NextIsBacked(cfg: Settings, store: Store, h: Handling, stateError: Option<string>, reply: Reply)
    ensures var m := Next(cfg, store, h, stateError, reply);
            && (m.store.delivered == store.delivered
                || (h.stage.Answered? && Confirms(h.stage.reply)
                    && m.store.delivered == store.delivered + multiset{h.id}))
            && (m.Go? && m.stage.Answered? ==> h.stage.Calling? && m.stage.reply == reply)
  {
    hide Trim, Recordable, NormalizeReason;
  }

  lemma StepIsBacked(cfg: Settings, w: World, e: Event, ids: set<Guid>)
    requires Backed(w, ids)
    ensures Backed(Step(cfg, w, e), ids + VouchedFor(w, e))
  {
    hide Next, Confirms;
    if (e.Proceed? || e.Raise?) && e.pid in w.active {
      NextIsBacked(cfg, w.store, w.active[e.pid], e.stateError, e.reply);
    }
  }

  lemma {:induction false} RunIsBacked(cfg: Settings, w: World, events: seq<Event>, ids: set<Guid>)
    requires Backed(w, ids)
    ensures Backed(Run(cfg, w, events), ids + Vouched(cfg, w, events))
    decreases |events|
  {
    hide Step, Backed, VouchedFor;
    if events == [] {
      assert ids + Vouched(cfg, w, events) == ids;
    } else {
      var said, v := VouchedFor(w, events[0]), Step(cfg, w, events[0]);
      StepIsBacked(cfg, w, events[0], ids);
      RunIsBacked(cfg, v, events[1..], ids + said);
      assert ids + said + Vouched(cfg, v, events[1..]) == ids + Vouched(cfg, w, events);
    }
  }

  /** In every run, serial or not, a delivered audit exists only for a message whose delivery the adapter confirmed with
      a reference when it was asked for that message. */
  lemma DeliveredWasConfirmed(cfg: Settings, events: seq<Event>, id: Guid)
    requires Run(cfg, INITIAL, events).store.delivered[id] > 0
    ensures id in Vouched(cfg, INITIAL, events)
  {
    hide Vouched, Run;
    RunIsBacked(cfg, INITIAL, events, {});
  }
}
