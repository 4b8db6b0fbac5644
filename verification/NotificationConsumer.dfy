/** `CancellationNotificationConsumer`: one delivery from receipt to acknowledgement, as it changes the stored rows. */
module NotificationConsumer {
  import opened Texts
  import opened Inbox
  import opened InboxTheorems

  /** How `HandleAsync` ends. */
  datatype Handled = Replied(outcome: Outcome) | Threw(error: string)

  class CancellationNotificationConsumer {
    const cfg: Settings
    var store: Store

    constructor (cfg: Settings)
      ensures this.cfg == cfg && store == INITIAL.store
    {
      this.cfg := cfg;
      store := INITIAL.store;
    }

    /** The end of the delivery: an exception still has its failure recorded. */
    ghost function Ended(handled: Handled, id: Guid): Move
      reads this
    {
      match handled
      case Replied(outcome) => Move.End(store, outcome)
      case Threw(error) => RecordFailure(cfg, store, id, error)
    }

    /** `QueueReview` followed by the save. */
    method QueueReview(id: Guid, inbox: InboxRow, reason: string)
      modifies this
      ensures store == Reviewed(old(store), id, inbox, reason)
    {
      var row := inbox.(processed := true, lastError := Some(reason));
      store := store.(rows := store.rows[id := row]);
      store := store.(reviews := store.reviews + multiset{id});
    }

    /** `HandleAsync`. */
    method HandleAsync(id: Guid, kind: string, payload: string, stateError: Option<string>, reply: Reply)
      returns (handled: Handled)
      modifies this
      ensures Ended(handled, id) == Finish(cfg, old(store), Handling(id, kind, payload, Received), stateError, reply)
    {
      hide Trim, NormalizeReason, Finish, Recordable;
      if id == 0 {
        NoIdFails(cfg, store, kind, payload, stateError, reply);
        return Threw("Message id is required.");
      }
      ghost var h := Handling(id, kind, payload, Received);
      FinishUnfolds(cfg, store, h, stateError, reply);
      if id !in store.rows {
        store := store.(rows := store.rows[id := InboxRow(kind, 0, false, None)]);
      }
      FinishUnfolds(cfg, store, h.(stage := Inserted), stateError, reply);
      var inbox := store.rows[id];
      if inbox.processed {
        return Replied(Acknowledge);
      }
      if inbox.kind != kind {
        QueueReview(id, inbox, TYPE_MISMATCH);
        return Replied(ReviewQueued);
      }
      inbox := inbox.(attempts := inbox.attempts + 1, lastError := None);
      store := store.(rows := store.rows[id := inbox]);
      FinishUnfolds(cfg, store, h.(stage := Counted(inbox)), stateError, reply);
      var parseError := (cfg.parse)(kind, payload);
      if parseError.Some? {
        QueueReview(id, inbox, parseError.value);
        return Replied(ReviewQueued);
      }
      FinishUnfolds(cfg, store, h.(stage := Checking(inbox)), stateError, reply);
      if stateError.Some? {
        QueueReview(id, inbox, stateError.value);
        return Replied(ReviewQueued);
      }
      FinishUnfolds(cfg, store, h.(stage := Calling(inbox)), stateError, reply);
      store := store.(calls := store.calls + multiset{id});
      FinishUnfolds(cfg, store, h.(stage := Answered(inbox, reply)), stateError, reply);
      handled := ApplyReply(id, inbox, reply);
      if handled.Threw? {
        FinishUnfolds(cfg, store, h.(stage := Failing(NOT_SAVED)), stateError, reply);
      }
    }

    /** `HandleAsync` from the adapter's reply on. */
    method ApplyReply(id: Guid, inbox: InboxRow, reply: Reply) returns (handled: Handled)
      modifies this
      ensures Conclude(cfg, old(store), id, inbox, reply) ==
              (match handled
               case Replied(outcome) => Move.End(store, outcome)
               case Threw(error) => Move.Go(store, Failing(error)))
      ensures handled.Threw? ==> handled.error == NOT_SAVED
    {
      hide Trim, NormalizeReason, Recordable;
      if !Recordable(reply) {
        return Threw(NOT_SAVED);
      }
      if reply.status == WasDelivered && !BlankOption(reply.reference) {
        store := store.(rows := store.rows[id := inbox.(processed := true, lastError := None)]);
        store := store.(delivered := store.delivered + multiset{id});
        return Replied(Acknowledge);
      }
      if reply.status == DefinitelyFailed {
        QueueReview(id, inbox, NormalizeReason(reply.reason, DELIVERY_FAILED));
        return Replied(ReviewQueued);
      }
      var reason := if reply.status == WasDelivered then UNCONFIRMED else NormalizeReason(reply.reason, INDETERMINATE);
      if inbox.attempts >= cfg.maxAttempts {
        QueueReview(id, inbox, reason);
        return Replied(ReviewQueued);
      }
      store := store.(rows := store.rows[id := inbox.(lastError := Some(reason))]);
      handled := Replied(Retry);
    }

    /** `RecordFailureAsync`: true when the delivery may be acknowledged. */
    method RecordFailureAsync(id: Guid, error: string) returns (recorded: bool)
      modifies this
      ensures var m := RecordFailure(cfg, old(store), id, error);
              store == m.store && (recorded <==> m.outcome != Retry)
    {
      if id !in store.rows {
        return false;
      }
      var inbox := store.rows[id];
      if inbox.processed {
        return true;
      }
      if inbox.attempts >= cfg.maxAttempts {
        QueueReview(id, inbox, PROCESSING_FAILED);
        return true;
      }
      store := store.(rows := store.rows[id := inbox.(lastError := Some(error))]);
      recorded := false;
    }

    /** The received-delivery callback without a fault of the database or adapter: true acknowledges, false requeues. */
    method Receive(id: Guid, kind: string, payload: string, stateError: Option<string>, reply: Reply)
      returns (acknowledged: bool)
      modifies this
      ensures var m := Finish(cfg, old(store), Handling(id, kind, payload, Received), stateError, reply);
              store == m.store && (acknowledged <==> m.outcome != Retry)
    {
      hide Next, Finish;
      var handled := HandleAsync(id, kind, payload, stateError, reply);
      match handled
      case Replied(outcome) => acknowledged := outcome != Retry;
      case Threw(error) => acknowledged := RecordFailureAsync(id, error);
    }
  }

  lemma NoIdFails(cfg: Settings, store: Store, kind: string, payload: string, stateError: Option<string>, reply: Reply)
    ensures Finish(cfg, store, Handling(0, kind, payload, Received), stateError, reply) ==
            RecordFailure(cfg, store, 0, "Message id is required.")
  {
  }
}
