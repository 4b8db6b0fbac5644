/** What the notification consumer guarantees over whole runs, and where it does not. */
module InboxTheorems {
  import opened Texts
  import opened Columns
  import opened Inbox

  ghost predicate Reachable(cfg: Settings, w: World) {
    exists events: seq<Event> :: Exclusive(cfg, INITIAL, events) && Run(cfg, INITIAL, events) == w
  }

  lemma ReachableInv(cfg: Settings, w: World)
    requires ValidSettings(cfg) && Reachable(cfg, w)
    ensures Inv(cfg, w)
  {
    hide Exclusive, Run;
    var events: seq<Event> :| Exclusive(cfg, INITIAL, events) && Run(cfg, INITIAL, events) == w;
    RunKeeps(cfg, INITIAL, events);
  }

  /** However deliveries repeat, fail and crash: no outcome before the message is processed, exactly one afterwards
      (a delivered audit when no error is recorded, a review row otherwise); and the adapter is called at most once
      per attempt, attempts staying within the limit plus the handlings that were lost. */
  lemma OutcomeIsUnique(cfg: Settings, w: World, id: Guid)
    requires ValidSettings(cfg) && Reachable(cfg, w)
    ensures id !in w.store.rows || !w.store.rows[id].processed ==>
              w.store.delivered[id] == 0 && w.store.reviews[id] == 0
    ensures id in w.store.rows && w.store.rows[id].processed ==>
              && w.store.delivered[id] == (if w.store.rows[id].lastError.None? then 1 else 0)
              && w.store.reviews[id] == (if w.store.rows[id].lastError.None? then 0 else 1)
    ensures id in w.store.rows ==>
              w.store.calls[id] <= w.store.rows[id].attempts <= cfg.maxAttempts + w.store.lost[id]
  {
    ReachableInv(cfg, w);
    assert RowInv(cfg, w.store, id);
  }

  /** Between deliveries an unprocessed message that never lost a handling has attempts left. */
  lemma RestingHasAttemptsLeft(cfg: Settings, w: World, id: Guid)
    requires ValidSettings(cfg) && Reachable(cfg, w) && Idle(w, id)
    requires id in w.store.rows && !w.store.rows[id].processed
    ensures w.store.rows[id].attempts < cfg.maxAttempts + w.store.lost[id]
  {
    ReachableInv(cfg, w);
    assert Open(cfg, w.store, id);
  }

  // ---- later deliveries ----

  predicate Settled(store: Store, id: Guid) {
    id in store.rows && store.rows[id].processed
  }

  predicate SameOutcome(a: Store, b: Store, id: Guid) {
    && Settled(a, id) && Settled(b, id) && a.rows[id] == b.rows[id]
    && a.delivered[id] == b.delivered[id] && a.reviews[id] == b.reviews[id] && a.calls[id] == b.calls[id]
  }

  lemma StepLeavesSettled(cfg: Settings, w: World, e: Event, id: Guid)
    requires ValidSettings(cfg) && Inv(cfg, w) && Settled(w.store, id)
    ensures SameOutcome(w.store, Step(cfg, w, e).store, id)
  {
    hide Next, RowInv, Open;
    if (e.Proceed? || e.Raise?) && e.pid in w.active {
      var h := w.active[e.pid];
      assert RowInv(cfg, w.store, h.id) && HandlingInv(cfg, w.store, h);
      NextKeeps(cfg, w.store, h, e.stateError, e.reply);
      if h.id != id {
        NextIsLocal(cfg, w.store, h, e.stateError, e.reply, id);
      }
    }
  }

  /** Once processed, nothing that happens later touches the row, its outcome or the adapter again. */
  lemma {:induction false} LaterDeliveriesChangeNothing(cfg: Settings, w: World, events: seq<Event>, id: Guid)
    requires ValidSettings(cfg) && Inv(cfg, w) && Exclusive(cfg, w, events) && Settled(w.store, id)
    ensures SameOutcome(w.store, Run(cfg, w, events).store, id)
    decreases |events|
  {
    hide Inv, Step, Single;
    if events != [] {
      StepLeavesSettled(cfg, w, events[0], id);
      StepKeeps(cfg, w, events[0]);
      LaterDeliveriesChangeNothing(cfg, Step(cfg, w, events[0]), events[1..], id);
    }
  }

  // ---- one whole handling ----

  function Rank(stage: Stage): nat {
    match stage
    case Received => 6
    case Inserted => 5
    case Counted(_) => 4
    case Checking(_) => 3
    case Calling(_) => 2
    case Answered(_, _) => 1
    case Failing(_) => 0
  }

  /** A handling from its present stage to its end, nothing coming in between. */
  function Finish(cfg: Settings, store: Store, h: Handling, stateError: Option<string>, reply: Reply): (m: Move)
    ensures m.End?
    decreases Rank(h.stage)
  {
    var m := Next(cfg, store, h, stateError, reply);
    if m.End? then m else Finish(cfg, m.store, h.(stage := m.stage), stateError, reply)
  }

  /** The sequential handling is a run of the step machine. */
  lemma {:induction false} FinishIsARun(cfg: Settings, w: World, pid: nat, stateError: Option<string>, reply: Reply)
    returns (events: seq<Event>)
    requires pid in w.active
    ensures forall e :: e in events ==> e == Event.Proceed(pid, stateError, reply)
    ensures Run(cfg, w, events) == World(Finish(cfg, w.store, w.active[pid], stateError, reply).store, w.active - {pid})
    decreases Rank(w.active[pid].stage)
  {
    hide Next;
    var e := Event.Proceed(pid, stateError, reply);
    var v := Step(cfg, w, e);
    var m := Next(cfg, w.store, w.active[pid], stateError, reply);
    if m.End? {
      events := [e];
      assert Run(cfg, v, []) == v;
    } else {
      RankDrops(cfg, w.store, w.active[pid], stateError, reply);
      var rest := FinishIsARun(cfg, v, pid, stateError, reply);
      assert v.active - {pid} == w.active - {pid};
      events := [e] + rest;
      assert events[1..] == rest;
    }
  }

  lemma RankDrops(cfg: Settings, store: Store, h: Handling, stateError: Option<string>, reply: Reply)
    ensures var m := Next(cfg, store, h, stateError, reply); m.Go? ==> Rank(m.stage) < Rank(h.stage)
  {
  }

  /** The adapter's answer neither confirms a delivery nor refuses it, or cannot be saved. */
  predicate Inconclusive(reply: Reply) {
    || !Recordable(reply)
    || reply.status == Uncertain || (reply.status == WasDelivered && BlankOption(reply.reference))
  }

  function Attempts(store: Store, id: Guid): nat {
    if id in store.rows then store.rows[id].attempts else 0
  }

  /** Retrying ends: an undisturbed handling of an unprocessed message either processes it, or used up one more of
      the limited attempts; and it leaves the message unprocessed exactly when everything up to the adapter was
      in order, the answer was inconclusive or could not be saved, and this was not the last attempt. */
  lemma HandlingDecides(cfg: Settings, store: Store, id: Guid, kind: string, payload: string,
                        stateError: Option<string>, reply: Reply)
    requires id != 0 && !Settled(store, id)
    ensures var m := Finish(cfg, store, Handling(id, kind, payload, Received), stateError, reply);
            && id in m.store.rows
            && (!Settled(m.store, id) <==>
                && (id in store.rows ==> store.rows[id].kind == kind)
                && (cfg.parse)(kind, payload).None? && stateError.None?
                && Inconclusive(reply) && Attempts(store, id) + 1 < cfg.maxAttempts)
            && (m.outcome == Retry <==> !Settled(m.store, id))
            && (!Settled(m.store, id) ==>
                  Attempts(m.store, id) == Attempts(store, id) + 1 && Attempts(m.store, id) < cfg.maxAttempts)
  {
    hide Trim, NormalizeReason, Finish, Inconclusive;
    var h := Handling(id, kind, payload, Received);
    var m := Next(cfg, store, h, stateError, reply);
    FinishUnfolds(cfg, store, h, stateError, reply);
    FromInserted(cfg, m.store, h.(stage := Inserted), stateError, reply);
  }

  lemma FinishUnfolds(cfg: Settings, store: Store, h: Handling, stateError: Option<string>, reply: Reply)
    ensures var m := Next(cfg, store, h, stateError, reply);
            Finish(cfg, store, h, stateError, reply) ==
            if m.End? then m else Finish(cfg, m.store, h.(stage := m.stage), stateError, reply)
  {
    hide Next;
  }

  /** The end of a handling that counted its attempt. */
  predicate Ends(m: Move, id: Guid, attempts: nat, open: bool) {
    && m.End? && id in m.store.rows
    && (m.outcome == Retry <==> open) && (Settled(m.store, id) <==> !open)
    && (open ==> m.store.rows[id].attempts == attempts)
  }

  lemma FromAnswered(cfg: Settings, store: Store, h: Handling, stateError: Option<string>, reply: Reply)
    requires h.stage.Answered? && !h.stage.row.processed
    requires h.id in store.rows && store.rows[h.id] == h.stage.row
    ensures Ends(Finish(cfg, store, h, stateError, reply), h.id, h.stage.row.attempts,
                 Inconclusive(h.stage.reply) && h.stage.row.attempts < cfg.maxAttempts)
  {
    hide BlankOption, NormalizeReason, Recordable, Finish;
    FinishUnfolds(cfg, store, h, stateError, reply);
    if !Recordable(h.stage.reply) {
      FinishUnfolds(cfg, store, h.(stage := Failing(NOT_SAVED)), stateError, reply);
    }
  }

  lemma FromCalling(cfg: Settings, store: Store, h: Handling, stateError: Option<string>, reply: Reply)
    requires h.stage.Calling? && !h.stage.row.processed
    requires h.id in store.rows && store.rows[h.id] == h.stage.row
    ensures Ends(Finish(cfg, store, h, stateError, reply), h.id, h.stage.row.attempts,
                 Inconclusive(reply) && h.stage.row.attempts < cfg.maxAttempts)
  {
    hide Ends, Finish, Inconclusive;
    FinishUnfolds(cfg, store, h, stateError, reply);
    var m := Next(cfg, store, h, stateError, reply);
    FromAnswered(cfg, m.store, h.(stage := m.stage), stateError, reply);
  }

  lemma FromChecking(cfg: Settings, store: Store, h: Handling, stateError: Option<string>, reply: Reply)
    requires h.stage.Checking? && !h.stage.row.processed
    requires h.id in store.rows && store.rows[h.id] == h.stage.row
    ensures Ends(Finish(cfg, store, h, stateError, reply), h.id, h.stage.row.attempts,
                 stateError.None? && Inconclusive(reply) && h.stage.row.attempts < cfg.maxAttempts)
  {
    hide Finish, Inconclusive;
    FinishUnfolds(cfg, store, h, stateError, reply);
    if stateError.None? {
      FromCalling(cfg, store, h.(stage := Calling(h.stage.row)), stateError, reply);
    }
  }

  lemma FromCounted(cfg: Settings, store: Store, h: Handling, stateError: Option<string>, reply: Reply)
    requires h.stage.Counted? && !h.stage.row.processed
    requires h.id in store.rows && store.rows[h.id] == h.stage.row
    ensures Ends(Finish(cfg, store, h, stateError, reply), h.id, h.stage.row.attempts,
                 (cfg.parse)(h.kind, h.payload).None? && stateError.None? && Inconclusive(reply)
                 && h.stage.row.attempts < cfg.maxAttempts)
  {
    hide Finish, Inconclusive;
    FinishUnfolds(cfg, store, h, stateError, reply);
    if (cfg.parse)(h.kind, h.payload).None? {
      FromChecking(cfg, store, h.(stage := Checking(h.stage.row)), stateError, reply);
    }
  }

  lemma FromInserted(cfg: Settings, store: Store, h: Handling, stateError: Option<string>, reply: Reply)
    requires h.stage == Inserted && h.id in store.rows && !store.rows[h.id].processed
    ensures Ends(Finish(cfg, store, h, stateError, reply), h.id, store.rows[h.id].attempts + 1,
                 store.rows[h.id].kind == h.kind
                 && (cfg.parse)(h.kind, h.payload).None? && stateError.None? && Inconclusive(reply)
                 && store.rows[h.id].attempts + 1 < cfg.maxAttempts)
  {
    hide Finish, Inconclusive;
    FinishUnfolds(cfg, store, h, stateError, reply);
    var m := Next(cfg, store, h, stateError, reply);
    if m.Go? {
      FromCounted(cfg, m.store, h.(stage := m.stage), stateError, reply);
    }
  }

  /** After an exception, recording it processes the message or leaves it with attempts to spare. */
  lemma FailureDecides(cfg: Settings, store: Store, h: Handling, stateError: Option<string>, reply: Reply)
    requires h.stage.Failing? && h.id in store.rows
    ensures var m := Finish(cfg, store, h, stateError, reply);
            && (m.outcome == Retry <==> !Settled(m.store, h.id))
            && (Settled(m.store, h.id) <==> Settled(store, h.id) || Attempts(store, h.id) >= cfg.maxAttempts)
  {
  }

  // ---- every retry makes progress ----

  /** The events up to the end of a handling that is not lost; others go on in between. */
  predicate Lasts(cfg: Settings, w: World, events: seq<Event>, pid: nat)
    decreases |events|
  {
    && pid in w.active && events != []
    && events[0] != Crash(pid)
    && !(events[0].Raise? && events[0].pid == pid && w.active[pid].stage.Failing?)
    && var v := Step(cfg, w, events[0]);
       if pid in v.active then Lasts(cfg, v, events[1..], pid) else events[1..] == []
  }

  /** A handling that found this many attempts: whether its own is counted by now. */
  predicate Underway(cfg: Settings, store: Store, h: Handling, before: nat) {
    match h.stage
    case Received => Attempts(store, h.id) == before
    case Inserted => Attempts(store, h.id) == before
    case Failing(_) => Settled(store, h.id) || before <= Attempts(store, h.id) <= before + 1
    case _ => Attempts(store, h.id) == before + 1 && h.id in store.rows && store.rows[h.id] == h.stage.row
  }

  /** Finished, or not counted, or counted with attempts to spare. */
  predicate Progressed(cfg: Settings, store: Store, id: Guid, before: nat) {
    || Settled(store, id)
    || Attempts(store, id) == before
    || before < Attempts(store, id) < cfg.maxAttempts
  }

  lemma NextProgresses(cfg: Settings, store: Store, h: Handling, stateError: Option<string>, reply: Reply, before: nat)
    requires Underway(cfg, store, h, before)
    ensures var m := Next(cfg, store, h, stateError, reply);
            && (m.Go? ==> Underway(cfg, m.store, h.(stage := m.stage), before))
            && (m.End? ==> Progressed(cfg, m.store, h.id, before))
            && (Settled(m.store, h.id) || before <= Attempts(m.store, h.id) <= before + 1)
  {
    hide Recordable, NormalizeReason, BlankOption;
  }

  lemma OwnStepProgresses(cfg: Settings, w: World, e: Event, pid: nat, before: nat)
    requires pid in w.active && Underway(cfg, w.store, w.active[pid], before)
    requires e.Proceed? || (e.Raise? && !w.active[pid].stage.Failing?)
    requires e.pid == pid
    ensures var v, id := Step(cfg, w, e), w.active[pid].id;
            if pid in v.active then v.active[pid].id == id && Underway(cfg, v.store, v.active[pid], before)
            else Progressed(cfg, v.store, id, before)
  {
    hide Next;
    NextProgresses(cfg, w.store, w.active[pid], e.stateError, e.reply, before);
    var h := w.active[pid];
    if e.Raise? && !e.done {
      NotFarYet(cfg, w.store, h, before);
    }
  }

  lemma NotFarYet(cfg: Settings, store: Store, h: Handling, before: nat)
    requires Underway(cfg, store, h, before)
    ensures Settled(store, h.id) || before <= Attempts(store, h.id) <= before + 1
  {
  }

  /** Handlings of other messages do not interfere. */
  lemma OtherStepKeepsUnderway(cfg: Settings, w: World, e: Event, pid: nat, before: nat)
    requires Inv(cfg, w) && pid in w.active && Underway(cfg, w.store, w.active[pid], before) && e.pid != pid
    ensures var v := Step(cfg, w, e);
            && pid in v.active && v.active[pid] == w.active[pid]
            && Underway(cfg, v.store, v.active[pid], before)
  {
    hide Next, RowInv, HandlingInv, Open;
    var id := w.active[pid].id;
    if (e.Proceed? || e.Raise?) && e.pid in w.active {
      NextIsLocal(cfg, w.store, w.active[e.pid], e.stateError, e.reply, id);
    }
  }

  lemma {:induction false} HandlingProgresses(cfg: Settings, w: World, events: seq<Event>, pid: nat, before: nat)
    requires ValidSettings(cfg) && Inv(cfg, w) && Exclusive(cfg, w, events) && Lasts(cfg, w, events, pid)
    requires Underway(cfg, w.store, w.active[pid], before)
    ensures Progressed(cfg, Run(cfg, w, events).store, w.active[pid].id, before)
    decreases |events|
  {
    hide Inv, Step, Single, Underway, Progressed;
    var e, v := events[0], Step(cfg, w, events[0]);
    StepKeeps(cfg, w, e);
    if e.pid != pid {
      OtherStepKeepsUnderway(cfg, w, e, pid, before);
      HandlingProgresses(cfg, v, events[1..], pid, before);
    } else if e.Deliver? {
      DeliverIsIgnored(cfg, w, e);
      HandlingProgresses(cfg, v, events[1..], pid, before);
    } else {
      OwnStepProgresses(cfg, w, e, pid, before);
      if pid in v.active {
        HandlingProgresses(cfg, v, events[1..], pid, before);
      } else {
        assert Run(cfg, v, []) == v;
      }
    }
  }

  lemma DeliverIsIgnored(cfg: Settings, w: World, e: Event)
    requires e.Deliver? && e.pid in w.active
    ensures Step(cfg, w, e) == w
  {
  }

  /** Retry ends in every run: a delivery whose handling is not lost, with exceptions between its commits and other
      handlings all around it, finishes the message, or never counted its attempt, or has strictly fewer attempts to
      spare than before. */
  lemma RetryTerminates(cfg: Settings, w: World, e: Event, events: seq<Event>)
    requires ValidSettings(cfg) && Reachable(cfg, w) && Exclusive(cfg, w, [e] + events)
    requires e.Deliver? && e.pid !in w.active && Lasts(cfg, Step(cfg, w, e), events, e.pid)
    ensures var v := Run(cfg, w, [e] + events);
            || Settled(v.store, e.id)
            || Attempts(v.store, e.id) == Attempts(w.store, e.id)
            || 0 < cfg.maxAttempts - Attempts(v.store, e.id) < cfg.maxAttempts - Attempts(w.store, e.id)
  {
    hide Reachable, Inv, Lasts, Single, Next;
    ReachableInv(cfg, w);
    assert ([e] + events)[1..] == events;
    StepKeeps(cfg, w, e);
    OneStep(cfg, w, e, events);
    HandlingProgresses(cfg, Step(cfg, w, e), events, e.pid, Attempts(w.store, e.id));
  }

  // ---- where it does not hold ----

  /** Two handlings of one message have both read it unprocessed and counted their attempts. */
  lemma BothCount(cfg: Settings, id: Guid, kind: string, payload: string, reply: Reply) returns (w: World)
    requires id != 0
    ensures Run(cfg, INITIAL, OverlapEvents(id, kind, payload, reply)) == w
    ensures w.store.delivered == w.store.calls == multiset{}
    ensures w.active == map[0 := Handling(id, kind, payload, Counted(InboxRow(kind, 1, false, None))),
                            1 := Handling(id, kind, payload, Counted(InboxRow(kind, 2, false, None)))]
  {
    var a, b := Event.Proceed(0, None, reply), Event.Proceed(1, None, reply);
    var w1 := Step(cfg, INITIAL, Deliver(0, id, kind, payload));
    var w2 := Step(cfg, w1, a);
    var w3 := Step(cfg, w2, Deliver(1, id, kind, payload));
    var w4 := Step(cfg, w3, b);
    assert w4.active[0].stage == Inserted && w4.active[1].stage == Inserted;
    assert w4.store.rows == map[id := InboxRow(kind, 0, false, None)];
    var w5 := Step(cfg, w4, a);
    assert w5.store.rows == map[id := InboxRow(kind, 1, false, None)];
    w := Step(cfg, w5, b);
    SixSteps(cfg, INITIAL, Deliver(0, id, kind, payload), a, Deliver(1, id, kind, payload), b, a, b, []);
    assert OverlapEvents(id, kind, payload, reply) + [] == OverlapEvents(id, kind, payload, reply);
  }

  function OverlapEvents(id: Guid, kind: string, payload: string, reply: Reply): seq<Event> {
    [Deliver(0, id, kind, payload), Event.Proceed(0, None, reply), Deliver(1, id, kind, payload),
     Event.Proceed(1, None, reply), Event.Proceed(0, None, reply), Event.Proceed(1, None, reply)]
  }

  /** The limit of the guarantee: for every readable message, two overlapping handlings both deliver it. */
  lemma OverlappingHandlingsDeliverTwice(cfg: Settings, id: Guid, kind: string, payload: string, reply: Reply)
    returns (events: seq<Event>)
    requires id != 0 && (cfg.parse)(kind, payload).None?
    requires reply.status == WasDelivered && !BlankOption(reply.reference) && Recordable(reply)
    ensures var w := Run(cfg, INITIAL, events);
            w.store.delivered[id] == 2 && w.store.calls[id] == 2 && w.active == map[]
  {
    hide Step, Run, BlankOption, Finish, OverlapEvents, Recordable;
    var w := BothCount(cfg, id, kind, payload, reply);
    var rest0 := FinishIsARun(cfg, w, 0, None, reply);
    DeliversOnce(cfg, w.store, w.active[0], reply);
    var v := Run(cfg, w, rest0);
    var rest1 := FinishIsARun(cfg, v, 1, None, reply);
    DeliversOnce(cfg, v.store, v.active[1], reply);
    events := OverlapEvents(id, kind, payload, reply) + (rest0 + rest1);
    RunAppend(cfg, INITIAL, OverlapEvents(id, kind, payload, reply), rest0 + rest1);
    RunAppend(cfg, w, rest0, rest1);
  }

  lemma DeliversOnce(cfg: Settings, store: Store, h: Handling, reply: Reply)
    requires h.stage.Counted? && (cfg.parse)(h.kind, h.payload).None?
    requires reply.status == WasDelivered && !BlankOption(reply.reference) && Recordable(reply)
    ensures var m := Finish(cfg, store, h, None, reply);
            m.store.delivered == store.delivered + multiset{h.id} && m.store.calls == store.calls + multiset{h.id}
  {
    hide Trim, BlankOption, Finish, Recordable;
    var row := h.stage.row;
    FinishUnfolds(cfg, store, h, None, reply);
    FinishUnfolds(cfg, store, h.(stage := Checking(row)), None, reply);
    FinishUnfolds(cfg, store, h.(stage := Calling(row)), None, reply);
    FinishUnfolds(cfg, store.(calls := store.calls + multiset{h.id}), h.(stage := Answered(row, reply)), None, reply);
  }

  lemma SixSteps(cfg: Settings, w: World, a: Event, b: Event, c: Event, d: Event, e: Event, f: Event, rest: seq<Event>)
    ensures Run(cfg, w, [a, b, c, d, e, f] + rest) ==
            Run(cfg, Step(cfg, Step(cfg, Step(cfg, Step(cfg, Step(cfg, Step(cfg, w, a), b), c), d), e), f), rest)
  {
    hide Step;
    assert [a, b, c, d, e, f] + rest == [a] + ([b] + ([c] + ([d] + ([e] + ([f] + rest)))));
    OneStep(cfg, w, a, [b] + ([c] + ([d] + ([e] + ([f] + rest)))));
    var w1 := Step(cfg, w, a);
    OneStep(cfg, w1, b, [c] + ([d] + ([e] + ([f] + rest))));
    var w2 := Step(cfg, w1, b);
    OneStep(cfg, w2, c, [d] + ([e] + ([f] + rest)));
    var w3 := Step(cfg, w2, c);
    OneStep(cfg, w3, d, [e] + ([f] + rest));
    var w4 := Step(cfg, w3, d);
    OneStep(cfg, w4, e, [f] + rest);
    OneStep(cfg, Step(cfg, w4, e), f, rest);
  }

  lemma OneStep(cfg: Settings, w: World, e: Event, rest: seq<Event>)
    ensures Run(cfg, w, [e] + rest) == Run(cfg, Step(cfg, w, e), rest)
  {
    hide Step;
    assert ([e] + rest)[1..] == rest;
  }

  lemma {:induction false} RunAppend(cfg: Settings, w: World, first: seq<Event>, second: seq<Event>)
    ensures Run(cfg, w, first + second) == Run(cfg, Run(cfg, w, first), second)
    decreases |first|
  {
    hide Step;
    if first == [] {
      assert first + second == second;
    } else {
      assert first + second == [first[0]] + (first[1..] + second);
      OneStep(cfg, w, first[0], first[1..] + second);
      RunAppend(cfg, Step(cfg, w, first[0]), first[1..], second);
    }
  }

  // ---- a delivery that can not be recorded ----

  /** A reply that confirms a delivery but cannot be saved. */
  predicate Unsaved(reply: Reply) {
    reply.status == WasDelivered && !BlankOption(reply.reference) && !Recordable(reply)
  }

  /** One handling of such a message: delivered, and nothing to show for it but an attempt. */
  lemma UnsavedHandling(cfg: Settings, store: Store, id: Guid, kind: string, payload: string, reply: Reply)
    requires id != 0 && !Settled(store, id) && (id in store.rows ==> store.rows[id].kind == kind)
    requires (cfg.parse)(kind, payload).None? && Unsaved(reply)
    ensures var s := Finish(cfg, store, Handling(id, kind, payload, Received), None, reply).store;
            && id in s.rows && s.rows[id].kind == kind && s.rows[id].attempts == Attempts(store, id) + 1
            && s.rows[id].processed == (Attempts(store, id) + 1 >= cfg.maxAttempts)
            && s.calls == store.calls + multiset{id} && s.delivered == store.delivered && s.lost == store.lost
            && s.reviews == store.reviews + (if s.rows[id].processed then multiset{id} else multiset{})
  {
    hide Finish, Unsaved, Recordable, NormalizeReason, BlankOption;
    var h := Handling(id, kind, payload, Received);
    var m1 := Next(cfg, store, h, None, reply);
    FinishUnfolds(cfg, store, h, None, reply);
    var m2 := Next(cfg, m1.store, h.(stage := Inserted), None, reply);
    FinishUnfolds(cfg, m1.store, h.(stage := Inserted), None, reply);
    var row := m1.store.rows[id].(attempts := Attempts(store, id) + 1, lastError := None);
    assert m2.stage == Counted(row);
    FinishUnfolds(cfg, m2.store, h.(stage := Counted(row)), None, reply);
    FinishUnfolds(cfg, m2.store, h.(stage := Checking(row)), None, reply);
    FinishUnfolds(cfg, m2.store, h.(stage := Calling(row)), None, reply);
    var called := m2.store.(calls := m2.store.calls + multiset{id});
    FinishUnfolds(cfg, called, h.(stage := Answered(row, reply)), None, reply);
    UnsavedFails(reply);
    FinishUnfolds(cfg, called, h.(stage := Failing(NOT_SAVED)), None, reply);
  }

  lemma UnsavedFails(reply: Reply)
    requires Unsaved(reply)
    ensures !Recordable(reply)
  {
  }

  /** The adapter delivers a readable message as often as there are attempts, and the system records none of it but asks
      for a review: the audit row does not take a provider's name this long, or a reference with U+0000 in it. */
  lemma {:induction false} UnsavedReplyDeliversEveryTime(cfg: Settings, id: Guid, kind: string, payload: string,
                                                         reply: Reply, n: nat)
    returns (events: seq<Event>)
    requires ValidSettings(cfg) && id != 0 && (cfg.parse)(kind, payload).None? && Unsaved(reply)
    requires n <= cfg.maxAttempts
    ensures var w := Run(cfg, INITIAL, events);
            && w.active == map[] && w.store.calls[id] == n && w.store.delivered[id] == 0
            && w.store.reviews[id] == (if n == cfg.maxAttempts then 1 else 0)
            && Attempts(w.store, id) == n && (Settled(w.store, id) <==> n == cfg.maxAttempts)
            && (id in w.store.rows ==> w.store.rows[id].kind == kind)
  {
    hide Step, Unsaved, Finish;
    if n == 0 {
      events := [];
      assert Run(cfg, INITIAL, []) == INITIAL;
    } else {
      var before := UnsavedReplyDeliversEveryTime(cfg, id, kind, payload, reply, n - 1);
      var w := Run(cfg, INITIAL, before);
      var v := Step(cfg, w, Deliver(0, id, kind, payload));
      DeliveredTo(cfg, w, id, kind, payload);
      var rest := FinishIsARun(cfg, v, 0, None, reply);
      UnsavedHandling(cfg, w.store, id, kind, payload, reply);
      events := before + ([Deliver(0, id, kind, payload)] + rest);
      RunAppend(cfg, INITIAL, before, [Deliver(0, id, kind, payload)] + rest);
      OneStep(cfg, w, Deliver(0, id, kind, payload), rest);
      assert v.active - {0} == map[];
    }
  }

  lemma DeliveredTo(cfg: Settings, w: World, id: Guid, kind: string, payload: string)
    requires w.active == map[]
    ensures Step(cfg, w, Deliver(0, id, kind, payload)) ==
            World(w.store, map[0 := Handling(id, kind, payload, Received)])
  {
  }

  /** For example a provider called by 244 letters. */
  lemma LongNameIsUnsaved()
    ensures Unsaved(Reply(WasDelivered, seq(244, i => 'x'), Some("ok"), None))
  {
    hide Trim;
    var name := seq(244, i => 'x');
    VisibleEnds(name);
    VisibleEnds("ok");
    assert ("notification:" + name)[256] == 'x';
  }

  predicate EmptyIdUnknown(w: World) {
    && 0 !in w.store.rows
    && forall pid :: pid in w.active && w.active[pid].id == 0 ==>
         w.active[pid].stage.Received? || w.active[pid].stage.Failing?
  }

  lemma EmptyIdStaysUnknown(cfg: Settings, w: World, e: Event)
    requires EmptyIdUnknown(w)
    ensures EmptyIdUnknown(Step(cfg, w, e))
  {
    hide Next;
    if (e.Proceed? || e.Raise?) && e.pid in w.active {
      EmptyIdFails(cfg, w.store, w.active[e.pid], e.stateError, e.reply);
    }
  }

  lemma EmptyIdFails(cfg: Settings, store: Store, h: Handling, stateError: Option<string>, reply: Reply)
    requires 0 !in store.rows && (h.id == 0 ==> h.stage.Received? || h.stage.Failing?)
    ensures var m := Next(cfg, store, h, stateError, reply);
            0 !in m.store.rows && (h.id == 0 && m.Go? ==> m.stage.Failing?)
  {
    hide BlankOption, NormalizeReason;
  }

  /** A message whose id is the empty guid is handed back for ever: no row, no attempt, no review, in any run. */
  lemma {:induction false} EmptyIdIsNeverFinished(cfg: Settings, w: World, events: seq<Event>, kind: string,
                                                  payload: string, stateError: Option<string>, reply: Reply)
    requires EmptyIdUnknown(w)
    ensures var v := Run(cfg, w, events);
            && EmptyIdUnknown(v)
            && Finish(cfg, v.store, Handling(0, kind, payload, Received), stateError, reply) == Move.End(v.store, Retry)
    decreases |events|
  {
    hide Step;
    if events != [] {
      EmptyIdStaysUnknown(cfg, w, events[0]);
      EmptyIdIsNeverFinished(cfg, Step(cfg, w, events[0]), events[1..], kind, payload, stateError, reply);
    }
  }
}
