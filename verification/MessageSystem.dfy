/** Outbox, broker and notification inbox together: the broker may drop, repeat and reorder what reached it, and one
    message is handled by one worker at a time. */
module MessageSystem {
  import opened Texts
  import Outbox
  import OutboxTheorems
  import Inbox

  const OWNER := "lease-contract.cancelled-owner-notification-requested.v1"
  const TENANT := "lease-contract.cancelled-tenant-notification-requested.v1"
  const BANK := "lease-contract.cancelled-bank-notification-requested.v1"
  const FUND := "lease-contract.cancelled-fund-notification-requested.v1"

  /** Routing keys bound to the notification queue. */
  predicate Supported(kind: string) {
    kind == OWNER || kind == TENANT || kind == BANK || kind == FUND
  }

  datatype System = System(outbox: Outbox.World, inbox: Inbox.World)

  const INITIAL := System(Outbox.INITIAL, Inbox.INITIAL)

  datatype Event = OutboxStep(out: Outbox.Event) | InboxStep(inn: Inbox.Event)

  /** A delivery carries a message that reached the broker on a bound key. */
  predicate Possible(s: System, e: Inbox.Event) {
    e.Deliver? ==>
      && Outbox.Message(e.id, e.kind, e.payload) in s.outbox.arrived
      && Supported(e.kind)
      && Inbox.Single(s.inbox, e)
  }

  ghost function Step(limit: nat, cfg: Inbox.Settings, s: System, e: Event): System {
    match e
    case OutboxStep(out) => s.(outbox := Outbox.Step(limit, s.outbox, out))
    case InboxStep(inn) => if Possible(s, inn) then s.(inbox := Inbox.Step(cfg, s.inbox, inn)) else s
  }

  ghost function Run(limit: nat, cfg: Inbox.Settings, s: System, events: seq<Event>): System
    decreases |events|
  {
    if events == [] then s else Run(limit, cfg, Step(limit, cfg, s, events[0]), events[1..])
  }

  /** Everything in the inbox and in hand is a row of the outbox that reached the broker. */
  ghost predicate Agreement(s: System) {
    && (forall pid :: pid in s.inbox.active ==>
          var h := s.inbox.active[pid]; Outbox.Message(h.id, h.kind, h.payload) in s.outbox.arrived)
    && (forall id :: id in s.inbox.store.rows ==>
          && id in s.outbox.table && s.inbox.store.rows[id].kind == s.outbox.table[id].kind
          && Outbox.MessageOf(s.outbox.table[id]) in s.outbox.arrived)
  }

  ghost predicate Inv(cfg: Inbox.Settings, s: System) {
    Outbox.Inv(s.outbox) && Inbox.Inv(cfg, s.inbox) && Agreement(s)
  }

  /** A handling writes only its own row, and never changes a row's type. */
  lemma NextKeepsKinds(cfg: Inbox.Settings, store: Inbox.Store, h: Inbox.Handling, stateError: Option<string>,
                       reply: Inbox.Reply, id: nat)
    requires Inbox.HandlingInv(cfg, store, h)
    requires id in Inbox.Next(cfg, store, h, stateError, reply).store.rows
    ensures var m := Inbox.Next(cfg, store, h, stateError, reply);
            m.store.rows[id].kind == if id in store.rows then store.rows[id].kind else h.kind
    ensures id in store.rows || id == h.id
  {
    hide BlankOption, Inbox.NormalizeReason, Inbox.Next, Inbox.HandlingInv;
    if id == h.id {
      OwnKind(cfg, store, h, stateError, reply);
    } else {
      Inbox.NextIsLocal(cfg, store, h, stateError, reply, id);
    }
  }

  lemma OwnKind(cfg: Inbox.Settings, store: Inbox.Store, h: Inbox.Handling, stateError: Option<string>,
                reply: Inbox.Reply)
    requires Inbox.HandlingInv(cfg, store, h)
    ensures var m := Inbox.Next(cfg, store, h, stateError, reply);
            h.id in m.store.rows ==>
              m.store.rows[h.id].kind == if h.id in store.rows then store.rows[h.id].kind else h.kind
  {
    hide BlankOption, Inbox.NormalizeReason, Inbox.Conclude, Inbox.Open;
    if h.stage.Answered? {
      ConcludeKind(cfg, store, h.id, h.stage.row, h.stage.reply);
    }
  }

  lemma ConcludeKind(cfg: Inbox.Settings, store: Inbox.Store, id: nat, row: Inbox.InboxRow, reply: Inbox.Reply)
    requires id in store.rows && store.rows[id] == row
    ensures var m := Inbox.Conclude(cfg, store, id, row, reply);
            id in m.store.rows && m.store.rows[id].kind == row.kind
  {
    hide BlankOption, Inbox.NormalizeReason, Inbox.Recordable;
  }

  lemma InboxAgrees(cfg: Inbox.Settings, s: System, e: Inbox.Event)
    requires Inv(cfg, s) && Possible(s, e)
    ensures Agreement(s.(inbox := Inbox.Step(cfg, s.inbox, e)))
  {
    hide Inbox.Next, Inbox.RowInv, Inbox.HandlingInv;
    if (e.Proceed? || e.Raise?) && e.pid in s.inbox.active {
      var h := s.inbox.active[e.pid];
      assert Inbox.HandlingInv(cfg, s.inbox.store, h);
      forall id | id in Inbox.Next(cfg, s.inbox.store, h, e.stateError, e.reply).store.rows
        ensures var rows := Inbox.Next(cfg, s.inbox.store, h, e.stateError, e.reply).store.rows;
                && rows[id].kind == (if id in s.inbox.store.rows then s.inbox.store.rows[id].kind else h.kind)
                && (id in s.inbox.store.rows || id == h.id)
      {
        NextKeepsKinds(cfg, s.inbox.store, h, e.stateError, e.reply, id);
      }
    }
  }

  lemma OutboxAgrees(limit: nat, s: System, e: Outbox.Event)
    requires Outbox.Inv(s.outbox) && Agreement(s)
    ensures Agreement(s.(outbox := Outbox.Step(limit, s.outbox, e)))
  {
    hide Outbox.Inv, Outbox.Step;
    OutboxTheorems.StepKeeps(limit, s.outbox, e);
  }

  lemma {:induction false} RunKeeps(limit: nat, cfg: Inbox.Settings, s: System, events: seq<Event>)
    requires Inbox.ValidSettings(cfg) && Inv(cfg, s)
    ensures Inv(cfg, Run(limit, cfg, s, events))
    decreases |events|
  {
    hide Inbox.Inv, Outbox.Inv, Agreement, Inbox.Step, Outbox.Step;
    if events != [] {
      match events[0]
      case OutboxStep(e) =>
        OutboxTheorems.StepKeeps(limit, s.outbox, e);
        OutboxAgrees(limit, s, e);
        RunKeeps(limit, cfg, Step(limit, cfg, s, events[0]), events[1..]);
      case InboxStep(e) =>
        if Possible(s, e) {
          Inbox.StepKeeps(cfg, s.inbox, e);
          InboxAgrees(cfg, s, e);
        }
        RunKeeps(limit, cfg, Step(limit, cfg, s, events[0]), events[1..]);
    }
  }

  lemma InitialInv(cfg: Inbox.Settings)
    ensures Inv(cfg, INITIAL)
  {
  }

  /** Fed from an outbox with unique ids, the consumer never meets a message whose stored type differs: an
      unprocessed inserted delivery always goes on to count its attempt. */
  lemma TypeMismatchIsUnreachable(limit: nat, cfg: Inbox.Settings, events: seq<Event>, pid: nat,
                                  stateError: Option<string>, reply: Inbox.Reply)
    requires Inbox.ValidSettings(cfg)
    ensures var s := Run(limit, cfg, INITIAL, events);
            pid in s.inbox.active && s.inbox.active[pid].stage.Inserted?
            && s.inbox.active[pid].id in s.inbox.store.rows && !s.inbox.store.rows[s.inbox.active[pid].id].processed ==>
              Inbox.Next(cfg, s.inbox.store, s.inbox.active[pid], stateError, reply).Go?
  {
    hide Run, Inbox.RowInv, Inbox.HandlingInv;
    InitialInv(cfg);
    RunKeeps(limit, cfg, INITIAL, events);
  }

  /** End to end, each id is delivered at most once, and only as the message its outbox row holds. */
  lemma DeliveredAtMostOnceAndPublished(limit: nat, cfg: Inbox.Settings, events: seq<Event>, id: nat)
    requires Inbox.ValidSettings(cfg)
    ensures var s := Run(limit, cfg, INITIAL, events);
            && s.inbox.store.delivered[id] + s.inbox.store.reviews[id] <= 1
            && (s.inbox.store.delivered[id] == 1 || s.inbox.store.calls[id] > 0 ==>
                  id in s.outbox.table && Outbox.MessageOf(s.outbox.table[id]) in s.outbox.arrived)
  {
    hide Run, Outbox.Inv;
    InitialInv(cfg);
    RunKeeps(limit, cfg, INITIAL, events);
    assert Inbox.RowInv(cfg, Run(limit, cfg, INITIAL, events).inbox.store, id);
  }
}
