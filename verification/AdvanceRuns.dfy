/** `AdvanceAsync` over whole runs: what an undisturbed call does, and what must have happened when one is refused. */
module AdvanceRuns {
  import opened Texts
  import opened Workflows
  import opened FundingRows
  import opened BankFunding
  import opened LeaseFunding
  import opened FundingInvariant
  import opened LeaseSteps
  import opened FundingProtocol
  import opened FundingTheorems
  import opened FundingProgress

  // ---- undisturbed ----

  /** What has been read after `n` more reads during which nobody writes. */
  function SeenOn(db: Db, seen: Db, tables: nat, n: nat): Db {
    if n == 0 then seen else ReadTable(db, SeenOn(db, seen, tables, n - 1), tables + n - 1)
  }

  function NothingSeen(db: Db): Db {
    EMPTY.(contract := db.contract)
  }

  lemma AllSeen(db: Db)
    ensures SeenOn(db, NothingSeen(db), 0, ADVANCE_TABLES) == SeenAtOnce(db)
  {
    var none := NothingSeen(db);
    assert SeenOn(db, none, 0, 1) == none.(status := db.status);
    assert SeenOn(db, none, 0, 2) == SeenOn(db, none, 0, 1).(allocation := db.allocation);
    assert SeenOn(db, none, 0, 3) == SeenOn(db, none, 0, 2).(principal := db.principal);
    assert SeenOn(db, none, 0, 4) == SeenOn(db, none, 0, 3).(freeze := db.freeze);
    FiveSeen(db);
    assert SeenOn(db, none, 0, 6) == SeenOn(db, none, 0, 5).(funding := db.funding);
    assert SeenOn(db, none, 0, 7) == SeenOn(db, none, 0, 6).(transfer := db.transfer);
    assert SeenOn(db, none, 0, 8) == SeenOn(db, none, 0, 7).(journal := db.journal);
  }

  lemma FiveSeen(db: Db)
    ensures SeenOn(db, NothingSeen(db), 0, 5) ==
            NothingSeen(db).(status := db.status, allocation := db.allocation, principal := db.principal,
                             freeze := db.freeze, contribution := db.contribution)
  {
    var none := NothingSeen(db);
    assert SeenOn(db, none, 0, 1) == none.(status := db.status);
    assert SeenOn(db, none, 0, 2) == SeenOn(db, none, 0, 1).(allocation := db.allocation);
    assert SeenOn(db, none, 0, 3) == SeenOn(db, none, 0, 2).(principal := db.principal);
    assert SeenOn(db, none, 0, 4) == SeenOn(db, none, 0, 3).(freeze := db.freeze);
  }

  function Silents(pid: nat, n: nat, id: Guid): seq<Event> {
    if n == 0 then [] else [Resume(pid, Silent, id)] + Silents(pid, n - 1, id)
  }

  /** The same world with the advance this far. */
  function Reading(w: World, pid: nat, seen: Db, tables: nat): World {
    w.(procs := w.procs[pid := Advancing(seen, tables)])
  }

  lemma AdvanceStep(cfg: Config, w: World, pid: nat, id: Guid)
    requires id != 0 && pid in w.procs && w.procs[pid].Advancing?
    ensures Step(cfg, w, Resume(pid, Silent, id)) ==
            Settle(w, pid, AdvanceNext(cfg, w.db, w.procs[pid].seen, w.procs[pid].tables))
  {
    hide AdvanceNext, Settle, ResumeWaits;
    FewWait(cfg, w, pid, Silent, id);
    assert w.received + {} == w.received;
  }

  lemma AdvanceStarts(cfg: Config, w: World, pid: nat, id: Guid)
    requires id != 0 && pid !in w.procs && !LeaseHeld(w.procs) && w.db.contract.Some?
    ensures Step(cfg, w, Start(pid, AdvanceCall, id, id)) == Reading(w, pid, NothingSeen(w.db), 0)
  {
    hide LeaseHeld;
  }

  lemma {:induction false} ReadsAlone(cfg: Config, w: World, pid: nat, seen: Db, tables: nat, n: nat, id: Guid)
    requires id != 0 && tables + n <= ADVANCE_TABLES
    ensures Run(cfg, Reading(w, pid, seen, tables), Silents(pid, n, id)) ==
            Reading(w, pid, SeenOn(w.db, seen, tables, n), tables + n)
    decreases n
  {
    hide ReadTable, Step;
    if n > 0 {
      var now, one := Reading(w, pid, seen, tables), ReadTable(w.db, seen, tables);
      RunStep(cfg, now, Resume(pid, Silent, id), Silents(pid, n - 1, id));
      AdvanceStep(cfg, now, pid, id);
      assert now.procs[pid := Advancing(one, tables + 1)] == w.procs[pid := Advancing(one, tables + 1)];
      ReadsAlone(cfg, w, pid, one, tables + 1, n - 1, id);
      FirstRead(w.db, seen, tables, n);
    }
  }

  lemma {:induction false} FirstRead(db: Db, seen: Db, tables: nat, n: nat)
    requires n > 0
    ensures SeenOn(db, seen, tables, n) == SeenOn(db, ReadTable(db, seen, tables), tables + 1, n - 1)
  {
    hide ReadTable;
    if n > 1 {
      FirstRead(db, seen, tables, n - 1);
    }
  }

  /** `AdvanceAsync` from start to end. */
  function AdvanceEvents(pid: nat, id: Guid): seq<Event> {
    [Start(pid, AdvanceCall, id, id)] + (Silents(pid, ADVANCE_TABLES, id) + [Resume(pid, Silent, id)])
  }

  lemma AdvanceRun(cfg: Config, w: World, pid: nat, id: Guid)
    requires id != 0 && pid !in w.procs && !LeaseHeld(w.procs) && w.db.contract.Some?
    ensures Run(cfg, w, AdvanceEvents(pid, id)) ==
            Settle(Reading(w, pid, SeenAtOnce(w.db), ADVANCE_TABLES), pid,
                   AdvanceNext(cfg, w.db, SeenAtOnce(w.db), ADVANCE_TABLES))
  {
    hide SeenOn, NothingSeen, Silents, LeaseHeld, AdvanceNext, SeenAtOnce, Step, Settle;
    var start, last := Start(pid, AdvanceCall, id, id), Resume(pid, Silent, id);
    var rest := Silents(pid, ADVANCE_TABLES, id);
    RunStep(cfg, w, start, rest + [last]);
    AdvanceStarts(cfg, w, pid, id);
    RunAppend(cfg, Reading(w, pid, NothingSeen(w.db), 0), rest, [last]);
    ReadsAlone(cfg, w, pid, NothingSeen(w.db), 0, ADVANCE_TABLES, id);
    AllSeen(w.db);
    var done := Reading(w, pid, SeenAtOnce(w.db), ADVANCE_TABLES);
    RunStep(cfg, done, last, []);
    AdvanceStep(cfg, done, pid, id);
    assert [last] + [] == [last];
  }

  /** An undisturbed call on a reachable open contract is refused exactly when the tenant's transfer failed, and then
      commits nothing; otherwise the lease climbs to where its rows allow, up to Active exactly when it is fully
      funded. */
  lemma AdvanceAlone(cfg: Config, w: World, pid: nat, id: Guid)
    requires ValidConfig(cfg) && Reachable(cfg, w) && id != 0 && pid !in w.procs && !LeaseHeld(w.procs)
    requires w.db.contract.Some? && Open(w.db.contract.value.status)
    ensures AdvanceNext(cfg, w.db, SeenAtOnce(w.db), ADVANCE_TABLES) == Reject(InvalidState) <==>
            TenantTransferFailed(w.db)
    ensures var v := Run(cfg, w, AdvanceEvents(pid, id));
            var target := if TenantTransferFailed(w.db) then w.db.contract.value.status else LeaseTarget(w.db);
            && v.procs == w.procs && v.faults == w.faults
            && v.db == w.db.(contract := Some(w.db.contract.value.(status := target)),
                             leaseLog := w.db.leaseLog + Climb(w.db.contract.value.status, target))
  {
    hide DbInv, SeenInv, Advance, Reachable, LeaseHeld, Climb;
    ReachableInv(cfg, w);
    AdvanceRun(cfg, w, pid, id);
    AtOnceIsSeen(cfg, w.received, w.db);
    AdvanceOutcome(cfg, w.received, w.db, SeenAtOnce(w.db));
    var status := w.db.contract.value.status;
    NoClimb(status);
    assert w.db.leaseLog + [] == w.db.leaseLog;
    assert [] + Climb(status, LeaseTarget(w.db)) == Climb(status, LeaseTarget(w.db));
    assert w.procs[pid := Advancing(SeenAtOnce(w.db), ADVANCE_TABLES)] - {pid} == w.procs;
  }

  lemma NoClimb(status: LeaseStatus)
    ensures Climb(status, status) == []
  {
  }

  // ---- disturbed ----

  /** At some point of the run the tenant's transfer stood as failed. */
  ghost predicate FailedWithin(cfg: Config, w: World, events: seq<Event>) {
    exists n :: 0 <= n <= |events| && TenantTransferFailed(Run(cfg, w, events[..n]).db)
  }

  /** What an advance that began in this run has read, traced back to the rows it was read from. */
  ghost predicate ReadWithin(cfg: Config, w: World, events: seq<Event>, seen: Db, tables: nat) {
    tables > 6 && seen.transfer.Some? && seen.transfer.value.status.Failed? ==> FailedWithin(cfg, w, events)
  }

  lemma FailedStaysWithin(cfg: Config, w: World, events: seq<Event>, e: Event)
    ensures FailedWithin(cfg, w, events) || TenantTransferFailed(Run(cfg, w, events).db) ==>
              FailedWithin(cfg, w, events + [e])
  {
    hide Run, TenantTransferFailed;
    var longer := events + [e];
    if TenantTransferFailed(Run(cfg, w, events).db) {
      assert longer[..|events|] == events;
    } else if FailedWithin(cfg, w, events) {
      var n :| 0 <= n <= |events| && TenantTransferFailed(Run(cfg, w, events[..n]).db);
      assert longer[..n] == events[..n];
    }
  }

  /** One more event: an advance reads on, or nothing of what it has read changes. */
  lemma ReadOn(cfg: Config, w: World, e: Event, pid: nat)
    requires ValidConfig(cfg) && WorldInv(cfg, w)
    ensures var v := Step(cfg, w, e);
            pid in v.procs && v.procs[pid].Advancing? ==>
              || v.procs[pid].tables == 0
              || (pid in w.procs && v.procs[pid] == w.procs[pid])
              || (&& pid in w.procs && w.procs[pid].Advancing?
                  && v.procs[pid] == Advancing(ReadTable(w.db, w.procs[pid].seen, w.procs[pid].tables),
                                               w.procs[pid].tables + 1))
  {
    hide DbInv, ProcInv, Begin, Proceed, ReadTable, StartWaits, ResumeWaits, Advance, Heard;
    match e
    case Start(q, call, freshId, otherId) =>
      if call.AdvanceCall? {
        AdvanceBegins(cfg, w.db, freshId, otherId);
      } else {
        BeginLeavesLease(cfg, w.db, call, freshId, otherId);
      }
    case Resume(q, answer, freshId) =>
      if q in w.procs && Awaits(w.procs[q], answer) {
        if w.procs[q].Advancing? {
          ProceedReads(cfg, w.db, w.procs[q], answer, freshId);
        } else {
          ProceedLeavesLease(cfg, w.received, w.db, w.procs[q], answer, freshId);
        }
      }
    case Crash(q) =>
  }

  lemma AdvanceBegins(cfg: Config, db: Db, freshId: Guid, otherId: Guid)
    ensures var tx := Begin(cfg, db, AdvanceCall, freshId, otherId);
            Continues(tx) ==> tx.andThen.proc.Advancing? && tx.andThen.proc.tables == 0
  {
  }

  lemma ProceedReads(cfg: Config, db: Db, p: Proc, answer: Answer, freshId: Guid)
    requires p.Advancing? && Awaits(p, answer)
    ensures var tx := Proceed(cfg, db, p, answer, freshId);
            Continues(tx) ==> tx.andThen.proc == Advancing(ReadTable(db, p.seen, p.tables), p.tables + 1)
  {
    hide AllocationBinding, FrozenEvidence, ZeroReadiness, PositiveReadiness, TermsReadiness, ReadTable;
  }

  /** Whatever an advance has read in this run has its source in it. */
  ghost predicate Sourced(cfg: Config, w: World, events: seq<Event>, v: World, pid: nat) {
    pid in v.procs && v.procs[pid].Advancing? ==>
      ReadWithin(cfg, w, events, v.procs[pid].seen, v.procs[pid].tables)
  }

  lemma SourceOfOneMore(cfg: Config, w: World, before: seq<Event>, e: Event, u: World, pid: nat)
    requires ValidConfig(cfg) && WorldInv(cfg, u) && u == Run(cfg, w, before)
    requires Sourced(cfg, w, before, u, pid)
    ensures Sourced(cfg, w, before + [e], Step(cfg, u, e), pid)
  {
    hide Step, Run, WorldInv, FailedWithin, TenantTransferFailed;
    ReadOn(cfg, u, e, pid);
    FailedStaysWithin(cfg, w, before, e);
    FailedMeansFunded(cfg, u);
  }

  lemma {:induction false} ReadsHaveASource(cfg: Config, w: World, events: seq<Event>, pid: nat)
    requires ValidConfig(cfg) && WorldInv(cfg, w) && pid !in w.procs
    ensures Sourced(cfg, w, events, Run(cfg, w, events), pid)
    decreases |events|
  {
    hide Step, WorldInv, ReadWithin;
    if events != [] {
      var before, e := events[..|events| - 1], events[|events| - 1];
      assert events == before + [e];
      RunAppend(cfg, w, before, [e]);
      var u := Run(cfg, w, before);
      RunStep(cfg, u, e, []);
      assert [e] + [] == [e];
      ReadsHaveASource(cfg, w, before, pid);
      RunKeeps(cfg, w, before);
      SourceOfOneMore(cfg, w, before, e, u, pid);
    }
  }

  lemma FailedMeansFunded(cfg: Config, u: World)
    requires WorldInv(cfg, u)
    ensures u.db.transfer.Some? && u.db.transfer.value.status.Failed? ==> TenantTransferFailed(u.db)
  {
    hide PlanInv, TermsInv, AssessmentInv, ApprovalInv, AllocationInv, FreezeInv, LeaseInv;
  }

  /** Whatever went on meanwhile, an advance is refused for a reason: at some point of the run that contains it the
      tenant's transfer stood as failed. */
  lemma RefusalHasAReason(cfg: Config, w: World, events: seq<Event>, pid: nat, seen: Db)
    requires ValidConfig(cfg) && Reachable(cfg, w) && pid !in w.procs
    requires var v := Run(cfg, w, events);
             && pid in v.procs && v.procs[pid] == Advancing(seen, ADVANCE_TABLES)
             && v.db.contract.Some? && Open(v.db.contract.value.status)
             && AdvanceNext(cfg, v.db, seen, ADVANCE_TABLES) == Reject(InvalidState)
    ensures FailedWithin(cfg, w, events)
  {
    hide DbInv, Run, FailedWithin, Reachable, Advance;
    ReachableInv(cfg, w);
    RunKeeps(cfg, w, events);
    ReadsHaveASource(cfg, w, events, pid);
    var v := Run(cfg, w, events);
    assert ProcInv(cfg, v.received, v.db, v.procs[pid]);
    assert Sees(cfg, v.received, v.db, seen);
    AdvanceOutcome(cfg, v.received, v.db, seen);
  }
}
