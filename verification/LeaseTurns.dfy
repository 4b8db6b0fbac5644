/** The worker's query for lease activation: a lease that waits for its tenant keeps its place in the queue, and so
    whose turn comes. */
module LeaseTurns {
  import opened Texts
  import opened Columns
  import opened Rial
  import opened Workflows
  import opened FundingRows
  import opened Registration
  import opened Eligibility
  import opened BankFunding
  import opened LeaseFunding
  import opened FundingInvariant
  import opened LeaseSteps
  import opened FundingProtocol
  import opened FundingTheorems
  import opened FundingProgress
  import opened AdvanceRuns
  import opened FundingFullRun
  import opened WorkerTurns
  import opened BankTurns

  /** An open lease with an allocation. */
  predicate LeaseSelects(a: Application) {
    var db := a.world.db;
    db.contract.Some? && Open(db.contract.value.status) && db.allocation.Some?
  }

  function AfterAdvance(a: Application, freshId: Guid): Application {
    a.(world := Run(a.cfg, a.world, AdvanceEvents(0, freshId)))
  }

  datatype LeasePass = LeasePass(freshId: Guid, now: int)

  /** The lease's time is set by its own transitions, and by the allocation that makes it a candidate. */
  function LeaseVisit(pass: LeasePass): Visit<Application> {
    (id: Id, row: Row<Application>) =>
      var after := AfterAdvance(row.state, pass.freshId);
      Row(if after.world.db.leaseLog == row.state.world.db.leaseLog then row.at else pass.now, after)
  }

  /** An advance has something to write. */
  predicate MovesOn(db: Db)
    requires db.contract.Some?
  {
    !TenantTransferFailed(db) && LeaseTarget(db) != db.contract.value.status
  }

  lemma TargetIsAbove(cfg: Config, w: World)
    requires ValidConfig(cfg) && WorldInv(cfg, w) && w.db.contract.Some? && Open(w.db.contract.value.status)
    ensures Rank(w.db.contract.value.status) <= Rank(LeaseTarget(w.db))
    ensures LeaseTarget(w.db) != w.db.contract.value.status ==>
              Rank(w.db.contract.value.status) < Rank(LeaseTarget(w.db))
  {
    hide Trim, TrustedTerms, TermsOf, FullDeposit, MaximumLoan, LoanRatio, ValidMonths, CreditPath, LeasePath,
         ValidEvidence, FrozenEvidence;
  }

  /** An undisturbed advance of a selected lease writes a transition, and with it a later time, exactly unless the
      tenant has still to pay or the lease waits for its principal; then nothing at all has changed. */
  lemma LeaseCallReleases(a: Application, id: Guid)
    requires Idle(a) && LeaseSelects(a) && id != 0
    ensures var v := AfterAdvance(a, id);
            && Idle(v) && v.cfg == a.cfg
            && (v.world.db.leaseLog == a.world.db.leaseLog <==> !MovesOn(a.world.db))
            && (!MovesOn(a.world.db) ==> v.world.db == a.world.db)
  {
    hide Reachable, WorldInv, Climb, Run, AdvanceEvents, AdvanceNext, SeenAtOnce, LeaseTarget, TenantTransferFailed;
    var cfg, w := a.cfg, a.world;
    ReachableInv(cfg, w);
    NobodyIsThere(w);
    AdvanceAlone(cfg, w, 0, id);
    RunReaches(cfg, w, AdvanceEvents(0, id));
    TargetIsAbove(cfg, w);
    var status := w.db.contract.value.status;
    NoClimb(status);
    SomeClimb(status, LeaseTarget(w.db));
    assert w.db.leaseLog + [] == w.db.leaseLog;
    assert w.db.contract.value.(status := status) == w.db.contract.value;
  }

  lemma NobodyIsThere(w: World)
    ensures w.procs == map[] ==> !LeaseHeld(w.procs)
  {
  }

  lemma SomeClimb(from: LeaseStatus, to: LeaseStatus)
    ensures Rank(from) < Rank(to) ==> Climb(from, to) != []
  {
  }

  // ---- whose turn comes ----

  function LeaseVisits(passes: seq<LeasePass>): (visits: seq<Visit<Application>>)
    ensures |visits| == |passes| && forall k :: 0 <= k < |passes| ==> visits[k] == LeaseVisit(passes[k])
  {
    seq(|passes|, k requires 0 <= k < |passes| => LeaseVisit(passes[k]))
  }

  /** The candidates of a pass that an advance leaves where they are. */
  function WaitingIn(limit: nat, fleet: Fleet<Application>): set<Candidate> {
    set c | c in Taken(Queue(LeaseSelects, fleet), limit)
            && c.id in fleet && LeaseSelects(fleet[c.id].state) && !MovesOn(fleet[c.id].state.world.db)
  }

  lemma StayingIsWaiting(limit: nat, pass: LeasePass, fleet: Fleet<Application>, c: Candidate)
    requires AllIdle(fleet) && pass.freshId != 0 && pass.now > c.at
    requires c in Queue(LeaseSelects, fleet) && !HasTurn(LeaseSelects, limit, fleet, c)
    ensures Staying(LeaseSelects, limit, LeaseVisit(pass), fleet) == WaitingIn(limit, fleet)
  {
    hide MovesOn, AfterAdvance, Idle, Taken;
    forall d | d in Taken(Queue(LeaseSelects, fleet), limit)
      ensures d.id in fleet && fleet[d.id].at == d.at && LeaseSelects(fleet[d.id].state)
      ensures KeepsPlace(LeaseSelects, fleet[d.id], LeaseVisit(pass)(d.id, fleet[d.id])) <==>
              !MovesOn(fleet[d.id].state.world.db)
    {
      TakenAreAhead(Queue(LeaseSelects, fleet), limit, c, d);
      TakenAreThere(Queue(LeaseSelects, fleet), limit, d);
      LeaseCallReleases(fleet[d.id].state, pass.freshId);
    }
  }

  lemma TakenAreThere(queue: set<Candidate>, limit: nat, d: Candidate)
    requires d in Taken(queue, limit)
    ensures d in queue
  {
  }

  lemma StampedNow(pass: LeasePass, at: int)
    requires pass.now > at
    ensures StampsAfter(LeaseVisit(pass), at)
  {
    hide AfterAdvance;
  }

  /** A selected lease is called in time as long as fewer leases wait in each batch than it holds. */
  lemma LeaseTurnComes(limit: nat, waiting: nat, passes: seq<LeasePass>, fleets: seq<Fleet<Application>>,
                       c: Candidate)
    returns (k: nat)
    requires passes != [] && |fleets| == |passes| && c in Queue(LeaseSelects, fleets[0]) && waiting <= limit
    requires |Ahead(Queue(LeaseSelects, fleets[0]), c)| < limit + (limit - waiting) * (|passes| - 1)
    requires forall k :: 0 <= k < |passes| ==>
               && passes[k].freshId != 0 && passes[k].now > c.at && AllIdle(fleets[k])
               && |WaitingIn(limit, fleets[k])| <= waiting
    requires forall k :: 0 <= k < |passes| - 1 && !HasTurn(LeaseSelects, limit, fleets[k], c) ==>
               Follows(LeaseSelects, limit, LeaseVisit(passes[k]), fleets[k], fleets[k + 1], c)
    ensures k < |passes| && HasTurn(LeaseSelects, limit, fleets[k], c) && SameRow(fleets[0], fleets[k], c.id)
  {
    hide Follows, AllIdle, WaitingIn, LeaseVisit, Ahead;
    var visits := LeaseVisits(passes);
    forall k | 0 <= k < |visits|
      ensures StampsAfter(visits[k], c.at)
      ensures c in Queue(LeaseSelects, fleets[k]) ==>
                Moves(LeaseSelects, limit, visits[k], fleets[k], c, limit - waiting)
    {
      StampedNow(passes[k], c.at);
      if c in Queue(LeaseSelects, fleets[k]) && !HasTurn(LeaseSelects, limit, fleets[k], c) {
        StayingIsWaiting(limit, passes[k], fleets[k], c);
        ReleasedCount(LeaseSelects, limit, visits[k], fleets[k], c);
      }
    }
    k := TurnComes(LeaseSelects, limit, visits, fleets, c, limit - waiting);
  }

  /** A lease that waits. */
  ghost predicate Waits(a: Application) {
    Idle(a) && LeaseSelects(a) && !MovesOn(a.world.db)
  }

  lemma WaitingHolds(ids: set<Id>, pass: LeasePass)
    requires pass.freshId != 0
    ensures Holds(LeaseSelects, LeaseVisit(pass), ids, (id, a) => Waits(a))
  {
    hide MovesOn, AfterAdvance, Idle;
    forall id, row: Row<Application> | id in ids && LeaseSelects(row.state) && Waits(row.state)
      ensures KeepsPlace(LeaseSelects, row, LeaseVisit(pass)(id, row)) && Waits(LeaseVisit(pass)(id, row).state)
    {
      LeaseCallReleases(row.state, pass.freshId);
    }
  }

  /** As many waiting leases as a batch holds keep every lease behind them from ever being called, whatever it has been
      paid meanwhile. */
  lemma WaitingLeasesBlock(limit: nat, passes: seq<LeasePass>, fleets: seq<Fleet<Application>>, c: Candidate,
                           ids: set<Id>)
    requires |fleets| == |passes| + 1 && |ids| >= limit && c in Queue(LeaseSelects, fleets[0])
    requires forall id :: id in ids ==>
               id in fleets[0] && Waits(fleets[0][id].state) && Earlier(Candidate(fleets[0][id].at, id), c)
    requires forall k :: 0 <= k < |passes| ==>
               && passes[k].freshId != 0 && passes[k].now > c.at
               && Follows(LeaseSelects, limit, LeaseVisit(passes[k]), fleets[k], fleets[k + 1], c)
               && LeftAlone(LeaseSelects, limit, LeaseVisit(passes[k]), fleets[k], fleets[k + 1], ids)
    ensures forall k :: 0 <= k < |fleets| ==>
              SameRow(fleets[0], fleets[k], c.id) && !HasTurn(LeaseSelects, limit, fleets[k], c)
  {
    hide Follows, LeftAlone, LeaseVisit, MovesOn, Holds, Idle;
    var visits := LeaseVisits(passes);
    var keeps := (id: Id, a: Application) => Waits(a);
    forall k | 0 <= k < |visits|
      ensures StampsAfter(visits[k], c.at) && Holds(LeaseSelects, visits[k], ids, keeps)
    {
      StampedNow(passes[k], c.at);
      WaitingHolds(ids, passes[k]);
    }
    TurnNeverComes(LeaseSelects, limit, visits, fleets, c, ids, keeps);
  }
}
