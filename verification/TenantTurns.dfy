/** The worker's query for tenant contributions is ordered by a time that no call changes: only an answer that settles
    the transfer makes room. */
module TenantTurns {
  import opened Texts
  import opened Columns
  import opened Rial
  import opened Workflows
  import opened FundingRows
  import opened Registration
  import opened Eligibility
  import opened BankFunding
  import opened LeaseFunding
  import opened FundingInvariant
  import opened MoneySteps
  import opened LeaseSteps
  import opened FundingProtocol
  import opened FundingRefusals
  import opened FundingTheorems
  import opened FundingProgress
  import opened FundingFullRun
  import opened WorkerTurns
  import opened BankTurns

  predicate TenantSelects(a: Application) {
    TenantWorkerSelects(a.cfg, a.world.db)
  }

  function TenantEvents(r: ContributionResponse, id: Guid): seq<Event> {
    [Start(0, ContributionCall, id, id)] + ([Resume(0, ContributionSaid(r), id)] + [])
  }

  function AfterTenantCall(a: Application, r: ContributionResponse, id: Guid): Application {
    a.(world := Run(a.cfg, a.world, TenantEvents(r, id)))
  }

  datatype TenantPass = TenantPass(says: Id -> ContributionResponse, freshId: Guid)

  /** The time is the allocation's, which is never written again. */
  function TenantVisit(pass: TenantPass): Visit<Application> {
    (id: Id, row: Row<Application>) => Row(row.at, AfterTenantCall(row.state, pass.says(id), pass.freshId))
  }

  /** A failure that can be recorded, or a confirmation that can be posted. */
  predicate Settles(r: ContributionResponse, amount: real) {
    && ContributionTextsFit(r)
    && (r.status == ContributionFailed
        || (ConfirmsContribution(r, amount) && Fits(Trim(r.fundReference.value), REFERENCE_LENGTH)))
  }

  lemma TenantStartStep(cfg: Config, w: World, id: Guid)
    requires ValidConfig(cfg) && WorldInv(cfg, w) && id != 0 && w.procs == map[] && w.db.status == ApprovedFunded
    requires w.db.allocation.Some? && w.db.allocation.value.contribution > 0.0 && w.db.contribution.None?
    ensures var v := Step(cfg, w, Start(0, ContributionCall, id, id));
            && WorldInv(cfg, v) && Undisturbed(v) && 0 in v.procs && v.procs[0].ContributionAsking?
            && Some(v.procs[0].allocation) == w.db.allocation
            && v.db == w.db.(funding := v.db.funding, transfer := v.db.transfer)
            && v.db.transfer.Some? && v.db.transfer.value.status.TransferPending?
  {
    hide Trim, TermsOf, FullDeposit, MaximumLoan, LoanRatio, ValidMonths, CreditPath, LeasePath, ValidEvidence,
         TrustedTerms, FrozenEvidence, PrincipalMatches;
    StepKeeps(cfg, w, Start(0, ContributionCall, id, id));
    OneStepStays(cfg, w, Start(0, ContributionCall, id, id));
    FundedRows(cfg, w);
  }

  /** What the answer makes of a pending transfer. */
  lemma TenantAnswer(cfg: Config, received: set<Evidence>, db: Db, contractId: Guid, al: AllocationRow,
                     fundingId: Guid, transferId: Guid, r: ContributionResponse)
    requires ValidConfig(cfg) && DbInv(cfg, received, db) && db.status == ApprovedFunded && db.contribution.None?
    requires ProcInv(cfg, received, db, ContributionAsking(contractId, al, fundingId, transferId))
    ensures var tx := ContributionAnswer(db, contractId, al, fundingId, transferId, r);
            || tx.Throw?
            || (&& tx.Commit? && tx.andThen.Return? && tx.db.transfer.Some?
                && tx.db.status == db.status && tx.db.contract == db.contract && tx.db.allocation == db.allocation
                && tx.db.freeze == db.freeze
                && (tx.db.transfer.value.status.TransferUnknown? <==>
                    r.status != ContributionFailed && !ConfirmsContribution(r, al.contribution))
                && !tx.db.transfer.value.status.TransferPending?)
  {
    hide Trim, TermsOf, FullDeposit, MaximumLoan, LoanRatio, ValidMonths, CreditPath, LeasePath, ValidEvidence,
         TrustedTerms, FrozenEvidence, ContributionTextsFit, Fits;
    FundedHasPrincipal(cfg, received, db);
  }

  lemma FundedHasPrincipal(cfg: Config, received: set<Evidence>, db: Db)
    requires DbInv(cfg, received, db) && db.status == ApprovedFunded
    ensures db.allocation.Some? && db.contract.Some?
    ensures PrincipalMatches(db, db.allocation.value, db.contract.value.id)
  {
    hide Trim, TermsOf, FullDeposit, MaximumLoan, LoanRatio, ValidMonths, CreditPath, LeasePath, ValidEvidence,
         TrustedTerms;
  }

  lemma TenantAnswerStep(cfg: Config, w: World, r: ContributionResponse, id: Guid)
    requires ValidConfig(cfg) && WorldInv(cfg, w) && id != 0 && Undisturbed(w) && 0 in w.procs
    requires w.procs[0].ContributionAsking? && w.db.status == ApprovedFunded && w.db.contribution.None?
    requires w.db.transfer.Some? && w.db.transfer.value.status.TransferPending?
    ensures w.db.allocation == Some(w.procs[0].allocation)
    ensures var v := Step(cfg, w, Resume(0, ContributionSaid(r), id));
            && v.procs == map[] && v.db.status == w.db.status && v.db.contract == w.db.contract
            && v.db.allocation == w.db.allocation && v.db.freeze == w.db.freeze && v.db.transfer.Some?
            && (v.db.transfer.value.status.TransferPending? || v.db.transfer.value.status.TransferUnknown? <==>
                !Settles(r, w.db.allocation.value.contribution))
  {
    hide DbInv, ProcInv, ContributionAnswer, ContributionTextsFit, Fits, ConfirmsContribution, LeaseHeld, Refers;
    var e := Resume(0, ContributionSaid(r), id);
    StepKeeps(cfg, w, e);
    OneStepStays(cfg, w, e);
    NobodyHolds(w);
    var p := w.procs[0];
    assert ProcInv(cfg, w.received, w.db, p);
    AskedFor(cfg, w.received, w.db, p);
    TenantAnswer(cfg, w.received, w.db, p.contractId, p.allocation, p.fundingId, p.transferId, r);
    ContributionThrowsIff(cfg, w.received, w.db, p.contractId, p.allocation, p.fundingId, p.transferId, r);
    ConfirmingIsNotFailing(r, p.allocation.contribution);
    NobodyHolds(Step(cfg, w, e));
  }

  lemma AskedFor(cfg: Config, received: set<Evidence>, db: Db, p: Proc)
    requires p.ContributionAsking? && ProcInv(cfg, received, db, p)
    ensures db.allocation == Some(p.allocation)
  {
  }

  lemma ConfirmingIsNotFailing(r: ContributionResponse, amount: real)
    ensures ConfirmsContribution(r, amount) ==> r.status != ContributionFailed
  {
  }

  /** An undisturbed call leaves a selected application selected, in the same place, exactly unless the fund's answer
      settles the transfer. */
  lemma TenantCallReleases(a: Application, r: ContributionResponse, id: Guid)
    requires Idle(a) && TenantSelects(a) && id != 0
    ensures a.world.db.allocation.Some?
    ensures var v := AfterTenantCall(a, r, id);
            && Idle(v) && v.cfg == a.cfg && v.world.db.allocation == a.world.db.allocation
            && (TenantSelects(v) <==> !Settles(r, a.world.db.allocation.value.contribution))
  {
    hide WorldInv, Reachable, Step, TenantWorkerSelects, Settles;
    var cfg, w := a.cfg, a.world;
    var ask, said := Start(0, ContributionCall, id, id), Resume(0, ContributionSaid(r), id);
    ReachableInv(cfg, w);
    TenantWorkerSelectsExactly(cfg, w);
    NotPosted(cfg, w);
    RunReaches(cfg, w, TenantEvents(r, id));
    TenantStartStep(cfg, w, id);
    var w1 := Step(cfg, w, ask);
    RunStep(cfg, w, ask, [said] + []);
    TenantAnswerStep(cfg, w1, r, id);
    var w2 := Step(cfg, w1, said);
    RunStep(cfg, w1, said, []);
    TenantWorkerSelectsExactly(cfg, w2);
  }

  lemma NotPosted(cfg: Config, w: World)
    requires WorldInv(cfg, w)
    ensures w.db.transfer.None? || !w.db.transfer.value.status.Succeeded? ==> w.db.contribution.None?
  {
    hide PlanInv, TermsInv, AssessmentInv, ApprovalInv, AllocationInv, FreezeInv, LeaseInv;
  }

  // ---- whose turn comes ----

  function TenantVisits(passes: seq<TenantPass>): (visits: seq<Visit<Application>>)
    ensures |visits| == |passes| && forall k :: 0 <= k < |passes| ==> visits[k] == TenantVisit(passes[k])
  {
    seq(|passes|, k requires 0 <= k < |passes| => TenantVisit(passes[k]))
  }

  /** The candidates of a pass whose transfers stay open. */
  function UnsettledIn(limit: nat, pass: TenantPass, fleet: Fleet<Application>): set<Candidate> {
    set c | c in Taken(Queue(TenantSelects, fleet), limit)
            && c.id in fleet && fleet[c.id].state.world.db.allocation.Some?
            && !Settles(pass.says(c.id), fleet[c.id].state.world.db.allocation.value.contribution)
  }

  lemma StayingIsUnsettled(limit: nat, pass: TenantPass, fleet: Fleet<Application>)
    requires AllIdle(fleet) && pass.freshId != 0
    ensures Staying(TenantSelects, limit, TenantVisit(pass), fleet) == UnsettledIn(limit, pass, fleet)
  {
    hide Settles, AfterTenantCall, TenantSelects, Idle;
    forall d | d in Taken(Queue(TenantSelects, fleet), limit)
      ensures d.id in fleet && fleet[d.id].at == d.at && fleet[d.id].state.world.db.allocation.Some?
      ensures KeepsPlace(TenantSelects, fleet[d.id], TenantVisit(pass)(d.id, fleet[d.id])) <==>
              !Settles(pass.says(d.id), fleet[d.id].state.world.db.allocation.value.contribution)
    {
      TenantCallReleases(fleet[d.id].state, pass.says(d.id), pass.freshId);
    }
  }

  lemma NeverStamped(pass: TenantPass, at: int)
    ensures StampsAfter(TenantVisit(pass), at)
  {
    hide AfterTenantCall;
  }

  /** A selected application is called in time as long as fewer transfers stay open in each pass than a batch holds. */
  lemma TenantTurnComes(limit: nat, open: nat, passes: seq<TenantPass>, fleets: seq<Fleet<Application>>, c: Candidate)
    returns (k: nat)
    requires passes != [] && |fleets| == |passes| && c in Queue(TenantSelects, fleets[0]) && open <= limit
    requires |Ahead(Queue(TenantSelects, fleets[0]), c)| < limit + (limit - open) * (|passes| - 1)
    requires forall k :: 0 <= k < |passes| ==>
               passes[k].freshId != 0 && AllIdle(fleets[k]) && |UnsettledIn(limit, passes[k], fleets[k])| <= open
    requires forall k :: 0 <= k < |passes| - 1 && !HasTurn(TenantSelects, limit, fleets[k], c) ==>
               Follows(TenantSelects, limit, TenantVisit(passes[k]), fleets[k], fleets[k + 1], c)
    ensures k < |passes| && HasTurn(TenantSelects, limit, fleets[k], c) && SameRow(fleets[0], fleets[k], c.id)
  {
    hide Follows, AllIdle, UnsettledIn, TenantVisit, Ahead;
    var visits := TenantVisits(passes);
    forall k | 0 <= k < |visits|
      ensures StampsAfter(visits[k], c.at)
      ensures c in Queue(TenantSelects, fleets[k]) ==>
                Moves(TenantSelects, limit, visits[k], fleets[k], c, limit - open)
    {
      NeverStamped(passes[k], c.at);
      if c in Queue(TenantSelects, fleets[k]) && !HasTurn(TenantSelects, limit, fleets[k], c) {
        StayingIsUnsettled(limit, passes[k], fleets[k]);
        ReleasedCount(TenantSelects, limit, visits[k], fleets[k], c);
      }
    }
    k := TurnComes(TenantSelects, limit, visits, fleets, c, limit - open);
  }

  /** Still waiting for the amount its allocation asks for. */
  ghost predicate StillOpen(fleet: Fleet<Application>, id: Id, a: Application) {
    id in fleet && Idle(a) && TenantSelects(a) && a.world.db.allocation == fleet[id].state.world.db.allocation
  }

  lemma OpenHolds(fleet: Fleet<Application>, ids: set<Id>, pass: TenantPass)
    requires pass.freshId != 0
    requires forall id :: id in ids ==>
               && id in fleet && fleet[id].state.world.db.allocation.Some?
               && !Settles(pass.says(id), fleet[id].state.world.db.allocation.value.contribution)
    ensures Holds(TenantSelects, TenantVisit(pass), ids, (id, a) => StillOpen(fleet, id, a))
  {
    hide Settles, AfterTenantCall, TenantSelects, Idle;
    forall id, row: Row<Application> | id in ids && TenantSelects(row.state) && StillOpen(fleet, id, row.state)
      ensures KeepsPlace(TenantSelects, row, TenantVisit(pass)(id, row))
      ensures StillOpen(fleet, id, TenantVisit(pass)(id, row).state)
    {
      TenantCallReleases(row.state, pass.says(id), pass.freshId);
    }
  }

  /** As many open transfers as a batch holds keep every application behind them from ever being asked about. */
  lemma OpenTransfersBlock(limit: nat, passes: seq<TenantPass>, fleets: seq<Fleet<Application>>, c: Candidate,
                           ids: set<Id>)
    requires |fleets| == |passes| + 1 && |ids| >= limit && c in Queue(TenantSelects, fleets[0])
    requires forall id :: id in ids ==>
               && id in fleets[0] && Idle(fleets[0][id].state) && TenantSelects(fleets[0][id].state)
               && fleets[0][id].state.world.db.allocation.Some?
               && Earlier(Candidate(fleets[0][id].at, id), c)
    requires forall k, id :: 0 <= k < |passes| && id in ids ==>
               !Settles(passes[k].says(id), fleets[0][id].state.world.db.allocation.value.contribution)
    requires forall k :: 0 <= k < |passes| ==>
               && passes[k].freshId != 0
               && Follows(TenantSelects, limit, TenantVisit(passes[k]), fleets[k], fleets[k + 1], c)
               && LeftAlone(TenantSelects, limit, TenantVisit(passes[k]), fleets[k], fleets[k + 1], ids)
    ensures forall k :: 0 <= k < |fleets| ==>
              SameRow(fleets[0], fleets[k], c.id) && !HasTurn(TenantSelects, limit, fleets[k], c)
  {
    hide Follows, LeftAlone, TenantVisit, Settles, Holds, TenantSelects, Idle;
    var visits := TenantVisits(passes);
    var keeps := (id: Id, a: Application) => StillOpen(fleets[0], id, a);
    forall k | 0 <= k < |visits|
      ensures StampsAfter(visits[k], c.at) && Holds(TenantSelects, visits[k], ids, keeps)
    {
      NeverStamped(passes[k], c.at);
      OpenHolds(fleets[0], ids, passes[k]);
    }
    TurnNeverComes(TenantSelects, limit, visits, fleets, c, ids, keeps);
  }
}
