/** The worker's query for bank and fund approvals: what a call leaves of its candidate's place in the queue, and so
    whose turn comes. */
module BankTurns {
  import opened Texts
  import opened Columns
  import opened Rial
  import opened Workflows
  import opened FundingRows
  import opened Registration
  import opened Eligibility
  import opened BankFunding
  import opened LeaseFunding
  import opened FundingInvariant
  import opened MoneySteps
  import opened LeaseSteps
  import opened FundingProtocol
  import opened FundingRefusals
  import opened FundingTheorems
  import opened FundingProgress
  import opened AdvanceRuns
  import opened FundingFullRun
  import opened WorkerTurns

  /** One application with its own applicant, providers and history. */
  datatype Application = Application(cfg: Config, world: World)

  /** Reached by some run, with no call in flight. */
  ghost predicate Idle(a: Application) {
    ValidConfig(a.cfg) && Reachable(a.cfg, a.world) && a.world.procs == map[]
  }

  // ---- bank funding ----

  predicate BankSelects(a: Application) {
    WorkerSelects(a.cfg, a.world.db)
  }

  datatype BankSays = BankSays(bank: BankResponse, freeze: FreezeResponse)

  function AfterBankCall(a: Application, says: BankSays, freshId: Guid): Application {
    a.(world := Run(a.cfg, a.world, BankEvents(0, a.cfg.applicant, says.bank, says.freeze, freshId)))
  }

  /** The application's time is set by its transitions only. */
  function BankCalled(says: Id -> BankSays, freshId: Guid, now: int): Visit<Application> {
    (id: Id, row: Row<Application>) =>
      var after := AfterBankCall(row.state, says(id), freshId);
      Row(if after.world.db.log == row.state.world.db.log then row.at else now, after)
  }

  /** The one answer this call waits for is refused by the database. */
  predicate AnswerLost(db: Db, says: BankSays) {
    || (&& db.status == BankApprovalPending && db.approval.Some? && db.assessment.Some?
        && BankAnswerRefused(db.approval.value.maxLoan, db.assessment.value, says.bank))
    || (db.status == FundingPending && FreezeRefused(says.freeze))
  }

  predicate FreezeRefused(r: FreezeResponse) {
    !FreezeTextsFit(r) || (ConfirmsFreeze(r) && !FitsOption(r.fundReference, REFERENCE_LENGTH))
  }

  /** A bank's answer in time is refused, or moves the application on. */
  lemma BankAnswerMoves(cfg: Config, received: set<Evidence>, db: Db, cap: BankCapture, r: BankResponse, freshId: Guid)
    requires ValidConfig(cfg) && DbInv(cfg, received, db) && ProcInv(cfg, received, db, BankAsking(cap))
    requires db.status == BankApprovalPending
    ensures db.approval.Some?
    ensures var tx := BankAnswer(db, cap, r, freshId);
            if BankAnswerRefused(db.approval.value.maxLoan, cap.eligibility, r) then tx.Throw?
            else
              && tx.Commit? && |tx.db.log| == |db.log| + 1
              && (tx.andThen.Return?
                  || (tx.andThen.proc.AllocationReading? && tx.db.status == FundingPending && tx.db.allocation.Some?))
  {
    hide DbInv, ProcInv, Trim, BankTextsFit, AcceptableLoan, BankAnswerRefused, Fits, KeptOption;
    BankThrowsIff(cfg, received, db, cap, r, freshId);
  }

  lemma FreezeAnswerMoves(cfg: Config, received: set<Evidence>, db: Db, contractId: Guid, al: AllocationRow,
                          freezeId: Guid, r: FreezeResponse)
    requires DbInv(cfg, received, db) && ProcInv(cfg, received, db, FreezeAsking(contractId, al, freezeId))
    requires db.status == FundingPending
    ensures var tx := FreezeAnswer(cfg, db, contractId, al, freezeId, r);
            if FreezeRefused(r) then tx.Throw?
            else tx.Commit? && |tx.db.log| == |db.log| + 1 && tx.andThen.Return?
  {
    hide DbInv, ProcInv, FreezeTextsFit, ConfirmsFreeze, FitsOption, FreezeRecorded, Trim;
    FreezeThrowsIff(cfg, received, db, contractId, al, freezeId, r);
    FreezeAnswerEnds(cfg, db, contractId, al, freezeId, r);
  }

  /** Call 0 is the only one in flight, if any is. */
  predicate Undisturbed(w: World) {
    w.procs - {0} == map[]
  }

  lemma NobodyHolds(w: World)
    requires Undisturbed(w)
    ensures !LeaseHeld(w.procs - {0})
    ensures 0 !in w.procs ==> w.procs == map[]
    ensures 0 in w.procs && !w.procs[0].Advancing? ==> !LeaseHeld(w.procs)
  {
    if 0 !in w.procs {
      assert w.procs == w.procs - {0};
    } else if !w.procs[0].Advancing? {
      NobodyElse(w.procs, 0);
    }
  }

  /** What the answer to the request for approval does to the call and to the application's history. */
  lemma BankAnswerStep(cfg: Config, w: World, bank: BankResponse, id: Guid)
    requires ValidConfig(cfg) && WorldInv(cfg, w) && id != 0 && Undisturbed(w) && 0 in w.procs
    requires w.procs[0].BankAsking? && w.db.status == BankApprovalPending
    requires w.db.assessment == Some(w.procs[0].capture.eligibility)
    ensures w.db.approval.Some?
    ensures var v := Step(cfg, w, Resume(0, BankSaid(bank), id));
            && WorldInv(cfg, v) && Undisturbed(v)
            && (if BankAnswerRefused(w.db.approval.value.maxLoan, w.db.assessment.value, bank)
                then 0 !in v.procs && v.db == w.db
                else
                  && |v.db.log| > |w.db.log|
                  && (0 in v.procs ==> v.procs[0].AllocationReading? && v.db.status == FundingPending))
  {
    hide DbInv, ProcInv, BankAnswer, BankAnswerRefused, LeaseHeld, Refers;
    var e := Resume(0, BankSaid(bank), id);
    StepKeeps(cfg, w, e);
    OneStepStays(cfg, w, e);
    NobodyHolds(w);
    assert ProcInv(cfg, w.received, w.db, w.procs[0]);
    BankAnswerMoves(cfg, w.received, w.db, w.procs[0].capture, bank, id);
  }

  lemma FreezeAnswerStep(cfg: Config, w: World, freeze: FreezeResponse, id: Guid)
    requires ValidConfig(cfg) && WorldInv(cfg, w) && id != 0 && Undisturbed(w) && 0 in w.procs
    requires w.procs[0].FreezeAsking? && w.db.status == FundingPending
    ensures var v := Step(cfg, w, Resume(0, FreezeSaid(freeze), id));
            && WorldInv(cfg, v) && Undisturbed(v) && 0 !in v.procs
            && (if FreezeRefused(freeze) then v.db == w.db else |v.db.log| > |w.db.log|)
  {
    hide DbInv, ProcInv, FreezeAnswer, FreezeRefused, LeaseHeld, Refers;
    var e := Resume(0, FreezeSaid(freeze), id);
    StepKeeps(cfg, w, e);
    OneStepStays(cfg, w, e);
    NobodyHolds(w);
    var p := w.procs[0];
    assert ProcInv(cfg, w.received, w.db, p);
    FreezeAnswerMoves(cfg, w.received, w.db, p.contractId, p.allocation, p.freezeId, freeze);
  }

  /** The freeze of a started funding; with a freeze row there already, asking changes nothing. */
  lemma FreezeAskingStep(cfg: Config, w: World, id: Guid)
    requires ValidConfig(cfg) && WorldInv(cfg, w) && id != 0 && Undisturbed(w) && 0 in w.procs
    requires w.procs[0].FreezeStarting? && w.db.status == FundingPending
    ensures var v := Step(cfg, w, Resume(0, Silent, id));
            && WorldInv(cfg, v) && Undisturbed(v) && 0 in v.procs && v.procs[0].FreezeAsking?
            && v.db.status == FundingPending && v.db.log == w.db.log
            && (w.db.freeze.Some? ==> v.db == w.db)
  {
    hide DbInv, ProcInv, Grows, TxSafe, ResumeWaits;
    var e := Resume(0, Silent, id);
    StepKeeps(cfg, w, e);
    OneStepStays(cfg, w, e);
    FewWait(cfg, w, 0, Silent, id);
    var p := w.procs[0];
    assert ProcInv(cfg, w.received, w.db, p);
    FreezeStartCommits(cfg, w.received, w.db, p.contractId, p.allocation, id);
    FreezeBelongs(cfg, w.received, w.db, p);
  }

  lemma FreezeBelongs(cfg: Config, received: set<Evidence>, db: Db, p: Proc)
    requires DbInv(cfg, received, db) && ProcInv(cfg, received, db, p) && p.FreezeStarting?
    ensures db.freeze.Some? ==> db.freeze.value.allocationId == p.allocation.id
  {
    hide PlanInv, TermsInv, AssessmentInv, ApprovalInv, AllocationInv, ContributionInv, LeaseInv;
  }

  /** The start of a worker's call: a transition out of ExternalCheckIndeterminate, or nothing new. */
  lemma BankStartStep(cfg: Config, w: World, id: Guid)
    requires ValidConfig(cfg) && WorldInv(cfg, w) && id != 0 && w.procs == map[] && WorkerSelects(cfg, w.db)
    requires Resumable(w.db) && w.db.status != DecisionReady
    ensures var v := Step(cfg, w, Start(0, BankCall(cfg.applicant), id, id));
            && WorldInv(cfg, v) && Undisturbed(v) && 0 in v.procs && v.db.assessment == w.db.assessment
            && (if w.db.allocation.None?
                then v.db.status == BankApprovalPending && v.procs[0].BankAsking?
                     && w.db.assessment == Some(v.procs[0].capture.eligibility)
                else v.db.status == FundingPending && v.procs[0].FreezeStarting?)
            && (if w.db.status == ExternalCheckIndeterminate then |v.db.log| > |w.db.log| else v.db == w.db)
  {
    hide DbInv, ProcInv, Grows, Resumable, BankStart, WorkerSelects;
    var e := Start(0, BankCall(cfg.applicant), id, id);
    BankStartStage(cfg, w, 0, id);
    OneStepStays(cfg, w, e);
    BankStartCommits(cfg, w.received, w.db, id);
    BankStartWrites(cfg, w.received, w.db, id);
  }

  lemma BankStartWrites(cfg: Config, received: set<Evidence>, db: Db, id: Guid)
    requires ValidConfig(cfg) && DbInv(cfg, received, db) && Resumable(db) && db.status != DecisionReady
    requires WorkerSelects(cfg, db)
    ensures var tx := BankStart(cfg, db, cfg.applicant, id);
            && tx.Commit?
            && (if db.status == ExternalCheckIndeterminate then |tx.db.log| > |db.log| else tx.db == db)
  {
    hide Trim, TrustedTerms, TermsOf, FullDeposit, MaximumLoan, LoanRatio, ValidMonths, CreditPath, LeasePath,
         ValidEvidence, FrozenEvidence, MatchesTrustedSnapshot, AllocationMatches;
    BankStartCommits(cfg, received, db, id);
  }

  lemma Silence(cfg: Config, w: World, answer: Answer, id: Guid)
    requires 0 !in w.procs || !Awaits(w.procs[0], answer)
    ensures Step(cfg, w, Resume(0, answer, id)) == w
  {
  }

  /** From the request for the freeze to the end of the call. */
  lemma FreezeAsked(cfg: Config, w: World, freeze: FreezeResponse, id: Guid) returns (v: World)
    requires ValidConfig(cfg) && WorldInv(cfg, w) && id != 0 && Undisturbed(w) && 0 in w.procs
    requires w.procs[0].FreezeStarting? && w.db.status == FundingPending
    ensures v == Step(cfg, Step(cfg, w, Resume(0, Silent, id)), Resume(0, FreezeSaid(freeze), id))
    ensures 0 in Step(cfg, w, Resume(0, Silent, id)).procs
    ensures !Awaits(Step(cfg, w, Resume(0, Silent, id)).procs[0], Silent)
    ensures v.procs == map[] && |v.db.log| >= |w.db.log|
    ensures if FreezeRefused(freeze) then v.db.log == w.db.log && (w.db.freeze.Some? ==> v.db == w.db)
            else |v.db.log| > |w.db.log|
  {
    hide WorldInv, Step, FreezeRefused;
    FreezeAskingStep(cfg, w, id);
    var asking := Step(cfg, w, Resume(0, Silent, id));
    FreezeAnswerStep(cfg, asking, freeze, id);
    v := Step(cfg, asking, Resume(0, FreezeSaid(freeze), id));
    NobodyHolds(v);
  }

  /** The call of an application without an allocation. */
  lemma UnallocatedCall(cfg: Config, w: World, says: BankSays, id: Guid) returns (v: World)
    requires ValidConfig(cfg) && WorldInv(cfg, w) && id != 0 && Undisturbed(w) && 0 in w.procs
    requires w.procs[0].BankAsking? && w.db.status == BankApprovalPending
    requires w.db.assessment == Some(w.procs[0].capture.eligibility)
    ensures v == Run(cfg, w, [Resume(0, BankSaid(says.bank), id)] + ([Resume(0, Silent, id)]
                             + ([Resume(0, Silent, id)] + ([Resume(0, FreezeSaid(says.freeze), id)] + []))))
    ensures w.db.approval.Some? && v.procs == map[]
    ensures if BankAnswerRefused(w.db.approval.value.maxLoan, w.db.assessment.value, says.bank) then v.db == w.db
            else |v.db.log| > |w.db.log|
  {
    hide WorldInv, Step, BankAnswerRefused, FreezeRefused;
    var e2, e3, e5 := Resume(0, BankSaid(says.bank), id), Resume(0, Silent, id), Resume(0, FreezeSaid(says.freeze), id);
    BankAnswerStep(cfg, w, says.bank, id);
    var w2 := Step(cfg, w, e2);
    RunStep(cfg, w, e2, [e3] + ([e3] + ([e5] + [])));
    NobodyHolds(w2);
    if 0 !in w2.procs {
      Silence(cfg, w2, Silent, id);
      Silence(cfg, w2, FreezeSaid(says.freeze), id);
      RunStep(cfg, w2, e3, [e3] + ([e5] + []));
      RunStep(cfg, w2, e3, [e5] + []);
      RunStep(cfg, w2, e5, []);
      v := w2;
    } else {
      AllocationStage(cfg, w2, 0, id);
      OneStepStays(cfg, w2, e3);
      var w3 := Step(cfg, w2, e3);
      RunStep(cfg, w2, e3, [e3] + ([e5] + []));
      v := FreezeAsked(cfg, w3, says.freeze, id);
      RunStep(cfg, w3, e3, [e5] + []);
      RunStep(cfg, Step(cfg, w3, e3), e5, []);
    }
  }

  /** The call of an application with an allocation. */
  lemma AllocatedCall(cfg: Config, w: World, says: BankSays, id: Guid) returns (v: World)
    requires ValidConfig(cfg) && WorldInv(cfg, w) && id != 0 && Undisturbed(w) && 0 in w.procs
    requires w.procs[0].FreezeStarting? && w.db.status == FundingPending
    ensures v == Run(cfg, w, [Resume(0, BankSaid(says.bank), id)] + ([Resume(0, Silent, id)]
                             + ([Resume(0, Silent, id)] + ([Resume(0, FreezeSaid(says.freeze), id)] + []))))
    ensures v.procs == map[] && |v.db.log| >= |w.db.log|
    ensures if FreezeRefused(says.freeze) then v.db.log == w.db.log && (w.db.freeze.Some? ==> v.db == w.db)
            else |v.db.log| > |w.db.log|
  {
    hide WorldInv, Step, FreezeRefused;
    var e2, e3, e5 := Resume(0, BankSaid(says.bank), id), Resume(0, Silent, id), Resume(0, FreezeSaid(says.freeze), id);
    Silence(cfg, w, BankSaid(says.bank), id);
    RunStep(cfg, w, e2, [e3] + ([e3] + ([e5] + [])));
    v := FreezeAsked(cfg, w, says.freeze, id);
    var w3 := Step(cfg, w, e3);
    RunStep(cfg, w, e3, [e3] + ([e5] + []));
    Silence(cfg, w3, Silent, id);
    RunStep(cfg, w3, e3, [e5] + []);
    RunStep(cfg, w3, e5, []);
  }

  /** An undisturbed call of a selected application writes a transition, and with it a later time, exactly unless its
      answer is lost; then nothing at all has changed and the application is selected in the same place again. */
  lemma BankCallReleases(a: Application, says: BankSays, id: Guid)
    requires Idle(a) && BankSelects(a) && id != 0
    ensures var v := AfterBankCall(a, says, id);
            && Idle(v)
            && (v.world.db.log == a.world.db.log <==> AnswerLost(a.world.db, says))
            && (AnswerLost(a.world.db, says) ==> v.world.db == a.world.db && BankSelects(v))
  {
    hide WorldInv, Reachable, Step, WorkerSelects, BankAnswerRefused, FreezeRefused, Resumable, HasDecision;
    var cfg, w := a.cfg, a.world;
    var e1, e2 := Start(0, BankCall(cfg.applicant), id, id), Resume(0, BankSaid(says.bank), id);
    var e3, e5 := Resume(0, Silent, id), Resume(0, FreezeSaid(says.freeze), id);
    ReachableInv(cfg, w);
    Started(cfg, w);
    RunReaches(cfg, w, BankEvents(0, cfg.applicant, says.bank, says.freeze, id));
    BankStartStep(cfg, w, id);
    var w1 := Step(cfg, w, e1);
    RunStep(cfg, w, e1, [e2] + ([e3] + ([e3] + ([e5] + []))));
    if w.db.allocation.None? {
      var v := UnallocatedCall(cfg, w1, says, id);
    } else {
      var v := AllocatedCall(cfg, w1, says, id);
    }
  }

  lemma Started(cfg: Config, w: World)
    requires ValidConfig(cfg) && Reachable(cfg, w) && WorkerSelects(cfg, w.db)
    ensures Resumable(w.db) && w.db.status != DecisionReady && w.db.approval.Some? && w.db.assessment.Some?
    ensures w.db.status == BankApprovalPending ==> w.db.allocation.None?
    ensures w.db.status == FundingPending ==> w.db.allocation.Some? && w.db.freeze.Some?
  {
    hide DbInv, Reachable, WorkerSelects, Resumable, HasDecision;
    ReachableInv(cfg, w);
    WorkerSelectsExactly(cfg, w);
    StartedIsResumable(cfg, w.received, w.db);
    BankMoneySafety(cfg, w);
    DecisionStands(w.db);
    Approved(cfg, w.received, w.db);
  }

  lemma DecisionStands(db: Db)
    requires Resumable(db)
    ensures db.assessment.Some?
  {
  }

  lemma Approved(cfg: Config, received: set<Evidence>, db: Db)
    requires DbInv(cfg, received, db)
    requires || db.status == BankApprovalPending || db.status == FundingPending
             || (db.status == ExternalCheckIndeterminate && HasDecision(db))
    ensures db.approval.Some?
  {
    hide PlanInv, TermsInv, AssessmentInv, AllocationInv, FreezeInv, ContributionInv, LeaseInv;
  }

  // ---- whose turn comes: bank funding ----

  datatype BankPass = BankPass(says: Id -> BankSays, freshId: Guid, now: int)

  function BankVisit(pass: BankPass): Visit<Application> {
    BankCalled(pass.says, pass.freshId, pass.now)
  }

  function BankVisits(passes: seq<BankPass>): (visits: seq<Visit<Application>>)
    ensures |visits| == |passes| && forall k :: 0 <= k < |passes| ==> visits[k] == BankVisit(passes[k])
  {
    seq(|passes|, k requires 0 <= k < |passes| => BankVisit(passes[k]))
  }

  ghost predicate AllIdle(fleet: Fleet<Application>) {
    forall id :: id in fleet ==> Idle(fleet[id].state)
  }

  /** The candidates of this pass whose answer is lost. */
  function LostIn(limit: nat, pass: BankPass, fleet: Fleet<Application>): set<Candidate> {
    set c | c in Taken(Queue(BankSelects, fleet), limit)
            && c.id in fleet && AnswerLost(fleet[c.id].state.world.db, pass.says(c.id))
  }

  lemma StayingIsLost(limit: nat, pass: BankPass, fleet: Fleet<Application>, c: Candidate)
    requires AllIdle(fleet) && pass.freshId != 0 && pass.now > c.at
    requires c in Queue(BankSelects, fleet) && !HasTurn(BankSelects, limit, fleet, c)
    ensures Staying(BankSelects, limit, BankVisit(pass), fleet) == LostIn(limit, pass, fleet)
  {
    hide AnswerLost, AfterBankCall, BankSelects, Idle;
    forall d | d in Taken(Queue(BankSelects, fleet), limit)
      ensures d.id in fleet && fleet[d.id].at == d.at
      ensures KeepsPlace(BankSelects, fleet[d.id], BankVisit(pass)(d.id, fleet[d.id])) <==>
              AnswerLost(fleet[d.id].state.world.db, pass.says(d.id))
    {
      TakenAreAhead(Queue(BankSelects, fleet), limit, c, d);
      BankCallReleases(fleet[d.id].state, pass.says(d.id), pass.freshId);
    }
  }

  /** A selected application is called in time as long as the database refuses fewer answers in each pass than a batch
      holds: with up to `lost` refusals a pass, `limit - lost` others give up their place in front of it. */
  lemma BankTurnComes(limit: nat, lost: nat, passes: seq<BankPass>, fleets: seq<Fleet<Application>>, c: Candidate)
    returns (k: nat)
    requires passes != [] && |fleets| == |passes| && c in Queue(BankSelects, fleets[0]) && lost <= limit
    requires |Ahead(Queue(BankSelects, fleets[0]), c)| < limit + (limit - lost) * (|passes| - 1)
    requires forall k :: 0 <= k < |passes| ==>
               && passes[k].freshId != 0 && passes[k].now > c.at && AllIdle(fleets[k])
               && |LostIn(limit, passes[k], fleets[k])| <= lost
    requires forall k :: 0 <= k < |passes| - 1 && !HasTurn(BankSelects, limit, fleets[k], c) ==>
               Follows(BankSelects, limit, BankVisit(passes[k]), fleets[k], fleets[k + 1], c)
    ensures k < |passes| && HasTurn(BankSelects, limit, fleets[k], c) && SameRow(fleets[0], fleets[k], c.id)
  {
    hide Follows, AllIdle, LostIn, BankVisit, Ahead;
    var visits := BankVisits(passes);
    forall k | 0 <= k < |visits|
      ensures StampsAfter(visits[k], c.at)
      ensures c in Queue(BankSelects, fleets[k]) ==>
                Moves(BankSelects, limit, visits[k], fleets[k], c, limit - lost)
    {
      StampedNow(passes[k], c.at);
      if c in Queue(BankSelects, fleets[k]) && !HasTurn(BankSelects, limit, fleets[k], c) {
        StayingIsLost(limit, passes[k], fleets[k], c);
        ReleasedCount(BankSelects, limit, visits[k], fleets[k], c);
      }
    }
    k := TurnComes(BankSelects, limit, visits, fleets, c, limit - lost);
  }

  lemma StampedNow(pass: BankPass, at: int)
    requires pass.now > at
    ensures StampsAfter(BankVisit(pass), at)
  {
    hide AfterBankCall;
  }

  /** What a lost answer leaves behind: the application as it was, wherever it got to. */
  ghost predicate StillLost(fleet: Fleet<Application>, id: Id, a: Application) {
    id in fleet && Idle(a) && a.cfg == fleet[id].state.cfg && a.world.db == fleet[id].state.world.db
  }

  lemma LostHolds(fleet: Fleet<Application>, ids: set<Id>, pass: BankPass)
    requires pass.freshId != 0
    requires forall id :: id in ids ==> id in fleet && AnswerLost(fleet[id].state.world.db, pass.says(id))
    ensures Holds(BankSelects, BankVisit(pass), ids, (id, a) => StillLost(fleet, id, a))
  {
    hide AnswerLost, AfterBankCall, BankSelects, Idle;
    forall id, row: Row<Application> | id in ids && BankSelects(row.state) && StillLost(fleet, id, row.state)
      ensures KeepsPlace(BankSelects, row, BankVisit(pass)(id, row))
      ensures StillLost(fleet, id, BankVisit(pass)(id, row).state)
    {
      BankCallReleases(row.state, pass.says(id), pass.freshId);
      SameConfig(row.state, pass.says(id), pass.freshId);
    }
  }

  lemma SameConfig(a: Application, says: BankSays, freshId: Guid)
    ensures AfterBankCall(a, says, freshId).cfg == a.cfg
  {
  }

  /** As many applications as a batch holds, whose answers are lost every time, keep everyone behind them from ever
      being called. */
  lemma LostAnswersBlock(limit: nat, passes: seq<BankPass>, fleets: seq<Fleet<Application>>, c: Candidate,
                         ids: set<Id>)
    requires |fleets| == |passes| + 1 && |ids| >= limit && c in Queue(BankSelects, fleets[0])
    requires forall id :: id in ids ==>
               && id in fleets[0] && Idle(fleets[0][id].state) && BankSelects(fleets[0][id].state)
               && Earlier(Candidate(fleets[0][id].at, id), c)
    requires forall k, id :: 0 <= k < |passes| && id in ids ==>
               AnswerLost(fleets[0][id].state.world.db, passes[k].says(id))
    requires forall k :: 0 <= k < |passes| ==>
               && passes[k].freshId != 0 && passes[k].now > c.at
               && Follows(BankSelects, limit, BankVisit(passes[k]), fleets[k], fleets[k + 1], c)
               && LeftAlone(BankSelects, limit, BankVisit(passes[k]), fleets[k], fleets[k + 1], ids)
    ensures forall k :: 0 <= k < |fleets| ==>
              SameRow(fleets[0], fleets[k], c.id) && !HasTurn(BankSelects, limit, fleets[k], c)
  {
    hide Follows, LeftAlone, BankVisit, AnswerLost, Holds, BankSelects, Idle;
    var visits := BankVisits(passes);
    var keeps := (id: Id, a: Application) => StillLost(fleets[0], id, a);
    forall k | 0 <= k < |visits|
      ensures StampsAfter(visits[k], c.at) && Holds(BankSelects, visits[k], ids, keeps)
    {
      StampedNow(passes[k], c.at);
      LostHolds(fleets[0], ids, passes[k]);
    }
    TurnNeverComes(BankSelects, limit, visits, fleets, c, ids, keeps);
  }
}
