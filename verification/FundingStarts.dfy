/** What a call comes to when it starts: for every reachable world the branch it takes, the rows it writes, what it goes
    on with and what its caller is told. */
module FundingStarts {
  import opened Texts
  import opened Columns
  import opened Rial
  import opened Workflows
  import opened FundingRows
  import opened Intake
  import opened Registration
  import opened Eligibility
  import opened BankFunding
  import opened LeaseFunding
  import opened FundingInvariant
  import opened MoneySteps
  import opened FundingProtocol
  import opened FundingRefusals
  import opened FundingTheorems
  import opened FundingAnswers

  /** The call can start now. */
  predicate Begun(w: World, pid: nat, call: Call, freshId: Guid, otherId: Guid) {
    pid !in w.procs && freshId != 0 && otherId != 0 && !StartWaits(w.procs, call)
  }

  /** The call ends at once, with this reply, and nothing changes. */
  predicate Answered(cfg: Config, w: World, e: Event, outcome: Outcome) {
    Step(cfg, w, e) == w && Told(cfg, w, e) == Some(outcome)
  }

  /** The call goes on as `p`, over these rows. */
  predicate GoesOn(cfg: Config, w: World, e: Event, db: Db, p: Proc) {
    Step(cfg, w, e) == w.(db := db, procs := w.procs[e.pid := p]) && Told(cfg, w, e) == None
  }

  lemma BegunStep(cfg: Config, w: World, pid: nat, call: Call, freshId: Guid, otherId: Guid)
    requires Begun(w, pid, call, freshId, otherId)
    ensures var tx, e := Begin(cfg, w.db, call, freshId, otherId), Start(pid, call, freshId, otherId);
            && Step(cfg, w, e) == Settle(w, pid, tx) && Told(cfg, w, e) == ReplyOf(tx)
            && (tx.Rollback? && tx.andThen.Return? ==> Answered(cfg, w, e, tx.andThen.outcome))
            && (tx.Rollback? && tx.andThen.Continue? ==> GoesOn(cfg, w, e, w.db, tx.andThen.proc))
            && (tx.Commit? && tx.andThen.Continue? ==> GoesOn(cfg, w, e, tx.db, tx.andThen.proc))
  {
    hide Begin, StartWaits;
    assert w.procs - {pid} == w.procs;
  }

  // ---- bank and fund ----

  /** What a request to the bank takes along. */
  function Asking(cfg: Config, db: Db, approvalId: Guid): Proc
    requires db.contract.Some? && db.plan.Some? && db.plan.value in cfg.catalogue && db.assessment.Some?
  {
    BankAsking(BankCapture(approvalId, db.contract.value.id, db.plan.value, cfg.catalogue[db.plan.value],
                           db.assessment.value))
  }

  /** A call for the bank's money takes up the work where it stands: it asks the bank for a decided application whose
      ceiling reaches a rial, asks again while no loan is allocated, goes to the fund once one is, and does nothing for
      anyone else. */
  lemma BankCallDecides(cfg: Config, w: World, pid: nat, freshId: Guid, otherId: Guid)
    requires ValidConfig(cfg) && Reachable(cfg, w)
    requires Begun(w, pid, BankCall(cfg.applicant), freshId, otherId)
    ensures Decided(w.db.status) ==> HasDecision(w.db)
    ensures HasDecision(w.db) ==>
              && w.db.contract.Some? && w.db.plan.Some? && w.db.plan.value in cfg.catalogue
              && SoundDecision(w.db.assessment.value)
    ensures var e, db := Start(pid, BankCall(cfg.applicant), freshId, otherId), w.db;
            match db.status
            case ApprovedFunded => Answered(cfg, w, e, AlreadyFunded)
            case DecisionReady =>
              if ExactCeiling(db.assessment.value) < 1.0 then Answered(cfg, w, e, InvalidState)
              else
                var approval := ApprovalRow(freshId, BankUnclear, db.assessment.value.maxLoan.value, None, None);
                GoesOn(cfg, w, e, db.(status := BankApprovalPending,
                                      log := db.log + [Edge(DecisionReady, BankApprovalPending)],
                                      approval := Some(approval)),
                       Asking(cfg, db, freshId))
            case BankApprovalPending =>
              db.approval.Some? && GoesOn(cfg, w, e, db, Asking(cfg, db, db.approval.value.id))
            case FundingPending =>
              db.allocation.Some? && GoesOn(cfg, w, e, db, FreezeStarting(db.contract.value.id, db.allocation.value))
            case ExternalCheckIndeterminate =>
              if !HasDecision(db) then Answered(cfg, w, e, InvalidState)
              else if db.allocation.None? then
                && db.approval.Some?
                && GoesOn(cfg, w, e, db.(status := BankApprovalPending,
                                         log := db.log + [Edge(ExternalCheckIndeterminate, BankApprovalPending)]),
                          Asking(cfg, db, db.approval.value.id))
              else
                GoesOn(cfg, w, e, db.(status := FundingPending,
                                      log := db.log + [Edge(ExternalCheckIndeterminate, FundingPending)]),
                       FreezeStarting(db.contract.value.id, db.allocation.value))
            case _ => Answered(cfg, w, e, InvalidState)
  {
    hide DbInv, Reachable, BankStart, StartWaits, ExactCeiling, SoundDecision;
    ReachableInv(cfg, w);
    BegunStep(cfg, w, pid, BankCall(cfg.applicant), freshId, otherId);
    BankStartCases(cfg, w.received, w.db, freshId);
  }

  lemma BankStartCases(cfg: Config, received: set<Evidence>, db: Db, freshId: Guid)
    requires ValidConfig(cfg) && DbInv(cfg, received, db)
    ensures HasDecision(db) ==>
              && db.contract.Some? && db.plan.Some? && db.plan.value in cfg.catalogue
              && SoundDecision(db.assessment.value)
    ensures Decided(db.status) ==> HasDecision(db)
    ensures db.status == BankApprovalPending || (db.status == ExternalCheckIndeterminate && HasDecision(db)) ==>
              db.approval.Some?
    ensures db.status == FundingPending ==> db.allocation.Some?
    ensures BankStart(cfg, db, cfg.applicant, freshId) ==
            match db.status
            case ApprovedFunded => Reject(AlreadyFunded)
            case DecisionReady =>
              if ExactCeiling(db.assessment.value) < 1.0 then Reject(InvalidState)
              else
                var approval := ApprovalRow(freshId, BankUnclear, db.assessment.value.maxLoan.value, None, None);
                Commit(db.(status := BankApprovalPending, log := db.log + [Edge(db.status, BankApprovalPending)],
                           approval := Some(approval)),
                       Continue(Asking(cfg, db, freshId)))
            case BankApprovalPending => Commit(db, Continue(Asking(cfg, db, db.approval.value.id)))
            case FundingPending =>
              Commit(db, Continue(FreezeStarting(db.contract.value.id, db.allocation.value)))
            case ExternalCheckIndeterminate =>
              if !HasDecision(db) then Reject(InvalidState)
              else if db.allocation.None? then
                Commit(db.(status := BankApprovalPending, log := db.log + [Edge(db.status, BankApprovalPending)]),
                       Continue(Asking(cfg, db, db.approval.value.id)))
              else
                Commit(db.(status := FundingPending, log := db.log + [Edge(db.status, FundingPending)]),
                       Continue(FreezeStarting(db.contract.value.id, db.allocation.value)))
            case _ => Reject(InvalidState)
  {
    hide Trim, TermsOf, FullDeposit, MaximumLoan, LoanRatio, ExactCeiling, ValidMonths, CreditPath, LeasePath,
         ValidEvidence, FrozenEvidence, MatchesTrustedSnapshot, AllocationMatches, TrustedTerms;
    if HasDecision(db) {
      DecisionMatchesSnapshot(cfg, received, db);
      CeilingIsPositive(db.assessment.value);
      DecidedRows(cfg, received, db);
      if db.allocation.Some? {
        AllocationAlwaysMatches(cfg, received, db);
      }
    }
  }

  /** Before it asks the fund, a call writes the freeze row of its allocation, or takes the one that is there. */
  lemma FreezeCallDecides(cfg: Config, w: World, pid: nat, freshId: Guid)
    requires ValidConfig(cfg) && Reachable(cfg, w)
    requires Taken(cfg, w, pid, Silent, freshId) && w.procs[pid].FreezeStarting?
    ensures w.db.contract.Some? && w.db.allocation.Some?
    ensures var e, db := Resume(pid, Silent, freshId), w.db;
            match db.status
            case ApprovedFunded => Step(cfg, w, e).db == db && Told(cfg, w, e) == Some(AlreadyFunded)
            case FundingPending =>
              var row := if db.freeze.Some? then db.freeze.value
                         else FreezeRow(freshId, db.allocation.value.id, cfg.fundProvider, FreezeUnclear, None, None);
              GoesOn(cfg, w, e, db.(freeze := Some(row)),
                     FreezeAsking(db.contract.value.id, db.allocation.value, row.id))
            case _ => Step(cfg, w, e).db == db && Told(cfg, w, e) == Some(InvalidState)
  {
    hide DbInv, Reachable, FreezeStart, ResumeWaits;
    ReachableInv(cfg, w);
    TakenStep(cfg, w, pid, Silent, freshId);
    var p := w.procs[pid];
    assert ProcInv(cfg, w.received, w.db, p);
    FreezeStartCases(cfg, w.received, w.db, p.contractId, p.allocation, freshId);
    assert w.received + {} == w.received;
  }

  lemma FreezeStartCases(cfg: Config, received: set<Evidence>, db: Db, contractId: Guid, al: AllocationRow,
                         freshId: Guid)
    requires DbInv(cfg, received, db) && ProcInv(cfg, received, db, FreezeStarting(contractId, al))
    ensures FreezeStart(cfg, db, contractId, al, freshId) ==
            match db.status
            case ApprovedFunded => Reject(AlreadyFunded)
            case FundingPending =>
              var row := if db.freeze.Some? then db.freeze.value
                         else FreezeRow(freshId, al.id, cfg.fundProvider, FreezeUnclear, None, None);
              Commit(db.(freeze := Some(row)), Continue(FreezeAsking(contractId, al, row.id)))
            case _ => Reject(InvalidState)
  {
    hide Trim, TermsOf, FullDeposit, MaximumLoan, LoanRatio, ValidMonths, CreditPath, LeasePath, ValidEvidence,
         TrustedTerms;
  }

  // ---- the tenant's contribution ----

  /** A call for the tenant's money asks for exactly the contribution of a funded application, under one transfer that
      every later call takes up again; without a contribution, or before the principal is frozen, it is refused. */
  lemma ContributionCallDecides(cfg: Config, w: World, pid: nat, fundingId: Guid, transferId: Guid)
    requires ValidConfig(cfg) && Reachable(cfg, w)
    requires Begun(w, pid, ContributionCall, fundingId, transferId)
    ensures var e, db := Start(pid, ContributionCall, fundingId, transferId), w.db;
            if db.contribution.Some? then Answered(cfg, w, e, AlreadyReconciled)
            else if db.status != ApprovedFunded || db.allocation.None? || db.allocation.value.contribution == 0.0 then
              Answered(cfg, w, e, InvalidState)
            else
              var al := db.allocation.value;
              var funding := if db.funding.Some? then db.funding.value
                             else FundingRow(fundingId, al.id, transferId, None);
              var transfer := if db.transfer.Some? then db.transfer.value.(status := TransferPending)
                              else TransferRow(transferId, al.contractId, al.id, al.contribution, TransferPending);
              GoesOn(cfg, w, e, db.(funding := Some(funding), transfer := Some(transfer)),
                     ContributionAsking(al.contractId, al, funding.id, transfer.id))
  {
    hide DbInv, Reachable, ContributionStart, StartWaits;
    ReachableInv(cfg, w);
    BegunStep(cfg, w, pid, ContributionCall, fundingId, transferId);
    ContributionStartCases(cfg, w.received, w.db, fundingId, transferId);
  }

  lemma ContributionStartCases(cfg: Config, received: set<Evidence>, db: Db, fundingId: Guid, transferId: Guid)
    requires ValidConfig(cfg) && DbInv(cfg, received, db)
    ensures ContributionStart(cfg, db, fundingId, transferId) ==
            if db.contribution.Some? then Reject(AlreadyReconciled)
            else if db.status != ApprovedFunded || db.allocation.None? || db.allocation.value.contribution == 0.0 then
              Reject(InvalidState)
            else
              var al := db.allocation.value;
              var funding := if db.funding.Some? then db.funding.value
                             else FundingRow(fundingId, al.id, transferId, None);
              var transfer := if db.transfer.Some? then db.transfer.value.(status := TransferPending)
                              else TransferRow(transferId, al.contractId, al.id, al.contribution, TransferPending);
              Commit(db.(funding := Some(funding), transfer := Some(transfer)),
                     Continue(ContributionAsking(al.contractId, al, funding.id, transfer.id)))
  {
    hide Trim, TermsOf, FullDeposit, MaximumLoan, LoanRatio, ValidMonths, CreditPath, LeasePath, ValidEvidence,
         TrustedTerms;
  }

  // ---- the grade ----

  /** A call for a grade asks for one exactly between registration and decision, over the deposit of the terms. */
  lemma GradeCallDecides(cfg: Config, w: World, pid: nat, freshId: Guid, otherId: Guid)
    requires ValidConfig(cfg) && Reachable(cfg, w)
    requires Begun(w, pid, GradeCall(cfg.applicant), freshId, otherId)
    ensures Past(w.db.status) ==> w.db.terms.Some?
    ensures var e, db := Start(pid, GradeCall(cfg.applicant), freshId, otherId), w.db;
            if HasDecision(db) then Answered(cfg, w, e, AlreadyEvaluated)
            else if !Past(db.status) then Answered(cfg, w, e, InvalidState)
            else
              var row := if db.assessment.Some? then db.assessment.value
                         else AssessmentRow(freshId, GradeUnknown, None, db.terms.value.full, None, None);
              GoesOn(cfg, w, e, db.(assessment := Some(row)), GradeAsking(row.id))
  {
    hide DbInv, Reachable, GradeStart, StartWaits;
    ReachableInv(cfg, w);
    BegunStep(cfg, w, pid, GradeCall(cfg.applicant), freshId, otherId);
    GradeStartCases(cfg, w.received, w.db, freshId);
  }

  lemma GradeStartCases(cfg: Config, received: set<Evidence>, db: Db, freshId: Guid)
    requires ValidConfig(cfg) && DbInv(cfg, received, db)
    ensures Past(db.status) ==> db.terms.Some?
    ensures GradeStart(cfg, db, cfg.applicant, freshId) ==
            if HasDecision(db) then Reject(AlreadyEvaluated)
            else if !Past(db.status) then Reject(InvalidState)
            else
              var row := if db.assessment.Some? then db.assessment.value
                         else AssessmentRow(freshId, GradeUnknown, None, db.terms.value.full, None, None);
              Commit(db.(assessment := Some(row)), Continue(GradeAsking(row.id)))
  {
    hide Trim, FullDeposit, MaximumLoan, LoanRatio, ValidMonths, CreditPath, LeasePath, ValidEvidence, FrozenEvidence;
  }

  // ---- the contract ----

  /** A reconciliation asks for evidence exactly while the property contract is pending, under one request that every
      later one takes up again; past registration it says so, and waits for documents when they are missing. */
  lemma ContractCallDecides(cfg: Config, w: World, pid: nat, freshId: Guid, otherId: Guid)
    requires ValidConfig(cfg) && Reachable(cfg, w)
    requires Begun(w, pid, ContractCall(cfg.applicant), freshId, otherId)
    ensures w.db.status == PropertyContractPending ==> w.db.plan.Some?
    ensures var e, db := Start(pid, ContractCall(cfg.applicant), freshId, otherId), w.db;
            if Past(db.status) then Answered(cfg, w, e, AlreadyRegistered)
            else if db.status == PropertyContractPending then
              var row := if db.request.Some? then db.request.value
                         else RequestRow(freshId, RequestStatus.Pending, cfg.contractProvider, None);
              GoesOn(cfg, w, e, db.(request := Some(row)), ContractAsking(row.id, db.plan.value))
            else if db.status == NeedsDocuments && db.request.Some? && db.request.value.status == DocumentsRequired then
              Answered(cfg, w, e, RegistrationNeedsDocuments)
            else Answered(cfg, w, e, InvalidState)
  {
    hide DbInv, Reachable, ContractStart, StartWaits;
    ReachableInv(cfg, w);
    BegunStep(cfg, w, pid, ContractCall(cfg.applicant), freshId, otherId);
    ContractStartCases(cfg, w.received, w.db, freshId);
  }

  lemma ContractStartCases(cfg: Config, received: set<Evidence>, db: Db, freshId: Guid)
    requires ValidConfig(cfg) && DbInv(cfg, received, db)
    ensures db.status == PropertyContractPending ==> db.plan.Some?
    ensures ContractStart(cfg, db, cfg.applicant, freshId) ==
            if Past(db.status) then Reject(AlreadyRegistered)
            else if db.status == PropertyContractPending then
              var row := if db.request.Some? then db.request.value
                         else RequestRow(freshId, RequestStatus.Pending, cfg.contractProvider, None);
              Commit(db.(request := Some(row)), Continue(ContractAsking(row.id, db.plan.value)))
            else if db.status == NeedsDocuments && db.request.Some? && db.request.value.status == DocumentsRequired then
              Reject(RegistrationNeedsDocuments)
            else Reject(InvalidState)
  {
    hide Trim, FullDeposit, MaximumLoan, LoanRatio, ValidMonths, CreditPath, LeasePath, ValidEvidence, FrozenEvidence,
         TrustedTerms;
  }

  // ---- the way in ----

  /** A draft is submitted once. */
  lemma SubmitCallDecides(cfg: Config, w: World, pid: nat, freshId: Guid, otherId: Guid)
    requires Begun(w, pid, SubmitCall(cfg.applicant), freshId, otherId)
    ensures var e := Start(pid, SubmitCall(cfg.applicant), freshId, otherId);
            match w.db.status
            case Draft =>
              && Step(cfg, w, e) == w.(db := w.db.(status := IdentityPending,
                                                   log := w.db.log + [Edge(Draft, IdentityPending)]))
              && Told(cfg, w, e) == Some(Submitted)
            case IdentityPending => Answered(cfg, w, e, AlreadySubmitted)
            case _ => Answered(cfg, w, e, InvalidState)
  {
    hide StartWaits;
    BegunStep(cfg, w, pid, SubmitCall(cfg.applicant), freshId, otherId);
    assert w.procs - {pid} == w.procs;
  }

  /** A plan is chosen once, and only a published one of twelve months: choosing it again changes nothing, choosing
      another is a conflict. */
  lemma PlanCallDecides(cfg: Config, w: World, pid: nat, planId: Guid, version: string, published: bool, freshId: Guid,
                        otherId: Guid)
    requires ValidConfig(cfg) && Reachable(cfg, w)
    requires Begun(w, pid, PlanCall(cfg.applicant, planId, version, published), freshId, otherId)
    ensures var e := Start(pid, PlanCall(cfg.applicant, planId, version, published), freshId, otherId);
            var key, db := PlanKey(planId, Trim(version)), w.db;
            if planId == 0 || Blank(version) then Answered(cfg, w, e, ArgumentRejected)
            else if db.plan.Some? then Answered(cfg, w, e, if db.plan.value == key then AlreadySelected else Conflict)
            else if db.status != PlanSelectionPending then Answered(cfg, w, e, InvalidState)
            else if key !in cfg.catalogue then Answered(cfg, w, e, PlanMissing)
            else if !published || cfg.catalogue[key].termMonths != 12 then Answered(cfg, w, e, PlanUnavailable)
            else
              && Step(cfg, w, e) == w.(db := db.(plan := Some(key), status := PropertyContractPending,
                                                 log := db.log + [Edge(PlanSelectionPending, PropertyContractPending)]))
              && Told(cfg, w, e) == Some(Selected)
  {
    hide DbInv, Reachable, StartWaits, Trim;
    ReachableInv(cfg, w);
    BegunStep(cfg, w, pid, PlanCall(cfg.applicant, planId, version, published), freshId, otherId);
    ChosenPlan(cfg, w.received, w.db);
    assert w.procs - {pid} == w.procs;
  }

  lemma ChosenPlan(cfg: Config, received: set<Evidence>, db: Db)
    requires DbInv(cfg, received, db)
    ensures db.plan.Some? ==> db.plan.value in cfg.catalogue && db.status != PlanSelectionPending
  {
    hide ContractInv, TermsInv, AssessmentInv, ApprovalInv, AllocationInv, FreezeInv, ContributionInv, LeaseInv,
         CreditPath;
  }

  /** An identity check is asked for until it has a verdict. */
  lemma IdentityCallDecides(cfg: Config, w: World, pid: nat, freshId: Guid, otherId: Guid)
    requires Begun(w, pid, IdentityCall, freshId, otherId)
    ensures var e, db := Start(pid, IdentityCall, freshId, otherId), w.db;
            if db.identity.Some? && (db.identity.value.status == Verified
                                     || db.identity.value.status == DocumentsNeeded)
            then Answered(cfg, w, e, AlreadyProcessed)
            else if db.status != IdentityPending then Answered(cfg, w, e, InvalidState)
            else
              var row := if db.identity.Some? then db.identity.value else IdentityRow(freshId, IdentityWaiting);
              GoesOn(cfg, w, e, db.(identity := Some(row)), IdentityAsking(row.id))
  {
    hide StartWaits;
    BegunStep(cfg, w, pid, IdentityCall, freshId, otherId);
  }

  // ---- strangers ----

  /** Whoever is not the applicant is told that there is no such application, and nothing changes. */
  lemma StrangersFindNothing(cfg: Config, w: World, pid: nat, call: Call, freshId: Guid, otherId: Guid)
    requires Begun(w, pid, call, freshId, otherId)
    requires call.SubmitCall? || call.ContractCall? || call.GradeCall? || call.BankCall?
    requires call.user != cfg.applicant
    ensures Answered(cfg, w, Start(pid, call, freshId, otherId), NotFound)
  {
    hide StartWaits, TrustedDeposit, MatchesTrustedSnapshot, AllocationMatches;
    BegunStep(cfg, w, pid, call, freshId, otherId);
  }
}
