/** Non-vacuity of the safety theorems: cooperative answers lead from a draft all the way to an active lease. */
module FundingFullRun {
  import opened Texts
  import opened Columns
  import opened Rial
  import opened Workflows
  import opened FundingRows
  import opened Intake
  import opened Registration
  import opened Eligibility
  import opened BankFunding
  import opened LeaseFunding
  import opened FundingInvariant
  import opened FundingSteps
  import opened MoneySteps
  import opened LeaseSteps
  import opened FundingProtocol
  import opened FundingRefusals
  import opened FundingTheorems
  import opened FundingProgress
  import opened FundingCompletion
  import opened AdvanceRuns

  lemma RunReaches(cfg: Config, w: World, events: seq<Event>)
    requires Reachable(cfg, w)
    ensures Reachable(cfg, Run(cfg, w, events))
  {
    hide Step, Run;
    var before: seq<Event> :| Run(cfg, INITIAL, before) == w;
    RunAppend(cfg, INITIAL, before, events);
    assert Run(cfg, INITIAL, before + events) == Run(cfg, w, events);
  }

  lemma StepReaches(cfg: Config, w: World, e: Event)
    requires Reachable(cfg, w)
    ensures Reachable(cfg, Step(cfg, w, e))
  {
    hide Step, Reachable;
    RunStep(cfg, w, e, []);
    RunReaches(cfg, w, [e]);
    assert [e] + [] == [e];
  }

  /** Events of one call leave every other call in flight as it was. */
  lemma {:induction false} OthersStay(cfg: Config, w: World, events: seq<Event>, pid: nat)
    requires forall e :: e in events ==> e.pid == pid
    ensures Run(cfg, w, events).procs - {pid} == w.procs - {pid}
    decreases |events|
  {
    hide Step;
    if events != [] {
      assert events[0] in events;
      OneStepStays(cfg, w, events[0]);
      OthersStay(cfg, Step(cfg, w, events[0]), events[1..], pid);
    }
  }

  lemma InitialReachable(cfg: Config)
    ensures Reachable(cfg, INITIAL)
  {
    hide Step;
    assert Run(cfg, INITIAL, []) == INITIAL;
  }

  /** Submission, identity and plan selection of a fresh application. */
  lemma IntakeRun(cfg: Config, key: PlanKey, id: Guid) returns (w: World)
    requires key in cfg.catalogue && cfg.catalogue[key].termMonths == TERM_MONTHS
    requires key.planId != 0 && !Blank(key.version) && Trim(key.version) == key.version && id != 0
    ensures Reachable(cfg, w) && w.procs == map[]
    ensures w.db.status == PropertyContractPending && w.db.plan == Some(key)
    ensures w.db.contract.None? && w.db.terms.None? && w.faults == {}
  {
    hide Trim, Reachable;
    EmptyIsBlank();
    InitialReachable(cfg);
    var submit := Start(0, SubmitCall(cfg.applicant), id, id);
    StepReaches(cfg, INITIAL, submit);
    var w1 := Step(cfg, INITIAL, submit);
    assert w1.db.status == IdentityPending && w1.procs == map[] && w1.db.identity.None?;
    StepReaches(cfg, w1, Start(0, IdentityCall, id, id));
    var w2 := Step(cfg, w1, Start(0, IdentityCall, id, id));
    assert w2.procs == map[0 := IdentityAsking(id)] && w2.db.status == IdentityPending;
    StepReaches(cfg, w2, Resume(0, IdentitySaid(VERIFIED), id));
    var w3 := Step(cfg, w2, Resume(0, IdentitySaid(VERIFIED), id));
    assert w3.procs == map[] && w3.db.status == PlanSelectionPending && w3.db.plan.None?;
    var choose := Start(0, PlanCall(cfg.applicant, key.planId, key.version, true), id, id);
    StepReaches(cfg, w3, choose);
    w := Step(cfg, w3, choose);
  }

  const VERIFIED := IdentityResponse(Verified, "", None, None)

  function Graded(grade: string): Answer {
    GradeSaid(GradeResponse(GradeValid, "", Some(grade), None, None))
  }

  /** Names of grades are short. */
  lemma GradeFits(grade: string)
    requires LoanRatio(grade).Some? && Trim(grade) == grade
    ensures GradeTextsFit(GradeResponse(GradeValid, "", Some(grade), None, None))
  {
  }

  /** A usable grade, asked for once, decides an application waiting for its external checks. */
  lemma GradeRun(cfg: Config, w: World, grade: string, id: Guid) returns (v: World)
    requires ValidConfig(cfg) && Reachable(cfg, w) && id != 0 && 0 !in w.procs
    requires w.db.status == ExternalChecksPending && LoanRatio(grade).Some? && Trim(grade) == grade && grade != ""
    ensures Reachable(cfg, v) && 0 !in v.procs && v.procs - {0} == w.procs - {0} && v.db.status == DecisionReady
    ensures v.faults == w.faults
    ensures w.db.terms.Some? && v.db.terms == w.db.terms && v.db.assessment.Some?
    ensures v.db.assessment.value.full == w.db.terms.value.full
    ensures v.db.assessment.value.maxLoan == Some(MaximumLoan(w.db.terms.value.full, LoanRatio(grade).value))
  {
    hide WorldInv, DbInv, Step, Reachable, GradeStart, GradeAnswer;
    ReachableInv(cfg, w);
    var ask, said := Start(0, GradeCall(cfg.applicant), id, id), Resume(0, Graded(grade), id);
    var w1 := Step(cfg, w, ask);
    StepReaches(cfg, w, ask);
    GradeAsked(cfg, w, id);
    StepReaches(cfg, w1, said);
    ReachableInv(cfg, w1);
    v := Step(cfg, w1, said);
    GradeGiven(cfg, w1, grade, id);
    OneStepStays(cfg, w, ask);
    OneStepStays(cfg, w1, said);
  }

  lemma GradeAsked(cfg: Config, w: World, id: Guid)
    requires ValidConfig(cfg) && WorldInv(cfg, w) && id != 0 && 0 !in w.procs
    requires w.db.status == ExternalChecksPending
    ensures w.db.terms.Some?
    ensures var v := Step(cfg, w, Start(0, GradeCall(cfg.applicant), id, id));
            && 0 in v.procs && v.procs[0].GradeAsking? && v.db.status == ExternalChecksPending
            && v.db.terms == w.db.terms && v.faults == w.faults
  {
    hide Trim, FullDeposit, MaximumLoan, LoanRatio, ValidMonths, CreditPath, LeasePath, ValidEvidence, FrozenEvidence;
  }

  lemma GradeGiven(cfg: Config, w: World, grade: string, id: Guid)
    requires ValidConfig(cfg) && WorldInv(cfg, w) && id != 0
    requires 0 in w.procs && w.procs[0].GradeAsking? && w.db.status == ExternalChecksPending
    requires LoanRatio(grade).Some? && Trim(grade) == grade && grade != ""
    ensures w.db.terms.Some?
    ensures var v := Step(cfg, w, Resume(0, Graded(grade), id));
            && 0 !in v.procs && v.db.status == DecisionReady && v.db.terms == w.db.terms && v.db.assessment.Some?
            && v.db.assessment.value.full == w.db.terms.value.full
            && v.db.assessment.value.maxLoan == Some(MaximumLoan(w.db.terms.value.full, LoanRatio(grade).value))
            && v.faults == w.faults
  {
    hide Trim, FullDeposit, MaximumLoan, LoanRatio, ValidMonths, CreditPath, LeasePath, ValidEvidence, FrozenEvidence,
         GradeTextsFit;
    GradeFits(grade);
    assert ProcInv(cfg, w.received, w.db, w.procs[0]);
  }

  /** Once the principal is frozen, a confirmed tenant transfer (when one is due) and one advance activate the lease. */
  lemma TenantRun(cfg: Config, w: World, id: Guid) returns (v: World)
    requires ValidConfig(cfg) && Reachable(cfg, w) && id != 0 && 0 !in w.procs && w.db.status == ApprovedFunded
    requires !LeaseHeld(w.procs)
    ensures Reachable(cfg, v) && FullyFunded(v.db) && v.db.allocation == w.db.allocation
    ensures v.db.contract == w.db.contract
    ensures 0 !in v.procs && v.procs - {0} == w.procs - {0}
  {
    hide WorldInv, DbInv, Step, Reachable, LeaseHeld;
    ReachableInv(cfg, w);
    FundedRows(cfg, w);
    NobodyAtAll(w.procs, 0);
    if w.db.allocation.value.contribution == 0.0 || w.db.contribution.Some? {
      v := w;
    } else {
      var al := w.db.allocation.value;
      var ask := Start(0, ContributionCall, id, id);
      var said := Resume(0, ContributionSaid(Paid(al.contribution)), id);
      StepReaches(cfg, w, ask);
      var w1 := Step(cfg, w, ask);
      ContributionAsked(cfg, w, id);
      ReachableInv(cfg, w1);
      StepReaches(cfg, w1, said);
      v := Step(cfg, w1, said);
      OneStepStays(cfg, w, ask);
      NobodyElse(w1.procs, 0);
      ContributionGiven(cfg, w1, id);
      OneStepStays(cfg, w1, said);
    }
  }

  lemma FundedRows(cfg: Config, w: World)
    requires ValidConfig(cfg) && WorldInv(cfg, w) && w.db.status == ApprovedFunded
    ensures w.db.allocation.Some? && w.db.contract.Some? && w.db.allocation.value.contribution >= 0.0
    ensures w.db.contract.value.id == w.db.allocation.value.contractId
    ensures PrincipalMatches(w.db, w.db.allocation.value, w.db.contract.value.id)
  {
    hide Trim, TermsOf, FullDeposit, MaximumLoan, LoanRatio, ValidMonths, CreditPath, LeasePath, ValidEvidence,
         TrustedTerms;
  }

  lemma ContributionAsked(cfg: Config, w: World, id: Guid)
    requires ValidConfig(cfg) && WorldInv(cfg, w) && id != 0 && 0 !in w.procs && w.db.status == ApprovedFunded
    requires w.db.contribution.None?
    requires w.db.allocation.Some? && w.db.allocation.value.contribution > 0.0
    ensures var v := Step(cfg, w, Start(0, ContributionCall, id, id));
            && 0 in v.procs && v.procs[0].ContributionAsking? && v.db.contribution.None?
            && v.db.status == ApprovedFunded && v.db.allocation == w.db.allocation && v.db.contract == w.db.contract
  {
    hide Trim, TermsOf, FullDeposit, MaximumLoan, LoanRatio, ValidMonths, CreditPath, LeasePath, ValidEvidence,
         TrustedTerms, FrozenEvidence, PrincipalMatches;
    FundedRows(cfg, w);
  }

  lemma ContributionGiven(cfg: Config, w: World, id: Guid)
    requires ValidConfig(cfg) && WorldInv(cfg, w) && id != 0
    requires 0 in w.procs && w.procs[0].ContributionAsking? && w.db.contribution.None? && !LeaseHeld(w.procs)
    requires w.db.allocation.Some? && w.db.status == ApprovedFunded
    ensures var v := Step(cfg, w, Resume(0, ContributionSaid(Paid(w.db.allocation.value.contribution)), id));
            FullyFunded(v.db) && 0 !in v.procs && v.db.allocation == w.db.allocation && v.db.contract == w.db.contract
  {
    hide TermsOf, FullDeposit, MaximumLoan, LoanRatio, ValidMonths, CreditPath, LeasePath, ValidEvidence,
         TrustedTerms, FrozenEvidence, DbInv, PrincipalMatches, Trim, LeaseHeld, Refers;
    var p := w.procs[0];
    assert ProcInv(cfg, w.received, w.db, p);
    PaidFits(p.allocation.contribution);
    ContributionConfirmedSafe(cfg, w.received, w.db, p.contractId, p.allocation, p.fundingId, p.transferId,
                              Paid(p.allocation.contribution));
  }

  function Paid(amount: real): ContributionResponse {
    ContributionResponse(ContributionConfirmed, "", Some(amount), Some("fund"), None, None)
  }

  lemma PaidFits(amount: real)
    ensures ConfirmsContribution(Paid(amount), amount) && ContributionTextsFit(Paid(amount))
    ensures Fits(Trim("fund"), REFERENCE_LENGTH)
  {
    assert !IsSpace("fund"[0]) && !IsSpace("fund"[3]);
    assert Trim("fund") == "fund";
  }

  lemma ActivationRun(cfg: Config, w: World, id: Guid) returns (v: World)
    requires ValidConfig(cfg) && Reachable(cfg, w) && id != 0 && w.procs == map[]
    requires FullyFunded(w.db)
    ensures Reachable(cfg, v) && v.db.contract.Some? && v.db.contract.value.status == Active
    ensures v.db.allocation == w.db.allocation
  {
    hide DbInv, Reachable, Climb, Run, AdvanceEvents, AdvanceNext, SeenAtOnce;
    ReachableInv(cfg, w);
    FundedRows(cfg, w);
    LeaseIsOpenOrActive(cfg, w);
    if w.db.contract.value.status == Active {
      v := w;
    } else {
      AdvanceAlone(cfg, w, 0, id);
      FundedMeansPaid(cfg, w);
      RunReaches(cfg, w, AdvanceEvents(0, id));
      v := Run(cfg, w, AdvanceEvents(0, id));
    }
  }

  lemma FundedMeansPaid(cfg: Config, w: World)
    requires WorldInv(cfg, w) && FullyFunded(w.db)
    ensures !TenantTransferFailed(w.db)
  {
    hide Trim, TermsOf, FullDeposit, MaximumLoan, LoanRatio, ValidMonths, CreditPath, LeasePath, ValidEvidence,
         TrustedTerms;
  }

  lemma LeaseIsOpenOrActive(cfg: Config, w: World)
    requires WorldInv(cfg, w) && w.db.contract.Some?
    ensures Open(w.db.contract.value.status) || w.db.contract.value.status == Active
  {
    hide Trim, TermsOf, FullDeposit, MaximumLoan, LoanRatio, ValidMonths, CreditPath, LeasePath, ValidEvidence,
         TrustedTerms;
  }

  /** A plan of the catalogue, storable evidence and a grade of the policy. */
  predicate Ordinary(cfg: Config, key: PlanKey, r: EvidenceResponse, grade: string) {
    && key in cfg.catalogue && cfg.catalogue[key].termMonths == TERM_MONTHS
    && key.planId != 0 && Trim(key.version) == key.version
    && ValidateEvidence(cfg, r).Some? && Storable(ValidateEvidence(cfg, r).value)
    && EvidenceTextsFit(r.(reason := None))
    && LoanRatio(grade).Some? && Trim(grade) == grade && grade != ""
  }

  /** A whole positive loan up to the ceiling of this deposit and grade. */
  predicate WithinCeiling(cfg: Config, r: EvidenceResponse, grade: string, loan: real)
    requires ValidateEvidence(cfg, r).Some? && LoanRatio(grade).Some?
  {
    && 0.0 < loan <= MaximumLoan(FullDeposit(r.cash.value, r.rent.value), LoanRatio(grade).value)
    && Whole(loan)
  }

  /** Submission, identity, plan, registration and grade in a row. */
  lemma DecidedRun(cfg: Config, key: PlanKey, r: EvidenceResponse, grade: string) returns (w: World)
    requires ValidConfig(cfg) && Ordinary(cfg, key, r, grade)
    ensures Reachable(cfg, w) && w.procs == map[] && w.faults == {} && w.db.status == DecisionReady
    ensures w.db.assessment.Some?
    ensures w.db.assessment.value.maxLoan ==
            Some(MaximumLoan(FullDeposit(r.cash.value, r.rent.value), LoanRatio(grade).value))
  {
    hide WorldInv, DbInv, Step, Run, Reachable, MaximumLoan, LoanRatio, FullDeposit, Trim, TermsOf, ValidEvidence,
         RegistrationEvents, Storable, EvidenceTextsFit;
    var w1 := IntakeRun(cfg, key, 1);
    ReachableInv(cfg, w1);
    ReconcileRegistersIff(cfg, w1, 0, r, true, 1);
    var w2 := Run(cfg, w1, RegistrationEvents(0, cfg.applicant, r, true, 1));
    RunReaches(cfg, w1, RegistrationEvents(0, cfg.applicant, r, true, 1));
    TermsKeepAmounts(cfg, r, w2.db.contract.value.id);
    w := GradeRun(cfg, w2, grade, 1);
    RegistrationIsOneCall(cfg.applicant, r);
    OthersStay(cfg, w1, RegistrationEvents(0, cfg.applicant, r, true, 1), 0);
    assert w.procs == w.procs - {0} == w1.procs - {0} == map[];
  }

  lemma RegistrationIsOneCall(user: Guid, r: EvidenceResponse)
    ensures forall e :: e in RegistrationEvents(0, user, r, true, 1) ==> e.pid == 0
  {
  }

  lemma BankIsOneCall(user: Guid, bank: BankResponse, freeze: FreezeResponse)
    ensures forall e :: e in BankEvents(0, user, bank, freeze, 1) ==> e.pid == 0
  {
  }

  /** Before any money moved the lease is a draft and no transfer is under way. */
  lemma NothingMovedYet(cfg: Config, w: World)
    requires WorldInv(cfg, w) && w.db.status == DecisionReady
    ensures w.db.allocation.None? && w.db.transfer.None?
    ensures w.db.contract.Some? && w.db.contract.value.status == LeaseDraft
  {
    hide TermsInv, CreditPath, LeasePath, FrozenEvidence;
  }

  function Granted(loan: real, reference: string): BankResponse {
    BankResponse(Approved, "", Some(loan), Some(reference), None)
  }

  function Frozen(reference: string): FreezeResponse {
    FreezeResponse(FreezeConfirmed, "", Some(reference), Some(reference), None)
  }

  lemma AnswersFit(loan: real, reference: string, a: AssessmentRow)
    requires !Blank(reference) && Fits(reference, REFERENCE_LENGTH) && AcceptableLoan(Some(loan), a)
    ensures GoodApproval(Granted(loan, reference), a) && GoodFreeze(Frozen(reference))
  {
    hide Trim, Fits;
    FitsTrimmed(reference, REFERENCE_LENGTH);
    NothingFits();
  }

  lemma NothingFits()
    ensures Fits(Trim(""), PROVIDER_LENGTH)
  {
  }

  /** Bank and fund cooperate; the fund names the principal by this reference. */
  lemma FundedRun(cfg: Config, key: PlanKey, r: EvidenceResponse, grade: string, loan: real, reference: string)
    returns (w: World)
    requires ValidConfig(cfg) && Ordinary(cfg, key, r, grade) && WithinCeiling(cfg, r, grade, loan)
    requires !Blank(reference) && Fits(reference, REFERENCE_LENGTH)
    ensures Reachable(cfg, w) && w.procs == map[] && w.faults == {} && w.db.status == ApprovedFunded
    ensures w.db.allocation.Some? && w.db.allocation.value.loan == loan
    ensures w.db.contract.Some? && w.db.contract.value.status == LeaseDraft && w.db.transfer.None?
    ensures w.db.freeze.Some?
            && w.db.freeze.value.fundReference == KeptOption(Some(reference), REFERENCE_LENGTH)
  {
    hide WorldInv, DbInv, Step, Run, Reachable, MaximumLoan, LoanRatio, FullDeposit, Trim, ValidEvidence, BankEvents,
         Whole, Ordinary, Fits, Kept, Resumable, GoodApproval, GoodFreeze, AcceptableLoan;
    var w3 := DecidedRun(cfg, key, r, grade);
    ReachableInv(cfg, w3);
    LoanIsAcceptable(cfg, w3, loan);
    NothingMovedYet(cfg, w3);
    AnswersFit(loan, reference, w3.db.assessment.value);
    var bank, freeze := Granted(loan, reference), Frozen(reference);
    BankCallFunds(cfg, w3, 0, bank, freeze, 1);
    w := Run(cfg, w3, BankEvents(0, cfg.applicant, bank, freeze, 1));
    RunReaches(cfg, w3, BankEvents(0, cfg.applicant, bank, freeze, 1));
    BankIsOneCall(cfg.applicant, bank, freeze);
    OthersStay(cfg, w3, BankEvents(0, cfg.applicant, bank, freeze, 1), 0);
    assert w.procs == w.procs - {0} == w3.procs - {0} == map[];
  }

  /** For every plan of the catalogue, every storable evidence, every grade of the policy and every whole positive loan
      up to that grade's ceiling, some run makes a lease active with exactly this loan. */
  lemma EveryCeilingLoanIsReachable(cfg: Config, key: PlanKey, r: EvidenceResponse, grade: string, loan: real,
                                    reference: string)
    returns (w: World)
    requires ValidConfig(cfg) && Ordinary(cfg, key, r, grade) && WithinCeiling(cfg, r, grade, loan)
    requires !Blank(reference) && Fits(reference, REFERENCE_LENGTH)
    ensures Reachable(cfg, w) && w.db.contract.Some? && w.db.contract.value.status == Active
    ensures w.db.allocation.Some? && w.db.allocation.value.loan == loan
  {
    hide Ordinary, WithinCeiling, Reachable, Fits, Trim, FullyFunded;
    var funded := FundedRun(cfg, key, r, grade, loan, reference);
    var paid := TenantRun(cfg, funded, 1);
    assert paid.procs == paid.procs - {0} == funded.procs - {0} == map[];
    w := ActivationRun(cfg, paid, 1);
  }

  /** The reconciliation worker has a real blind spot: for each of these runs there is one that crashes right after
      the bank's answer is committed, and leaves an allocation waiting for its freeze that the worker never selects. */
  lemma CrashLeavesUnselected(cfg: Config, key: PlanKey, r: EvidenceResponse, grade: string, loan: real,
                              reference: string)
    returns (w: World)
    requires ValidConfig(cfg) && Ordinary(cfg, key, r, grade) && WithinCeiling(cfg, r, grade, loan)
    requires !Blank(reference) && Fits(reference, REFERENCE_LENGTH)
    ensures Reachable(cfg, w) && w.procs == map[]
    ensures w.db.status == FundingPending && w.db.allocation.Some? && w.db.allocation.value.loan == loan
    ensures !WorkerSelects(cfg, w.db)
  {
    hide WorldInv, DbInv, Run, Reachable, MaximumLoan, LoanRatio, FullDeposit, Trim, TermsOf, ValidEvidence, Begin,
         Proceed, RegistrationEvents, Whole, WorkerSelects, Ordinary, Fits, GoodApproval, AcceptableLoan;
    var w3 := DecidedRun(cfg, key, r, grade);
    ReachableInv(cfg, w3);
    LoanIsAcceptable(cfg, w3, loan);
    AnswersFit(loan, reference, w3.db.assessment.value);
    var ask, said := Start(0, BankCall(cfg.applicant), 1, 1), Resume(0, BankSaid(Granted(loan, reference)), 1);
    StepReaches(cfg, w3, ask);
    BankStartStage(cfg, w3, 0, 1);
    var w4 := Step(cfg, w3, ask);
    StepReaches(cfg, w4, said);
    BankAnswerStage(cfg, w4, 0, Granted(loan, reference), 1);
    NoFreezeYet(cfg, w4, 0, Granted(loan, reference), 1);
    var w5 := Step(cfg, w4, said);
    StepReaches(cfg, w5, Crash(0));
    w := Step(cfg, w5, Crash(0));
    WorkerSelectsExactly(cfg, w);
  }

  lemma NoFreezeYet(cfg: Config, w: World, pid: nat, bank: BankResponse, id: Guid)
    requires WorldInv(cfg, w) && w.db.allocation.None? && id != 0
    requires pid in w.procs && w.procs[pid].BankAsking?
    ensures Step(cfg, w, Resume(pid, BankSaid(bank), id)).db.freeze.None?
  {
    hide Trim, TermsOf, FullDeposit, MaximumLoan, LoanRatio, ValidMonths, CreditPath, LeasePath, ValidEvidence,
         TrustedTerms, AcceptableLoan;
  }

  lemma TermsKeepAmounts(cfg: Config, r: EvidenceResponse, contractId: Guid)
    requires ValidateEvidence(cfg, r).Some?
    ensures TermsOf(contractId, ValidateEvidence(cfg, r).value).full == FullDeposit(r.cash.value, r.rent.value)
  {
    hide Trim, ByNumber, FullDeposit;
  }

  /** In DecisionReady nothing is allocated, and a whole positive amount up to the ceiling passes the bank checks. */
  lemma LoanIsAcceptable(cfg: Config, w: World, loan: real)
    requires ValidConfig(cfg) && WorldInv(cfg, w) && w.db.status == DecisionReady
    requires w.db.assessment.Some? && w.db.assessment.value.maxLoan.Some?
    requires 0.0 < loan <= w.db.assessment.value.maxLoan.value && Whole(loan)
    ensures w.db.allocation.None? && Resumable(w.db) && AcceptableLoan(Some(loan), w.db.assessment.value)
  {
    hide Trim, TermsOf, FullDeposit, LoanRatio, ValidMonths, CreditPath, LeasePath, ValidEvidence, FrozenEvidence,
         MaximumLoan;
    DecisionMatchesSnapshot(cfg, w.received, w.db);
    MaximumLoanBounds(w.db.assessment.value.full, w.db.assessment.value.subGrade.value);
  }
}
