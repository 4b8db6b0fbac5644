/** Where the protocol falls short, by runs that exist: each failure at inputs that are written out. */
module FundingFailures {
  import opened Texts
  import opened Columns
  import opened Rial
  import opened Workflows
  import opened FundingRows
  import opened Registration
  import opened Eligibility
  import opened BankFunding
  import opened LeaseFunding
  import opened FundingInvariant
  import opened MoneySteps
  import opened LeaseSteps
  import opened FundingProtocol
  import opened FundingRefusals
  import opened FundingTheorems
  import opened FundingProgress
  import opened FundingCompletion
  import opened AdvanceRuns
  import opened FundingFullRun
  import opened WorkerTurns
  import opened BankTurns
  import opened LeaseTurns

  // ---- sample inputs ----

  const KEY := PlanKey(1, "v1")
  const GRADE := "A1"
  const MONTH_TICKS := 25920000000000

  const SAMPLE := Config(1, map[KEY := PlanRow("bank", TERM_MONTHS)], 9378, (year: int, month: int) => 29,
                         "registry", "fund")

  /** Twelve months thirty days apart, this many ticks after a whole microsecond. */
  function SampleMonths(fraction: nat): (months: seq<Month>)
    ensures |months| == TERM_MONTHS
    ensures forall i :: 0 <= i < TERM_MONTHS ==> months[i] == Month(i + 1, MONTH_TICKS * i + fraction, 1.0, 0.0)
  {
    seq(TERM_MONTHS, i => Month(i + 1, MONTH_TICKS * i + fraction, 1.0, 0.0))
  }

  /** A confirmed contract without rent. */
  function Deed(cash: real, fraction: nat): EvidenceResponse {
    EvidenceResponse(EvidenceConfirmed, "", Some(2), Some(3), Some(PersianDate(1405, 1, 1)), Some(cash), Some(0.0),
                     Some("owner"), Some("lender"), Some(SampleMonths(fraction)), true, Some("deed"), None)
  }

  function DeedEvidence(cash: real, fraction: nat): Evidence {
    Evidence(2, 3, PersianDate(1405, 1, 1), cash, 0.0, "owner", "lender", "deed", SampleMonths(fraction), true)
  }

  lemma SampleMonthsAreValid(fraction: nat)
    requires fraction < 10
    ensures ByNumber(SampleMonths(fraction)) == SampleMonths(fraction)
    ensures ValidMonths(SampleMonths(fraction)) && TimesDiffer(SampleMonths(fraction))
  {
    var months := SampleMonths(fraction);
    SortedStays(months, 1);
    forall i | 0 <= i < TERM_MONTHS ensures ValidMonth(months, i) {
      WholeNumbers();
    }
    forall i | 0 < i < TERM_MONTHS ensures KeptTime(months[i - 1].dueAt) != KeptTime(months[i].dueAt) {
      assert months[i].dueAt == months[i - 1].dueAt + MONTH_TICKS;
    }
  }

  lemma WholeNumbers()
    ensures Whole(0.0) && Whole(1.0)
  {
  }

  lemma NoRent(cash: real)
    requires WholeNonNegative(cash)
    ensures FullDeposit(cash, 0.0) == cash
  {
  }

  lemma SampleTexts()
    ensures Trim("v1") == "v1" && !Blank("v1") && !Blank("bank") && !Blank("fund")
    ensures Trim("owner") == "owner" && Trim("lender") == "lender" && Trim("deed") == "deed" && Trim("A1") == "A1"
    ensures !Blank("owner") && !Blank("lender") && !Blank("deed") && Blank("")
  {
    hide Trim;
    VisibleEnds("v1");
    VisibleEnds("bank");
    VisibleEnds("fund");
    VisibleEnds("owner");
    VisibleEnds("lender");
    VisibleEnds("deed");
    VisibleEnds("A1");
    EmptyIsBlank();
  }

  /** The sample inputs are ones every run below starts from. */
  lemma SampleIsOrdinary(cash: real, fraction: nat)
    requires WholeNonNegative(cash) && cash > 0.0 && fraction < 10
    ensures ValidConfig(SAMPLE) && Ordinary(SAMPLE, KEY, Deed(cash, fraction), GRADE)
    ensures ValidateEvidence(SAMPLE, Deed(cash, fraction)) == Some(DeedEvidence(cash, fraction))
    ensures LoanRatio(GRADE) == Some(0.55) && FullDeposit(cash, 0.0) == cash
  {
    hide Trim, FullDeposit, ValidMonths, ByNumber, TimesDiffer;
    SampleTexts();
    SampleMonthsAreValid(fraction);
    WholeNumbers();
    NoRent(cash);
  }

  // ---- a ceiling below one rial ----

  /** A deposit whose ceiling rounds down to nothing gets its decision, and every request to the bank is refused. */
  lemma ZeroCeilingIsStuck(cfg: Config, key: PlanKey, r: EvidenceResponse, grade: string) returns (w: World)
    requires ValidConfig(cfg) && Ordinary(cfg, key, r, grade)
    requires MaximumLoan(FullDeposit(r.cash.value, r.rent.value), LoanRatio(grade).value) == 0.0
    ensures Reachable(cfg, w) && w.procs == map[] && w.db.status == DecisionReady
    ensures forall freshId :: BankStart(cfg, w.db, cfg.applicant, freshId) == Reject(InvalidState)
  {
    hide WorldInv, Reachable, Ordinary, LoanRatio, FullDeposit, MaximumLoan, Trim, BankStart, ExactCeiling,
         SoundDecision;
    w := DecidedRun(cfg, key, r, grade);
    ReachableInv(cfg, w);
    Decides(cfg, w);
    forall freshId ensures BankStart(cfg, w.db, cfg.applicant, freshId) == Reject(InvalidState) {
      BankStartsUnlessCeilingIsZero(cfg, w, freshId);
      CeilingIsPositive(w.db.assessment.value);
    }
  }

  lemma Decides(cfg: Config, w: World)
    requires WorldInv(cfg, w) && w.db.status == DecisionReady
    ensures HasDecision(w.db) && w.db.assessment.value.full >= 0.0
  {
    hide TermsOf, ValidEvidence, ValidMonths, FullDeposit, Whole, CreditPath, LeasePath, FrozenEvidence;
  }

  /** One rial of deposit, no rent, the best grade. */
  lemma OneRialIsStuck() returns (w: World)
    ensures Reachable(SAMPLE, w) && w.db.status == DecisionReady
    ensures forall freshId :: BankStart(SAMPLE, w.db, SAMPLE.applicant, freshId) == Reject(InvalidState)
  {
    hide Reachable, Ordinary, Trim, FullDeposit, LoanRatio, BankStart, ValidConfig;
    SampleIsOrdinary(1.0, 0);
    FloorIs(0.55, 0);
    w := ZeroCeilingIsStuck(SAMPLE, KEY, Deed(1.0, 0), GRADE);
  }

  // ---- answers that are lost ----

  /** A bank answer the database refuses whatever was asked. */
  predicate AlwaysRefused(r: BankResponse, fault: Fault) {
    var trimmed := NormalizeOptional(r.reference);
    || (&& fault == CheckConstraint && r.status == Declined && trimmed.Some? && BankTextsFit(r, trimmed)
        && r.approvedLoan.Some? && r.approvedLoan.value < 0.0)
    || (fault == TextTooLong && !BankTextsFit(r, trimmed) && !BankTextsFit(r, r.reference))
  }

  lemma RefusedThrows(cfg: Config, received: set<Evidence>, db: Db, cap: BankCapture, r: BankResponse, fault: Fault)
    requires DbInv(cfg, received, db) && ProcInv(cfg, received, db, BankAsking(cap))
    requires db.status == BankApprovalPending && AlwaysRefused(r, fault)
    ensures BankAnswer(db, cap, r, 1) == Throw(fault)
  {
    hide DbInv, Trim, BankTextsFit;
    PendingHasNoAllocation(cfg, received, db);
  }

  /** Such an answer leaves no trace but the exception: the application goes on waiting for the bank. */
  lemma RefusedAnswerIsLost(cfg: Config, key: PlanKey, r: EvidenceResponse, grade: string, bank: BankResponse,
                            fault: Fault)
    returns (w: World)
    requires ValidConfig(cfg) && Ordinary(cfg, key, r, grade) && AlwaysRefused(bank, fault)
    requires MaximumLoan(FullDeposit(r.cash.value, r.rent.value), LoanRatio(grade).value) > 0.0
    ensures Reachable(cfg, w) && w.procs == map[] && w.faults == {fault} && w.db.status == BankApprovalPending
  {
    hide WorldInv, DbInv, ProcInv, Reachable, Ordinary, LoanRatio, FullDeposit, MaximumLoan, Trim, BankStart,
         BankAnswer, AlwaysRefused, Begin;
    var w1 := DecidedRun(cfg, key, r, grade);
    ReachableInv(cfg, w1);
    CanAskBank(cfg, w1);
    var ask, said := Start(0, BankCall(cfg.applicant), 1, 1), Resume(0, BankSaid(bank), 1);
    StepReaches(cfg, w1, ask);
    BankStartStage(cfg, w1, 0, 1);
    OneStepStays(cfg, w1, ask);
    var w2 := Step(cfg, w1, ask);
    StepReaches(cfg, w2, said);
    OneStepStays(cfg, w2, said);
    RefusedStage(cfg, w2, bank, fault);
    w := Step(cfg, w2, said);
    assert w.procs == w.procs - {0} == w2.procs - {0} == w1.procs - {0} == map[];
  }

  lemma CanAskBank(cfg: Config, w: World)
    requires WorldInv(cfg, w) && w.db.status == DecisionReady
    requires w.db.assessment.Some? && w.db.assessment.value.maxLoan.Some? && w.db.assessment.value.maxLoan.value > 0.0
    ensures Resumable(w.db) && w.db.allocation.None?
  {
    hide WorldInv, Resumable;
    NothingMovedYet(cfg, w);
    Usable(cfg, w);
  }

  lemma Usable(cfg: Config, w: World)
    requires WorldInv(cfg, w) && w.db.status == DecisionReady
    requires w.db.assessment.Some? && w.db.assessment.value.maxLoan.Some? && w.db.assessment.value.maxLoan.value > 0.0
    ensures Resumable(w.db)
  {
    hide TermsOf, CreditPath, LeasePath, FrozenEvidence, LoanRatio, MaximumLoan, ValidMonths;
  }

  lemma RefusedStage(cfg: Config, w: World, bank: BankResponse, fault: Fault)
    requires WorldInv(cfg, w) && 0 in w.procs && w.procs[0].BankAsking?
    requires w.db.status == BankApprovalPending && AlwaysRefused(bank, fault)
    ensures var v := Step(cfg, w, Resume(0, BankSaid(bank), 1));
            v.db == w.db && v.faults == w.faults + {fault} && 0 !in v.procs
  {
    hide DbInv, ProcInv, BankAnswer, AlwaysRefused;
    assert ProcInv(cfg, w.received, w.db, w.procs[0]);
    RefusedThrows(cfg, w.received, w.db, w.procs[0].capture, bank, fault);
  }

  const BAD_DECLINE := BankResponse(Declined, "", Some(-1.0), Some("deed"), None)

  function Long(): (s: string)
    ensures |s| == 257 && forall i :: 0 <= i < 257 ==> s[i] == 'x'
  {
    seq(257, i => 'x')
  }

  function LongReference(loan: real): BankResponse {
    BankResponse(Approved, "", Some(loan), Some(Long()), None)
  }

  lemma BadDeclineIsRefused()
    ensures AlwaysRefused(BAD_DECLINE, CheckConstraint)
  {
    hide Trim;
    SampleTexts();
    assert Trim("") == "" by { EmptyIsBlank(); }
  }

  lemma LongReferenceIsRefused(loan: real)
    ensures AlwaysRefused(LongReference(loan), TextTooLong)
  {
    hide Trim;
    var s := Long();
    VisibleEnds(s);
    assert s[256] != ' ';
  }

  /** A refusal that names minus one rial, for a deposit of a million. */
  lemma BadDeclineIsLost() returns (w: World)
    ensures Reachable(SAMPLE, w) && w.procs == map[] && w.faults == {CheckConstraint}
    ensures w.db.status == BankApprovalPending
  {
    hide Reachable, Ordinary, Trim, FullDeposit, LoanRatio, ValidConfig, AlwaysRefused;
    SampleIsOrdinary(1000000.0, 0);
    BadDeclineIsRefused();
    FloorIs(1000000.0 * 0.55, 550000);
    w := RefusedAnswerIsLost(SAMPLE, KEY, Deed(1000000.0, 0), GRADE, BAD_DECLINE, CheckConstraint);
  }

  /** An approval in order but for a reference of 257 characters. */
  lemma LongReferenceIsLost(loan: real) returns (w: World)
    ensures Reachable(SAMPLE, w) && w.procs == map[] && w.faults == {TextTooLong}
    ensures w.db.status == BankApprovalPending
  {
    hide Reachable, Ordinary, Trim, FullDeposit, LoanRatio, ValidConfig, AlwaysRefused;
    SampleIsOrdinary(1000000.0, 0);
    LongReferenceIsRefused(loan);
    FloorIs(1000000.0 * 0.55, 550000);
    w := RefusedAnswerIsLost(SAMPLE, KEY, Deed(1000000.0, 0), GRADE, LongReference(loan), TextTooLong);
  }

  // ---- a fund reference with a blank ----

  lemma LoanIsPart(cfg: Config, w: World)
    requires WorldInv(cfg, w) && w.db.allocation.Some?
    ensures w.db.allocation.value.contribution > 0.0
  {
    hide Trim, TermsOf, FullDeposit, LoanRatio, MaximumLoan, ValidMonths, CreditPath, LeasePath, ValidEvidence,
         FrozenEvidence;
    var a := w.db.assessment.value;
    MaximumLoanBounds(a.full, a.subGrade.value);
  }

  /** Every loan stays below the deposit, so a tenant transfer is always due; and when the fund names the principal with
      white space around the reference, the worker never asks for it. */
  lemma PaddedReferenceIsUnselected(cfg: Config, key: PlanKey, r: EvidenceResponse, grade: string, loan: real,
                                    reference: string)
    returns (w: World)
    requires ValidConfig(cfg) && Ordinary(cfg, key, r, grade) && WithinCeiling(cfg, r, grade, loan)
    requires !Blank(reference) && |reference| <= REFERENCE_LENGTH && '\0' !in reference && Trim(reference) != reference
    ensures Reachable(cfg, w) && w.procs == map[] && w.db.status == ApprovedFunded
    ensures w.db.allocation.Some? && w.db.allocation.value.contribution > 0.0 && w.db.transfer.None?
    ensures w.db.contract.Some? && w.db.contract.value.status == LeaseDraft
    ensures !TenantWorkerSelects(cfg, w.db)
  {
    hide WorldInv, Reachable, Ordinary, WithinCeiling, Trim, TenantWorkerSelects;
    w := FundedRun(cfg, key, r, grade, loan, reference);
    ReachableInv(cfg, w);
    LoanIsPart(cfg, w);
    TenantWorkerSelectsExactly(cfg, w);
  }

  lemma BlankFund()
    ensures Trim(" fund") == "fund" && !Blank(" fund") && '\0' !in " fund"
  {
    SampleTexts();
    assert TrimStart(" fund") == TrimStart("fund");
  }

  /** The fund answers with " fund". */
  lemma LeadingBlankIsUnselected() returns (w: World)
    ensures Reachable(SAMPLE, w) && w.db.status == ApprovedFunded && w.db.transfer.None?
    ensures w.db.contract.Some? && Open(w.db.contract.value.status) && !TenantWorkerSelects(SAMPLE, w.db)
  {
    hide Reachable, Ordinary, FullDeposit, LoanRatio, ValidConfig, TenantWorkerSelects, Trim;
    SampleIsOrdinary(1000000.0, 0);
    FloorIs(1000000.0 * 0.55, 550000);
    BlankFund();
    WholeNumbers();
    w := PaddedReferenceIsUnselected(SAMPLE, KEY, Deed(1000000.0, 0), GRADE, 1.0, " fund");
  }

  // ---- due times between two microseconds ----

  lemma NobodyHeld()
    ensures !LeaseHeld(map[])
  {
  }

  /** A reconciliation that captured the terms and crashed can not be repeated when a due time of its evidence is not a
      whole microsecond: the stored terms never match it again. */
  lemma FractionIsStuck(cfg: Config, key: PlanKey, r: EvidenceResponse, grade: string) returns (w: World)
    requires ValidConfig(cfg) && Ordinary(cfg, key, r, grade)
    requires exists i :: 0 <= i < TERM_MONTHS && ValidateEvidence(cfg, r).value.months[i].dueAt % 10 != 0
    ensures Reachable(cfg, w) && w.procs == map[] && w.db.status == PropertyContractPending
    ensures w.db.origin == ValidateEvidence(cfg, r)
    ensures forall pid: nat, id: Guid :: id != 0 ==>
              Run(cfg, w, RegistrationEvents(pid, cfg.applicant, r, true, id)).db.status != ExternalChecksPending
  {
    var i :| 0 <= i < TERM_MONTHS && ValidateEvidence(cfg, r).value.months[i].dueAt % 10 != 0;
    hide WorldInv, DbInv, Reachable, Ordinary, Trim, Step, Run, ValidateEvidence, RegistrationEvents, LeaseHeld,
         EvidenceTextsFit, Storable, PendingFor, LoanRatio;
    var w1 := IntakeRun(cfg, key, 1);
    ReachableInv(cfg, w1);
    w := CapturedThenCrashed(cfg, w1, r);
    ReachableInv(cfg, w);
    NobodyHeld();
    CapturedFrom(cfg, w);
    forall pid: nat, id: Guid | id != 0
      ensures Run(cfg, w, RegistrationEvents(pid, cfg.applicant, r, true, id)).db.status != ExternalChecksPending
    {
      CapturedEvidenceRegistersIff(cfg, w, pid, r, id);
      assert w.db.origin.value.months[i].dueAt % 10 != 0;
    }
  }

  lemma CapturedThenCrashed(cfg: Config, w: World, r: EvidenceResponse) returns (v: World)
    requires ValidConfig(cfg) && Reachable(cfg, w) && w.procs == map[] && w.db.status == PropertyContractPending
    requires w.db.contract.None? && w.db.terms.None?
    requires ValidateEvidence(cfg, r).Some? && Storable(ValidateEvidence(cfg, r).value)
    requires EvidenceTextsFit(r.(reason := None))
    ensures Reachable(cfg, v) && v.procs == map[] && v.db.status == PropertyContractPending
    ensures v.db.origin == ValidateEvidence(cfg, r) && v.db.terms.Some?
  {
    hide WorldInv, DbInv, Reachable, Begin, Proceed, ValidateEvidence, EvidenceTextsFit, Storable, LeaseHeld, TermsOf,
         KeptTerms;
    ReachableInv(cfg, w);
    var e1, e2, e3 := Start(0, ContractCall(cfg.applicant), 1, 1), Resume(0, EvidenceSaid(r, true), 1),
                      Resume(0, Silent, 1);
    StepReaches(cfg, w, e1);
    ContractStartStage(cfg, w, 0, 1);
    var w1 := Step(cfg, w, e1);
    StepReaches(cfg, w1, e2);
    EvidenceStage(cfg, w1, 0, r, true, 1);
    var w2 := Step(cfg, w1, e2);
    NobodyHeld();
    assert 0 in w2.procs;
    NobodyElse(w2.procs, 0);
    StepReaches(cfg, w2, e3);
    OneStepStays(cfg, w2, e3);
    CaptureStage(cfg, w2, 0, 1);
    var w3 := Step(cfg, w2, e3);
    StepReaches(cfg, w3, Crash(0));
    v := Step(cfg, w3, Crash(0));
    assert v.procs == w3.procs - {0} == w2.procs - {0} == w1.procs - {0} == w.procs;
  }

  /** Due times one tick after a whole microsecond. */
  lemma OneTickIsStuck() returns (w: World)
    ensures Reachable(SAMPLE, w) && w.procs == map[] && w.db.status == PropertyContractPending
    ensures forall pid: nat, id: Guid :: id != 0 ==>
              Run(SAMPLE, w, RegistrationEvents(pid, SAMPLE.applicant, Deed(1000000.0, 1), true, id)).db.status
              != ExternalChecksPending
  {
    hide Reachable, Ordinary, Trim, FullDeposit, LoanRatio, ValidConfig, ValidateEvidence, Run, RegistrationEvents;
    SampleIsOrdinary(1000000.0, 1);
    assert DeedEvidence(1000000.0, 1).months[0].dueAt % 10 != 0;
    w := FractionIsStuck(SAMPLE, KEY, Deed(1000000.0, 1), GRADE);
  }

  // ---- a queue that stands still ----

  lemma NotPaidYet(cfg: Config, w: World)
    requires WorldInv(cfg, w) && w.db.status == ApprovedFunded && w.db.transfer.None? && w.db.contract.Some?
    requires w.db.contract.value.status == LeaseDraft && w.db.allocation.Some?
    ensures !FullyFunded(w.db) && !TenantTransferFailed(w.db) && LeaseTarget(w.db) == AwaitingCompletion
  {
    hide DbInv;
    LoanIsPart(cfg, w);
    RowsCohere(cfg, w.received, w.db);
  }

  /** A lease that has its principal and waits for the tenant. */
  lemma UnpaidLease(cfg: Config, key: PlanKey, r: EvidenceResponse, grade: string, loan: real, reference: string)
    returns (a: Application)
    requires ValidConfig(cfg) && Ordinary(cfg, key, r, grade) && WithinCeiling(cfg, r, grade, loan)
    requires !Blank(reference) && Fits(reference, REFERENCE_LENGTH)
    ensures Waits(a)
  {
    hide WorldInv, Reachable, Ordinary, WithinCeiling, Trim, Fits, Run, AdvanceEvents, FullyFunded, AdvanceNext,
         SeenAtOnce, LeaseHeld, Climb;
    var w := FundedRun(cfg, key, r, grade, loan, reference);
    ReachableInv(cfg, w);
    NobodyHeld();
    AdvanceAlone(cfg, w, 0, 1);
    NotPaidYet(cfg, w);
    RunReaches(cfg, w, AdvanceEvents(0, 1));
    var v := Run(cfg, w, AdvanceEvents(0, 1));
    a := Application(cfg, v);
    SameTarget(w.db, v.db);
  }

  lemma SameTarget(before: Db, after: Db)
    requires before.contract.Some? && before.allocation.Some? && LeaseTarget(before) == AwaitingCompletion
    requires after.contract.Some?
    requires after == before.(contract := after.contract, leaseLog := after.leaseLog)
    ensures LeaseTarget(after) == AwaitingCompletion && TenantTransferFailed(after) == TenantTransferFailed(before)
  {
  }

  /** A lease that could be activated at once. */
  lemma PaidLease(cfg: Config, key: PlanKey, r: EvidenceResponse, grade: string, loan: real, reference: string)
    returns (a: Application)
    requires ValidConfig(cfg) && Ordinary(cfg, key, r, grade) && WithinCeiling(cfg, r, grade, loan)
    requires !Blank(reference) && Fits(reference, REFERENCE_LENGTH)
    ensures Idle(a) && LeaseSelects(a) && FullyFunded(a.world.db) && a.world.db.contract.value.status == LeaseDraft
  {
    hide WorldInv, Reachable, Ordinary, WithinCeiling, Trim, Fits;
    var w := FundedRun(cfg, key, r, grade, loan, reference);
    NobodyHeld();
    var v := TenantRun(cfg, w, 1);
    assert v.procs == v.procs - {0} == w.procs - {0} == map[];
    a := Application(cfg, v);
  }

  function UpTo(n: nat): set<Id> {
    if n == 0 then {} else UpTo(n - 1) + {n - 1}
  }

  lemma {:induction false} CountUpTo(n: nat)
    ensures |UpTo(n)| == n && forall id: Id :: id in UpTo(n) <==> id < n
  {
    if n > 0 {
      CountUpTo(n - 1);
      assert UpTo(n) == UpTo(n - 1) + {n - 1} && n - 1 !in UpTo(n - 1);
    }
  }

  /** For every batch size: a lease is fully funded and the worker passes over it for ever, though the first call of it
      would activate it. In front of it are as many leases as a batch holds whose tenants have not paid. */
  lemma PaidLeaseIsPassedOver(cfg: Config, key: PlanKey, r: EvidenceResponse, grade: string, loan: real,
                              reference: string, limit: nat, passes: seq<LeasePass>)
    returns (fleets: seq<Fleet<Application>>)
    requires ValidConfig(cfg) && Ordinary(cfg, key, r, grade) && WithinCeiling(cfg, r, grade, loan)
    requires !Blank(reference) && Fits(reference, REFERENCE_LENGTH)
    requires forall k :: 0 <= k < |passes| ==> passes[k].freshId != 0 && passes[k].now > 1
    ensures |fleets| == |passes| + 1 && AllIdle(fleets[0])
    ensures forall k :: 0 <= k < |passes| ==>
              fleets[k + 1] == Pass(LeaseSelects, limit, LeaseVisit(passes[k]), fleets[k])
    ensures forall k :: 0 <= k < |fleets| ==>
              && limit in fleets[k] && FullyFunded(fleets[k][limit].state.world.db)
              && LeaseSelects(fleets[k][limit].state)
              && fleets[k][limit].state.world.db.contract.value.status == LeaseDraft
  {
    hide Idle, LeaseSelects, Ordinary, WithinCeiling, Fits, Trim, FullyFunded, Waits, LeaseVisit, Follows, LeftAlone,
         Pass;
    var unpaid := UnpaidLease(cfg, key, r, grade, loan, reference);
    var paid := PaidLease(cfg, key, r, grade, loan, reference);
    WaitersAreIdle(unpaid);
    CountUpTo(limit);
    CountUpTo(limit + 1);
    var all := UpTo(limit + 1);
    var first: Fleet<Application> :=
      map id | id in all :: if id < limit then Row(0, unpaid) else Row(1, paid);
    var c, ids := Candidate(1, limit), UpTo(limit);
    fleets := FleetsFrom(limit, passes, first, c, ids);
    WaitingLeasesBlock(limit, passes, fleets, c, ids);
    forall k | 0 <= k < |fleets| ensures SameRow(first, fleets[k], limit) {
    }
  }

  lemma WaitersAreIdle(a: Application)
    requires Waits(a)
    ensures Idle(a) && LeaseSelects(a)
  {
  }

  /** One pass after the other, with nobody else about. */
  lemma {:induction false} FleetsFrom(limit: nat, passes: seq<LeasePass>, first: Fleet<Application>, c: Candidate,
                                      ids: set<Id>)
    returns (fleets: seq<Fleet<Application>>)
    requires c.id in first
    ensures |fleets| == |passes| + 1 && fleets[0] == first
    ensures forall k :: 0 <= k < |passes| ==>
              && fleets[k + 1] == Pass(LeaseSelects, limit, LeaseVisit(passes[k]), fleets[k])
              && Follows(LeaseSelects, limit, LeaseVisit(passes[k]), fleets[k], fleets[k + 1], c)
              && LeftAlone(LeaseSelects, limit, LeaseVisit(passes[k]), fleets[k], fleets[k + 1], ids)
    decreases |passes|
  {
    hide LeaseSelects, LeaseVisit, Follows, LeftAlone, Pass;
    if passes == [] {
      fleets := [first];
    } else {
      var next := Pass(LeaseSelects, limit, LeaseVisit(passes[0]), first);
      PassFollows(LeaseSelects, limit, LeaseVisit(passes[0]), first, c, ids);
      StillThere(limit, passes[0], first, next, c);
      var rest := FleetsFrom(limit, passes[1..], next, c, ids);
      fleets := [first] + rest;
      forall k | 0 <= k < |passes|
        ensures && fleets[k + 1] == Pass(LeaseSelects, limit, LeaseVisit(passes[k]), fleets[k])
                && Follows(LeaseSelects, limit, LeaseVisit(passes[k]), fleets[k], fleets[k + 1], c)
                && LeftAlone(LeaseSelects, limit, LeaseVisit(passes[k]), fleets[k], fleets[k + 1], ids)
      {
        if k > 0 {
          assert passes[1..][k - 1] == passes[k] && rest[k - 1] == fleets[k] && rest[k] == fleets[k + 1];
        }
      }
    }
  }

  lemma StillThere(limit: nat, pass: LeasePass, before: Fleet<Application>, after: Fleet<Application>, c: Candidate)
    requires Follows(LeaseSelects, limit, LeaseVisit(pass), before, after, c)
    ensures c.id in after
  {
  }
}
