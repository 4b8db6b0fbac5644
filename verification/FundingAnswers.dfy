/** What an answer decides: for every adapter and every answer that is not lost, the rows and the reply it leads to, in
    the answer's own terms. */
module FundingAnswers {
  import opened Texts
  import opened Columns
  import opened Rial
  import opened Workflows
  import opened FundingRows
  import opened Intake
  import opened Registration
  import opened Eligibility
  import opened BankFunding
  import opened LeaseFunding
  import opened FundingInvariant
  import opened MoneySteps
  import opened FundingProtocol
  import opened FundingRefusals
  import opened FundingTheorems

  /** What the caller is told when this event ends the call. */
  function Told(cfg: Config, w: World, e: Event): Option<Outcome> {
    match e
    case Start(pid, call, freshId, otherId) =>
      if pid in w.procs || freshId == 0 || otherId == 0 || StartWaits(w.procs, call) then None
      else ReplyOf(Begin(cfg, w.db, call, freshId, otherId))
    case Resume(pid, answer, freshId) =>
      if pid !in w.procs || !Awaits(w.procs[pid], answer) || freshId == 0
         || ResumeWaits(cfg, w, pid, answer, freshId) then None
      else ReplyOf(Proceed(cfg, w.db, w.procs[pid], answer, freshId))
    case Crash(_) => None
  }

  function ReplyOf(tx: Tx): Option<Outcome> {
    if tx.Throw? || tx.andThen.Continue? then None else Some(tx.andThen.outcome)
  }

  /** The event is one the waiting call takes now, and the database does not refuse its answer. */
  predicate Taken(cfg: Config, w: World, pid: nat, answer: Answer, freshId: Guid) {
    && pid in w.procs && Awaits(w.procs[pid], answer) && freshId != 0
    && !ResumeWaits(cfg, w, pid, answer, freshId)
    && !Refused(cfg, w.db, w.procs[pid], answer)
  }

  lemma TakenStep(cfg: Config, w: World, pid: nat, answer: Answer, freshId: Guid)
    requires Taken(cfg, w, pid, answer, freshId)
    ensures var tx, e := Proceed(cfg, w.db, w.procs[pid], answer, freshId), Resume(pid, answer, freshId);
            && Step(cfg, w, e) == Settle(w.(received := w.received + Heard(cfg, answer)), pid, tx)
            && Told(cfg, w, e) == ReplyOf(tx)
  {
    hide Proceed, Refused, ResumeWaits;
  }

  /** The only transition row an answer writes. */
  predicate MovedTo(before: Db, after: Db, next: CreditStatus) {
    after.status == next && after.log == before.log + [Edge(before.status, next)]
  }

  // ---- the bank ----

  /** A decline the bank can be held to. */
  predicate Declines(r: BankResponse) {
    r.status == Declined && r.reference.Some? && !Blank(r.reference.value)
  }

  /** An approval of a whole positive amount up to the ceiling and the deposit. */
  predicate Approves(r: BankResponse, a: AssessmentRow) {
    && r.status == Approved && r.reference.Some? && !Blank(r.reference.value)
    && r.approvedLoan.Some? && a.maxLoan.Some?
    && 0.0 < r.approvedLoan.value <= a.maxLoan.value && r.approvedLoan.value <= a.full
    && r.approvedLoan.value.Floor as real == r.approvedLoan.value
  }

  /** While the bank is asked, its answer alone decides: a decline with a reference rejects the application for good, an
      acceptable approval allocates its amount, and anything else leaves the question open. */
  lemma BankAnswerDecides(cfg: Config, w: World, pid: nat, r: BankResponse, freshId: Guid)
    requires ValidConfig(cfg) && Reachable(cfg, w) && w.db.status == BankApprovalPending
    requires Taken(cfg, w, pid, BankSaid(r), freshId)
    ensures w.db.assessment.Some? && w.db.assessment.value.maxLoan.Some? && w.db.approval.Some?
    ensures w.db.plan.Some? && w.db.plan.value in cfg.catalogue && w.db.contract.Some?
    ensures var e := Resume(pid, BankSaid(r), freshId);
            var v, a, before := Step(cfg, w, e), w.db.assessment.value, w.db.approval.value;
            && (Declines(r) ==>
                  && MovedTo(w.db, v.db, Rejected) && Told(cfg, w, e) == Some(BankDeclined)
                  && v.db.approval == Some(ApprovalRow(before.id, Declined, before.maxLoan, r.approvedLoan,
                                                       Some(Trim(r.reference.value))))
                  && v.db.allocation.None?)
            && (Approves(r, a) ==>
                  && MovedTo(w.db, v.db, FundingPending) && Told(cfg, w, e) == None && pid in v.procs
                  && v.procs[pid] == AllocationReading(w.db.contract.value.id)
                  && v.db.approval == Some(ApprovalRow(before.id, Approved, before.maxLoan, r.approvedLoan,
                                                       Some(Trim(r.reference.value))))
                  && v.db.allocation == Some(AllocationRow(
                                               freshId, w.db.contract.value.id, w.db.plan.value,
                                               cfg.catalogue[w.db.plan.value].bankId, a.full, a.maxLoan.value,
                                               r.approvedLoan.value, a.full - r.approvedLoan.value)))
            && (!Declines(r) && !Approves(r, a) ==>
                  && MovedTo(w.db, v.db, ExternalCheckIndeterminate) && Told(cfg, w, e) == Some(BankIndeterminate)
                  && v.db.approval == Some(ApprovalRow(before.id, BankUnclear, before.maxLoan, None,
                                                       KeptOption(r.reference, REFERENCE_LENGTH)))
                  && v.db.allocation.None?)
            && v.db == w.db.(status := v.db.status, log := v.db.log, approval := v.db.approval,
                             allocation := v.db.allocation)
  {
    hide DbInv, Reachable, BankAnswer, BankAnswerRefused, ResumeWaits, Trim, KeptOption, Blank, Whole;
    ReachableInv(cfg, w);
    TakenStep(cfg, w, pid, BankSaid(r), freshId);
    assert ProcInv(cfg, w.received, w.db, w.procs[pid]);
    BankCases(cfg, w.received, w.db, w.procs[pid].capture, r, freshId);
  }

  lemma BankCases(cfg: Config, received: set<Evidence>, db: Db, cap: BankCapture, r: BankResponse, freshId: Guid)
    requires ValidConfig(cfg) && DbInv(cfg, received, db) && ProcInv(cfg, received, db, BankAsking(cap))
    requires db.status == BankApprovalPending && db.approval.Some?
    requires !BankAnswerRefused(db.approval.value.maxLoan, cap.eligibility, r)
    ensures db.assessment == Some(cap.eligibility) && cap.eligibility.maxLoan.Some? && db.allocation.None?
    ensures db.plan.Some? && db.plan.value in cfg.catalogue && db.contract.Some?
    ensures var before, reference := db.approval.value, Some(Trim(if r.reference.Some? then r.reference.value else ""));
            BankAnswer(db, cap, r, freshId) ==
            if Declines(r) then
              Commit(db.(status := Rejected, log := db.log + [Edge(db.status, Rejected)],
                         approval := Some(ApprovalRow(before.id, Declined, before.maxLoan, r.approvedLoan, reference))),
                     Return(BankDeclined))
            else if Approves(r, cap.eligibility) then
              Commit(db.(status := FundingPending, log := db.log + [Edge(db.status, FundingPending)],
                         approval := Some(ApprovalRow(before.id, Approved, before.maxLoan, r.approvedLoan, reference)),
                         allocation := Some(AllocationRow(
                                              freshId, db.contract.value.id, db.plan.value,
                                              cfg.catalogue[db.plan.value].bankId, cap.eligibility.full,
                                              cap.eligibility.maxLoan.value, r.approvedLoan.value,
                                              cap.eligibility.full - r.approvedLoan.value))),
                     Continue(AllocationReading(db.contract.value.id)))
            else
              Commit(db.(status := ExternalCheckIndeterminate,
                         log := db.log + [Edge(db.status, ExternalCheckIndeterminate)],
                         approval := Some(ApprovalRow(before.id, BankUnclear, before.maxLoan, None,
                                                      KeptOption(r.reference, REFERENCE_LENGTH)))),
                     Return(BankIndeterminate))
  {
    hide DbInv, Trim, Fits, KeptOption, BankTextsFit;
    PendingHasNoAllocation(cfg, received, db);
    DecidedRows(cfg, received, db);
  }

  lemma DecidedRows(cfg: Config, received: set<Evidence>, db: Db)
    requires DbInv(cfg, received, db) && HasDecision(db)
    ensures db.plan.Some? && db.plan.value in cfg.catalogue && db.contract.Some?
    ensures db.contract.value.plan == db.plan.value && db.contract.value.tenant == cfg.applicant
  {
    hide TermsInv, ApprovalInv, AllocationInv, FreezeInv, ContributionInv, LeaseInv, CreditPath;
  }

  // ---- the fund ----

  /** A confirmation the fund can be held to. */
  predicate Freezes(r: FreezeResponse) {
    && r.status == FreezeConfirmed
    && r.fundReference.Some? && !Blank(r.fundReference.value)
    && r.reference.Some? && !Blank(r.reference.value)
  }

  /** While funding is pending, the fund's answer alone decides: a confirmation with both references books the loan as
      frozen principal at the plan's bank and funds the application for good; anything else leaves the question open,
      with no principal. Once the status has moved on, an answer changes nothing. */
  lemma FreezeAnswerDecides(cfg: Config, w: World, pid: nat, r: FreezeResponse, freshId: Guid)
    requires ValidConfig(cfg) && Reachable(cfg, w)
    requires Taken(cfg, w, pid, FreezeSaid(r), freshId)
    ensures w.db.freeze.Some? && w.db.allocation.Some? && w.db.contract.Some?
    ensures w.db.plan.Some? && w.db.plan.value in cfg.catalogue
    ensures var e := Resume(pid, FreezeSaid(r), freshId);
            var v, al, before := Step(cfg, w, e), w.db.allocation.value, w.db.freeze.value;
            var provider := if Blank(r.provider) then cfg.fundProvider else Trim(r.provider);
            && pid !in v.procs
            && (w.db.status != FundingPending ==> v.db == w.db && Told(cfg, w, e) == Some(InvalidState))
            && (w.db.status == FundingPending && Freezes(r) ==>
                  && MovedTo(w.db, v.db, ApprovedFunded) && Told(cfg, w, e) == Some(Funded)
                  && v.db.freeze == Some(FreezeRow(before.id, al.id, provider, FreezeConfirmed,
                                                   KeptOption(r.fundReference, REFERENCE_LENGTH),
                                                   KeptOption(r.reference, REFERENCE_LENGTH)))
                  && v.db.principal == Some(PrincipalRow(w.db.contract.value.id, cfg.catalogue[w.db.plan.value].bankId,
                                                         al.loan, Trim(r.fundReference.value))))
            && (w.db.status == FundingPending && !Freezes(r) ==>
                  && MovedTo(w.db, v.db, ExternalCheckIndeterminate)
                  && Told(cfg, w, e) == Some(FundingIndeterminate)
                  && v.db.freeze == Some(FreezeRow(before.id, al.id, provider, FreezeUnclear, None,
                                                   KeptOption(r.reference, REFERENCE_LENGTH)))
                  && v.db.principal.None?)
            && v.db == w.db.(status := v.db.status, log := v.db.log, freeze := v.db.freeze,
                             principal := v.db.principal)
  {
    hide DbInv, Reachable, FreezeAnswer, FreezeTextsFit, ResumeWaits;
    ReachableInv(cfg, w);
    TakenStep(cfg, w, pid, FreezeSaid(r), freshId);
    var p := w.procs[pid];
    assert ProcInv(cfg, w.received, w.db, p);
    AllocatedRows(cfg, w.received, w.db);
    FreezeCases(cfg, w.received, w.db, p.contractId, p.allocation, p.freezeId, r);
  }

  lemma AllocatedRows(cfg: Config, received: set<Evidence>, db: Db)
    requires DbInv(cfg, received, db)
    ensures db.allocation.Some? ==>
              && db.plan.Some? && db.plan.value in cfg.catalogue
              && db.allocation.value.bankId == cfg.catalogue[db.plan.value].bankId
    ensures db.freeze.Some? && db.allocation.Some? ==> db.freeze.value.allocationId == db.allocation.value.id
    ensures db.status == FundingPending ==> db.principal.None?
  {
    hide PlanInv, TermsInv, ContractInv, AssessmentInv, ApprovalInv, ContributionInv, LeaseInv, CreditPath;
  }

  lemma FreezeCases(cfg: Config, received: set<Evidence>, db: Db, contractId: Guid, al: AllocationRow, freezeId: Guid,
                    r: FreezeResponse)
    requires DbInv(cfg, received, db) && ProcInv(cfg, received, db, FreezeAsking(contractId, al, freezeId))
    requires !(db.status == FundingPending
               && (!FreezeTextsFit(r) || (ConfirmsFreeze(r) && !FitsOption(r.fundReference, REFERENCE_LENGTH))))
    ensures var provider := if Blank(r.provider) then cfg.fundProvider else Trim(r.provider);
            FreezeAnswer(cfg, db, contractId, al, freezeId, r) ==
            if db.status != FundingPending then Reject(InvalidState)
            else if Freezes(r) then
              Commit(db.(status := ApprovedFunded, log := db.log + [Edge(db.status, ApprovedFunded)],
                         freeze := Some(FreezeRow(freezeId, al.id, provider, FreezeConfirmed,
                                                  KeptOption(r.fundReference, REFERENCE_LENGTH),
                                                  KeptOption(r.reference, REFERENCE_LENGTH))),
                         principal := Some(PrincipalRow(contractId, al.bankId, al.loan, Trim(r.fundReference.value)))),
                     Return(Funded))
            else
              Commit(db.(status := ExternalCheckIndeterminate,
                         log := db.log + [Edge(db.status, ExternalCheckIndeterminate)],
                         freeze := Some(FreezeRow(freezeId, al.id, provider, FreezeUnclear, None,
                                                  KeptOption(r.reference, REFERENCE_LENGTH)))),
                     Return(FundingIndeterminate))
  {
    hide DbInv, Trim, KeptOption, FreezeTextsFit, FitsOption;
    AllocatedRows(cfg, received, db);
  }

  // ---- the tenant's transfer ----

  /** A confirmation of exactly the contribution with a reference. */
  predicate Pays(r: ContributionResponse, contribution: real) {
    && r.status == ContributionConfirmed && r.amount == Some(contribution)
    && r.fundReference.Some? && !Blank(r.fundReference.value)
  }

  /** The answer about the tenant's money decides the transfer: a confirmation of exactly the contribution posts it, a
      failure is final, anything else leaves it unknown; once a contribution is posted no answer changes anything. */
  lemma TransferAnswerDecides(cfg: Config, w: World, pid: nat, r: ContributionResponse, freshId: Guid)
    requires ValidConfig(cfg) && Reachable(cfg, w)
    requires Taken(cfg, w, pid, ContributionSaid(r), freshId)
    ensures w.db.transfer.Some? && w.db.funding.Some? && w.db.allocation.Some? && w.db.contract.Some?
    ensures var e := Resume(pid, ContributionSaid(r), freshId);
            var v, al, transfer := Step(cfg, w, e), w.db.allocation.value, w.db.transfer.value;
            && pid !in v.procs
            && (w.db.contribution.Some? ==> v.db == w.db && Told(cfg, w, e) == Some(AlreadyReconciled))
            && (w.db.contribution.None? && Pays(r, al.contribution) ==>
                  var reference := Trim(r.fundReference.value);
                  && Told(cfg, w, e) == Some(Reconciled)
                  && v.db == w.db.(transfer := Some(transfer.(status := Succeeded)),
                                   funding := Some(w.db.funding.value.(fundReference := Some(reference))),
                                   journal := Some(JournalRow(al.id, transfer.id, al.contribution)),
                                   contribution := Some(ContributionRow(w.db.contract.value.id, al.id, al.contribution,
                                                                        reference))))
            && (w.db.contribution.None? && !Pays(r, al.contribution) ==>
                  && Told(cfg, w, e) == Some(if r.status == ContributionFailed then TransferFailed else Indeterminate)
                  && v.db == w.db.(transfer := Some(transfer.(
                                                status := if r.status == ContributionFailed then Failed
                                                          else TransferUnknown))))
  {
    hide DbInv, Reachable, ContributionAnswer, ContributionTextsFit, ResumeWaits;
    ReachableInv(cfg, w);
    TakenStep(cfg, w, pid, ContributionSaid(r), freshId);
    var p := w.procs[pid];
    assert ProcInv(cfg, w.received, w.db, p);
    TransferCases(cfg, w.received, w.db, p.contractId, p.allocation, p.fundingId, p.transferId, r);
  }

  lemma TransferCases(cfg: Config, received: set<Evidence>, db: Db, contractId: Guid, al: AllocationRow,
                      fundingId: Guid, transferId: Guid, r: ContributionResponse)
    requires DbInv(cfg, received, db)
    requires ProcInv(cfg, received, db, ContributionAsking(contractId, al, fundingId, transferId))
    requires !(db.contribution.None?
               && (!ContributionTextsFit(r)
                   || (ConfirmsContribution(r, al.contribution)
                       && !Fits(Trim(r.fundReference.value), REFERENCE_LENGTH))))
    ensures ContributionAnswer(db, contractId, al, fundingId, transferId, r) ==
            if db.contribution.Some? then Reject(AlreadyReconciled)
            else if Pays(r, al.contribution) then
              var reference := Trim(r.fundReference.value);
              Commit(db.(transfer := Some(db.transfer.value.(status := Succeeded)),
                         funding := Some(db.funding.value.(fundReference := Some(reference))),
                         journal := Some(JournalRow(al.id, transferId, al.contribution)),
                         contribution := Some(ContributionRow(contractId, al.id, al.contribution, reference))),
                     Return(Reconciled))
            else if r.status == ContributionFailed then
              Commit(db.(transfer := Some(db.transfer.value.(status := Failed))), Return(TransferFailed))
            else
              Commit(db.(transfer := Some(db.transfer.value.(status := TransferUnknown))), Return(Indeterminate))
  {
    hide DbInv, Trim, ContributionTextsFit, Fits, Whole;
    TransferRows(cfg, received, db);
  }

  /** What the rows around an open transfer say. */
  lemma TransferRows(cfg: Config, received: set<Evidence>, db: Db)
    requires DbInv(cfg, received, db) && db.funding.Some?
    ensures db.allocation.Some? && db.contract.Some? && db.transfer.Some?
    ensures db.status == ApprovedFunded && PrincipalMatches(db, db.allocation.value, db.contract.value.id)
    ensures WholeNonNegative(db.allocation.value.contribution) && db.allocation.value.contribution > 0.0
    ensures db.contribution.Some? <==> db.journal.Some?
    ensures db.contribution.Some? ==>
              ExistingContribution(db, db.allocation.value, db.contribution.value) == Reject(AlreadyReconciled)
              && db.contribution.value.contractId == db.contract.value.id
  {
    hide Trim, TermsOf, FullDeposit, MaximumLoan, LoanRatio, ValidMonths, CreditPath, LeasePath, ValidEvidence, Whole;
    WholeDifference(db.allocation.value.full, db.allocation.value.loan);
  }

  // ---- the grade ----

  /** A grade of the policy's table. */
  predicate Grades(r: GradeResponse) {
    r.status == GradeValid && r.subGrade.Some? && LoanRatio(r.subGrade.value).Some?
  }

  /** Until there is a decision a grade answer makes it or leaves it open: a sub-grade of the table fixes ratio and
      ceiling over the captured deposit, and the application is ready for the bank; anything else is recorded without
      either. A completed decision is not touched. */
  lemma GradeAnswerDecides(cfg: Config, w: World, pid: nat, r: GradeResponse, freshId: Guid)
    requires ValidConfig(cfg) && Reachable(cfg, w)
    requires Taken(cfg, w, pid, GradeSaid(r), freshId)
    ensures w.db.assessment.Some? && w.db.terms.Some?
    ensures var e := Resume(pid, GradeSaid(r), freshId);
            var v, id, full := Step(cfg, w, e), w.db.assessment.value.id, w.db.terms.value.full;
            && pid !in v.procs
            && (HasDecision(w.db) ==> v.db == w.db && Told(cfg, w, e) == Some(AlreadyEvaluated))
            && (!HasDecision(w.db) && Grades(r) ==>
                  var ratio := LoanRatio(r.subGrade.value);
                  && MovedTo(w.db, v.db, DecisionReady) && Told(cfg, w, e) == Some(Applied)
                  && v.db.assessment == Some(AssessmentRow(id, GradeValid, Some(Trim(r.subGrade.value)), full, ratio,
                                                           Some(MaximumLoan(full, ratio.value)))))
            && (!HasDecision(w.db) && !Grades(r) ==>
                  && v.db.status == ExternalCheckIndeterminate && Told(cfg, w, e) == Some(Indeterminate)
                  && (MovedTo(w.db, v.db, ExternalCheckIndeterminate)
                      || (w.db.status == v.db.status && w.db.log == v.db.log))
                  && v.db.assessment == Some(AssessmentRow(
                                               id, if r.status == GradeValid then GradeInvalid else r.status,
                                               NormalizeOptional(r.subGrade), full, None, None)))
            && v.db == w.db.(status := v.db.status, log := v.db.log, assessment := v.db.assessment)
  {
    hide DbInv, Reachable, GradeAnswer, GradeTextsFit, ResumeWaits, LoanRatio, MaximumLoan, Trim, TrustedDeposit,
         Grades, HasDecision;
    ReachableInv(cfg, w);
    TakenStep(cfg, w, pid, GradeSaid(r), freshId);
    assert ProcInv(cfg, w.received, w.db, w.procs[pid]);
    GradedRows(cfg, w.received, w.db);
    GradeCases(cfg, w.received, w.db, w.procs[pid].assessmentId, r);
  }

  /** What the rows of an assessment say. */
  lemma GradedRows(cfg: Config, received: set<Evidence>, db: Db)
    requires ValidConfig(cfg) && DbInv(cfg, received, db) && db.assessment.Some?
    ensures db.terms.Some? && TrustedDeposit(cfg, db) == Some(db.assessment.value.full)
    ensures db.terms.value.full == db.assessment.value.full
    ensures !HasDecision(db) ==> Evaluatable(db.status)
  {
    hide FullDeposit, MaximumLoan, LoanRatio, ValidMonths, CreditPath, LeasePath, ValidEvidence, FrozenEvidence, Trim,
         ApprovalInv, AllocationInv, FreezeInv, ContributionInv, LeaseInv;
  }

  lemma GradeCases(cfg: Config, received: set<Evidence>, db: Db, id: Guid, r: GradeResponse)
    requires ValidConfig(cfg) && DbInv(cfg, received, db) && ProcInv(cfg, received, db, GradeAsking(id))
    requires !(!HasDecision(db) && !GradeTextsFit(r))
    ensures var full := db.assessment.value.full;
            GradeAnswer(cfg, db, id, r) ==
            if HasDecision(db) then Reject(AlreadyEvaluated)
            else if Grades(r) then
              var ratio := LoanRatio(r.subGrade.value);
              Commit(db.(status := DecisionReady, log := db.log + [Edge(db.status, DecisionReady)],
                         assessment := Some(AssessmentRow(id, GradeValid, Some(Trim(r.subGrade.value)), full, ratio,
                                                          Some(MaximumLoan(full, ratio.value))))),
                     Return(Applied))
            else
              var status := if r.status == GradeValid then GradeInvalid else r.status;
              var row := AssessmentRow(id, status, NormalizeOptional(r.subGrade), full, None, None);
              var recorded := db.(assessment := Some(row));
              Commit(if db.status == ExternalCheckIndeterminate then recorded
                     else recorded.(status := ExternalCheckIndeterminate,
                                    log := db.log + [Edge(db.status, ExternalCheckIndeterminate)]),
                     Return(Indeterminate))
  {
    hide DbInv, Trim, GradeTextsFit, TrustedDeposit, LoanRatio, MaximumLoan;
    GradedRows(cfg, received, db);
    if r.subGrade.Some? {
      RatioOfTrimmed(r.subGrade.value);
    }
    if !HasDecision(db) && Grades(r) {
      assert GradeAnswer(cfg, db, id, r).db.assessment.value.ratio == LoanRatio(r.subGrade.value);
    }
  }

  /** The table trims and knows no blank grade. */
  lemma RatioOfTrimmed(subGrade: string)
    ensures LoanRatio(Trim(subGrade)) == LoanRatio(subGrade)
    ensures LoanRatio(subGrade).Some? ==> !Blank(subGrade)
  {
    TrimIdempotent(subGrade);
  }

  // ---- the evidence ----

  /** While the property contract is pending, evidence goes on record: a usable answer from a known owner that agrees
      with the contract, if there is one, opens or keeps the contract and leads on to its terms; missing documents stop
      the application; anything else leaves the request unanswered. */
  lemma EvidenceAnswerDecides(cfg: Config, w: World, pid: nat, r: EvidenceResponse, ownerExists: bool, freshId: Guid)
    requires ValidConfig(cfg) && Reachable(cfg, w)
    requires Taken(cfg, w, pid, EvidenceSaid(r, ownerExists), freshId)
    ensures w.db.request.Some? && w.db.plan.Some?
    ensures var e := Resume(pid, EvidenceSaid(r, ownerExists), freshId);
            var v, found, pending := Step(cfg, w, e), ValidateEvidence(cfg, r), w.db.status == PropertyContractPending;
            var provider := if Blank(r.provider) then cfg.contractProvider else Trim(r.provider);
            var id, given := w.db.request.value.id, NormalizeOptional(r.reference);
            && (!pending ==> v.db == w.db && Told(cfg, w, e) == Some(InvalidState))
            && (pending && r.status == EvidenceDocuments ==>
                  && MovedTo(w.db, v.db, NeedsDocuments) && Told(cfg, w, e) == Some(RegistrationNeedsDocuments)
                  && v.db.request == Some(RequestRow(id, DocumentsRequired, provider, given))
                  && v.db.contract == w.db.contract)
            && (pending && r.status != EvidenceDocuments && (found.None? || !ownerExists) ==>
                  && Told(cfg, w, e) == Some(Indeterminate) && v.db.status == w.db.status && v.db.log == w.db.log
                  && v.db.request == Some(RequestRow(id, RequestStatus.Unclear, provider, given))
                  && v.db.contract == w.db.contract)
            && (pending && found.Some? && ownerExists && !SameParties(w.db, found.value) ==>
                  v.db == w.db && Told(cfg, w, e) == Some(Conflict))
            && (pending && found.Some? && ownerExists && SameParties(w.db, found.value) ==>
                  && Told(cfg, w, e) == None && v.db.status == w.db.status && v.db.log == w.db.log
                  && v.db.request == Some(RequestRow(id, PendingSnapshot, provider, Some(Trim(r.reference.value))))
                  && v.db.contract == (if w.db.contract.Some? then w.db.contract
                                       else Some(ContractRow(freshId, cfg.applicant, r.owner.value, r.property.value,
                                                             LeaseDraft, w.db.plan.value)))
                  && pid in v.procs
                  && v.procs[pid] == ContractCapturing(id, v.db.contract.value.id, found.value))
            && v.db == w.db.(status := v.db.status, log := v.db.log, request := v.db.request, contract := v.db.contract)
  {
    hide DbInv, Reachable, ContractAnswer, EvidenceTextsFit, ResumeWaits, ValidateEvidence, Heard;
    ReachableInv(cfg, w);
    TakenStep(cfg, w, pid, EvidenceSaid(r, ownerExists), freshId);
    assert ProcInv(cfg, w.received, w.db, w.procs[pid]);
    EvidenceCases(cfg, w.received, w.db, w.procs[pid].requestId, w.procs[pid].plan, r, ownerExists, freshId);
  }

  lemma EvidenceCases(cfg: Config, received: set<Evidence>, db: Db, id: Guid, plan: PlanKey, r: EvidenceResponse,
                      ownerExists: bool, freshId: Guid)
    requires ValidConfig(cfg) && DbInv(cfg, received, db) && ProcInv(cfg, received, db, ContractAsking(id, plan))
    requires !(db.status == PropertyContractPending && EvidenceRefused(cfg, db, r, ownerExists))
    ensures var provider := if Blank(r.provider) then cfg.contractProvider else Trim(r.provider);
            var given, found := NormalizeOptional(r.reference), ValidateEvidence(cfg, r);
            ContractAnswer(cfg, db, id, plan, r, ownerExists, freshId) ==
            if db.status != PropertyContractPending then Reject(InvalidState)
            else if r.status == EvidenceDocuments then
              Commit(db.(status := NeedsDocuments, log := db.log + [Edge(db.status, NeedsDocuments)],
                         request := Some(RequestRow(id, DocumentsRequired, provider, given))),
                     Return(RegistrationNeedsDocuments))
            else if found.None? || !ownerExists then
              Commit(db.(request := Some(RequestRow(id, RequestStatus.Unclear, provider, given))),
                     Return(Indeterminate))
            else if !SameParties(db, found.value) then Reject(Conflict)
            else
              var contract := if db.contract.Some? then db.contract.value
                              else ContractRow(freshId, cfg.applicant, r.owner.value, r.property.value, LeaseDraft,
                                               plan);
              var request := RequestRow(id, PendingSnapshot, provider, Some(Trim(r.reference.value)));
              Commit(db.(request := Some(request), contract := Some(contract)),
                     Continue(ContractCapturing(id, contract.id, found.value)))
    ensures ValidateEvidence(cfg, r).Some? ==> r.status == EvidenceConfirmed
  {
    hide Trim, TrustedTerms, TermsOf, FullDeposit, MaximumLoan, LoanRatio, ValidMonths, CreditPath, LeasePath,
         ValidEvidence, FrozenEvidence, ByNumber, SupportedDate, Fits;
  }

  // ---- the terms and the end of registration ----

  /** The first usable evidence fixes the terms; the same evidence goes on with them, and other evidence is a
      conflict. */
  lemma CaptureDecides(cfg: Config, w: World, pid: nat, freshId: Guid)
    requires ValidConfig(cfg) && Reachable(cfg, w)
    requires Taken(cfg, w, pid, Silent, freshId) && w.procs[pid].ContractCapturing?
    ensures w.db.contract.Some? && w.db.contract.value.id != 0
    ensures var e, p := Resume(pid, Silent, freshId), w.procs[pid];
            var v, captured := Step(cfg, w, e), TermsOf(w.db.contract.value.id, p.evidence);
            && (w.db.terms.None? ==>
                  && Told(cfg, w, e) == None && pid in v.procs
                  && v.db == w.db.(terms := Some(KeptTerms(captured)), origin := Some(p.evidence))
                  && v.procs[pid] == ContractFinalizing(p.requestId, w.db.contract.value.id, KeptTerms(captured)))
            && (w.db.terms == Some(captured) ==>
                  && Told(cfg, w, e) == None && pid in v.procs && v.db == w.db
                  && v.procs[pid] == ContractFinalizing(p.requestId, w.db.contract.value.id, captured))
            && (w.db.terms.Some? && w.db.terms.value != captured ==>
                  Told(cfg, w, e) == Some(Conflict) && pid !in v.procs && v.db == w.db)
  {
    hide DbInv, Reachable, Capture, ResumeWaits, TermsOf, KeptTerms, Storable;
    ReachableInv(cfg, w);
    TakenStep(cfg, w, pid, Silent, freshId);
    assert ProcInv(cfg, w.received, w.db, w.procs[pid]);
    CapturableContract(cfg, w.received, w.db);
    CaptureCases(cfg, w.received, w.db, w.procs[pid].requestId, w.procs[pid].contractId, w.procs[pid].evidence);
  }

  lemma CaptureCases(cfg: Config, received: set<Evidence>, db: Db, id: Guid, contractId: Guid, e: Evidence)
    requires DbInv(cfg, received, db) && ProcInv(cfg, received, db, ContractCapturing(id, contractId, e))
    requires !(db.terms.None? && !Storable(e))
    ensures var captured := TermsOf(contractId, e);
            Capture(cfg, db, id, contractId, e) ==
            if db.terms.None? then
              Commit(db.(terms := Some(KeptTerms(captured)), origin := Some(e)),
                     Continue(ContractFinalizing(id, contractId, KeptTerms(captured))))
            else if db.terms.value == captured then Rollback(Continue(ContractFinalizing(id, contractId, captured)))
            else Reject(Conflict)
  {
    hide DbInv, FullDeposit, ValidMonths, ValidEvidence, Fits, KeptTime, ValidCommand, TermsOf, TrustedTerms;
    CapturableContract(cfg, received, db);
    EvidenceIsACommand(cfg, contractId, e);
  }

  /** Registration ends well exactly while it is pending and the request still quotes the source of the terms. */
  lemma FinalizeDecides(cfg: Config, w: World, pid: nat, freshId: Guid)
    requires ValidConfig(cfg) && Reachable(cfg, w)
    requires Taken(cfg, w, pid, Silent, freshId) && w.procs[pid].ContractFinalizing?
    ensures w.db.request.Some? && w.db.terms.Some?
    ensures var e, request := Resume(pid, Silent, freshId), w.db.request.value;
            var v := Step(cfg, w, e);
            && pid !in v.procs
            && (w.db.status == PropertyContractPending && request.status == PendingSnapshot
                && request.reference.Some? && Trim(request.reference.value) == w.db.terms.value.source ==>
                  && Told(cfg, w, e) == Some(Registered) && MovedTo(w.db, v.db, ExternalChecksPending)
                  && v.db == w.db.(status := v.db.status, log := v.db.log,
                                   request := Some(request.(status := Confirmed))))
            && (Past(w.db.status) ==> Told(cfg, w, e) == Some(AlreadyRegistered) && v.db == w.db)
            && (Told(cfg, w, e) != Some(Registered) ==> v.db == w.db)
            && (Told(cfg, w, e) == Some(Registered) ==>
                  && w.db.status == PropertyContractPending && request.status == PendingSnapshot
                  && request.reference.Some? && Trim(request.reference.value) == w.db.terms.value.source)
  {
    hide DbInv, Reachable, Finalize, ResumeWaits;
    ReachableInv(cfg, w);
    TakenStep(cfg, w, pid, Silent, freshId);
    var p := w.procs[pid];
    assert ProcInv(cfg, w.received, w.db, p);
    FinalizeCases(cfg, w.received, w.db, p.requestId, p.contractId, p.snapshot);
  }

  lemma FinalizeCases(cfg: Config, received: set<Evidence>, db: Db, id: Guid, contractId: Guid, snapshot: Terms)
    requires ValidConfig(cfg) && DbInv(cfg, received, db)
    requires ProcInv(cfg, received, db, ContractFinalizing(id, contractId, snapshot))
    ensures Finalize(cfg, db, id, contractId, snapshot) ==
            if Past(db.status) then Reject(AlreadyRegistered)
            else if db.status == PropertyContractPending && db.request.value.status == PendingSnapshot
                    && db.request.value.reference.Some?
                    && Trim(db.request.value.reference.value) == snapshot.source then
              Commit(db.(status := ExternalChecksPending, log := db.log + [Edge(db.status, ExternalChecksPending)],
                         request := Some(db.request.value.(status := Confirmed))),
                     Return(Registered))
            else Reject(InvalidState)
  {
    hide Trim, FullDeposit, MaximumLoan, LoanRatio, ValidMonths, CreditPath, LeasePath, ValidEvidence, FrozenEvidence;
  }

  // ---- the identity ----

  /** The first verdict on the identity decides: a verified applicant goes on to the plan, one whose documents are
      missing stops, and without a verdict the question stays open. */
  lemma IdentityAnswerDecides(cfg: Config, w: World, pid: nat, r: IdentityResponse, freshId: Guid)
    requires ValidConfig(cfg) && Reachable(cfg, w)
    requires Taken(cfg, w, pid, IdentitySaid(r), freshId)
    ensures w.db.identity.Some?
    ensures var e, row := Resume(pid, IdentitySaid(r), freshId), w.db.identity.value;
            var v, decided := Step(cfg, w, e), row.status == Verified || row.status == DocumentsNeeded;
            && pid !in v.procs
            && (decided ==> v.db == w.db && Told(cfg, w, e) == Some(AlreadyProcessed))
            && (!decided ==>
                  && v.db == w.db.(identity := Some(IdentityRow(row.id, r.outcome)), status := v.db.status,
                                   log := v.db.log)
                  && if w.db.status != IdentityPending then
                       v.db.status == w.db.status && v.db.log == w.db.log && Told(cfg, w, e) == Some(InvalidState)
                     else if r.outcome == Verified then
                       MovedTo(w.db, v.db, PlanSelectionPending) && Told(cfg, w, e) == Some(Applied)
                     else if r.outcome == DocumentsNeeded then
                       MovedTo(w.db, v.db, NeedsDocuments) && Told(cfg, w, e) == Some(Applied)
                     else
                       v.db.status == w.db.status && v.db.log == w.db.log && Told(cfg, w, e) == Some(Indeterminate))
  {
    hide DbInv, Reachable, IdentityTextsFit, ResumeWaits, IdentityAnswer;
    ReachableInv(cfg, w);
    TakenStep(cfg, w, pid, IdentitySaid(r), freshId);
    assert ProcInv(cfg, w.received, w.db, w.procs[pid]);
    IdentityCases(w.db, r);
  }

  lemma IdentityCases(db: Db, r: IdentityResponse)
    requires db.identity.Some? && r.outcome != IdentityWaiting
    requires IsTerminal(db.identity.value.status) || IdentityTextsFit(r)
    ensures var recorded := db.(identity := Some(IdentityRow(db.identity.value.id, r.outcome)));
            IdentityAnswer(db, db.identity.value.id, r) ==
            if IsTerminal(db.identity.value.status) then Reject(AlreadyProcessed)
            else if db.status != IdentityPending then Commit(recorded, Return(InvalidState))
            else if r.outcome == Verified then
              Commit(recorded.(status := PlanSelectionPending,
                               log := db.log + [Edge(db.status, PlanSelectionPending)]), Return(Applied))
            else if r.outcome == DocumentsNeeded then
              Commit(recorded.(status := NeedsDocuments, log := db.log + [Edge(db.status, NeedsDocuments)]),
                     Return(Applied))
            else Commit(recorded, Return(Indeterminate))
  {
    hide IdentityTextsFit;
  }

  // ---- final statuses ----

  /** A status the table has no way out of is never left, whatever happens. */
  lemma FinalStatusStays(cfg: Config, w: World, events: seq<Event>)
    requires ValidConfig(cfg) && Reachable(cfg, w)
    requires w.db.status == Rejected || w.db.status == ApprovedFunded
    ensures Run(cfg, w, events).db.status == w.db.status && Run(cfg, w, events).db.log == w.db.log
  {
    hide DbInv, Reachable, Run;
    ReachableInv(cfg, w);
    RunKeeps(cfg, w, events);
    var later := Run(cfg, w, events).db;
    PathOf(cfg, w.received, w.db);
    PathOf(cfg, Run(cfg, w, events).received, later);
    NoWayOn(w.db.log, later.log, w.db.status, later.status);
  }

  lemma PathOf(cfg: Config, received: set<Evidence>, db: Db)
    requires DbInv(cfg, received, db)
    ensures CreditPath(db.log, db.status)
  {
    hide PlanInv, ContractInv, TermsInv, AssessmentInv, ApprovalInv, AllocationInv, FreezeInv, ContributionInv,
         LeaseInv;
  }

  lemma NoWayOn(log: seq<Edge<CreditStatus>>, longer: seq<Edge<CreditStatus>>, s: CreditStatus, t: CreditStatus)
    requires CreditPath(log, s) && CreditPath(longer, t) && log <= longer
    requires forall next :: !CreditEdge(s, next)
    ensures longer == log && t == s
  {
    if |longer| > |log| {
      NextLeaves(log, longer, s, t);
      assert false;
    }
  }

  lemma NextLeaves(log: seq<Edge<CreditStatus>>, longer: seq<Edge<CreditStatus>>, s: CreditStatus, t: CreditStatus)
    requires CreditPath(log, s) && CreditPath(longer, t) && log < longer
    ensures exists next :: CreditEdge(s, next)
  {
    var e := longer[|log|];
    assert e.from == s && CreditEdge(e.from, e.to);
  }
}
