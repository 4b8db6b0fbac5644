/** What can abort a transaction of the funding protocol: nothing but the database refusing what an adapter said, and
    for every call exactly when. */
module FundingRefusals {
  import opened Texts
  import opened Columns
  import opened Rial
  import opened Workflows
  import opened FundingRows
  import opened Intake
  import opened Registration
  import opened Eligibility
  import opened BankFunding
  import opened LeaseFunding
  import opened FundingInvariant
  import opened MoneySteps
  import opened LeaseSteps
  import opened FundingProtocol

  /** No run makes a workflow move throw, a unique index fire, a re-read row go missing or an argument check fail:
      a transaction can abort only because the database refuses what an adapter said. */
  lemma OnlyRefusalsThrow(cfg: Config, w: World)
    requires ValidConfig(cfg) && Reachable(cfg, w)
    ensures w.faults <= REFUSALS
  {
    hide DbInv, Reachable;
    ReachableInv(cfg, w);
  }

  /** The texts of a bank answer, as it is recorded, do not fit; or a refusal names an impossible amount. */
  predicate BankAnswerRefused(maxLoan: real, eligibility: AssessmentRow, r: BankResponse) {
    var settles := !BlankOption(r.reference)
                   && (r.status == Declined || (r.status == Approved && AcceptableLoan(r.approvedLoan, eligibility)));
    || !BankTextsFit(r, if settles then NormalizeOptional(r.reference) else r.reference)
    || (settles && r.status == Declined && r.approvedLoan.Some? && !(0.0 <= r.approvedLoan.value <= maxLoan))
  }

  /** Evidence that agrees with the contract on record, if there is one. */
  predicate SameParties(db: Db, e: Evidence) {
    db.contract.Some? ==> db.contract.value.owner == e.owner && db.contract.value.property == e.property
  }

  predicate EvidenceRefused(cfg: Config, db: Db, r: EvidenceResponse, ownerExists: bool) {
    if r.status != EvidenceConfirmed then !EvidenceTextsFit(r)
    else
      match ValidateEvidence(cfg, r)
      case None => !EvidenceTextsFit(r.(reason := Some(EVIDENCE_INVALID)))
      case Some(e) =>
        && !EvidenceTextsFit(r.(reason := None))
        && (!ownerExists || SameParties(db, e))
  }

  /** The database refuses the answer a waiting call brings back, or the snapshot it is about to capture. */
  predicate Refused(cfg: Config, db: Db, p: Proc, answer: Answer)
    requires Awaits(p, answer)
  {
    match p
    case IdentityAsking(_) =>
      db.identity.Some? && !IsTerminal(db.identity.value.status) && !IdentityTextsFit(answer.identity)
    case ContractAsking(_, _) =>
      db.status == PropertyContractPending && EvidenceRefused(cfg, db, answer.evidence, answer.ownerExists)
    case ContractCapturing(_, _, e) => db.terms.None? && !Storable(e)
    case GradeAsking(_) => !HasDecision(db) && !GradeTextsFit(answer.grade)
    case BankAsking(cap) =>
      db.status == BankApprovalPending && db.approval.Some?
      && BankAnswerRefused(db.approval.value.maxLoan, cap.eligibility, answer.bank)
    case FreezeAsking(_, _, _) =>
      db.status == FundingPending
      && (!FreezeTextsFit(answer.freeze)
          || (ConfirmsFreeze(answer.freeze) && !FitsOption(answer.freeze.fundReference, REFERENCE_LENGTH)))
    case ContributionAsking(_, al, _, _) =>
      var r := answer.contribution;
      db.contribution.None?
      && (!ContributionTextsFit(r)
          || (ConfirmsContribution(r, al.contribution) && !Fits(Trim(r.fundReference.value), REFERENCE_LENGTH)))
    case _ => false
  }

  /** First transactions never throw, and a later one exactly when the database refuses the answer: it is then lost,
      and the rows stay as they were. */
  lemma AnswerIsLostIff(cfg: Config, w: World, pid: nat, answer: Answer, freshId: Guid)
    requires ValidConfig(cfg) && Reachable(cfg, w) && freshId != 0
    requires pid in w.procs && Awaits(w.procs[pid], answer)
    ensures var tx := Proceed(cfg, w.db, w.procs[pid], answer, freshId);
            && (tx.Throw? <==> Refused(cfg, w.db, w.procs[pid], answer))
            && (tx.Throw? ==> Settle(w, pid, tx).db == w.db && tx.fault in REFUSALS)
  {
    hide DbInv, ProcInv, Proceed, Refused;
    ReachableInv(cfg, w);
    assert ProcInv(cfg, w.received, w.db, w.procs[pid]);
    ThrowsIff(cfg, w.received, w.db, w.procs[pid], answer, freshId);
  }

  lemma ThrowsIff(cfg: Config, received: set<Evidence>, db: Db, p: Proc, answer: Answer, freshId: Guid)
    requires ValidConfig(cfg) && DbInv(cfg, received, db) && ProcInv(cfg, received, db, p)
    requires Awaits(p, answer) && freshId != 0
    ensures var tx := Proceed(cfg, db, p, answer, freshId);
            && (tx.Throw? <==> Refused(cfg, db, p, answer))
            && (tx.Throw? ==> tx.fault in REFUSALS)
  {
    hide DbInv, ProcInv, IdentityAnswer, ContractAnswer, Capture, Finalize, GradeAnswer, BankAnswer, FreezeStart,
         FreezeAnswer, ContributionAnswer, AdvanceNext, EvidenceRefused, BankAnswerRefused, Storable,
         IdentityTextsFit, GradeTextsFit, FreezeTextsFit, ContributionTextsFit, ConfirmsContribution, ConfirmsFreeze,
         FitsOption, Fits, HasDecision;
    match p
    case IdentityAsking(id) => IdentityThrowsIff(cfg, received, db, id, answer.identity);
    case ContractAsking(id, plan) =>
      EvidenceThrowsIff(cfg, received, db, id, plan, answer.evidence, answer.ownerExists, freshId);
    case ContractCapturing(id, contractId, e) => CaptureThrowsIff(cfg, received, db, id, contractId, e);
    case ContractFinalizing(id, contractId, snapshot) =>
      FinalizeNeverThrows(cfg, received, db, id, contractId, snapshot);
    case GradeAsking(id) => GradeThrowsIff(cfg, received, db, id, answer.grade);
    case BankAsking(cap) => BankThrowsIff(cfg, received, db, cap, answer.bank, freshId);
    case AllocationReading(contractId) => AllocationReadNeverThrows(cfg, received, db, contractId);
    case FreezeStarting(contractId, al) => FreezeStartNeverThrows(cfg, received, db, contractId, al, freshId);
    case FreezeAsking(contractId, al, freezeId) =>
      FreezeThrowsIff(cfg, received, db, contractId, al, freezeId, answer.freeze);
    case ContributionAsking(contractId, al, fundingId, transferId) =>
      ContributionThrowsIff(cfg, received, db, contractId, al, fundingId, transferId, answer.contribution);
    case Advancing(seen, tables) => AdvanceNeverThrows(cfg, received, db, seen, tables);
  }

  lemma IdentityThrowsIff(cfg: Config, received: set<Evidence>, db: Db, id: Guid, r: IdentityResponse)
    requires DbInv(cfg, received, db) && ProcInv(cfg, received, db, IdentityAsking(id)) && r.outcome != IdentityWaiting
    ensures db.identity.Some?
    ensures IdentityAnswer(db, id, r).Throw? <==> !IsTerminal(db.identity.value.status) && !IdentityTextsFit(r)
    ensures IdentityAnswer(db, id, r).Throw? ==> IdentityAnswer(db, id, r).fault in REFUSALS
  {
    hide DbInv, IdentityTextsFit;
  }

  lemma EvidenceThrowsIff(cfg: Config, received: set<Evidence>, db: Db, id: Guid, plan: PlanKey, r: EvidenceResponse,
                          ownerExists: bool, freshId: Guid)
    requires DbInv(cfg, received, db) && ProcInv(cfg, received, db, ContractAsking(id, plan))
    ensures var tx := ContractAnswer(cfg, db, id, plan, r, ownerExists, freshId);
            && (tx.Throw? <==> db.status == PropertyContractPending && EvidenceRefused(cfg, db, r, ownerExists))
            && (tx.Throw? ==> tx.fault in REFUSALS)
  {
    hide Trim, TrustedTerms, TermsOf, FullDeposit, MaximumLoan, LoanRatio, ValidMonths, CreditPath, LeasePath,
         Reachable, ValidEvidence, FrozenEvidence, ByNumber, SupportedDate, Fits;
    if ValidateEvidence(cfg, r).Some? {
      EvidenceAccepted(cfg, r);
    }
  }

  lemma CaptureThrowsIff(cfg: Config, received: set<Evidence>, db: Db, id: Guid, contractId: Guid, e: Evidence)
    requires DbInv(cfg, received, db) && ProcInv(cfg, received, db, ContractCapturing(id, contractId, e))
    ensures var tx := Capture(cfg, db, id, contractId, e);
            && (tx.Throw? <==> db.terms.None? && !Storable(e))
            && (tx.Throw? ==> tx.fault in REFUSALS)
  {
    hide Trim, TrustedTerms, TermsOf, FullDeposit, MaximumLoan, LoanRatio, ValidMonths, CreditPath, LeasePath,
         Reachable, ValidEvidence, FrozenEvidence, Fits, KeptTime, ValidCommand;
    EvidenceIsACommand(cfg, contractId, e);
    CapturableContract(cfg, received, db);
  }

  lemma CapturableContract(cfg: Config, received: set<Evidence>, db: Db)
    requires DbInv(cfg, received, db)
    ensures db.contract.Some? ==> db.contract.value.id != 0
    ensures db.terms.Some? ==> db.contract.Some? && db.terms.value.contractId == db.contract.value.id
    ensures db.terms.None? ==> db.assessment.None? && db.allocation.None?
    ensures db.contract.Some? && db.allocation.None? ==> db.contract.value.status == LeaseDraft
  {
    hide Trim, TrustedTerms, FullDeposit, MaximumLoan, LoanRatio, ValidMonths, CreditPath, LeasePath, ValidEvidence,
         FrozenEvidence;
  }

  lemma FinalizeNeverThrows(cfg: Config, received: set<Evidence>, db: Db, id: Guid, contractId: Guid, snapshot: Terms)
    requires DbInv(cfg, received, db) && ProcInv(cfg, received, db, ContractFinalizing(id, contractId, snapshot))
    ensures !Finalize(cfg, db, id, contractId, snapshot).Throw?
  {
    hide DbInv, Trim, Binding, SourceMatches;
  }

  lemma GradeThrowsIff(cfg: Config, received: set<Evidence>, db: Db, id: Guid, r: GradeResponse)
    requires ValidConfig(cfg) && DbInv(cfg, received, db) && ProcInv(cfg, received, db, GradeAsking(id))
    ensures var tx := GradeAnswer(cfg, db, id, r);
            && (tx.Throw? <==> !HasDecision(db) && !GradeTextsFit(r))
            && (tx.Throw? ==> tx.fault in REFUSALS)
  {
    hide Trim, FullDeposit, MaximumLoan, LoanRatio, ValidMonths, CreditPath, LeasePath, ValidEvidence, FrozenEvidence,
         GradeTextsFit, NormalizeOptional;
  }

  lemma PendingHasNoAllocation(cfg: Config, received: set<Evidence>, db: Db)
    requires DbInv(cfg, received, db)
    ensures db.status == BankApprovalPending ==> db.allocation.None?
    ensures db.approval.Some? ==> db.assessment.Some? && db.assessment.value.maxLoan.Some?
                                  && WholeNonNegative(db.assessment.value.full)
                                  && db.approval.value.maxLoan == db.assessment.value.maxLoan.value
  {
    hide Trim, TermsOf, FullDeposit, MaximumLoan, LoanRatio, ValidMonths, CreditPath, LeasePath, ValidEvidence,
         FrozenEvidence;
  }

  lemma BankThrowsIff(cfg: Config, received: set<Evidence>, db: Db, cap: BankCapture, r: BankResponse, freshId: Guid)
    requires ValidConfig(cfg) && DbInv(cfg, received, db) && ProcInv(cfg, received, db, BankAsking(cap))
    ensures db.approval.Some?
    ensures var tx := BankAnswer(db, cap, r, freshId);
            && (tx.Throw? <==> db.status == BankApprovalPending
                               && BankAnswerRefused(db.approval.value.maxLoan, cap.eligibility, r))
            && (tx.Throw? ==> tx.fault in REFUSALS)
  {
    hide Trim, TrustedTerms, TermsOf, FullDeposit, MaximumLoan, LoanRatio, ValidMonths, CreditPath, LeasePath,
         Reachable, ValidEvidence, FrozenEvidence, BankTextsFit, Fits, KeptOption, DbInv;
    BankAnswerSafe(cfg, received, db, cap, r, freshId);
    PendingHasNoAllocation(cfg, received, db);
  }

  lemma AllocationReadNeverThrows(cfg: Config, received: set<Evidence>, db: Db, contractId: Guid)
    requires ProcInv(cfg, received, db, AllocationReading(contractId))
    ensures !AllocationRead(db, contractId).Throw?
  {
  }

  lemma FreezeStartNeverThrows(cfg: Config, received: set<Evidence>, db: Db, contractId: Guid, al: AllocationRow,
                               freshId: Guid)
    requires DbInv(cfg, received, db) && ProcInv(cfg, received, db, FreezeStarting(contractId, al))
    ensures !FreezeStart(cfg, db, contractId, al, freshId).Throw?
  {
    hide Trim, TrustedTerms, TermsOf, FullDeposit, MaximumLoan, LoanRatio, ValidMonths, CreditPath, LeasePath,
         Reachable, ValidEvidence, FrozenEvidence;
  }

  lemma FreezeThrowsIff(cfg: Config, received: set<Evidence>, db: Db, contractId: Guid, al: AllocationRow,
                        freezeId: Guid, r: FreezeResponse)
    requires DbInv(cfg, received, db) && ProcInv(cfg, received, db, FreezeAsking(contractId, al, freezeId))
    ensures var tx := FreezeAnswer(cfg, db, contractId, al, freezeId, r);
            && (tx.Throw? <==>
                && db.status == FundingPending
                && (!FreezeTextsFit(r) || (ConfirmsFreeze(r) && !FitsOption(r.fundReference, REFERENCE_LENGTH))))
            && (tx.Throw? ==> tx.fault in REFUSALS)
            && (tx == Reject(InvalidState) <==> db.status != FundingPending)
            && (tx.Commit? ==> (tx.db.status == ApprovedFunded <==> ConfirmsFreeze(r)))
  {
    hide Trim, TrustedTerms, TermsOf, FullDeposit, MaximumLoan, LoanRatio, ValidMonths, CreditPath, LeasePath,
         Reachable, ValidEvidence, FrozenEvidence, FreezeTextsFit, ConfirmsFreeze, FitsOption, FreezeRecorded;
  }

  lemma ContributionThrowsIff(cfg: Config, received: set<Evidence>, db: Db, contractId: Guid, al: AllocationRow,
                              fundingId: Guid, transferId: Guid, r: ContributionResponse)
    requires ValidConfig(cfg) && DbInv(cfg, received, db)
    requires ProcInv(cfg, received, db, ContributionAsking(contractId, al, fundingId, transferId))
    ensures var tx := ContributionAnswer(db, contractId, al, fundingId, transferId, r);
            && (tx.Throw? <==>
                && db.contribution.None?
                && (!ContributionTextsFit(r)
                    || (ConfirmsContribution(r, al.contribution)
                        && !Fits(Trim(r.fundReference.value), REFERENCE_LENGTH))))
            && (tx.Throw? ==> tx.fault in REFUSALS)
  {
    hide Trim, TrustedTerms, TermsOf, FullDeposit, MaximumLoan, LoanRatio, ValidMonths, CreditPath, LeasePath,
         Reachable, ValidEvidence, ContributionTextsFit, Fits;
    ContributionAnswerSafe(cfg, received, db, contractId, al, fundingId, transferId, r);
    if ConfirmsContribution(r, al.contribution) && db.contribution.None? {
      ContributionConfirmedSafe(cfg, received, db, contractId, al, fundingId, transferId, r);
    }
  }

  lemma AdvanceNeverThrows(cfg: Config, received: set<Evidence>, db: Db, seen: Db, tables: nat)
    ensures !AdvanceNext(cfg, db, seen, tables).Throw?
  {
    hide AllocationBinding, FrozenEvidence, ZeroReadiness, PositiveReadiness, TermsReadiness;
  }

  lemma BeginNeverThrows(cfg: Config, w: World, call: Call, freshId: Guid, otherId: Guid)
    requires ValidConfig(cfg) && Reachable(cfg, w)
    ensures !Begin(cfg, w.db, call, freshId, otherId).Throw?
  {
    hide DbInv, Reachable, Submit, SelectPlan, IdentityStart, ContractStart, GradeStart, BankStart, ContributionStart,
         AdvanceStart;
    ReachableInv(cfg, w);
    match call
    case BankCall(user) => BankStartNeverThrows(cfg, w.received, w.db, user, freshId);
    case ContributionCall => ContributionStartNeverThrows(cfg, w.received, w.db, freshId, otherId);
    case GradeCall(user) => GradeStartNeverThrows(cfg, w.db, user, freshId);
    case ContractCall(user) => ContractStartNeverThrows(cfg, w.db, user, freshId);
    case _ => SimpleStartsNeverThrow(cfg, w.db, call, freshId, otherId);
  }

  lemma SimpleStartsNeverThrow(cfg: Config, db: Db, call: Call, freshId: Guid, otherId: Guid)
    requires call.SubmitCall? || call.PlanCall? || call.IdentityCall? || call.AdvanceCall?
    ensures !Begin(cfg, db, call, freshId, otherId).Throw?
  {
    hide Trim;
  }

  lemma GradeStartNeverThrows(cfg: Config, db: Db, user: Guid, freshId: Guid)
    ensures !GradeStart(cfg, db, user, freshId).Throw?
  {
    hide TrustedDeposit;
  }

  lemma ContractStartNeverThrows(cfg: Config, db: Db, user: Guid, freshId: Guid)
    ensures !ContractStart(cfg, db, user, freshId).Throw?
  {
    hide Trim;
  }

  lemma BankStartNeverThrows(cfg: Config, received: set<Evidence>, db: Db, user: Guid, freshId: Guid)
    requires ValidConfig(cfg) && DbInv(cfg, received, db)
    ensures !BankStart(cfg, db, user, freshId).Throw?
  {
    hide Trim, MatchesTrustedSnapshot, AllocationMatches, DbInv;
    if db.allocation.Some? {
      AllocationAlwaysMatches(cfg, received, db);
    }
  }

  lemma ContributionStartNeverThrows(cfg: Config, received: set<Evidence>, db: Db, fundingId: Guid, transferId: Guid)
    requires DbInv(cfg, received, db)
    ensures !ContributionStart(cfg, db, fundingId, transferId).Throw?
  {
    hide Trim, TrustedTerms, TermsOf, FullDeposit, MaximumLoan, LoanRatio, ValidMonths, CreditPath, LeasePath,
         Reachable, ValidEvidence, FrozenEvidence;
  }

  /** A bank's answer is lost exactly when it comes in time, and the provider's name, the reason code or the reference
      is too long (the reference counts trimmed when the answer settles the request, and as it came otherwise), or it is
      a refusal that also names an amount below zero or above the ceiling. */
  lemma BankAnswerIsLostIff(cfg: Config, w: World, pid: nat, r: BankResponse, freshId: Guid)
    requires ValidConfig(cfg) && Reachable(cfg, w) && pid in w.procs && w.procs[pid].BankAsking?
    ensures w.db.approval.Some?
    ensures var eligibility := w.procs[pid].capture.eligibility;
            var settles := !BlankOption(r.reference)
                           && (r.status == Declined
                               || (r.status == Approved && AcceptableLoan(r.approvedLoan, eligibility)));
            BankAnswer(w.db, w.procs[pid].capture, r, freshId).Throw? <==>
            && w.db.status == BankApprovalPending
            && (|| !Fits(Trim(r.provider), 128)
                || !FitsOption(r.reason, 256)
                || (settles && !Fits(Trim(r.reference.value), 256))
                || (!settles && !FitsOption(r.reference, 256))
                || (settles && r.status == Declined && r.approvedLoan.Some?
                    && !(0.0 <= r.approvedLoan.value <= w.db.approval.value.maxLoan)))
  {
    hide DbInv, ProcInv, Reachable, Trim, Fits, AcceptableLoan, BankAnswer;
    ReachableInv(cfg, w);
    assert ProcInv(cfg, w.received, w.db, w.procs[pid]);
    BankThrowsIff(cfg, w.received, w.db, w.procs[pid].capture, r, freshId);
  }
}
