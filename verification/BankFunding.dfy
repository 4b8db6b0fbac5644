/** Bank approval, funding allocation and principal freeze. */
module BankFunding {
  import opened Texts
  import opened Columns
  import opened Rial
  import opened Workflows
  import opened FundingRows

  datatype BankResponse = BankResponse(
    status: BankStatus, provider: string, approvedLoan: Option<real>,
    reference: Option<string>, reason: Option<string>)
  datatype FreezeResponse = FreezeResponse(
    status: FreezeStatus, provider: string, fundReference: Option<string>,
    reference: Option<string>, reason: Option<string>)

  predicate Processable(status: CreditStatus) {
    || status.DecisionReady? || status.BankApprovalPending? || status.FundingPending?
    || status.ExternalCheckIndeterminate? || status.ApprovedFunded?
  }

  predicate UsableEligibility(a: Option<AssessmentRow>) {
    && a.Some?
    && a.value.status == GradeValid
    && a.value.maxLoan.Some? && a.value.maxLoan.value > 0.0
    && a.value.full > 0.0
  }

  /** `MatchesTrustedContractSnapshotAsync`. */
  predicate MatchesTrustedSnapshot(db: Db, contractId: Guid, a: AssessmentRow) {
    && !BlankOption(a.subGrade) && a.maxLoan.Some?
    && db.terms.Some? && db.terms.value.contractId == contractId
    && var t := db.terms.value;
    && t.calendar == CALENDAR && t.termMonths == TERM_MONTHS
    && t.full == a.full && t.full > 0.0 && Whole(t.full)
    && !Blank(t.source)
    && WholeNonNegative(t.cash) && WholeNonNegative(t.rent)
    && LoanRatio(a.subGrade.value).Some?
    && FullDeposit(t.cash, t.rent) == t.full
    && MaximumLoan(t.full, LoanRatio(a.subGrade.value).value) == a.maxLoan.value
    && ValidMonths(t.months)
  }

  /** `AllocationMatchesTrustedState`; None stands for the exception of the contribution calculator. */
  function AllocationMatches(al: AllocationRow, contractId: Guid, key: PlanKey, plan: PlanRow,
                             a: AssessmentRow): Option<bool> {
    if a.maxLoan.None?
       || al.contractId != contractId || al.plan != key || al.bankId != plan.bankId
       || al.full != a.full || al.maxLoan != a.maxLoan.value
       || al.loan <= 0.0 || !Whole(al.loan) || al.loan > a.maxLoan.value
    then Some(false)
    else if !WholeNonNegative(a.full) || al.loan > a.full then None
    else Some(al.contribution == a.full - al.loan)
  }

  function PrincipalOf(db: Db, contractId: Guid): Option<PrincipalRow> {
    if db.principal.Some? && db.principal.value.contractId == contractId then db.principal else None
  }

  /** First transaction of `ProcessAsync`. */
  function BankStart(cfg: Config, db: Db, user: Guid, freshId: Guid): Tx {
    if user != cfg.applicant then Reject(NotFound)
    else if db.status == ApprovedFunded then
      Reject(if db.contract.Some? && PrincipalOf(db, db.contract.value.id).Some? && db.allocation.Some?
             then AlreadyFunded else InvalidState)
    else if !Processable(db.status) then Reject(InvalidState)
    else if !UsableEligibility(db.assessment) || db.contract.None? || db.plan.None? || Blank(db.plan.value.version)
            || db.contract.value.tenant != user || db.contract.value.plan != db.plan.value
            || !MatchesTrustedSnapshot(db, db.contract.value.id, db.assessment.value)
    then Reject(InvalidState)
    else
      var key, contract, a := db.plan.value, db.contract.value, db.assessment.value;
      if key !in cfg.catalogue || cfg.catalogue[key].termMonths != TERM_MONTHS then Reject(InvalidState)
      else
        var plan := cfg.catalogue[key];
        if db.approval.Some? && db.approval.value.maxLoan != a.maxLoan.value then Reject(Conflict)
        else
          match (if db.allocation.Some? then AllocationMatches(db.allocation.value, contract.id, key, plan, a)
                 else Some(true))
          case None => Throw(BadArgument)
          case Some(false) => Reject(Conflict)
          case Some(true) => BankRequest(db, plan, freshId)
  }

  /** The end of the first transaction: approval row, status move, and what the call goes on with. */
  function BankRequest(db: Db, plan: PlanRow, freshId: Guid): Tx
    requires db.plan.Some? && db.contract.Some? && UsableEligibility(db.assessment)
  {
    var approval := if db.approval.Some? then db.approval.value
                    else ApprovalRow(freshId, BankUnclear, db.assessment.value.maxLoan.value, None, None);
    var requested := db.(approval := Some(approval));
    var capture := BankCapture(approval.id, db.contract.value.id, db.plan.value, plan, db.assessment.value);
    var andThen :=
      if db.allocation.None? then Continue(BankAsking(capture))
      else Continue(FreezeStarting(db.contract.value.id, db.allocation.value));
    if db.status == DecisionReady then CommitMove(requested, BankApprovalPending, andThen)
    else if db.status == ExternalCheckIndeterminate then
      CommitMove(requested, if db.allocation.None? then BankApprovalPending else FundingPending, andThen)
    else if db.status == FundingPending && db.allocation.None? then Reject(InvalidState)
    else Commit(requested, andThen)
  }

  /** The amount test a bank approval must pass. */
  predicate AcceptableLoan(loan: Option<real>, a: AssessmentRow) {
    && loan.Some? && loan.value > 0.0 && Whole(loan.value)
    && (a.maxLoan.Some? ==> loan.value <= a.maxLoan.value)
    && loan.value <= a.full
  }

  /** The database refuses an approval row whose amount is negative or above its ceiling. */
  predicate ApprovalCheck(row: ApprovalRow) {
    row.approvedLoan.Some? ==> 0.0 <= row.approvedLoan.value <= row.maxLoan
  }

  /** The provider goes into the approval row trimmed, the reason code as it comes, the reference either way. */
  predicate BankTextsFit(r: BankResponse, reference: Option<string>) {
    && Fits(Trim(r.provider), PROVIDER_LENGTH)
    && FitsOption(reference, REFERENCE_LENGTH) && FitsOption(r.reason, REASON_LENGTH)
  }

  /** `ApplyBankResultAsync`. */
  function BankAnswer(db: Db, cap: BankCapture, r: BankResponse, freshId: Guid): Tx {
    if db.approval.None? || db.approval.value.id != cap.approvalId
       || db.contract.None? || db.contract.value.id != cap.contractId then Throw(MissingRow)
    else if db.status != BankApprovalPending then Reject(InvalidState)
    else
      var reference := NormalizeOptional(r.reference);
      var recorded := db.approval.value.(status := r.status, approvedLoan := r.approvedLoan, reference := reference);
      if r.status == Declined && reference.Some? then
        if !BankTextsFit(r, reference) then Throw(TextTooLong)
        else if !ApprovalCheck(recorded) then Throw(CheckConstraint)
        else CommitMove(db.(approval := Some(recorded)), Rejected, Return(BankDeclined))
      else if r.status != Approved || reference.None? || !AcceptableLoan(r.approvedLoan, cap.eligibility) then
        var unclear := recorded.(status := BankUnclear, approvedLoan := None,
                                 reference := KeptOption(r.reference, REFERENCE_LENGTH));
        Save(BankTextsFit(r, r.reference),
             CommitMove(db.(approval := Some(unclear)), ExternalCheckIndeterminate, Return(BankIndeterminate)))
      else if cap.eligibility.maxLoan.None? || !WholeNonNegative(cap.eligibility.full) then Throw(BadArgument)
      else if !BankTextsFit(r, reference) then Throw(TextTooLong)
      else if !ApprovalCheck(recorded) then Throw(CheckConstraint)
      else if db.allocation.Some? then Throw(UniqueIndex)
      else
        var loan := r.approvedLoan.value;
        var al := AllocationRow(freshId, cap.contractId, cap.planKey, cap.plan.bankId, cap.eligibility.full,
                                cap.eligibility.maxLoan.value, loan, cap.eligibility.full - loan);
        CommitMove(db.(approval := Some(recorded),
                       allocation := Some(al),
                       contract := Some(db.contract.value.(plan := cap.planKey))),
                   FundingPending, Continue(AllocationReading(cap.contractId)))
  }

  /** The untracked `SingleAsync` between approval and freeze. */
  function AllocationRead(db: Db, contractId: Guid): Tx {
    if db.allocation.None? then Throw(MissingRow)
    else Rollback(Continue(FreezeStarting(contractId, db.allocation.value)))
  }

  /** First transaction of `FreezePrincipalAsync`. */
  function FreezeStart(cfg: Config, db: Db, contractId: Guid, al: AllocationRow, freshId: Guid): Tx {
    if db.contract.None? || db.contract.value.id != contractId then Throw(MissingRow)
    else if db.status == ApprovedFunded && PrincipalOf(db, contractId).Some? then Reject(AlreadyFunded)
    else if db.status != FundingPending then Reject(InvalidState)
    else if db.freeze.Some? && db.freeze.value.allocationId == al.id then
      Commit(db, Continue(FreezeAsking(contractId, al, db.freeze.value.id)))
    else if db.freeze.Some? then Throw(UniqueIndex)
    else
      var row := FreezeRow(freshId, al.id, cfg.fundProvider, FreezeUnclear, None, None);
      Commit(db.(freeze := Some(row)), Continue(FreezeAsking(contractId, al, freshId)))
  }

  /** The freeze row takes provider trimmed, reference and reason code as they come. */
  predicate FreezeTextsFit(r: FreezeResponse) {
    && Fits(Trim(r.provider), PROVIDER_LENGTH)
    && FitsOption(r.reference, REFERENCE_LENGTH) && FitsOption(r.reason, REASON_LENGTH)
  }

  function FreezeRecorded(cfg: Config, row: FreezeRow, r: FreezeResponse): FreezeRow {
    row.(provider := ProviderOr(r.provider, cfg.fundProvider), status := r.status,
         fundReference := KeptOption(r.fundReference, REFERENCE_LENGTH),
         reference := KeptOption(r.reference, REFERENCE_LENGTH))
  }

  /** A confirmation with both references. */
  predicate ConfirmsFreeze(r: FreezeResponse) {
    r.status == FreezeConfirmed && !BlankOption(r.fundReference) && !BlankOption(r.reference)
  }

  /** Second transaction of `FreezePrincipalAsync`. */
  function FreezeAnswer(cfg: Config, db: Db, contractId: Guid, al: AllocationRow, freezeId: Guid,
                        r: FreezeResponse): Tx {
    if db.contract.None? || db.contract.value.id != contractId
       || db.freeze.None? || db.freeze.value.id != freezeId then Throw(MissingRow)
    else if db.status != FundingPending then Reject(InvalidState)
    else
      var existing := PrincipalOf(db, contractId);
      var recorded := FreezeRecorded(cfg, db.freeze.value, r);
      if !ConfirmsFreeze(r) then
        Save(FreezeTextsFit(r),
             CommitMove(db.(freeze := Some(recorded.(status := FreezeUnclear, fundReference := None))),
                        ExternalCheckIndeterminate, Return(FundingIndeterminate)))
      else
        var fundReference := Trim(r.fundReference.value);
        if existing.Some? && (existing.value.bankId != al.bankId || existing.value.amount != al.loan
                              || existing.value.fundReference != fundReference)
        then Reject(InvalidState)
        else if !FreezeTextsFit(r) || !FitsOption(r.fundReference, REFERENCE_LENGTH) then Throw(TextTooLong)
        else if existing.None? && db.principal.Some? then Throw(UniqueIndex)
        else
          var principal := if existing.Some? then existing.value
                           else PrincipalRow(contractId, al.bankId, al.loan, fundReference);
          CommitMove(db.(freeze := Some(recorded), principal := Some(principal)), ApprovedFunded, Return(Funded))
  }
}
