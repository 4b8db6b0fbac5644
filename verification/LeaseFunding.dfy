/** Tenant contribution funding and the lease's way to activation. */
module LeaseFunding {
  import opened Texts
  import opened Columns
  import opened Rial
  import opened Workflows
  import opened FundingRows
  import opened BankFunding

  datatype ContributionStatus = ContributionConfirmed | ContributionFailed | ContributionUnclear
  datatype ContributionResponse = ContributionResponse(
    status: ContributionStatus, provider: string, amount: Option<real>, fundReference: Option<string>,
    reference: Option<string>, reason: Option<string>)

  /** The transfer row takes provider trimmed, reference and reason code as they come. */
  predicate ContributionTextsFit(r: ContributionResponse) {
    && Fits(Trim(r.provider), PROVIDER_LENGTH)
    && FitsOption(r.reference, REFERENCE_LENGTH) && FitsOption(r.reason, REASON_LENGTH)
  }

  /** A confirmation of exactly this amount with a fund reference. */
  predicate ConfirmsContribution(r: ContributionResponse, amount: real) {
    r.status == ContributionConfirmed && r.amount == Some(amount) && !BlankOption(r.fundReference)
  }

  // ---- tenant contribution funding ----

  function JournalOf(db: Db, al: AllocationRow): Option<JournalRow> {
    if db.journal.Some? && db.journal.value.key == al.id then db.journal else None
  }

  function ContributionOf(db: Db, contractId: Guid): Option<ContributionRow> {
    if db.contribution.Some? && db.contribution.value.contractId == contractId then db.contribution else None
  }

  predicate PrincipalMatches(db: Db, al: AllocationRow, contractId: Guid) {
    var p := PrincipalOf(db, contractId);
    p.Some? && p.value.bankId == al.bankId && p.value.amount == al.loan
  }

  /** What both transactions answer once a contribution exists. */
  function ExistingContribution(db: Db, al: AllocationRow, c: ContributionRow): Tx {
    if c.allocationId != al.id || c.amount != al.contribution || JournalOf(db, al).None? then Reject(InvalidState)
    else if db.funding.None? || db.funding.value.allocationId != al.id
            || db.transfer.None? || db.transfer.value.id != db.funding.value.transferId then Throw(MissingRow)
    else Reject(AlreadyReconciled)
  }

  function ContributionStart(cfg: Config, db: Db, fundingId: Guid, transferId: Guid): Tx {
    if db.allocation.None? then Reject(InvalidState)
    else
      var al := db.allocation.value;
      if db.contract.None? || db.contract.value.id != al.contractId then Reject(InvalidState)
      else if ContributionOf(db, al.contractId).Some? then
        ExistingContribution(db, al, ContributionOf(db, al.contractId).value)
      else if db.status != ApprovedFunded || !PrincipalMatches(db, al, al.contractId) || al.contribution <= 0.0 then
        Reject(InvalidState)
      else if db.funding.Some? && db.funding.value.allocationId == al.id then
        var f := db.funding.value;
        if db.transfer.None? || db.transfer.value.id != f.transferId
           || db.transfer.value.amount != al.contribution || db.transfer.value.status == Succeeded
        then Reject(InvalidState)
        else Commit(db.(transfer := Some(db.transfer.value.(status := TransferPending))),
                    Continue(ContributionAsking(al.contractId, al, f.id, f.transferId)))
      else if db.funding.Some? || db.transfer.Some? then Throw(UniqueIndex)
      else
        Commit(db.(transfer := Some(TransferRow(transferId, al.contractId, al.id, al.contribution, TransferPending)),
                   funding := Some(FundingRow(fundingId, al.id, transferId, None))),
               Continue(ContributionAsking(al.contractId, al, fundingId, transferId)))
  }

  function ContributionAnswer(db: Db, contractId: Guid, al: AllocationRow, fundingId: Guid, transferId: Guid,
                              r: ContributionResponse): Tx {
    if db.funding.None? || db.funding.value.id != fundingId
       || db.transfer.None? || db.transfer.value.id != transferId
       || db.allocation.None? || db.allocation.value.id != al.id
       || db.contract.None? || db.contract.value.id != contractId then Throw(MissingRow)
    else
      var locked := db.allocation.value;
      if ContributionOf(db, contractId).Some? then
        ExistingContribution(db, locked, ContributionOf(db, contractId).value)
      else if db.status != ApprovedFunded || !PrincipalMatches(db, locked, contractId) then Reject(InvalidState)
      else if r.status == ContributionFailed then
        Save(ContributionTextsFit(r),
             Commit(db.(transfer := Some(db.transfer.value.(status := Failed))), Return(TransferFailed)))
      else if !ConfirmsContribution(r, locked.contribution) then
        Save(ContributionTextsFit(r),
             Commit(db.(transfer := Some(db.transfer.value.(status := TransferUnknown))), Return(Indeterminate)))
      else if db.journal.Some? || db.contribution.Some? then Throw(UniqueIndex)
      else if !WholeNonNegative(locked.contribution) then Throw(BadArgument)
      else if !ContributionTextsFit(r) || !Fits(Trim(r.fundReference.value), REFERENCE_LENGTH) then Throw(TextTooLong)
      else if locked.contribution <= 0.0 then Throw(CheckConstraint)
      else
        var reference := Trim(r.fundReference.value);
        Commit(db.(funding := Some(db.funding.value.(fundReference := Some(reference))),
                   transfer := Some(db.transfer.value.(status := Succeeded)),
                   journal := Some(JournalRow(locked.id, transferId, locked.contribution)),
                   contribution := Some(ContributionRow(contractId, locked.id, locked.contribution, reference))),
               Return(Reconciled))
  }

  // ---- lease lifecycle ----

  datatype Readiness = Waiting | Ready | Broken

  /** `HasValidAllocationBinding`. */
  predicate AllocationBinding(c: ContractRow, al: AllocationRow) {
    && al.loan > 0.0 && al.contribution >= 0.0
    && al.full == al.loan + al.contribution
    && c.plan == al.plan
    && !Blank(al.bankId)
  }

  /** `HasValidFrozenPrincipalEvidence`. */
  predicate FrozenEvidence(al: AllocationRow, p: PrincipalRow, f: FreezeRow) {
    && p.bankId == al.bankId && p.amount == al.loan && !Blank(p.fundReference)
    && f.status == FreezeConfirmed && !Blank(f.provider) && !BlankOption(f.fundReference)
    && Trim(p.fundReference) == Trim(f.fundReference.value)
  }

  function FreezeOf(db: Db, al: AllocationRow): Option<FreezeRow> {
    if db.freeze.Some? && db.freeze.value.allocationId == al.id then db.freeze else None
  }

  function FundingOf(db: Db, al: AllocationRow): Option<FundingRow> {
    if db.funding.Some? && db.funding.value.allocationId == al.id then db.funding else None
  }

  /** `ValidateZeroContributionStateAsync`. */
  function ZeroReadiness(db: Db, al: AllocationRow, contractId: Guid): Readiness {
    if ContributionOf(db, contractId).Some? || FundingOf(db, al).Some?
       || (db.transfer.Some? && db.transfer.value.key == al.id)
    then Broken else Ready
  }

  /** `ValidatePositiveContributionStateAsync`. */
  function PositiveReadiness(db: Db, al: AllocationRow, contractId: Guid): Readiness {
    var contribution, funding := ContributionOf(db, contractId), FundingOf(db, al);
    if contribution.None? && funding.None? then Waiting
    else if funding.None? then Broken
    else if db.transfer.None? || db.transfer.value.id != funding.value.transferId then Broken
    else
      var external := db.transfer.value;
      if external.contractId != contractId || external.amount != al.contribution || external.key != al.id then Broken
      else if contribution.None? then
        if (external.status.TransferPending? || external.status.TransferUnknown?) then Waiting else Broken
      else if JournalOf(db, al).None? then Broken
      else if contribution.value.allocationId == al.id && contribution.value.amount == al.contribution
              && !Blank(contribution.value.fundReference) && !BlankOption(funding.value.fundReference)
              && Trim(contribution.value.fundReference) == Trim(funding.value.fundReference.value)
              && external.status == Succeeded
              && JournalOf(db, al).value.transferId == external.id
      then Ready else Broken
  }

  /** `ValidateContractTermsSnapshotAsync`. */
  function TermsReadiness(db: Db, al: AllocationRow, contractId: Guid): Readiness {
    if db.terms.None? || db.terms.value.contractId != contractId then Waiting
    else
      var t := db.terms.value;
      if t.calendar != CALENDAR || t.termMonths != TERM_MONTHS || t.full != al.full
         || !WholeNonNegative(t.cash) || !WholeNonNegative(t.rent) || !Whole(t.full)
         || Blank(t.ownerBeneficiary) || Blank(t.bankBeneficiary) || Blank(t.source)
         || FullDeposit(t.cash, t.rent) != t.full
         || !ValidMonths(t.months)
      then Broken else Ready
  }

  function AdvancedOrNotReady(db: Db, applied: nat): Tx {
    Commit(db, Return(if applied > 0 then Advanced(applied) else NotReady))
  }

  /** What `AdvanceAsync` decides about the rows it has read, its own lease moves included. */
  function Advance(cfg: Config, db: Db): Tx {
    if db.contract.None? then Reject(NotFound)
    else
      var c := db.contract.value;
      if !Open(c.status) then Reject(AlreadyActivated)
      else if c.tenant != cfg.applicant then Reject(InvalidState)
      else if db.allocation.None? || db.allocation.value.contractId != c.id then
        Reject(if c.status == LeaseDraft then NotReady else InvalidState)
      else if !AllocationBinding(c, db.allocation.value) then Reject(InvalidState)
      else if c.status == LeaseDraft then AdvanceFunding(LeaseMoved(db, AwaitingFunding), db.allocation.value, 1)
      else if c.status == AwaitingFunding then AdvanceFunding(db, db.allocation.value, 0)
      else AdvanceCompletion(db, db.allocation.value, 0)
  }

  function AdvanceFunding(db: Db, al: AllocationRow, applied: nat): Tx
    requires db.contract.Some? && db.contract.value.status == AwaitingFunding
  {
    var c := db.contract.value;
    if db.status != ApprovedFunded then AdvancedOrNotReady(db, applied)
    else if PrincipalOf(db, c.id).None? || FreezeOf(db, al).None? then Reject(InvalidState)
    else if !FrozenEvidence(al, PrincipalOf(db, c.id).value, FreezeOf(db, al).value) then Reject(InvalidState)
    else AdvanceCompletion(LeaseMoved(db, AwaitingCompletion), al, applied + 1)
  }

  function AdvanceCompletion(db: Db, al: AllocationRow, applied: nat): Tx
    requires db.contract.Some? && db.contract.value.status == AwaitingCompletion
  {
    var c := db.contract.value;
    var tenant := if al.contribution == 0.0 then ZeroReadiness(db, al, c.id) else PositiveReadiness(db, al, c.id);
    if tenant == Broken then Reject(InvalidState)
    else if tenant == Waiting then AdvancedOrNotReady(db, applied)
    else
      match TermsReadiness(db, al, c.id)
      case Broken => Reject(InvalidState)
      case Waiting => AdvancedOrNotReady(db, applied)
      case Ready => Commit(LeaseMoved(db, Active), Return(Activated(applied + 1)))
  }

  // ---- the transaction, one statement at a time ----

  /** Tables read after the locked lease row. The two statements for the terms read rows that never change. */
  const ADVANCE_TABLES := 9

  /** One more table as it is at this moment; what was read before stays as it was then. */
  function ReadTable(db: Db, seen: Db, table: nat): Db {
    match table
    case 0 => seen.(status := db.status)
    case 1 => seen.(allocation := db.allocation)
    case 2 => seen.(principal := db.principal)
    case 3 => seen.(freeze := db.freeze)
    case 4 => seen.(contribution := db.contribution)
    case 5 => seen.(funding := db.funding)
    case 6 => seen.(transfer := db.transfer)
    case 7 => seen.(journal := db.journal)
    case _ => seen.(terms := db.terms)
  }

  /** The first statement locks the lease row, which is all this transaction ever locks. */
  function AdvanceStart(db: Db): Tx {
    if db.contract.None? then Reject(NotFound)
    else Rollback(Continue(Advancing(EMPTY.(contract := db.contract), 0)))
  }

  /** The next read, or the decision over all that was read; only the lease row and its new moves are saved. */
  function AdvanceNext(cfg: Config, db: Db, seen: Db, tables: nat): Tx {
    if tables < ADVANCE_TABLES then Rollback(Continue(Advancing(ReadTable(db, seen, tables), tables + 1)))
    else
      match Advance(cfg, seen)
      case Commit(decided, andThen) =>
        Commit(db.(contract := decided.contract, leaseLog := db.leaseLog + decided.leaseLog), andThen)
      case other => other
  }
}
