/** `EfBankFundingService`: its three transactions as they change tracked rows, against their specifications. */
module BankFundingService {
  import opened Texts
  import opened Columns
  import opened Rial
  import opened Workflows
  import opened FundingRows
  import opened BankFunding
  import opened FundingContext

  class BankFundingService {
    const cfg: Config
    const context: DbContext

    constructor (cfg: Config, context: DbContext)
      ensures this.cfg == cfg && this.context == context
    {
      this.cfg := cfg;
      this.context := context;
    }

    /** First transaction of `ProcessAsync`. */
    method Start(applicantUserId: Guid, freshId: Guid) returns (end: End)
      modifies context
      ensures var tx := BankStart(cfg, old(context.rows), applicantUserId, freshId);
              end == EndOf(tx) && context.rows == After(old(context.rows), tx)
    {
      hide Trim, MaximumLoan, LoanRatio, FullDeposit, ValidMonths, MatchesTrustedSnapshot, AllocationMatches;
      context.BeginTransaction();
      if applicantUserId != cfg.applicant {
        context.Rollback();
        return Done(Return(NotFound));
      }
      var contract := context.tracked.contract;
      var allocation := context.tracked.allocation;
      if context.tracked.status == ApprovedFunded {
        var principal := if contract.None? then None else PrincipalOf(context.tracked, contract.value.id);
        context.Rollback();
        return Done(Return(if principal.Some? && allocation.Some? then AlreadyFunded else InvalidState));
      }
      if !Processable(context.tracked.status) {
        context.Rollback();
        return Done(Return(InvalidState));
      }
      var usable := UsableEligibility(context.tracked.assessment)
                    && contract.Some?
                    && context.tracked.plan.Some?
                    && !Blank(context.tracked.plan.value.version)
                    && contract.value.tenant == applicantUserId
                    && contract.value.plan == context.tracked.plan.value;
      if usable {
        usable := MatchesTrustedContractSnapshot(contract.value.id, context.tracked.assessment.value);
      }
      if !usable {
        context.Rollback();
        return Done(Return(InvalidState));
      }
      var eligibility := context.tracked.assessment.value;
      var key := context.tracked.plan.value;
      if key !in cfg.catalogue || cfg.catalogue[key].termMonths != TERM_MONTHS {
        context.Rollback();
        return Done(Return(InvalidState));
      }
      var plan := cfg.catalogue[key];
      if context.tracked.approval.Some? && context.tracked.approval.value.maxLoan != eligibility.maxLoan.value {
        context.Rollback();
        return Done(Return(Conflict));
      }
      if allocation.Some? {
        var matches := AllocationMatches(allocation.value, contract.value.id, key, plan, eligibility);
        if matches.None? {
          context.Rollback();
          return Threw(BadArgument);
        }
        if !matches.value {
          context.Rollback();
          return Done(Return(Conflict));
        }
      }
      end := Request(plan, freshId);
    }

    /** `MatchesTrustedContractSnapshotAsync`. */
    method MatchesTrustedContractSnapshot(contractId: Guid, eligibility: AssessmentRow) returns (ok: bool)
      ensures ok == MatchesTrustedSnapshot(context.tracked, contractId, eligibility)
    {
      hide Trim, MaximumLoan, LoanRatio, FullDeposit, ValidMonths;
      if BlankOption(eligibility.subGrade) || eligibility.maxLoan.None? {
        return false;
      }
      if context.tracked.terms.None? {
        return false;
      }
      var terms := context.tracked.terms.value;
      if terms.contractId != contractId
         || terms.calendar != CALENDAR
         || terms.termMonths != TERM_MONTHS
         || terms.full != eligibility.full
         || terms.full <= 0.0
         || !Whole(terms.full)
         || Blank(terms.source)
      {
        return false;
      }
      if !WholeNonNegative(terms.cash) || !WholeNonNegative(terms.rent) {
        return false;
      }
      var ratio := LoanRatio(eligibility.subGrade.value);
      if ratio.None?
         || FullDeposit(terms.cash, terms.rent) != terms.full
         || MaximumLoan(terms.full, ratio.value) != eligibility.maxLoan.value
      {
        return false;
      }
      ok := CheckSchedule(terms.months);
    }

    /** The approval row and the status move, up to the commit. */
    method Request(plan: PlanRow, freshId: Guid) returns (end: End)
      requires context.tracked == context.rows
      requires context.tracked.plan.Some? && context.tracked.contract.Some?
      requires UsableEligibility(context.tracked.assessment)
      modifies context
      ensures var tx := BankRequest(old(context.rows), plan, freshId);
              end == EndOf(tx) && context.rows == After(old(context.rows), tx)
    {
      hide Trim;
      VisibleStart("bank:");
      VisibleStart("system:reconciliation");
      var eligibility := context.tracked.assessment.value;
      var allocation := context.tracked.allocation;
      if context.tracked.approval.None? {
        var added := ApprovalRow(freshId, BankUnclear, eligibility.maxLoan.value, None, None);
        context.tracked := context.tracked.(approval := Some(added));
      }
      var approval := context.tracked.approval.value;
      if context.tracked.status == DecisionReady {
        var moved := context.ApplyTransition(BankApprovalPending, "bank:");
      } else if context.tracked.status == ExternalCheckIndeterminate {
        var target := if allocation.None? then BankApprovalPending else FundingPending;
        var moved := context.ApplyTransition(target, "system:reconciliation");
      }
      if context.tracked.status == FundingPending && allocation.None? {
        context.Rollback();
        return Done(Return(InvalidState));
      }
      context.Commit();
      var contractId := context.tracked.contract.value.id;
      if allocation.None? {
        end := Done(Continue(BankAsking(
          BankCapture(approval.id, contractId, context.tracked.plan.value, plan, eligibility))));
      } else {
        end := Done(Continue(FreezeStarting(contractId, allocation.value)));
      }
    }

    /** `ApplyBankResultAsync`. */
    method ApplyBankResult(captured: BankCapture, response: BankResponse, freshId: Guid) returns (end: End)
      modifies context
      ensures var tx := BankAnswer(old(context.rows), captured, response, freshId);
              end == EndOf(tx) && context.rows == After(old(context.rows), tx)
    {
      hide Trim, Fits;
      VisibleStart("bank:");
      context.BeginTransaction();
      if context.tracked.approval.None? || context.tracked.approval.value.id != captured.approvalId
         || context.tracked.contract.None? || context.tracked.contract.value.id != captured.contractId
      {
        context.Rollback();
        return Threw(MissingRow);
      }
      if context.tracked.status != BankApprovalPending {
        context.Rollback();
        return Done(Return(InvalidState));
      }
      var approval := context.tracked.approval.value.(status := response.status,
                                                      approvedLoan := response.approvedLoan,
                                                      reference := KeptOption(response.reference, REFERENCE_LENGTH));
      var reference := NormalizeOptional(response.reference);
      if response.status == Declined && reference.Some? {
        context.tracked := context.tracked.(approval := Some(approval.(reference := reference)));
        var moved := context.ApplyTransition(Rejected, "bank:");
        if !BankTextsFit(response, reference) {
          context.Rollback();
          return Threw(TextTooLong);
        }
        if !ApprovalCheck(approval) {
          context.Rollback();
          return Threw(CheckConstraint);
        }
        context.Commit();
        return Done(Return(BankDeclined));
      }
      var eligibility := captured.eligibility;
      var approved := response.approvedLoan;
      if response.status != Approved
         || reference.None?
         || approved.None?
         || approved.value <= 0.0
         || !Whole(approved.value)
         || (eligibility.maxLoan.Some? && approved.value > eligibility.maxLoan.value)
         || approved.value > eligibility.full
      {
        context.tracked := context.tracked.(approval := Some(approval.(status := BankUnclear, approvedLoan := None)));
        var moved := context.ApplyTransition(ExternalCheckIndeterminate, "bank:");
        var saved := context.SaveAndCommit(BankTextsFit(response, response.reference));
        return if saved then Done(Return(BankIndeterminate)) else Threw(TextTooLong);
      }
      if eligibility.maxLoan.None? || !WholeNonNegative(eligibility.full) {
        context.Rollback();
        return Threw(BadArgument);
      }
      var loan := approved.value;
      var allocation := AllocationRow(freshId, captured.contractId, captured.planKey, captured.plan.bankId,
                                      eligibility.full, eligibility.maxLoan.value, loan, eligibility.full - loan);
      var contract := context.tracked.contract.value.(plan := captured.planKey);
      var duplicate := context.tracked.allocation.Some?;
      context.tracked := context.tracked.(approval := Some(approval.(reference := reference)),
                                          allocation := Some(allocation),
                                          contract := Some(contract));
      var moved := context.ApplyTransition(FundingPending, "bank:");
      // Saving: text lengths, the approval table's check and the allocation table's unique index.
      if !BankTextsFit(response, reference) {
        context.Rollback();
        return Threw(TextTooLong);
      }
      if !ApprovalCheck(approval) {
        context.Rollback();
        return Threw(CheckConstraint);
      }
      if duplicate {
        context.Rollback();
        return Threw(UniqueIndex);
      }
      context.Commit();
      end := Done(Continue(AllocationReading(captured.contractId)));
    }

    /** The read between approval and freeze. */
    method ReadAllocation(contractId: Guid) returns (end: End)
      ensures var tx := AllocationRead(context.rows, contractId);
              end == EndOf(tx) && After(context.rows, tx) == context.rows
    {
      if context.rows.allocation.None? {
        return Threw(MissingRow);
      }
      end := Done(Continue(FreezeStarting(contractId, context.rows.allocation.value)));
    }

    /** First transaction of `FreezePrincipalAsync`. */
    method RequestFreeze(contractId: Guid, allocation: AllocationRow, freshId: Guid) returns (end: End)
      modifies context
      ensures var tx := FreezeStart(cfg, old(context.rows), contractId, allocation, freshId);
              end == EndOf(tx) && context.rows == After(old(context.rows), tx)
    {
      hide Trim;
      context.BeginTransaction();
      if context.tracked.contract.None? || context.tracked.contract.value.id != contractId {
        context.Rollback();
        return Threw(MissingRow);
      }
      if context.tracked.status == ApprovedFunded && PrincipalOf(context.tracked, contractId).Some? {
        context.Rollback();
        return Done(Return(AlreadyFunded));
      }
      if context.tracked.status != FundingPending {
        context.Rollback();
        return Done(Return(InvalidState));
      }
      var request := context.tracked.freeze;
      if request.None? || request.value.allocationId != allocation.id {
        if request.Some? {
          context.Rollback();
          return Threw(UniqueIndex);
        }
        request := Some(FreezeRow(freshId, allocation.id, cfg.fundProvider, FreezeUnclear, None, None));
        context.tracked := context.tracked.(freeze := request);
      }
      context.Commit();
      end := Done(Continue(FreezeAsking(contractId, allocation, request.value.id)));
    }

    /** Second transaction of `FreezePrincipalAsync`. */
    method ApplyFreezeResult(contractId: Guid, allocation: AllocationRow, freezeId: Guid, response: FreezeResponse)
      returns (end: End)
      modifies context
      ensures var tx := FreezeAnswer(cfg, old(context.rows), contractId, allocation, freezeId, response);
              end == EndOf(tx) && context.rows == After(old(context.rows), tx)
    {
      hide Trim, Fits;
      VisibleStart("fund:");
      context.BeginTransaction();
      if context.tracked.contract.None? || context.tracked.contract.value.id != contractId
         || context.tracked.freeze.None? || context.tracked.freeze.value.id != freezeId
      {
        context.Rollback();
        return Threw(MissingRow);
      }
      if context.tracked.status != FundingPending {
        context.Rollback();
        return Done(Return(InvalidState));
      }
      var existing := PrincipalOf(context.tracked, contractId);
      var request := context.tracked.freeze.value.(provider := ProviderOr(response.provider, cfg.fundProvider),
                                                   status := response.status,
                                                   fundReference := KeptOption(response.fundReference,
                                                                               REFERENCE_LENGTH),
                                                   reference := KeptOption(response.reference, REFERENCE_LENGTH));
      if response.status != FreezeConfirmed || BlankOption(response.fundReference) || BlankOption(response.reference) {
        context.tracked := context.tracked.(freeze := Some(request.(status := FreezeUnclear, fundReference := None)));
        var moved := context.ApplyTransition(ExternalCheckIndeterminate, "fund:");
        var saved := context.SaveAndCommit(FreezeTextsFit(response));
        return if saved then Done(Return(FundingIndeterminate)) else Threw(TextTooLong);
      }
      context.tracked := context.tracked.(freeze := Some(request));
      var fundReference := Trim(response.fundReference.value);
      if existing.Some?
         && (existing.value.bankId != allocation.bankId
             || existing.value.amount != allocation.loan
             || existing.value.fundReference != fundReference)
      {
        context.Rollback();
        return Done(Return(InvalidState));
      }
      var fits := FreezeTextsFit(response) && FitsOption(response.fundReference, REFERENCE_LENGTH);
      if !fits {
        context.Rollback();
        return Threw(TextTooLong);
      }
      if existing.None? {
        if context.tracked.principal.Some? {
          context.Rollback();
          return Threw(UniqueIndex);
        }
        var frozen := PrincipalRow(contractId, allocation.bankId, allocation.loan, fundReference);
        context.tracked := context.tracked.(principal := Some(frozen));
      }
      var moved := context.ApplyTransition(ApprovedFunded, "fund:");
      context.Commit();
      end := Done(Return(Funded));
    }
  }
}
