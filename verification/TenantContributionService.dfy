/** `EfTenantContributionFundingService`: its two transactions as they change tracked rows, against their
    specifications. */
module TenantContributionService {
  import opened Texts
  import opened Columns
  import opened Rial
  import opened Workflows
  import opened FundingRows
  import opened BankFunding
  import opened LeaseFunding
  import opened FundingContext

  class TenantContributionFundingService {
    const cfg: Config
    const context: DbContext

    constructor (cfg: Config, context: DbContext)
      ensures this.cfg == cfg && this.context == context
    {
      this.cfg := cfg;
      this.context := context;
    }

    /** The branch for a contribution that exists, in either transaction: rolled back, or a `SingleAsync` that finds no
        row. */
    method ReplayContribution(allocation: AllocationRow, contribution: ContributionRow) returns (end: End)
      modifies context`tracked
      ensures var tx := ExistingContribution(old(context.tracked), allocation, contribution);
              end == EndOf(tx) && !tx.Commit?
    {
      var journal := JournalOf(context.tracked, allocation);
      if contribution.allocationId != allocation.id || contribution.amount != allocation.contribution || journal.None? {
        context.Rollback();
        return Done(Return(InvalidState));
      }
      var funding := FundingOf(context.tracked, allocation);
      if funding.None? || context.tracked.transfer.None?
         || context.tracked.transfer.value.id != funding.value.transferId
      {
        context.Rollback();
        return Threw(MissingRow);
      }
      context.Rollback();
      end := Done(Return(AlreadyReconciled));
    }

    /** First transaction of `ReconcileAsync`. */
    method Start(fundingId: Guid, transferId: Guid) returns (end: End)
      modifies context
      ensures var tx := ContributionStart(cfg, old(context.rows), fundingId, transferId);
              end == EndOf(tx) && context.rows == After(old(context.rows), tx)
    {
      hide ExistingContribution;
      context.BeginTransaction();
      if context.tracked.allocation.None? {
        context.Rollback();
        return Done(Return(InvalidState));
      }
      var allocation := context.tracked.allocation.value;
      var contract := context.tracked.contract;
      if contract.None? || contract.value.id != allocation.contractId {
        context.Rollback();
        return Done(Return(InvalidState));
      }
      var contribution := ContributionOf(context.tracked, contract.value.id);
      if contribution.Some? {
        end := ReplayContribution(allocation, contribution.value);
        return;
      }
      if context.tracked.status != ApprovedFunded
         || !PrincipalMatches(context.tracked, allocation, contract.value.id)
         || allocation.contribution <= 0.0
      {
        context.Rollback();
        return Done(Return(InvalidState));
      }
      var funding := FundingOf(context.tracked, allocation);
      var transfer := context.tracked.transfer;
      if funding.None? {
        if context.tracked.funding.Some? || transfer.Some? {
          context.Rollback();
          return Threw(UniqueIndex);
        }
        transfer := Some(TransferRow(transferId, contract.value.id, allocation.id, allocation.contribution,
                                     TransferPending));
        funding := Some(FundingRow(fundingId, allocation.id, transferId, None));
        context.tracked := context.tracked.(transfer := transfer);
        context.tracked := context.tracked.(funding := funding);
      } else {
        if transfer.None? || transfer.value.id != funding.value.transferId
           || transfer.value.amount != allocation.contribution || transfer.value.status == Succeeded
        {
          context.Rollback();
          return Done(Return(InvalidState));
        }
        context.tracked := context.tracked.(transfer := Some(transfer.value.(status := TransferPending)));
      }
      context.Commit();
      end := Done(Continue(ContributionAsking(contract.value.id, allocation, funding.value.id, transfer.value.id)));
    }

    /** Second transaction of `ReconcileAsync`. */
    method ApplyResult(contractId: Guid, allocation: AllocationRow, fundingId: Guid, transferId: Guid,
                       response: ContributionResponse)
      returns (end: End)
      modifies context
      ensures var tx := ContributionAnswer(old(context.rows), contractId, allocation, fundingId, transferId, response);
              end == EndOf(tx) && context.rows == After(old(context.rows), tx)
    {
      hide ExistingContribution, Trim, ContributionTextsFit, Fits, Whole;
      context.BeginTransaction();
      if context.tracked.funding.None? || context.tracked.funding.value.id != fundingId
         || context.tracked.transfer.None? || context.tracked.transfer.value.id != transferId
         || context.tracked.allocation.None? || context.tracked.allocation.value.id != allocation.id
         || context.tracked.contract.None? || context.tracked.contract.value.id != contractId
      {
        context.Rollback();
        return Threw(MissingRow);
      }
      var lockedAllocation := context.tracked.allocation.value;
      var contribution := ContributionOf(context.tracked, contractId);
      if contribution.Some? {
        end := ReplayContribution(lockedAllocation, contribution.value);
        return;
      }
      if context.tracked.status != ApprovedFunded || !PrincipalMatches(context.tracked, lockedAllocation, contractId) {
        context.Rollback();
        return Done(Return(InvalidState));
      }
      var transfer := context.tracked.transfer.value;
      if response.status == ContributionFailed {
        context.tracked := context.tracked.(transfer := Some(transfer.(status := Failed)));
        var saved := context.SaveAndCommit(ContributionTextsFit(response));
        return if saved then Done(Return(TransferFailed)) else Threw(TextTooLong);
      }
      if response.status != ContributionConfirmed
         || response.amount != Some(lockedAllocation.contribution)
         || BlankOption(response.fundReference)
      {
        context.tracked := context.tracked.(transfer := Some(transfer.(status := TransferUnknown)));
        var saved := context.SaveAndCommit(ContributionTextsFit(response));
        return if saved then Done(Return(Indeterminate)) else Threw(TextTooLong);
      }
      end := Post(contractId, lockedAllocation, response);
    }

    /** From the exact confirmation on: funding, transfer, balanced journal entry and contribution, saved together. */
    method Post(contractId: Guid, lockedAllocation: AllocationRow, response: ContributionResponse) returns (end: End)
      requires context.tracked == context.rows && context.rows.funding.Some? && context.rows.transfer.Some?
      requires ConfirmsContribution(response, lockedAllocation.contribution)
      modifies context
      ensures var db := old(context.rows);
              var fundReference := Trim(response.fundReference.value);
              if db.journal.Some? || db.contribution.Some? then end == Threw(UniqueIndex) && context.rows == db
              else if !WholeNonNegative(lockedAllocation.contribution) then
                end == Threw(BadArgument) && context.rows == db
              else if !ContributionTextsFit(response) || !Fits(fundReference, REFERENCE_LENGTH) then
                end == Threw(TextTooLong) && context.rows == db
              else if lockedAllocation.contribution <= 0.0 then end == Threw(CheckConstraint) && context.rows == db
              else
                && end == Done(Return(Reconciled))
                && context.rows == db.(
                     funding := Some(db.funding.value.(fundReference := Some(fundReference))),
                     transfer := Some(db.transfer.value.(status := Succeeded)),
                     journal := Some(JournalRow(lockedAllocation.id, db.transfer.value.id,
                                                lockedAllocation.contribution)),
                     contribution := Some(ContributionRow(contractId, lockedAllocation.id,
                                                          lockedAllocation.contribution, fundReference)))
    {
      hide Trim, ContributionTextsFit, Fits, Whole;
      var normalizedFundReference := Trim(response.fundReference.value);
      var funding, transfer := context.tracked.funding.value, context.tracked.transfer.value;
      var duplicate := context.tracked.journal.Some? || context.tracked.contribution.Some?;
      context.tracked := context.tracked.(
        funding := Some(funding.(fundReference := Some(normalizedFundReference))));
      context.tracked := context.tracked.(transfer := Some(transfer.(status := Succeeded)));
      if duplicate {
        context.Rollback();
        return Threw(UniqueIndex);
      }
      if !WholeNonNegative(lockedAllocation.contribution) {
        context.Rollback();
        return Threw(BadArgument);
      }
      context.tracked := context.tracked.(
        journal := Some(JournalRow(lockedAllocation.id, transfer.id, lockedAllocation.contribution)));
      context.tracked := context.tracked.(
        contribution := Some(ContributionRow(contractId, lockedAllocation.id, lockedAllocation.contribution,
                                             normalizedFundReference)));
      var fits := ContributionTextsFit(response) && Fits(normalizedFundReference, REFERENCE_LENGTH);
      if !fits {
        context.Rollback();
        return Threw(TextTooLong);
      }
      if lockedAllocation.contribution <= 0.0 {
        context.Rollback();
        return Threw(CheckConstraint);
      }
      context.Commit();
      end := Done(Return(Reconciled));
    }
  }
}
