/** `EfLeaseFundingLifecycleService` and `EfTenantContributionFundingService` as they change rows. */
module LeaseService {
  import opened Texts
  import opened Rial
  import opened Workflows
  import opened FundingRows
  import opened BankFunding
  import opened LeaseFunding
  import opened FundingContext

  const ACTOR := "system:lease-funding-lifecycle"

  class LeaseFundingLifecycleService {
    const cfg: Config
    const context: DbContext

    constructor (cfg: Config, context: DbContext)
      ensures this.cfg == cfg && this.context == context
    {
      this.cfg := cfg;
      this.context := context;
    }

    /** The first statement of `AdvanceAsync` locks the lease row. */
    method LockContract() returns (end: End)
      ensures var tx := AdvanceStart(context.rows);
              end == EndOf(tx) && After(context.rows, tx) == context.rows
    {
      if context.rows.contract.None? {
        return Done(Return(NotFound));
      }
      end := Done(Continue(Advancing(EMPTY.(contract := context.rows.contract), 0)));
    }

    /** Each further statement reads one more table as it is by then; after the last one the call decides. */
    method AdvanceAsync(seen: Db, tables: nat) returns (end: End)
      modifies context
      ensures var tx := AdvanceNext(cfg, old(context.rows), seen, tables);
              end == EndOf(tx) && context.rows == After(old(context.rows), tx)
    {
      hide Advance;
      if tables < ADVANCE_TABLES {
        return Done(Continue(Advancing(ReadTable(context.rows, seen, tables), tables + 1)));
      }
      end := Decide(seen);
    }

    /** Up to three moves counted in one transaction, all undone by a refusal further on. */
    method Decide(seen: Db) returns (end: End)
      modifies context
      ensures var tx := Advance(cfg, seen);
              end == EndOf(tx) && context.rows == Saved(old(context.rows), tx)
    {
      hide Trim, TermsReadiness, PositiveReadiness, ZeroReadiness, FrozenEvidence, AllocationBinding;
      VisibleStart(ACTOR);
      context.tracked := seen;
      if context.tracked.contract.None? {
        context.Rollback();
        return Done(Return(NotFound));
      }
      var contract := context.tracked.contract.value;
      if !Open(contract.status) {
        context.Rollback();
        return Done(Return(AlreadyActivated));
      }
      if contract.tenant != cfg.applicant {
        context.Rollback();
        return Done(Return(InvalidState));
      }
      if context.tracked.allocation.None? || context.tracked.allocation.value.contractId != contract.id {
        context.Rollback();
        return Done(Return(if contract.status == LeaseDraft then NotReady else InvalidState));
      }
      var allocation := context.tracked.allocation.value;
      if !AllocationBinding(contract, allocation) {
        context.Rollback();
        return Done(Return(InvalidState));
      }
      var applied := 0;
      if contract.status == LeaseDraft {
        var moved := context.ApplyLeaseTransition(AwaitingFunding, ACTOR);
        applied := applied + 1;
      }
      if context.tracked.contract.value.status == AwaitingFunding {
        if context.tracked.status != ApprovedFunded {
          context.CommitLease();
          return AdvancedOrNot(applied);
        }
        var principal, freeze := PrincipalOf(context.tracked, contract.id), FreezeOf(context.tracked, allocation);
        if principal.None? || freeze.None? || !FrozenEvidence(allocation, principal.value, freeze.value) {
          context.Rollback();
          return Done(Return(InvalidState));
        }
        var moved := context.ApplyLeaseTransition(AwaitingCompletion, ACTOR);
        applied := applied + 1;
      }
      end := Complete(allocation, applied);
    }

    /** The last stage: tenant contribution, terms snapshot, activation. */
    method Complete(allocation: AllocationRow, appliedBefore: nat) returns (end: End)
      requires context.tracked.contract.Some? && context.tracked.contract.value.status == AwaitingCompletion
      modifies context
      ensures var tx := AdvanceCompletion(old(context.tracked), allocation, appliedBefore);
              end == EndOf(tx) && context.rows == Saved(old(context.rows), tx)
    {
      hide Trim, TermsReadiness, PositiveReadiness, ZeroReadiness;
      VisibleStart(ACTOR);
      var contract := context.tracked.contract.value;
      var applied := appliedBefore;
      var tenant := if allocation.contribution == 0.0
                    then ZeroReadiness(context.tracked, allocation, contract.id)
                    else PositiveReadiness(context.tracked, allocation, contract.id);
      if tenant == Broken {
        context.Rollback();
        return Done(Return(InvalidState));
      }
      if tenant == Waiting {
        context.CommitLease();
        return AdvancedOrNot(applied);
      }
      var ready := ValidateContractTermsSnapshot(allocation, contract.id);
      if ready == Broken {
        context.Rollback();
        return Done(Return(InvalidState));
      }
      if ready == Waiting {
        context.CommitLease();
        return AdvancedOrNot(applied);
      }
      var moved := context.ApplyLeaseTransition(Active, ACTOR);
      applied := applied + 1;
      context.CommitLease();
      end := Done(Return(Activated(applied)));
    }

    /** The lease row and the new moves of a decision, written into the rows as they are by then. */
    static function Saved(rows: Db, tx: Tx): Db {
      if tx.Commit? then rows.(contract := tx.db.contract, leaseLog := rows.leaseLog + tx.db.leaseLog) else rows
    }

    static function AdvancedOrNot(applied: nat): End {
      Done(Return(if applied > 0 then Advanced(applied) else NotReady))
    }

    /** `ValidateContractTermsSnapshotAsync`. */
    method ValidateContractTermsSnapshot(allocation: AllocationRow, contractId: Guid) returns (ready: Readiness)
      ensures ready == TermsReadiness(context.tracked, allocation, contractId)
    {
      hide Trim, FullDeposit, ValidMonths;
      if context.tracked.terms.None? || context.tracked.terms.value.contractId != contractId {
        return Waiting;
      }
      var terms := context.tracked.terms.value;
      if terms.calendar != CALENDAR || terms.termMonths != TERM_MONTHS || terms.full != allocation.full
         || terms.cash < 0.0 || terms.rent < 0.0
         || !Whole(terms.cash) || !Whole(terms.rent) || !Whole(terms.full)
         || Blank(terms.ownerBeneficiary) || Blank(terms.bankBeneficiary) || Blank(terms.source)
         || FullDeposit(terms.cash, terms.rent) != terms.full
      {
        return Broken;
      }
      var ok := CheckSchedule(terms.months);
      ready := if ok then Ready else Broken;
    }
  }
}
