/** Submission, plan selection and identity verification as they change rows. */
module IntakeService {
  import opened Texts
  import opened Columns
  import opened Workflows
  import opened FundingRows
  import opened Intake
  import opened FundingContext

  class CreditApplicationService {
    const cfg: Config
    const context: DbContext

    constructor (cfg: Config, context: DbContext)
      ensures this.cfg == cfg && this.context == context
    {
      this.cfg := cfg;
      this.context := context;
    }

    method SubmitAsync(applicantUserId: Guid) returns (end: End)
      modifies context
      ensures var tx := Submit(cfg, old(context.rows), applicantUserId);
              end == EndOf(tx) && context.rows == After(old(context.rows), tx)
    {
      hide Trim;
      VisibleStart("applicant");
      context.BeginTransaction();
      if applicantUserId != cfg.applicant {
        context.Rollback();
        return Done(Return(NotFound));
      }
      if context.tracked.status == IdentityPending {
        context.Rollback();
        return Done(Return(AlreadySubmitted));
      }
      if context.tracked.status != Draft {
        context.Rollback();
        return Done(Return(InvalidState));
      }
      var moved := context.ApplyTransition(IdentityPending, "applicant");
      context.Commit();
      end := Done(Return(Submitted));
    }

    method SelectBankLoanPlanAsync(applicantUserId: Guid, planId: Guid, planVersion: string, published: bool)
      returns (end: End)
      modifies context
      ensures var tx := SelectPlan(cfg, old(context.rows), applicantUserId, planId, planVersion, published);
              end == EndOf(tx) && context.rows == After(old(context.rows), tx)
    {
      hide Trim;
      VisibleStart("applicant");
      if planId == 0 || Blank(planVersion) {
        return Done(Return(ArgumentRejected));
      }
      var key := PlanKey(planId, Trim(planVersion));
      context.BeginTransaction();
      if applicantUserId != cfg.applicant {
        context.Rollback();
        return Done(Return(NotFound));
      }
      if context.tracked.plan.Some? {
        var same := context.tracked.plan.value == key;
        var usable := key in cfg.catalogue && context.tracked.status != PlanSelectionPending;
        context.Rollback();
        return Done(Return(if !same then Conflict else if !usable then InvalidState else AlreadySelected));
      }
      if context.tracked.status != PlanSelectionPending {
        context.Rollback();
        return Done(Return(InvalidState));
      }
      if key !in cfg.catalogue {
        context.Rollback();
        return Done(Return(PlanMissing));
      }
      if !published || cfg.catalogue[key].termMonths != TERM_MONTHS {
        context.Rollback();
        return Done(Return(PlanUnavailable));
      }
      var moved := context.ApplyTransition(PropertyContractPending, "applicant");
      context.tracked := context.tracked.(plan := Some(key));
      context.Commit();
      end := Done(Return(Selected));
    }

    /** First transaction of `EfCreditApplicationIdentityService.ProcessAsync`. */
    method StartIdentity(freshId: Guid) returns (end: End)
      modifies context
      ensures var tx := IdentityStart(old(context.rows), freshId);
              end == EndOf(tx) && context.rows == After(old(context.rows), tx)
    {
      context.BeginTransaction();
      var request := if context.tracked.identity.Some? then context.tracked.identity.value
                     else IdentityRow(freshId, IdentityWaiting);
      if context.tracked.status != IdentityPending {
        context.Rollback();
        return Done(Return(if IsTerminal(request.status) then AlreadyProcessed else InvalidState));
      }
      if IsTerminal(request.status) {
        context.Rollback();
        return Done(Return(AlreadyProcessed));
      }
      context.tracked := context.tracked.(identity := Some(request));
      context.Commit();
      end := Done(Continue(IdentityAsking(request.id)));
    }

    /** Second transaction of the identity service. */
    method ApplyIdentity(requestId: Guid, response: IdentityResponse) returns (end: End)
      requires response.outcome != IdentityWaiting
      modifies context
      ensures var tx := IdentityAnswer(old(context.rows), requestId, response);
              end == EndOf(tx) && context.rows == After(old(context.rows), tx)
    {
      hide Trim, Fits;
      VisibleStart("identity:");
      context.BeginTransaction();
      if context.tracked.identity.None? || context.tracked.identity.value.id != requestId {
        context.Rollback();
        return Threw(MissingRow);
      }
      if IsTerminal(context.tracked.identity.value.status) {
        context.Rollback();
        return Done(Return(AlreadyProcessed));
      }
      var request := context.tracked.identity.value.(status := response.outcome);
      context.tracked := context.tracked.(identity := Some(request));
      var saved: bool;
      if context.tracked.status != IdentityPending {
        saved := context.SaveAndCommit(IdentityTextsFit(response));
        return if saved then Done(Return(InvalidState)) else Threw(TextTooLong);
      }
      if response.outcome == IdentityUnclear {
        saved := context.SaveAndCommit(IdentityTextsFit(response));
        return if saved then Done(Return(Indeterminate)) else Threw(TextTooLong);
      }
      var target := if response.outcome == Verified then PlanSelectionPending else NeedsDocuments;
      var moved := context.ApplyTransition(target, "identity:");
      saved := context.SaveAndCommit(IdentityTextsFit(response));
      end := if saved then Done(Return(Applied)) else Threw(TextTooLong);
    }
  }
}
