/** `EfCreditEligibilityService` as it changes rows. */
module EligibilityService {
  import opened Texts
  import opened Rial
  import opened Workflows
  import opened FundingRows
  import opened Registration
  import opened Eligibility
  import opened FundingContext

  class CreditEligibilityService {
    const cfg: Config
    const context: DbContext

    constructor (cfg: Config, context: DbContext)
      ensures this.cfg == cfg && this.context == context
    {
      this.cfg := cfg;
      this.context := context;
    }

    /** `LoadTrustedFullDepositEquivalentAsync`. */
    method LoadTrustedFullDeposit() returns (full: Option<real>)
      ensures full == TrustedDeposit(cfg, context.tracked)
    {
      hide Trim, FullDeposit, ValidMonths;
      if context.tracked.plan.None? || Blank(context.tracked.plan.value.version) {
        return None;
      }
      var key := PlanKey(context.tracked.plan.value.planId, Trim(context.tracked.plan.value.version));
      if key !in cfg.catalogue || cfg.catalogue[key].termMonths != TERM_MONTHS {
        return None;
      }
      if context.tracked.contract.None? {
        return None;
      }
      var contract := context.tracked.contract.value;
      if contract.tenant != cfg.applicant || contract.plan != key || context.tracked.terms.None? {
        return None;
      }
      var terms := context.tracked.terms.value;
      if terms.contractId != contract.id
         || terms.calendar != CALENDAR || terms.termMonths != TERM_MONTHS
         || terms.cash < 0.0 || terms.rent < 0.0 || terms.full <= 0.0
         || !Whole(terms.cash) || !Whole(terms.rent) || !Whole(terms.full)
         || Blank(terms.ownerBeneficiary) || Blank(terms.bankBeneficiary) || Blank(terms.source)
         || FullDeposit(terms.cash, terms.rent) != terms.full
      {
        return None;
      }
      var ok := CheckSchedule(terms.months);
      full := if ok then Some(terms.full) else None;
    }

    /** First transaction of `EvaluateAsync`. */
    method Start(applicantUserId: Guid, freshId: Guid) returns (end: End)
      modifies context
      ensures var tx := GradeStart(cfg, old(context.rows), applicantUserId, freshId);
              end == EndOf(tx) && context.rows == After(old(context.rows), tx)
    {
      hide Trim, TrustedDeposit;
      context.BeginTransaction();
      if applicantUserId != cfg.applicant {
        context.Rollback();
        return Done(Return(NotFound));
      }
      var trusted := LoadTrustedFullDeposit();
      if trusted.None? {
        context.Rollback();
        return Done(Return(InvalidState));
      }
      if context.tracked.assessment.None? {
        var added := AssessmentRow(freshId, GradeUnknown, None, trusted.value, None, None);
        context.tracked := context.tracked.(assessment := Some(added));
      }
      var assessment := context.tracked.assessment.value;
      if assessment.full != trusted.value {
        context.Rollback();
        return Done(Return(Conflict));
      }
      if Completed(assessment) {
        context.Rollback();
        return Done(Return(AlreadyEvaluated));
      }
      if !Evaluatable(context.tracked.status) {
        context.Rollback();
        return Done(Return(InvalidState));
      }
      context.Commit();
      end := Done(Continue(GradeAsking(assessment.id)));
    }

    /** `MarkIndeterminate`, the save and the commit. */
    method MarkIndeterminate() returns (end: End)
      modifies context
      ensures var tx := MarkUnclear(old(context.tracked));
              end == EndOf(tx) && context.rows == After(old(context.tracked), tx)
    {
      hide Trim;
      VisibleStart("credit-grade:");
      if context.tracked.status == ExternalChecksPending {
        var moved := context.ApplyTransition(ExternalCheckIndeterminate, "credit-grade:");
      }
      context.Commit();
      end := Done(Return(Indeterminate));
    }

    /** Second transaction of `EvaluateAsync`. */
    method ApplyGrade(assessmentId: Guid, response: GradeResponse) returns (end: End)
      modifies context
      ensures var tx := GradeAnswer(cfg, old(context.rows), assessmentId, response);
              end == EndOf(tx) && context.rows == After(old(context.rows), tx)
    {
      hide Trim, TrustedDeposit, LoanRatio, MaximumLoan, GradeTextsFit;
      VisibleStart("credit-grade:");
      context.BeginTransaction();
      if context.tracked.assessment.None? || context.tracked.assessment.value.id != assessmentId {
        context.Rollback();
        return Threw(MissingRow);
      }
      var trusted := LoadTrustedFullDeposit();
      if trusted.None? {
        context.Rollback();
        return Done(Return(InvalidState));
      }
      var assessment := context.tracked.assessment.value;
      if assessment.full != trusted.value {
        context.Rollback();
        return Done(Return(Conflict));
      }
      if Completed(assessment) {
        context.Rollback();
        return Done(Return(AlreadyEvaluated));
      }
      // Every way on from here saves these texts.
      if !GradeTextsFit(response) {
        context.Rollback();
        return Threw(TextTooLong);
      }
      assessment := assessment.(status := response.status,
                                subGrade := NormalizeOptional(response.subGrade),
                                ratio := None,
                                maxLoan := None);
      context.tracked := context.tracked.(assessment := Some(assessment));
      if !Evaluatable(context.tracked.status) {
        context.Commit();
        return Done(Return(InvalidState));
      }
      if response.status != GradeValid {
        end := MarkIndeterminate();
        return;
      }
      var ratio := if assessment.subGrade.None? then None else LoanRatio(assessment.subGrade.value);
      if ratio.None? {
        context.tracked := context.tracked.(assessment := Some(assessment.(status := GradeInvalid)));
        end := MarkIndeterminate();
        return;
      }
      assessment := assessment.(ratio := ratio, maxLoan := Some(MaximumLoan(assessment.full, ratio.value)));
      context.tracked := context.tracked.(assessment := Some(assessment));
      var moved := context.ApplyTransition(DecisionReady, "credit-grade:");
      context.Commit();
      end := Done(Return(Applied));
    }
  }
}
