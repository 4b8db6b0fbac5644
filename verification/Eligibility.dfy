/** Credit eligibility: grade check against the trusted contract terms. */
module Eligibility {
  import opened Texts
  import opened Columns
  import opened Rial
  import opened Workflows
  import opened FundingRows
  import opened Registration

  datatype GradeResponse = GradeResponse(
    status: GradeStatus, provider: string, subGrade: Option<string>,
    reference: Option<string>, reason: Option<string>)

  /** The assessment row takes these texts trimmed. */
  predicate GradeTextsFit(r: GradeResponse) {
    && Fits(Trim(r.provider), PROVIDER_LENGTH)
    && FitsOption(NormalizeOptional(r.subGrade), SUB_GRADE_LENGTH)
    && FitsOption(NormalizeOptional(r.reference), REFERENCE_LENGTH)
    && FitsOption(NormalizeOptional(r.reason), REASON_LENGTH)
  }

  /** `LoadTrustedFullDepositEquivalentAsync`: the deposit, or None when anything about contract or terms is off. */
  function TrustedDeposit(cfg: Config, db: Db): Option<real> {
    if db.plan.None? || Blank(db.plan.value.version) then None
    else
      var key := PlanKey(db.plan.value.planId, Trim(db.plan.value.version));
      if key !in cfg.catalogue || cfg.catalogue[key].termMonths != TERM_MONTHS then None
      else if db.contract.None? || db.contract.value.tenant != cfg.applicant || db.contract.value.plan != key then None
      else if db.terms.None? || db.terms.value.contractId != db.contract.value.id || !TrustedTerms(db.terms.value)
      then None
      else Some(db.terms.value.full)
  }

  predicate Evaluatable(status: CreditStatus) {
    status.ExternalChecksPending? || status.ExternalCheckIndeterminate?
  }

  predicate Completed(a: AssessmentRow) {
    a.status == GradeValid && a.ratio.Some? && a.maxLoan.Some?
  }

  function GradeStart(cfg: Config, db: Db, user: Guid, freshId: Guid): Tx {
    if user != cfg.applicant then Reject(NotFound)
    else
      match TrustedDeposit(cfg, db)
      case None => Reject(InvalidState)
      case Some(full) =>
        var a := if db.assessment.Some? then db.assessment.value
                 else AssessmentRow(freshId, GradeUnknown, None, full, None, None);
        if a.full != full then Reject(Conflict)
        else if Completed(a) then Reject(AlreadyEvaluated)
        else if !Evaluatable(db.status) then Reject(InvalidState)
        else Commit(db.(assessment := Some(a)), Continue(GradeAsking(a.id)))
  }

  /** `MarkIndeterminate`: moves only out of ExternalChecksPending. */
  function MarkUnclear(db: Db): Tx {
    if db.status == ExternalChecksPending
    then CommitMove(db, ExternalCheckIndeterminate, Return(Indeterminate))
    else Commit(db, Return(Indeterminate))
  }

  function GradeAnswer(cfg: Config, db: Db, assessmentId: Guid, r: GradeResponse): Tx {
    if db.assessment.None? || db.assessment.value.id != assessmentId then Throw(MissingRow)
    else
      match TrustedDeposit(cfg, db)
      case None => Reject(InvalidState)
      case Some(full) =>
        var a := db.assessment.value;
        if a.full != full then Reject(Conflict)
        else if Completed(a) then Reject(AlreadyEvaluated)
        else if !GradeTextsFit(r) then Throw(TextTooLong)
        else
          var recorded := a.(status := r.status, subGrade := NormalizeOptional(r.subGrade),
                             ratio := None, maxLoan := None);
          if !Evaluatable(db.status) then Commit(db.(assessment := Some(recorded)), Return(InvalidState))
          else if r.status != GradeValid then MarkUnclear(db.(assessment := Some(recorded)))
          else if recorded.subGrade.None? || LoanRatio(recorded.subGrade.value).None? then
            MarkUnclear(db.(assessment := Some(recorded.(status := GradeInvalid))))
          else
            var ratio := LoanRatio(recorded.subGrade.value).value;
            var decided := recorded.(ratio := Some(ratio), maxLoan := Some(MaximumLoan(a.full, ratio)));
            CommitMove(db.(assessment := Some(decided)), DecisionReady, Return(Applied))
  }
}
