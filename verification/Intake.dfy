/** First protocol steps: submission, identity check, bank-loan plan selection. */
module Intake {
  import opened Texts
  import opened Columns
  import opened Workflows
  import opened FundingRows

  function Submit(cfg: Config, db: Db, user: Guid): Tx {
    if user != cfg.applicant then Reject(NotFound)
    else if db.status == IdentityPending then Reject(AlreadySubmitted)
    else if db.status != Draft then Reject(InvalidState)
    else CommitMove(db, IdentityPending, Return(Submitted))
  }

  predicate IsTerminal(status: IdentityStatus) {
    status.Verified? || status.DocumentsNeeded?
  }

  function IdentityStart(db: Db, freshId: Guid): Tx {
    var row := if db.identity.Some? then db.identity.value else IdentityRow(freshId, IdentityWaiting);
    if db.status != IdentityPending then
      Reject(if IsTerminal(row.status) then AlreadyProcessed else InvalidState)
    else if IsTerminal(row.status) then Reject(AlreadyProcessed)
    else Commit(db.(identity := Some(row)), Continue(IdentityAsking(row.id)))
  }

  datatype IdentityResponse = IdentityResponse(
    outcome: IdentityStatus, provider: string, reference: Option<string>, reason: Option<string>)

  /** The request row takes these texts as they come. */
  predicate IdentityTextsFit(r: IdentityResponse) {
    && (Blank(r.provider) || Fits(r.provider, PROVIDER_LENGTH))
    && FitsOption(r.reference, REFERENCE_LENGTH) && FitsOption(r.reason, REQUEST_REASON_LENGTH)
  }

  /** The outcome is Verified, DocumentsNeeded or IdentityUnclear; any other throws in the switch. */
  function IdentityAnswer(db: Db, identityId: Guid, r: IdentityResponse): Tx {
    if db.identity.None? || db.identity.value.id != identityId then Throw(MissingRow)
    else if IsTerminal(db.identity.value.status) then Reject(AlreadyProcessed)
    else
      var recorded := db.(identity := Some(db.identity.value.(status := r.outcome)));
      if db.status != IdentityPending then Save(IdentityTextsFit(r), Commit(recorded, Return(InvalidState)))
      else
        match r.outcome
        case IdentityUnclear => Save(IdentityTextsFit(r), Commit(recorded, Return(Indeterminate)))
        case Verified => Save(IdentityTextsFit(r), CommitMove(recorded, PlanSelectionPending, Return(Applied)))
        case DocumentsNeeded => Save(IdentityTextsFit(r), CommitMove(recorded, NeedsDocuments, Return(Applied)))
        case IdentityWaiting => Throw(BadArgument)
  }

  /** `published`: the plan version is published and public at this moment. */
  function SelectPlan(cfg: Config, db: Db, user: Guid, planId: Guid, planVersion: string, published: bool): Tx {
    var key := PlanKey(planId, Trim(planVersion));
    if planId == 0 || Blank(planVersion) then Reject(ArgumentRejected)
    else if user != cfg.applicant then Reject(NotFound)
    else if db.plan.Some? then
      if db.plan.value != key then Reject(Conflict)
      else if key !in cfg.catalogue || db.status == PlanSelectionPending then Reject(InvalidState)
      else Reject(AlreadySelected)
    else if db.status != PlanSelectionPending then Reject(InvalidState)
    else if key !in cfg.catalogue then Reject(PlanMissing)
    else if !published || cfg.catalogue[key].termMonths != TERM_MONTHS then Reject(PlanUnavailable)
    else CommitMove(db.(plan := Some(key)), PropertyContractPending, Return(Selected))
  }
}
