/** `EfPropertyContractRegistrationService` and `EfLeaseContractTermsService.CaptureAsync` as they change rows. */
module RegistrationService {
  import opened Texts
  import opened Columns
  import opened Rial
  import opened Workflows
  import opened FundingRows
  import opened Registration
  import opened FundingContext

  /** `TryValidateConfirmedEvidence`. */
  method TryValidateConfirmedEvidence(cfg: Config, response: EvidenceResponse) returns (evidence: Option<Evidence>)
    ensures evidence == ValidateEvidence(cfg, response)
  {
    hide Trim, FullDeposit, ByNumber;
    if response.status != EvidenceConfirmed
       || response.owner.None? || response.owner.value == 0
       || response.property.None? || response.property.value == 0
       || response.start.None? || response.cash.None? || response.rent.None?
       || BlankOption(response.ownerBeneficiary) || BlankOption(response.bankBeneficiary)
       || BlankOption(response.reference)
       || response.months.None? || |response.months.value| != TERM_MONTHS
    {
      return None;
    }
    var cash, rent, start := response.cash.value, response.rent.value, response.start.value;
    if !WholeNonNegative(cash) || !WholeNonNegative(rent) || FullDeposit(cash, rent) <= 0.0 {
      return None;
    }
    if start.year < 1 || start.year > cfg.maximumYear || start.month < 1 || start.month > 12 {
      return None;
    }
    if start.day < 1 || start.day > (cfg.daysInMonth)(start.year, start.month) {
      return None;
    }
    var schedule := ByNumber(response.months.value);
    for index := 0 to |schedule|
      invariant forall i :: 0 <= i < index ==> ValidMonth(schedule, i)
    {
      var item := schedule[index];
      if item.number != index + 1
         || !WholeNonNegative(item.ownerPayment)
         || !WholeNonNegative(item.bankInterest)
         || (item.ownerPayment == 0.0 && item.bankInterest == 0.0)
         || (index > 0 && schedule[index - 1].dueAt >= item.dueAt)
      {
        assert !ValidMonth(schedule, index);
        return None;
      }
    }
    evidence := Some(Evidence(response.owner.value, response.property.value, start, cash, rent,
                              Trim(response.ownerBeneficiary.value), Trim(response.bankBeneficiary.value),
                              Trim(response.reference.value), schedule, response.utc));
  }

  class PropertyContractRegistrationService {
    const cfg: Config
    const context: DbContext

    constructor (cfg: Config, context: DbContext)
      ensures this.cfg == cfg && this.context == context
    {
      this.cfg := cfg;
      this.context := context;
    }

    /** First transaction of `ReconcileAsync`. */
    method Start(applicantUserId: Guid, freshId: Guid) returns (end: End)
      modifies context
      ensures var tx := ContractStart(cfg, old(context.rows), applicantUserId, freshId);
              end == EndOf(tx) && context.rows == After(old(context.rows), tx)
    {
      hide Trim;
      context.BeginTransaction();
      if applicantUserId != cfg.applicant {
        context.Rollback();
        return Done(Return(NotFound));
      }
      var request := context.tracked.request;
      var existing := context.tracked.contract;
      if request.Some? && request.value.status == Confirmed && existing.Some? {
        var bound := Binding(cfg, context.tracked, existing.value);
        context.Rollback();
        if !bound {
          return Done(Return(Conflict));
        }
        var snapshot := context.rows.terms;
        if snapshot.None? || snapshot.value.contractId != existing.value.id
           || !SourceMatches(snapshot.value, request.value)
        {
          return Done(Return(Conflict));
        }
        if context.rows.status == PropertyContractPending {
          return Done(Continue(ContractFinalizing(request.value.id, existing.value.id, snapshot.value)));
        }
        return Done(Return(AlreadyRegistered));
      }
      if request.Some? && request.value.status == DocumentsRequired && context.tracked.status == NeedsDocuments {
        context.Rollback();
        return Done(Return(RegistrationNeedsDocuments));
      }
      if context.tracked.status != PropertyContractPending
         || context.tracked.plan.None?
         || Blank(context.tracked.plan.value.version)
      {
        context.Rollback();
        return Done(Return(InvalidState));
      }
      var key := PlanKey(context.tracked.plan.value.planId, Trim(context.tracked.plan.value.version));
      if key !in cfg.catalogue || cfg.catalogue[key].termMonths != TERM_MONTHS {
        context.Rollback();
        return Done(Return(InvalidState));
      }
      if request.None? {
        request := Some(RequestRow(freshId, Pending, cfg.contractProvider, None));
        context.tracked := context.tracked.(request := request);
      }
      context.Commit();
      end := Done(Continue(ContractAsking(request.value.id, key)));
    }

    /** What `ReconcileAsync` does with the provider's answer, up to the contract row. */
    method ApplyAnswer(requestId: Guid, plan: PlanKey, response: EvidenceResponse, ownerExists: bool, freshId: Guid)
      returns (end: End)
      modifies context
      ensures var tx := ContractAnswer(cfg, old(context.rows), requestId, plan, response, ownerExists, freshId);
              end == EndOf(tx) && context.rows == After(old(context.rows), tx)
    {
      hide Trim, ValidateEvidence, RecordUnanswered, RecordDocuments, RecordEvidence;
      if response.status == EvidenceUnclear {
        end := ApplyIndeterminate(requestId, response);
        return;
      }
      if response.status == EvidenceDocuments {
        end := ApplyNeedsDocuments(requestId, response);
        return;
      }
      var evidence := TryValidateConfirmedEvidence(cfg, response);
      if evidence.None? {
        end := ApplyIndeterminate(requestId, response.(reason := Some(EVIDENCE_INVALID)));
      } else {
        end := ApplyEvidence(requestId, plan, response, evidence.value, ownerExists, freshId);
      }
    }

    /** `ApplyIndeterminateAsync`. */
    method ApplyIndeterminate(requestId: Guid, response: EvidenceResponse) returns (end: End)
      modifies context
      ensures var tx := RecordUnanswered(cfg, old(context.rows), requestId, response);
              end == EndOf(tx) && context.rows == After(old(context.rows), tx)
    {
      hide Trim;
      context.BeginTransaction();
      if context.tracked.status != PropertyContractPending {
        context.Rollback();
        return Done(Return(InvalidState));
      }
      if context.tracked.request.None? || context.tracked.request.value.id != requestId {
        context.Rollback();
        return Threw(MissingRow);
      }
      var request := context.tracked.request.value.(provider := ProviderOr(response.provider, cfg.contractProvider),
                                                    status := Unclear,
                                                    reference := NormalizeOptional(response.reference));
      context.tracked := context.tracked.(request := Some(request));
      var saved := context.SaveAndCommit(EvidenceTextsFit(response));
      end := if saved then Done(Return(Indeterminate)) else Threw(TextTooLong);
    }

    /** `ApplyNeedsDocumentsAsync`. */
    method ApplyNeedsDocuments(requestId: Guid, response: EvidenceResponse) returns (end: End)
      modifies context
      ensures var tx := RecordDocuments(cfg, old(context.rows), requestId, response);
              end == EndOf(tx) && context.rows == After(old(context.rows), tx)
    {
      hide Trim;
      VisibleStart("property-contract:");
      context.BeginTransaction();
      if context.tracked.status != PropertyContractPending {
        context.Rollback();
        return Done(Return(InvalidState));
      }
      if context.tracked.request.None? || context.tracked.request.value.id != requestId {
        context.Rollback();
        return Threw(MissingRow);
      }
      var request := context.tracked.request.value.(provider := ProviderOr(response.provider, cfg.contractProvider),
                                                    status := DocumentsRequired,
                                                    reference := NormalizeOptional(response.reference));
      context.tracked := context.tracked.(request := Some(request));
      var moved := context.ApplyTransition(NeedsDocuments, "property-contract:");
      var saved := context.SaveAndCommit(EvidenceTextsFit(response));
      end := if saved then Done(Return(RegistrationNeedsDocuments)) else Threw(TextTooLong);
    }

    /** The transaction that records confirmed evidence and creates or checks the contract. */
    method ApplyEvidence(requestId: Guid, plan: PlanKey, response: EvidenceResponse, evidence: Evidence,
                         ownerExists: bool, freshId: Guid) returns (end: End)
      modifies context
      ensures var tx := RecordEvidence(cfg, old(context.rows), requestId, plan, response, evidence, ownerExists,
                                       freshId);
              end == EndOf(tx) && context.rows == After(old(context.rows), tx)
    {
      hide Trim;
      context.BeginTransaction();
      if context.tracked.status != PropertyContractPending || context.tracked.plan != Some(plan) {
        context.Rollback();
        return Done(Return(InvalidState));
      }
      if context.tracked.request.None? || context.tracked.request.value.id != requestId {
        context.Rollback();
        return Threw(MissingRow);
      }
      var request := context.tracked.request.value.(provider := ProviderOr(response.provider, cfg.contractProvider));
      if !ownerExists {
        request := request.(status := Unclear, reference := NormalizeOptional(response.reference));
        context.tracked := context.tracked.(request := Some(request));
        var saved := context.SaveAndCommit(EvidenceTextsFit(response.(reason := None)));
        return if saved then Done(Return(Indeterminate)) else Threw(TextTooLong);
      }
      if context.tracked.contract.Some? {
        var contract := context.tracked.contract.value;
        if contract.status != LeaseDraft
           || contract.tenant != cfg.applicant
           || contract.owner != evidence.owner
           || contract.property != evidence.property
           || contract.plan != plan
        {
          context.Rollback();
          return Done(Return(Conflict));
        }
      } else {
        var contract := ContractRow(freshId, cfg.applicant, evidence.owner, evidence.property, LeaseDraft, plan);
        context.tracked := context.tracked.(contract := Some(contract));
      }
      request := request.(status := PendingSnapshot, reference := Some(evidence.reference));
      context.tracked := context.tracked.(request := Some(request));
      var contractId := context.tracked.contract.value.id;
      var saved := context.SaveAndCommit(Fits(Trim(response.provider), PROVIDER_LENGTH)
                                         && Fits(evidence.reference, REFERENCE_LENGTH));
      end := if saved then Done(Continue(ContractCapturing(requestId, contractId, evidence))) else Threw(TextTooLong);
    }

    /** `ValidateCommand`. */
    method ValidateCommand(contractId: Guid, command: Evidence) returns (ok: bool)
      ensures ok && FullDeposit(command.cash, command.rent) > 0.0 <==> ValidCommand(cfg, contractId, command)
    {
      hide Trim, FullDeposit, ByNumber;
      if contractId == 0
         || Blank(command.ownerBeneficiary) || Blank(command.bankBeneficiary) || Blank(command.reference)
         || !WholeNonNegative(command.cash) || !WholeNonNegative(command.rent)
         || |command.months| != TERM_MONTHS
         || command.start.year < 1 || command.start.year > cfg.maximumYear
         || command.start.month < 1 || command.start.month > 12
         || command.start.day < 1
         || command.start.day > (cfg.daysInMonth)(command.start.year, command.start.month)
      {
        return false;
      }
      ok := CheckSchedule(ByNumber(command.months));
    }

    /** `CaptureAsync`, with the outcome as the registration service reads it. */
    method CaptureTerms(requestId: Guid, contractId: Guid, command: Evidence) returns (end: End)
      modifies context
      ensures var tx := Capture(cfg, old(context.rows), requestId, contractId, command);
              end == EndOf(tx) && context.rows == After(old(context.rows), tx)
    {
      hide Trim, FullDeposit, ByNumber, ValidCommand, TermsOf, KeptTerms, TermsTextsFit, TimesDiffer;
      var ok := ValidateCommand(contractId, command);
      var full := FullDeposit(command.cash, command.rent);
      if !ok || full <= 0.0 {
        return Threw(BadArgument);
      }
      var terms := TermsOf(contractId, command);
      context.BeginTransaction();
      if context.tracked.contract.None? || context.tracked.contract.value.id != contractId {
        context.Rollback();
        return Done(Return(InvalidState));
      }
      var existing := context.tracked.terms;
      if existing.Some? && existing.value.contractId == contractId {
        context.Rollback();
        if existing.value == terms {
          return Done(Continue(ContractFinalizing(requestId, contractId, existing.value)));
        }
        return Done(Return(Conflict));
      }
      var status := context.tracked.contract.value.status;
      if !Open(status) {
        context.Rollback();
        return Done(Return(InvalidState));
      }
      if context.tracked.assessment.Some? && context.tracked.assessment.value.full != full {
        context.Rollback();
        return Done(Return(Conflict));
      }
      if context.tracked.allocation.Some? && context.tracked.allocation.value.contractId == contractId
         && context.tracked.allocation.value.full != full
      {
        context.Rollback();
        return Done(Return(Conflict));
      }
      if existing.Some? {
        context.Rollback();
        return Threw(UniqueIndex);
      }
      // Saving: the driver takes times of offset zero only, then text lengths and the unique due times.
      if !command.utc || !TermsTextsFit(terms) || !TimesDiffer(terms.months) {
        context.Rollback();
        return Threw(if !command.utc then TimeNotUtc else if !TermsTextsFit(terms) then TextTooLong else DuplicateTime);
      }
      var stored := KeptTerms(terms);
      context.tracked := context.tracked.(terms := Some(stored), origin := Some(command));
      context.Commit();
      end := Done(Continue(ContractFinalizing(requestId, contractId, stored)));
    }

    /** `FinalizeRegistrationAsync`. */
    method FinalizeRegistration(requestId: Guid, contractId: Guid, snapshot: Terms) returns (end: End)
      modifies context
      ensures var tx := Finalize(cfg, old(context.rows), requestId, contractId, snapshot);
              end == EndOf(tx) && context.rows == After(old(context.rows), tx)
    {
      hide Trim;
      VisibleStart("property-contract:");
      context.BeginTransaction();
      var contract := context.tracked.contract;
      var request := context.tracked.request;
      if contract.None? || contract.value.id != contractId
         || request.None? || request.value.id != requestId
         || (request.value.status != PendingSnapshot && request.value.status != Confirmed)
         || contract.value.tenant != cfg.applicant
         || !Binding(cfg, context.tracked, contract.value)
         || snapshot.contractId != contract.value.id
         || Blank(snapshot.source)
         || !SourceMatches(snapshot, request.value)
      {
        context.Rollback();
        return Done(Return(InvalidState));
      }
      if context.tracked.status != PropertyContractPending {
        context.Rollback();
        if request.value.status != Confirmed {
          return Done(Return(InvalidState));
        }
        return Done(Return(AlreadyRegistered));
      }
      var moved := context.ApplyTransition(ExternalChecksPending, "property-contract:");
      context.tracked := context.tracked.(request := Some(request.value.(status := Confirmed)));
      context.Commit();
      end := Done(Return(Registered));
    }
  }
}
