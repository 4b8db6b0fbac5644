/** Property-contract registration: evidence check, contract, terms capture, finalization. */
module Registration {
  import opened Texts
  import opened Columns
  import opened Rial
  import opened Workflows
  import opened FundingRows
  import opened Sorting

  datatype EvidenceStatus = EvidenceConfirmed | EvidenceDocuments | EvidenceUnclear

  datatype EvidenceResponse = EvidenceResponse(
    status: EvidenceStatus, provider: string,
    owner: Option<Guid>, property: Option<Guid>, start: Option<PersianDate>,
    cash: Option<real>, rent: Option<real>,
    ownerBeneficiary: Option<string>, bankBeneficiary: Option<string>,
    months: Option<seq<Month>>, utc: bool, reference: Option<string>, reason: Option<string>)

  // ---- ordering by contract month number ----

  predicate EarlierMonth(a: Month, b: Month) {
    a.number < b.number
  }

  function ByNumber(months: seq<Month>): (sorted: seq<Month>)
    ensures |sorted| == |months|
  {
    Sort(EarlierMonth, months)
  }

  /** Sorting finds the valid schedule whenever the months can be put into one. */
  lemma SortFindsSchedule(months: seq<Month>, schedule: seq<Month>)
    requires ValidMonths(schedule) && multiset(months) == multiset(schedule)
    ensures |months| == |schedule| && ByNumber(months) == schedule
  {
    SameSize(months, schedule);
    forall i | 0 <= i < |schedule| ensures schedule[i].number == i + 1 {
      assert ValidMonth(schedule, i);
    }
    SortFinds(EarlierMonth, months, schedule);
  }

  /** Months already numbered upward from any value are left as they are. */
  lemma SortedStays(months: seq<Month>, first: int)
    requires forall i :: 0 <= i < |months| ==> months[i].number == first + i
    ensures ByNumber(months) == months
  {
    SortFinds(EarlierMonth, months, months);
  }

  // ---- evidence ----

  predicate SupportedDate(cfg: Config, d: PersianDate) {
    && 1 <= d.year <= cfg.maximumYear
    && 1 <= d.month <= 12
    && 1 <= d.day <= (cfg.daysInMonth)(d.year, d.month)
  }

  /** `TryValidateConfirmedEvidence`; None where the source answers false. */
  function ValidateEvidence(cfg: Config, r: EvidenceResponse): Option<Evidence> {
    if r.status != EvidenceConfirmed
       || r.owner.None? || r.owner.value == 0
       || r.property.None? || r.property.value == 0
       || r.start.None? || r.cash.None? || r.rent.None?
       || BlankOption(r.ownerBeneficiary) || BlankOption(r.bankBeneficiary) || BlankOption(r.reference)
       || r.months.None? || |r.months.value| != TERM_MONTHS
    then None
    else if !WholeNonNegative(r.cash.value) || !WholeNonNegative(r.rent.value) then None
    else if FullDeposit(r.cash.value, r.rent.value) <= 0.0 then None
    else if !SupportedDate(cfg, r.start.value) then None
    else if !ValidMonths(ByNumber(r.months.value)) then None
    else Some(Evidence(r.owner.value, r.property.value, r.start.value, r.cash.value, r.rent.value,
                       Trim(r.ownerBeneficiary.value), Trim(r.bankBeneficiary.value), Trim(r.reference.value),
                       ByNumber(r.months.value), r.utc))
  }

  /** What validated evidence guarantees from here on. */
  predicate ValidEvidence(cfg: Config, e: Evidence) {
    && e.owner != 0 && e.property != 0
    && SupportedDate(cfg, e.start)
    && WholeNonNegative(e.cash) && WholeNonNegative(e.rent)
    && FullDeposit(e.cash, e.rent) > 0.0
    && !Blank(e.ownerBeneficiary) && Trim(e.ownerBeneficiary) == e.ownerBeneficiary
    && !Blank(e.bankBeneficiary) && Trim(e.bankBeneficiary) == e.bankBeneficiary
    && !Blank(e.reference) && Trim(e.reference) == e.reference
    && ValidMonths(e.months)
  }

  /** Everything `TryValidateConfirmedEvidence` asks of an answer apart from its months. */
  predicate UsableAnswer(cfg: Config, r: EvidenceResponse) {
    && r.status == EvidenceConfirmed
    && r.owner.Some? && r.owner.value != 0 && r.property.Some? && r.property.value != 0
    && r.start.Some? && SupportedDate(cfg, r.start.value)
    && r.cash.Some? && WholeNonNegative(r.cash.value) && r.rent.Some? && WholeNonNegative(r.rent.value)
    && FullDeposit(r.cash.value, r.rent.value) > 0.0
    && !BlankOption(r.ownerBeneficiary) && !BlankOption(r.bankBeneficiary) && !BlankOption(r.reference)
    && r.months.Some?
  }

  /** An otherwise usable answer is accepted exactly when its months can be put into a valid schedule, in whatever
      order they came; what is accepted is then valid evidence carrying that schedule. */
  lemma EvidenceAccepted(cfg: Config, r: EvidenceResponse)
    ensures var v := ValidateEvidence(cfg, r);
            && (v.Some? <==>
                && UsableAnswer(cfg, r)
                && exists schedule :: multiset(schedule) == multiset(r.months.value) && ValidMonths(schedule))
            && (v.Some? ==> ValidEvidence(cfg, v.value)
                            && multiset(v.value.months) == multiset(r.months.value)
                            && v.value.owner == r.owner.value && v.value.property == r.property.value
                            && v.value.cash == r.cash.value && v.value.rent == r.rent.value
                            && v.value.start == r.start.value && v.value.utc == r.utc
                            && v.value.ownerBeneficiary == Trim(r.ownerBeneficiary.value)
                            && v.value.bankBeneficiary == Trim(r.bankBeneficiary.value)
                            && v.value.reference == Trim(r.reference.value))
  {
    hide FullDeposit, ValidMonth, Trim;
    var v := ValidateEvidence(cfg, r);
    if v.Some? {
      SortPermutes(EarlierMonth, r.months.value);
      assert multiset(ByNumber(r.months.value)) == multiset(r.months.value) && ValidMonths(ByNumber(r.months.value));
      TrimIdempotent(r.ownerBeneficiary.value);
      TrimIdempotent(r.bankBeneficiary.value);
      TrimIdempotent(r.reference.value);
    } else if UsableAnswer(cfg, r) {
      forall schedule | multiset(schedule) == multiset(r.months.value) && ValidMonths(schedule)
        ensures ValidMonths(ByNumber(r.months.value)) && |r.months.value| == TERM_MONTHS
      {
        SortFindsSchedule(r.months.value, schedule);
      }
    }
  }

  // ---- terms ----

  /** The snapshot `CaptureAsync` writes for a contract from one piece of evidence. */
  function TermsOf(contractId: Guid, e: Evidence): Terms {
    Terms(contractId, CALENDAR, TERM_MONTHS, e.start, e.cash, e.rent, FullDeposit(e.cash, e.rent),
          Trim(e.ownerBeneficiary), Trim(e.bankBeneficiary), Trim(e.reference), ByNumber(e.months))
  }

  // ---- what the tables keep of them ----

  predicate TermsTextsFit(t: Terms) {
    && Fits(t.ownerBeneficiary, REFERENCE_LENGTH) && Fits(t.bankBeneficiary, REFERENCE_LENGTH)
    && Fits(t.source, REFERENCE_LENGTH)
  }

  /** No two consecutive months fall due within one microsecond: the unique index over due times. */
  predicate TimesDiffer(months: seq<Month>) {
    forall i :: 0 < i < |months| ==> KeptTime(months[i - 1].dueAt) != KeptTime(months[i].dueAt)
  }

  function KeptMonths(months: seq<Month>): (kept: seq<Month>)
    ensures |kept| == |months|
    ensures forall i :: 0 <= i < |months| ==> kept[i] == months[i].(dueAt := KeptTime(months[i].dueAt))
  {
    if months == [] then [] else [months[0].(dueAt := KeptTime(months[0].dueAt))] + KeptMonths(months[1..])
  }

  /** The stored snapshot: due times lose their fractions of a microsecond. */
  function KeptTerms(t: Terms): Terms {
    t.(months := KeptMonths(t.months))
  }

  /** The database takes a new snapshot of this evidence. */
  predicate Storable(e: Evidence) {
    && e.utc
    && Fits(e.ownerBeneficiary, REFERENCE_LENGTH) && Fits(e.bankBeneficiary, REFERENCE_LENGTH)
    && Fits(e.reference, REFERENCE_LENGTH)
    && TimesDiffer(e.months)
  }

  /** A stored snapshot is as trustworthy as the one captured. */
  lemma KeptTermsTrusted(t: Terms)
    requires TrustedTerms(t) && TimesDiffer(t.months)
    ensures TrustedTerms(KeptTerms(t))
  {
    hide Trim, FullDeposit, KeptTime, Whole;
    var kept := KeptMonths(t.months);
    forall i | 0 <= i < |kept| ensures ValidMonth(kept, i) {
      assert ValidMonth(t.months, i);
      if i > 0 {
        KeptTimeIsMonotone(t.months[i - 1].dueAt, t.months[i].dueAt);
      }
    }
  }

  /** `ValidateCommand`: the arguments `CaptureAsync` accepts without throwing. */
  predicate ValidCommand(cfg: Config, contractId: Guid, e: Evidence) {
    && contractId != 0
    && !Blank(e.ownerBeneficiary) && !Blank(e.bankBeneficiary) && !Blank(e.reference)
    && WholeNonNegative(e.cash) && WholeNonNegative(e.rent)
    && |e.months| == TERM_MONTHS
    && SupportedDate(cfg, e.start)
    && ValidMonths(ByNumber(e.months))
    && FullDeposit(e.cash, e.rent) > 0.0
  }

  /** Evidence that passed registration passes the checks of the terms service, which takes it over field by field. */
  lemma EvidenceIsACommand(cfg: Config, contractId: Guid, e: Evidence)
    requires ValidEvidence(cfg, e) && contractId != 0
    ensures ValidCommand(cfg, contractId, e)
    ensures var t := TermsOf(contractId, e);
            && t.contractId == contractId && t.calendar == "Persian" && t.termMonths == 12
            && t.start == e.start && t.cash == e.cash && t.rent == e.rent
            && t.full == (e.cash.Floor + 100 * e.rent.Floor / 3) as real
            && t.months == e.months && t.source == e.reference
            && t.ownerBeneficiary == e.ownerBeneficiary && t.bankBeneficiary == e.bankBeneficiary
            && TrustedTerms(t)
  {
    forall i | 0 <= i < |e.months| ensures e.months[i].number == 1 + i {
      assert ValidMonth(e.months, i);
    }
    SortedStays(e.months, 1);
    FullDepositIsHundredThirds(e.cash, e.rent);
  }

  /** Terms every later service accepts: the checks of `LoadTrustedFullDepositEquivalentAsync`. */
  predicate TrustedTerms(t: Terms) {
    && t.calendar == CALENDAR && t.termMonths == TERM_MONTHS
    && WholeNonNegative(t.cash) && WholeNonNegative(t.rent)
    && t.full > 0.0 && Whole(t.full)
    && !Blank(t.ownerBeneficiary) && !Blank(t.bankBeneficiary) && !Blank(t.source)
    && FullDeposit(t.cash, t.rent) == t.full
    && ValidMonths(t.months)
  }

  // ---- transactions ----

  predicate Binding(cfg: Config, db: Db, c: ContractRow) {
    && db.plan.Some? && !Blank(db.plan.value.version)
    && c.tenant == cfg.applicant
    && c.plan == db.plan.value
  }

  /** `snapshot.SourceReference` equals the request's trimmed reference, null included. */
  predicate SourceMatches(t: Terms, request: RequestRow) {
    request.reference.Some? && t.source == Trim(request.reference.value)
  }

  function ContractStart(cfg: Config, db: Db, user: Guid, freshId: Guid): Tx {
    if user != cfg.applicant then Reject(NotFound)
    else if db.request.Some? && db.request.value.status == Confirmed && db.contract.Some? then
      var request, contract := db.request.value, db.contract.value;
      if !Binding(cfg, db, contract) then Reject(Conflict)
      else if db.terms.None? || db.terms.value.contractId != contract.id
              || !SourceMatches(db.terms.value, request) then Reject(Conflict)
      else if db.status == PropertyContractPending then
        Rollback(Continue(ContractFinalizing(request.id, contract.id, db.terms.value)))
      else Reject(AlreadyRegistered)
    else if db.request.Some? && db.request.value.status == DocumentsRequired && db.status == NeedsDocuments then
      Reject(RegistrationNeedsDocuments)
    else if db.status != PropertyContractPending || db.plan.None? || Blank(db.plan.value.version) then
      Reject(InvalidState)
    else
      var key := PlanKey(db.plan.value.planId, Trim(db.plan.value.version));
      if key !in cfg.catalogue || cfg.catalogue[key].termMonths != TERM_MONTHS then Reject(InvalidState)
      else
        var request := if db.request.Some? then db.request.value
                       else RequestRow(freshId, Pending, cfg.contractProvider, None);
        Commit(db.(request := Some(request)), Continue(ContractAsking(request.id, key)))
  }

  const EVIDENCE_INVALID := "property_contract_evidence_invalid"

  /** The request row takes provider, reference and reason code trimmed. */
  predicate EvidenceTextsFit(r: EvidenceResponse) {
    && Fits(Trim(r.provider), PROVIDER_LENGTH)
    && FitsOption(NormalizeOptional(r.reference), REFERENCE_LENGTH)
    && FitsOption(NormalizeOptional(r.reason), REQUEST_REASON_LENGTH)
  }

  function ContractAnswer(cfg: Config, db: Db, requestId: Guid, plan: PlanKey, r: EvidenceResponse,
                          ownerExists: bool, freshId: Guid): Tx {
    if r.status == EvidenceUnclear then RecordUnanswered(cfg, db, requestId, r)
    else if r.status == EvidenceDocuments then RecordDocuments(cfg, db, requestId, r)
    else
      match ValidateEvidence(cfg, r)
      case None => RecordUnanswered(cfg, db, requestId, r.(reason := Some(EVIDENCE_INVALID)))
      case Some(e) => RecordEvidence(cfg, db, requestId, plan, r, e, ownerExists, freshId)
  }

  function RecordUnanswered(cfg: Config, db: Db, requestId: Guid, r: EvidenceResponse): Tx {
    if db.status != PropertyContractPending then Reject(InvalidState)
    else if db.request.None? || db.request.value.id != requestId then Throw(MissingRow)
    else Save(EvidenceTextsFit(r),
              Commit(db.(request := Some(Answered(cfg, db.request.value, r, Unclear))), Return(Indeterminate)))
  }

  function RecordDocuments(cfg: Config, db: Db, requestId: Guid, r: EvidenceResponse): Tx {
    if db.status != PropertyContractPending then Reject(InvalidState)
    else if db.request.None? || db.request.value.id != requestId then Throw(MissingRow)
    else Save(EvidenceTextsFit(r),
              CommitMove(db.(request := Some(Answered(cfg, db.request.value, r, DocumentsRequired))),
                         NeedsDocuments, Return(RegistrationNeedsDocuments)))
  }

  function Answered(cfg: Config, row: RequestRow, r: EvidenceResponse, status: RequestStatus): RequestRow {
    row.(status := status,
         provider := ProviderOr(r.provider, cfg.contractProvider),
         reference := NormalizeOptional(r.reference))
  }

  /** Confirmed evidence is recorded with a reason code of the service's own, or none. */
  function RecordEvidence(cfg: Config, db: Db, requestId: Guid, plan: PlanKey, r: EvidenceResponse,
                          e: Evidence, ownerExists: bool, freshId: Guid): Tx {
    if db.status != PropertyContractPending || db.plan != Some(plan) then Reject(InvalidState)
    else if db.request.None? || db.request.value.id != requestId then Throw(MissingRow)
    else if !ownerExists then
      Save(EvidenceTextsFit(r.(reason := None)),
           Commit(db.(request := Some(Answered(cfg, db.request.value, r, Unclear))), Return(Indeterminate)))
    else
      var fits := Fits(Trim(r.provider), PROVIDER_LENGTH) && Fits(e.reference, REFERENCE_LENGTH);
      var request := db.request.value.(status := PendingSnapshot, reference := Some(e.reference),
                                       provider := ProviderOr(r.provider, cfg.contractProvider));
      match db.contract
      case Some(c) =>
        if c.status != LeaseDraft || c.tenant != cfg.applicant || c.owner != e.owner
           || c.property != e.property || c.plan != plan
        then Reject(Conflict)
        else Save(fits, Commit(db.(request := Some(request)), Continue(ContractCapturing(requestId, c.id, e))))
      case None =>
        var c := ContractRow(freshId, cfg.applicant, e.owner, e.property, LeaseDraft, plan);
        Save(fits, Commit(db.(request := Some(request), contract := Some(c)),
                          Continue(ContractCapturing(requestId, c.id, e))))
  }

  /** `CaptureAsync` and the registration service's reaction to its outcome. */
  function Capture(cfg: Config, db: Db, requestId: Guid, contractId: Guid, e: Evidence): Tx {
    if !ValidCommand(cfg, contractId, e) then Throw(BadArgument)
    else
      var full := FullDeposit(e.cash, e.rent);
      var captured := TermsOf(contractId, e);
      if db.contract.None? || db.contract.value.id != contractId then Reject(InvalidState)
      else if db.terms.Some? && db.terms.value.contractId == contractId then
        if db.terms.value == captured
        then Rollback(Continue(ContractFinalizing(requestId, contractId, db.terms.value)))
        else Reject(Conflict)
      else if !Open(db.contract.value.status) then Reject(InvalidState)
      else if db.assessment.Some? && db.assessment.value.full != full then Reject(Conflict)
      else if db.allocation.Some? && db.allocation.value.contractId == contractId
              && db.allocation.value.full != full then Reject(Conflict)
      else if db.terms.Some? then Throw(UniqueIndex)
      else if !e.utc then Throw(TimeNotUtc)
      else if !TermsTextsFit(captured) then Throw(TextTooLong)
      else if !TimesDiffer(captured.months) then Throw(DuplicateTime)
      else Commit(db.(terms := Some(KeptTerms(captured)), origin := Some(e)),
                  Continue(ContractFinalizing(requestId, contractId, KeptTerms(captured))))
  }

  function Finalize(cfg: Config, db: Db, requestId: Guid, contractId: Guid, snapshot: Terms): Tx {
    if db.contract.None? || db.contract.value.id != contractId
       || db.request.None? || db.request.value.id != requestId then Reject(InvalidState)
    else
      var contract, request := db.contract.value, db.request.value;
      if !(request.status.PendingSnapshot? || request.status.Confirmed?)
         || contract.tenant != cfg.applicant
         || !Binding(cfg, db, contract)
         || snapshot.contractId != contract.id
         || Blank(snapshot.source)
         || !SourceMatches(snapshot, request)
      then Reject(InvalidState)
      else if db.status != PropertyContractPending then
        Reject(if request.status == Confirmed then AlreadyRegistered else InvalidState)
      else CommitMove(db.(request := Some(request.(status := Confirmed))), ExternalChecksPending, Return(Registered))
  }
}
