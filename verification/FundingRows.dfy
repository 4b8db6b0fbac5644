/** Rows, captured calls and transaction results of the credit-to-lease protocol, for one application. */
module FundingRows {
  import opened Texts
  import opened Rial
  import opened Workflows

  /** `Guid`; 0 is `Guid.Empty`. */
  type Guid = nat

  const TERM_MONTHS := 12
  const CALENDAR := "Persian"

  datatype PlanKey = PlanKey(planId: Guid, version: string)
  datatype PlanRow = PlanRow(bankId: string, termMonths: int)
  datatype PersianDate = PersianDate(year: int, month: int, day: int)

  /** What the deployment and the outside world fix: the applicant, plan versions, calendar, adapter names. */
  datatype Config = Config(
    applicant: Guid,
    catalogue: map<PlanKey, PlanRow>,
    maximumYear: int,
    daysInMonth: (int, int) -> int,
    contractProvider: string,
    fundProvider: string)

  /** The `BankLoanPlanVersion` record refuses blank versions and banks; adapters carry a name. */
  predicate ValidConfig(cfg: Config) {
    && !Blank(cfg.fundProvider)
    && (forall k :: k in cfg.catalogue ==> !Blank(k.version) && !Blank(cfg.catalogue[k].bankId))
  }

  /** A schedule month; `dueAt` is an instant in ticks of a tenth of a microsecond. */
  datatype Month = Month(number: int, dueAt: int, ownerPayment: real, bankInterest: real)

  datatype Terms = Terms(
    contractId: Guid, calendar: string, termMonths: int, start: PersianDate,
    cash: real, rent: real, full: real,
    ownerBeneficiary: string, bankBeneficiary: string, source: string,
    months: seq<Month>)

  /** Validated evidence; `utc` says that every due time was given with offset zero. */
  datatype Evidence = Evidence(
    owner: Guid, property: Guid, start: PersianDate, cash: real, rent: real,
    ownerBeneficiary: string, bankBeneficiary: string, reference: string,
    months: seq<Month>, utc: bool)

  datatype IdentityStatus = IdentityWaiting | Verified | DocumentsNeeded | IdentityUnclear
  datatype IdentityRow = IdentityRow(id: Guid, status: IdentityStatus)

  datatype RequestStatus = Pending | PendingSnapshot | Confirmed | DocumentsRequired | Unclear
  datatype RequestRow = RequestRow(id: Guid, status: RequestStatus, provider: string, reference: Option<string>)

  datatype ContractRow = ContractRow(
    id: Guid, tenant: Guid, owner: Guid, property: Guid, status: LeaseStatus, plan: PlanKey)

  datatype GradeStatus = GradeValid | GradeUnknown | GradeInvalid
  datatype AssessmentRow = AssessmentRow(
    id: Guid, status: GradeStatus, subGrade: Option<string>, full: real,
    ratio: Option<real>, maxLoan: Option<real>)

  datatype BankStatus = Approved | Declined | BankUnclear
  datatype ApprovalRow = ApprovalRow(
    id: Guid, status: BankStatus, maxLoan: real, approvedLoan: Option<real>, reference: Option<string>)

  datatype AllocationRow = AllocationRow(
    id: Guid, contractId: Guid, plan: PlanKey, bankId: string,
    full: real, maxLoan: real, loan: real, contribution: real)

  datatype FreezeStatus = FreezeConfirmed | FreezeUnclear
  datatype FreezeRow = FreezeRow(
    id: Guid, allocationId: Guid, provider: string, status: FreezeStatus,
    fundReference: Option<string>, reference: Option<string>)

  datatype PrincipalRow = PrincipalRow(contractId: Guid, bankId: string, amount: real, fundReference: string)

  datatype TransferStatus = TransferPending | Succeeded | Failed | TransferUnknown
  /** An external transaction; `key` is the allocation its idempotency key names. */
  datatype TransferRow = TransferRow(id: Guid, contractId: Guid, key: Guid, amount: real, status: TransferStatus)
  datatype FundingRow = FundingRow(id: Guid, allocationId: Guid, transferId: Guid, fundReference: Option<string>)
  datatype ContributionRow = ContributionRow(contractId: Guid, allocationId: Guid, amount: real, fundReference: string)
  /** The posted journal entry: its idempotency key names an allocation, its reference a transfer. */
  datatype JournalRow = JournalRow(key: Guid, transferId: Guid, amount: real)

  /** All rows of one application. Every table has a unique index for it, hence one optional row each.
      `origin` is history, not a column: the evidence the captured terms came from. */
  datatype Db = Db(
    status: CreditStatus,
    plan: Option<PlanKey>,
    identity: Option<IdentityRow>,
    request: Option<RequestRow>,
    contract: Option<ContractRow>,
    terms: Option<Terms>,
    assessment: Option<AssessmentRow>,
    approval: Option<ApprovalRow>,
    allocation: Option<AllocationRow>,
    freeze: Option<FreezeRow>,
    principal: Option<PrincipalRow>,
    funding: Option<FundingRow>,
    transfer: Option<TransferRow>,
    contribution: Option<ContributionRow>,
    journal: Option<JournalRow>,
    log: seq<Edge<CreditStatus>>,
    leaseLog: seq<Edge<LeaseStatus>>,
    origin: Option<Evidence>)

  /** A fresh draft application. */
  const EMPTY: Db := Db(Draft, None, None, None, None, None, None, None, None, None, None, None, None, None, None,
                        [], [], None)

  /** What a bank call captured before it left the first transaction. */
  datatype BankCapture = BankCapture(
    approvalId: Guid, contractId: Guid, planKey: PlanKey, plan: PlanRow, eligibility: AssessmentRow)

  /** A call between two of its transactions, with what it captured. */
  datatype Proc =
    | IdentityAsking(identityId: Guid)
    | ContractAsking(requestId: Guid, plan: PlanKey)
    | ContractCapturing(requestId: Guid, contractId: Guid, evidence: Evidence)
    | ContractFinalizing(requestId: Guid, contractId: Guid, snapshot: Terms)
    | GradeAsking(assessmentId: Guid)
    | BankAsking(capture: BankCapture)
    | AllocationReading(contractId: Guid)
    | FreezeStarting(contractId: Guid, allocation: AllocationRow)
    | FreezeAsking(contractId: Guid, allocation: AllocationRow, freezeId: Guid)
    | ContributionAsking(contractId: Guid, allocation: AllocationRow, fundingId: Guid, transferId: Guid)
    /** `AdvanceAsync` inside its transaction: it holds the lease row's lock and has read `tables` further tables. */
    | Advancing(seen: Db, tables: nat)

  datatype Outcome =
    | ArgumentRejected | NotFound | InvalidState | Conflict | NotReady
    | Submitted | AlreadySubmitted | Selected | AlreadySelected | PlanMissing | PlanUnavailable
    | Applied | AlreadyProcessed | AlreadyEvaluated | Indeterminate
    | Registered | AlreadyRegistered | RegistrationNeedsDocuments
    | Funded | AlreadyFunded | BankIndeterminate | BankDeclined | FundingIndeterminate
    | Reconciled | AlreadyReconciled | TransferFailed
    | AlreadyActivated | Advanced(applied: nat) | Activated(applied: nat)

  /** Exceptions that abort a transaction. The last four come from the database refusing what an adapter said. */
  datatype Fault =
    | WorkflowTable | UniqueIndex | MissingRow | BadArgument
    | CheckConstraint | TextTooLong | TimeNotUtc | DuplicateTime

  const REFUSALS: set<Fault> := {CheckConstraint, TextTooLong, TimeNotUtc, DuplicateTime}

  datatype Then = Return(outcome: Outcome) | Continue(proc: Proc)

  /** How a transaction ends; a throw rolls back. */
  datatype Tx = Commit(db: Db, andThen: Then) | Rollback(andThen: Then) | Throw(fault: Fault)

  function Reject(outcome: Outcome): Tx {
    Rollback(Return(outcome))
  }

  /** The call goes on after this transaction. */
  predicate Continues(tx: Tx) {
    !tx.Throw? && tx.andThen.Continue?
  }

  /** `ApplyTransition`: the status and its transition row are written together. */
  function Moved(db: Db, next: CreditStatus): Db {
    db.(status := next, log := db.log + [Edge(db.status, next)])
  }

  /** The lease workflow's move, with its transition row. */
  function LeaseMoved(db: Db, next: LeaseStatus): Db
    requires db.contract.Some?
  {
    db.(contract := Some(db.contract.value.(status := next)),
        leaseLog := db.leaseLog + [Edge(db.contract.value.status, next)])
  }

  /** A commit that contains one `MoveTo`, which throws when the table has no such edge. */
  function CommitMove(db: Db, next: CreditStatus, andThen: Then): Tx {
    if CreditEdge(db.status, next) then Commit(Moved(db, next), andThen) else Throw(WorkflowTable)
  }

  /** Saving what an adapter said: a text its column does not take aborts the transaction. */
  function Save(fits: bool, saved: Tx): Tx {
    if fits then saved else Throw(TextTooLong)
  }

  /** The schedule check shared by three services: twelve months, in order, payable, strictly later each time. */
  predicate ValidMonth(months: seq<Month>, i: nat)
    requires i < |months|
  {
    && months[i].number == i + 1
    && WholeNonNegative(months[i].ownerPayment)
    && WholeNonNegative(months[i].bankInterest)
    && (months[i].ownerPayment != 0.0 || months[i].bankInterest != 0.0)
    && (i > 0 ==> months[i - 1].dueAt < months[i].dueAt)
  }

  predicate ValidMonths(months: seq<Month>) {
    |months| == TERM_MONTHS && forall i :: 0 <= i < |months| ==> ValidMonth(months, i)
  }

  /** The validators' loop, which leaves at the first bad month. */
  method CheckSchedule(months: seq<Month>) returns (ok: bool)
    ensures ok == ValidMonths(months)
  {
    if |months| != TERM_MONTHS {
      return false;
    }
    for index := 0 to |months|
      invariant forall i :: 0 <= i < index ==> ValidMonth(months, i)
    {
      var month := months[index];
      if month.number != index + 1
         || month.ownerPayment < 0.0
         || month.bankInterest < 0.0
         || !Whole(month.ownerPayment)
         || !Whole(month.bankInterest)
         || (month.ownerPayment == 0.0 && month.bankInterest == 0.0)
         || (index > 0 && months[index - 1].dueAt >= month.dueAt)
      {
        assert !ValidMonth(months, index);
        return false;
      }
    }
    ok := true;
  }

  /** Due times of a valid schedule increase over any distance, so no two months fall due together. */
  lemma {:induction false} DueTimesIncrease(months: seq<Month>, i: nat, j: nat)
    requires ValidMonths(months) && i < j < |months|
    ensures months[i].dueAt < months[j].dueAt
    decreases j - i
  {
    assert ValidMonth(months, j);
    if i + 1 < j {
      DueTimesIncrease(months, i, j - 1);
    }
  }
}
