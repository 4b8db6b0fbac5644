/** What the funding protocol guarantees in every reachable world, whatever the callers, crashes and adapters did. */
module FundingTheorems {
  import opened Texts
  import opened Columns
  import opened Rial
  import opened Workflows
  import opened FundingRows
  import opened Intake
  import opened Registration
  import opened Eligibility
  import opened BankFunding
  import opened LeaseFunding
  import opened FundingInvariant
  import opened MoneySteps
  import opened LeaseSteps
  import opened FundingProtocol
  import opened FundingRefusals

  /** Status, allocation and frozen principal agree, and the principal is the allocation's loan at its bank. */
  lemma BankMoneySafety(cfg: Config, w: World)
    requires ValidConfig(cfg) && Reachable(cfg, w)
    ensures w.db.status == BankApprovalPending ==> w.db.allocation.None?
    ensures w.db.status == FundingPending ==> w.db.allocation.Some? && w.db.principal.None?
    ensures w.db.principal.Some? <==> w.db.status == ApprovedFunded
    ensures w.db.principal.Some? ==>
              && w.db.allocation.Some? && w.db.contract.Some?
              && w.db.principal.value.contractId == w.db.contract.value.id
              && w.db.principal.value.bankId == w.db.allocation.value.bankId
              && w.db.principal.value.amount == w.db.allocation.value.loan
  {
    hide Trim, TrustedTerms, TermsOf, FullDeposit, MaximumLoan, LoanRatio, ValidMonths, CreditPath, LeasePath,
         Reachable, ValidEvidence;
    ReachableInv(cfg, w);
  }

  /** Whatever happens next, the plan, the contract parties, the terms, a completed decision, the allocation, the
      principal and the posted contribution stay exactly as they are, and history is only added to. */
  lemma CommittedMoneyIsFinal(cfg: Config, w: World, events: seq<Event>)
    requires ValidConfig(cfg) && Reachable(cfg, w)
    ensures Grows(w.db, Run(cfg, w, events).db)
    ensures var later := Run(cfg, w, events).db;
            && (w.db.allocation.Some? ==> later.allocation == w.db.allocation)
            && (w.db.principal.Some? ==> later.principal == w.db.principal && later.status == ApprovedFunded)
            && (w.db.plan.Some? ==> later.plan == w.db.plan)
  {
    hide Trim, TrustedTerms, TermsOf, FullDeposit, MaximumLoan, LoanRatio, ValidMonths, CreditPath, LeasePath,
         Reachable, ValidEvidence, Step, Run;
    ReachableInv(cfg, w);
    RunKeeps(cfg, w, events);
  }

  /** Past registration there is one truth: contract, terms and request all stem from one validated answer of the
      evidence provider, the request is confirmed, and its reference is the snapshot's source. */
  lemma RegistrationKeepsOneTruth(cfg: Config, w: World)
    requires ValidConfig(cfg) && Reachable(cfg, w) && Past(w.db.status)
    ensures w.db.contract.Some? && w.db.terms.Some? && w.db.request.Some?
    ensures w.db.request.value.status == Confirmed && SourceMatches(w.db.terms.value, w.db.request.value)
    ensures exists e :: && e in w.received && ValidEvidence(cfg, e)
                        && w.db.contract.value.owner == e.owner
                        && w.db.contract.value.property == e.property
                        && w.db.terms.value == KeptTerms(TermsOf(w.db.contract.value.id, e))
  {
    hide Trim, TrustedTerms, TermsOf, FullDeposit, MaximumLoan, LoanRatio, ValidMonths, CreditPath, LeasePath,
         Reachable, ValidEvidence;
    ReachableInv(cfg, w);
    assert w.db.origin.value in w.received;
  }

  /** Every request to the bank was preceded by an eligibility decision, although the bare table has a shortcut. */
  lemma DecisionBeforeBank(cfg: Config, w: World, j: nat)
    requires ValidConfig(cfg) && Reachable(cfg, w)
    requires j < |w.db.log| && w.db.log[j].to == BankApprovalPending
    ensures exists i :: 0 <= i < j && w.db.log[i].to == DecisionReady
  {
    hide DbInv, Reachable;
    ReachableInv(cfg, w);
    assert CreditPath(w.db.log, w.db.status) by { LogOf(cfg, w); }
    var i :| 0 <= i < j && w.db.log[..j][i].to == DecisionReady;
    assert w.db.log[i].to == DecisionReady;
  }

  /** The committed transition rows, in commit order, are a path of table edges from Draft to the current status;
      the lease rows likewise from LeaseDraft. */
  lemma LogOf(cfg: Config, w: World)
    requires ValidConfig(cfg) && Reachable(cfg, w)
    ensures Chain(w.db.log, Draft, w.db.status)
    ensures forall i :: 0 <= i < |w.db.log| ==> CreditEdge(w.db.log[i].from, w.db.log[i].to)
    ensures CreditPath(w.db.log, w.db.status)
    ensures w.db.contract.Some? ==> LeasePath(w.db.leaseLog, w.db.contract.value.status)
  {
    hide Trim, TrustedTerms, TermsOf, FullDeposit, MaximumLoan, LoanRatio, ValidMonths, Reachable, ValidEvidence;
    ReachableInv(cfg, w);
  }

  /** In ExternalCheckIndeterminate exactly one of grading, bank approval and principal freeze can go on, told apart
      by whether the decision is complete and whether an allocation exists. */
  lemma IndeterminateIsUnambiguous(cfg: Config, w: World, freshId: Guid)
    requires ValidConfig(cfg) && Reachable(cfg, w) && w.db.status == ExternalCheckIndeterminate
    ensures var grade := GradeStart(cfg, w.db, cfg.applicant, freshId);
            var bank := BankStart(cfg, w.db, cfg.applicant, freshId);
            && (Continues(grade) <==> !HasDecision(w.db))
            && (Continues(bank) && bank.andThen.proc.BankAsking? <==> HasDecision(w.db) && w.db.allocation.None?)
            && (Continues(bank) && bank.andThen.proc.FreezeStarting? <==> HasDecision(w.db) && w.db.allocation.Some?)
            && (Continues(bank) <==> HasDecision(w.db))
  {
    hide Trim, FullDeposit, MaximumLoan, LoanRatio, ValidMonths, CreditPath, LeasePath, Reachable, ValidEvidence,
         FrozenEvidence, MatchesTrustedSnapshot, AllocationMatches;
    ReachableInv(cfg, w);
    if HasDecision(w.db) {
      DecisionMatchesSnapshot(cfg, w.received, w.db);
      if w.db.allocation.Some? {
        AllocationAlwaysMatches(cfg, w.received, w.db);
      }
    }
  }

  /** The loan ceiling before it is rounded down. */
  function ExactCeiling(a: AssessmentRow): real
    requires a.subGrade.Some? && LoanRatio(a.subGrade.value).Some?
  {
    a.full * LoanRatio(a.subGrade.value).value
  }

  lemma CeilingIsPositive(a: AssessmentRow)
    requires SoundDecision(a) && a.full >= 0.0
    ensures 0.0 <= a.maxLoan.value && (a.maxLoan.value > 0.0 <==> ExactCeiling(a) >= 1.0)
  {
    hide LoanRatio, Blank;
    RatioIsPositive(a.subGrade.value);
    CeilingOf(a.full, a.ratio.value);
  }

  lemma CeilingOf(full: real, ratio: real)
    requires full >= 0.0 && ratio >= 0.0
    ensures 0.0 <= MaximumLoan(full, ratio) && (MaximumLoan(full, ratio) > 0.0 <==> full * ratio >= 1.0)
  {
    var exact := full * ratio;
    assert exact >= 0.0;
    assert MaximumLoan(full, ratio) == exact.Floor as real;
  }

  lemma RatioIsPositive(grade: string)
    requires LoanRatio(grade).Some?
    ensures LoanRatio(grade).value > 0.0
  {
  }

  /** A bank request can start from DecisionReady exactly when the loan ceiling is a positive amount: a deposit so
      small that its ceiling rounds down to zero leaves the application stuck. */
  lemma BankStartsUnlessCeilingIsZero(cfg: Config, w: World, freshId: Guid)
    requires ValidConfig(cfg) && Reachable(cfg, w) && w.db.status == DecisionReady
    ensures w.db.assessment.Some? && SoundDecision(w.db.assessment.value)
    ensures var tx := BankStart(cfg, w.db, cfg.applicant, freshId);
            && (Continues(tx) <==> ExactCeiling(w.db.assessment.value) >= 1.0)
            && (!Continues(tx) ==> tx == Reject(InvalidState))
  {
    hide Trim, FullDeposit, LoanRatio, MaximumLoan, ExactCeiling, ValidMonths, CreditPath, LeasePath, Reachable,
         ValidEvidence, FrozenEvidence, MatchesTrustedSnapshot, AllocationMatches, TermsOf;
    ReachableInv(cfg, w);
    DecisionMatchesSnapshot(cfg, w.received, w.db);
    CeilingIsPositive(w.db.assessment.value);
  }

  /** The amount posted for the tenant, zero before any posting. */
  function Posted(db: Db): real {
    if db.journal.Some? then db.journal.value.amount else 0.0
  }

  /** An active lease is fully paid for: the deposit is the trusted formula over the captured terms, the loan keeps
      the grade's ceiling, the frozen principal is the loan, and principal plus posted contribution is the deposit. */
  lemma ActiveLeaseIsFunded(cfg: Config, w: World)
    requires ValidConfig(cfg) && Reachable(cfg, w)
    requires w.db.contract.Some? && w.db.contract.value.status == Active
    ensures w.db.status == ApprovedFunded
    ensures w.db.terms.Some? && w.db.assessment.Some? && w.db.allocation.Some? && w.db.principal.Some?
    ensures var t, a, al, p := w.db.terms.value, w.db.assessment.value, w.db.allocation.value, w.db.principal.value;
            && al.full == (t.cash.Floor + 100 * t.rent.Floor / 3) as real
            && a.subGrade.Some? && LoanRatio(a.subGrade.value).Some?
            && 0.0 < al.loan <= MaximumLoan(al.full, LoanRatio(a.subGrade.value).value)
            && al.loan + al.contribution == al.full
            && p.amount == al.loan
            && p.amount + Posted(w.db) == al.full
  {
    hide Trim, TermsOf, FullDeposit, MaximumLoan, LoanRatio, ValidMonths, CreditPath, LeasePath, Reachable,
         ValidEvidence, Whole;
    ReachableInv(cfg, w);
    FullDepositIsHundredThirds(w.db.terms.value.cash, w.db.terms.value.rent);
  }

  /** Its twelve months are numbered 1 to 12 and fall due one after the other. */
  lemma ActiveLeaseSchedule(cfg: Config, w: World, i: nat, j: nat)
    requires ValidConfig(cfg) && Reachable(cfg, w)
    requires w.db.contract.Some? && w.db.contract.value.status == Active && i < j < 12
    ensures w.db.terms.Some? && |w.db.terms.value.months| == 12
    ensures w.db.terms.value.months[i].number == i + 1 && w.db.terms.value.months[j].number == j + 1
    ensures w.db.terms.value.months[i].dueAt < w.db.terms.value.months[j].dueAt
  {
    hide Trim, TermsOf, FullDeposit, LoanRatio, CreditPath, LeasePath, Reachable, ValidEvidence, ValidMonth;
    ReachableInv(cfg, w);
    var months := w.db.terms.value.months;
    ActiveMonth(months, i);
    ActiveMonth(months, j);
    DueTimesIncrease(months, i, j);
  }

  lemma ActiveMonth(months: seq<Month>, i: nat)
    requires ValidMonths(months) && i < 12
    ensures months[i].number == i + 1
  {
    assert ValidMonth(months, i);
  }

  /** Whatever happens between its reads, an advance on an open contract answers InvalidState exactly when it read a
      failed tenant transfer; what the bank, the fund and the terms hold never makes it refuse. It activates exactly
      when the lease is fully funded at the moment it decides; a commit leaves the lease where the rows of that moment
      allow, changes the lease row only, and writes one row per counted transition. */
  lemma AdvanceRefusesOnlyForTheTenant(cfg: Config, w: World, pid: nat, seen: Db)
    requires ValidConfig(cfg) && Reachable(cfg, w)
    requires pid in w.procs && w.procs[pid] == Advancing(seen, ADVANCE_TABLES)
    requires w.db.contract.Some? && Open(w.db.contract.value.status)
    ensures var tx := AdvanceNext(cfg, w.db, seen, ADVANCE_TABLES);
            && (tx == Reject(InvalidState) <==> TenantRefuses(seen))
            && (tx.Commit? && tx.andThen.Return? && tx.andThen.outcome.Activated? <==> FullyFunded(w.db))
            && (tx.Commit? ==>
                  && tx.db.contract == Some(w.db.contract.value.(status := LeaseTarget(w.db)))
                  && tx.andThen.Return? && |tx.db.leaseLog| == |w.db.leaseLog| + Counted(tx.andThen.outcome)
                  && tx.db == w.db.(contract := tx.db.contract, leaseLog := tx.db.leaseLog))
  {
    hide DbInv, Advance, Climb, Reachable;
    ReachableInv(cfg, w);
    assert ProcInv(cfg, w.received, w.db, w.procs[pid]);
    assert Sees(cfg, w.received, w.db, seen);
    AdvanceOutcome(cfg, w.received, w.db, seen);
    SeenFundedIsFunded(cfg, w.received, w.db, seen);
  }

  /** The transitions a reply reports. */
  function Counted(outcome: Outcome): nat {
    match outcome
    case Advanced(n) => n
    case Activated(n) => n
    case _ => 0
  }

  /** A late fund answer finds no principal to disagree with: the mismatch branch is never taken. It is refused exactly
      when the application left FundingPending, lost exactly when its texts do not fit, and otherwise committed. */
  lemma NoPrincipalMismatch(cfg: Config, w: World, pid: nat, r: FreezeResponse)
    requires ValidConfig(cfg) && Reachable(cfg, w) && pid in w.procs && w.procs[pid].FreezeAsking?
    ensures var p := w.procs[pid];
            var tx := FreezeAnswer(cfg, w.db, p.contractId, p.allocation, p.freezeId, r);
            && (tx == Reject(InvalidState) <==> w.db.status != FundingPending)
            && (tx.Throw? <==>
                && w.db.status == FundingPending
                && (!FreezeTextsFit(r) || (ConfirmsFreeze(r) && !FitsOption(r.fundReference, REFERENCE_LENGTH))))
            && (w.db.status == FundingPending && !tx.Throw? ==>
                  tx.Commit? && (tx.db.status == ApprovedFunded <==> ConfirmsFreeze(r)))
  {
    hide DbInv, Reachable, FreezeAnswer, FreezeTextsFit, ConfirmsFreeze, FitsOption;
    ReachableInv(cfg, w);
    var p := w.procs[pid];
    assert ProcInv(cfg, w.received, w.db, p);
    FreezeThrowsIff(cfg, w.received, w.db, p.contractId, p.allocation, p.freezeId, r);
    FreezeAnswerEnds(cfg, w.db, p.contractId, p.allocation, p.freezeId, r);
  }

  /** Nothing but this one refusal rolls a fund answer back. */
  lemma FreezeAnswerEnds(cfg: Config, db: Db, contractId: Guid, al: AllocationRow, freezeId: Guid, r: FreezeResponse)
    ensures var tx := FreezeAnswer(cfg, db, contractId, al, freezeId, r);
            tx.Commit? || tx.Throw? || tx == Reject(InvalidState)
  {
    hide FreezeTextsFit, ConfirmsFreeze, FitsOption, FreezeRecorded, Trim;
  }

  /** The candidate query of the reconciliation worker. */
  predicate WorkerSelects(cfg: Config, db: Db) {
    && db.contract.Some? && db.contract.value.tenant == cfg.applicant
    && ( || ((db.status == BankApprovalPending || db.status == ExternalCheckIndeterminate)
             && db.allocation.None?
             && db.approval.Some? && db.approval.value.status == BankUnclear)
         || ((db.status == FundingPending || db.status == ExternalCheckIndeterminate)
             && db.allocation.Some?
             && db.approval.Some? && db.approval.value.status == Approved
             && db.approval.value.approvedLoan == Some(db.allocation.value.loan)
             && db.approval.value.reference.Some? && db.approval.value.reference.value != ""
             && db.freeze.Some? && db.freeze.value.allocationId == db.allocation.value.id
             && db.freeze.value.status == FreezeUnclear))
  }

  /** Of all reachable rows the worker resumes exactly the started bank approvals and the started freezes; the one
      started money operation it passes over is FundingPending before any freeze row is written. */
  lemma WorkerSelectsExactly(cfg: Config, w: World)
    requires ValidConfig(cfg) && Reachable(cfg, w)
    ensures WorkerSelects(cfg, w.db) <==>
            || w.db.status == BankApprovalPending
            || (w.db.status == FundingPending && w.db.freeze.Some?)
            || (w.db.status == ExternalCheckIndeterminate && HasDecision(w.db))
  {
    hide Trim, TrustedTerms, TermsOf, FullDeposit, MaximumLoan, LoanRatio, ValidMonths, CreditPath, LeasePath,
         Reachable, ValidEvidence, FrozenEvidence;
    ReachableInv(cfg, w);
    EmptyIsBlank();
  }

  /** The candidate query for tenant contributions. */
  predicate TenantWorkerSelects(cfg: Config, db: Db) {
    && db.status == ApprovedFunded && db.allocation.Some? && db.contract.Some? && db.freeze.Some?
    && var al, c, f := db.allocation.value, db.contract.value, db.freeze.value;
    && al.contractId == c.id && c.tenant == cfg.applicant && al.contribution > 0.0 && Open(c.status)
    && f.allocationId == al.id && f.status == FreezeConfirmed && f.provider != ""
    && f.fundReference.Some? && f.fundReference.value != "" && f.reference.Some? && f.reference.value != ""
    && PrincipalMatches(db, al, c.id) && db.principal.value.fundReference == f.fundReference.value
    && ContributionOf(db, c.id).None?
    && (FundingOf(db, al).None?
        || (&& db.transfer.Some? && db.transfer.value.id == db.funding.value.transferId
            && db.transfer.value.contractId == c.id && db.transfer.value.amount == al.contribution
            && (db.transfer.value.status.TransferPending? || db.transfer.value.status.TransferUnknown?)))
  }

  /** Of all reachable rows with an unfinished tenant contribution the worker resumes exactly those whose fund
      reference the fund gave without surrounding white space: the principal stores it trimmed, the freeze does not,
      and the query compares the two. */
  lemma TenantWorkerSelectsExactly(cfg: Config, w: World)
    requires ValidConfig(cfg) && Reachable(cfg, w)
    ensures TenantWorkerSelects(cfg, w.db) <==>
            && w.db.status == ApprovedFunded
            && w.db.allocation.Some? && w.db.allocation.value.contribution > 0.0
            && w.db.contract.Some? && Open(w.db.contract.value.status)
            && (w.db.transfer.None? || w.db.transfer.value.status.TransferPending?
                || w.db.transfer.value.status.TransferUnknown?)
            && w.db.freeze.Some? && w.db.freeze.value.fundReference.Some?
            && Trim(w.db.freeze.value.fundReference.value) == w.db.freeze.value.fundReference.value
  {
    hide Trim, TrustedTerms, TermsOf, FullDeposit, MaximumLoan, LoanRatio, ValidMonths, CreditPath, LeasePath,
         Reachable, ValidEvidence;
    ReachableInv(cfg, w);
    EmptyIsBlank();
  }
}
