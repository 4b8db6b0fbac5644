/** The inductive invariant over one application's rows, found across all services. */
module FundingInvariant {
  import opened Texts
  import opened Columns
  import opened Rial
  import opened Workflows
  import opened FundingRows
  import opened Registration
  import opened Eligibility
  import opened BankFunding
  import opened LeaseFunding

  /** Statuses only reached through a finalized registration. */
  predicate Past(s: CreditStatus) {
    || s.ExternalChecksPending? || s.ExternalCheckIndeterminate? || s.DecisionReady? || s.BankApprovalPending?
    || s.FundingPending? || s.ApprovedFunded? || s.Rejected?
  }

  /** Statuses only reached through a completed eligibility decision. */
  predicate Decided(s: CreditStatus) {
    s.DecisionReady? || s.BankApprovalPending? || s.FundingPending? || s.ApprovedFunded? || s.Rejected?
  }

  predicate HasDecision(db: Db) {
    db.assessment.Some? && Completed(db.assessment.value)
  }

  /** The grade result is the policy's answer for the trusted deposit. */
  predicate SoundDecision(a: AssessmentRow) {
    && a.subGrade.Some? && !Blank(a.subGrade.value)
    && LoanRatio(a.subGrade.value).Some? && a.ratio == LoanRatio(a.subGrade.value)
    && a.maxLoan == Some(MaximumLoan(a.full, a.ratio.value))
  }

  /** The committed transition rows walk the table from Draft to the present status, and every bank request
      in them comes after a decision. */
  ghost predicate CreditPath(log: seq<Edge<CreditStatus>>, status: CreditStatus) {
    && Chain(log, Draft, status)
    && (forall i :: 0 <= i < |log| ==> CreditEdge(log[i].from, log[i].to))
    && (forall j :: 0 <= j < |log| && log[j].to == BankApprovalPending ==> Visited(log[..j], DecisionReady))
  }

  ghost predicate LeasePath(log: seq<Edge<LeaseStatus>>, status: LeaseStatus) {
    && Chain(log, LeaseDraft, status)
    && (forall i :: 0 <= i < |log| ==> LeaseEdge(log[i].from, log[i].to))
  }

  ghost predicate PlanInv(cfg: Config, db: Db) {
    && (db.plan.Some? ==>
          && db.plan.value in cfg.catalogue && cfg.catalogue[db.plan.value].termMonths == TERM_MONTHS
          && Trim(db.plan.value.version) == db.plan.value.version
          && !(db.status.Draft? || db.status.IdentityPending? || db.status.PlanSelectionPending?))
    && (db.status == PropertyContractPending || Past(db.status) ==> db.plan.Some?)
    && (db.plan.Some? ==> db.status == PropertyContractPending || db.status == NeedsDocuments || Past(db.status))
    && (db.plan.None? ==> db.request.None? && db.contract.None?)
  }

  ghost predicate ContractInv(cfg: Config, db: Db) {
    && (db.contract.Some? ==>
          && db.plan.Some? && db.contract.value.plan == db.plan.value
          && db.contract.value.tenant == cfg.applicant && db.contract.value.id != 0)
    && (db.request.Some? ==> (db.request.value.status == Confirmed <==> Past(db.status)))
    && (Past(db.status) ==> db.request.Some? && db.contract.Some? && db.terms.Some?
                            && SourceMatches(db.terms.value, db.request.value))
  }

  /** Contract and terms describe one and the same validated answer of the evidence provider. */
  ghost predicate TermsInv(cfg: Config, received: set<Evidence>, db: Db) {
    db.terms.Some? ==>
      && db.contract.Some? && db.origin.Some?
      && db.origin.value in received && ValidEvidence(cfg, db.origin.value)
      && db.contract.value.owner == db.origin.value.owner
      && db.contract.value.property == db.origin.value.property
      && db.terms.value == KeptTerms(TermsOf(db.contract.value.id, db.origin.value))
      && TrustedTerms(db.terms.value)
  }

  ghost predicate AssessmentInv(db: Db) {
    && (db.assessment.Some? ==>
          && Past(db.status) && db.terms.Some? && db.assessment.value.full == db.terms.value.full
          && (db.assessment.value.status == GradeValid ==> Completed(db.assessment.value))
          && (Completed(db.assessment.value) ==> SoundDecision(db.assessment.value)))
    && (Decided(db.status) ==> HasDecision(db))
    && (db.status == ExternalChecksPending ==> !HasDecision(db))
    && (db.status == ExternalCheckIndeterminate ==> db.assessment.Some?)
    && (HasDecision(db) ==> Visited(db.log, DecisionReady))
  }

  ghost predicate ApprovalInv(db: Db) {
    && (db.approval.Some? ==>
          && HasDecision(db) && UsableEligibility(db.assessment)
          && db.approval.value.maxLoan == db.assessment.value.maxLoan.value)
    && (db.status == DecisionReady ==> db.approval.None?)
    && (db.approval.None? ==>
          !db.status.BankApprovalPending? && !db.status.FundingPending? && !db.status.ApprovedFunded?
          && !db.status.Rejected?)
    && (db.status == ExternalCheckIndeterminate ==> (db.approval.Some? <==> HasDecision(db)))
    && (db.approval.Some? && db.allocation.None? ==>
          if db.status == Rejected
          then db.approval.value.status == Declined
          else db.approval.value.status == BankUnclear)
  }

  ghost predicate AllocationInv(cfg: Config, db: Db) {
    && (db.allocation.Some? ==>
          var al := db.allocation.value;
          && (db.status.ExternalCheckIndeterminate? || db.status.FundingPending? || db.status.ApprovedFunded?)
          && db.contract.Some? && db.plan.Some? && db.plan.value in cfg.catalogue && db.approval.Some?
          && HasDecision(db)
          && al.contractId == db.contract.value.id
          && al.plan == db.plan.value && al.bankId == cfg.catalogue[db.plan.value].bankId
          && al.full == db.assessment.value.full && al.maxLoan == db.assessment.value.maxLoan.value
          && 0.0 < al.loan <= al.maxLoan && Whole(al.loan) && al.loan <= al.full
          && al.contribution == al.full - al.loan
          && db.approval.value.status == Approved && db.approval.value.approvedLoan == Some(al.loan)
          && db.approval.value.reference.Some? && !Blank(db.approval.value.reference.value))
    && ((db.status.FundingPending? || db.status.ApprovedFunded?) ==> db.allocation.Some?)
  }

  ghost predicate FreezeInv(db: Db) {
    && (db.freeze.Some? ==> db.allocation.Some? && db.freeze.value.allocationId == db.allocation.value.id)
    && (db.freeze.Some? && db.status != ApprovedFunded ==> db.freeze.value.status == FreezeUnclear)
    && (db.status == ExternalCheckIndeterminate && db.allocation.Some? ==> db.freeze.Some?)
    && (db.principal.Some? <==> db.status == ApprovedFunded)
    && (db.status == ApprovedFunded ==>
          && db.freeze.Some? && db.contract.Some? && db.allocation.Some?
          && db.principal.value.contractId == db.contract.value.id
          && FrozenEvidence(db.allocation.value, db.principal.value, db.freeze.value)
          && !BlankOption(db.freeze.value.reference)
          && Trim(db.principal.value.fundReference) == db.principal.value.fundReference)
  }

  ghost predicate ContributionInv(db: Db) {
    && (db.funding.Some? <==> db.transfer.Some?)
    && (db.funding.Some? ==>
          && db.status == ApprovedFunded && db.allocation.Some? && db.contract.Some?
          && db.funding.value.allocationId == db.allocation.value.id
          && db.funding.value.transferId == db.transfer.value.id
          && db.transfer.value.key == db.allocation.value.id
          && db.transfer.value.contractId == db.contract.value.id
          && db.transfer.value.amount == db.allocation.value.contribution
          && db.allocation.value.contribution > 0.0)
    && (db.contribution.Some? <==> db.journal.Some?)
    && (db.contribution.Some? <==> db.transfer.Some? && db.transfer.value.status == Succeeded)
    && (db.contribution.Some? ==>
          && db.contribution.value.contractId == db.contract.value.id
          && db.contribution.value.allocationId == db.allocation.value.id
          && db.contribution.value.amount == db.allocation.value.contribution
          && !Blank(db.contribution.value.fundReference)
          && db.funding.value.fundReference == Some(db.contribution.value.fundReference)
          && db.journal.value == JournalRow(db.allocation.value.id, db.transfer.value.id,
                                            db.allocation.value.contribution))
  }

  ghost predicate LeaseInv(db: Db) {
    && (db.contract.None? ==> db.leaseLog == [])
    && (db.contract.Some? ==>
          var s := db.contract.value.status;
          && LeasePath(db.leaseLog, s)
          && (s.LeaseDraft? || s.AwaitingFunding? || s.AwaitingCompletion? || s.Active?)
          && (s != LeaseDraft ==> db.allocation.Some?)
          && ((s.AwaitingCompletion? || s.Active?) ==> db.status == ApprovedFunded)
          && (s == Active ==> db.allocation.value.contribution == 0.0 || db.contribution.Some?))
  }

  ghost predicate DbInv(cfg: Config, received: set<Evidence>, db: Db) {
    && PlanInv(cfg, db)
    && ContractInv(cfg, db)
    && TermsInv(cfg, received, db)
    && AssessmentInv(db)
    && ApprovalInv(db)
    && AllocationInv(cfg, db)
    && FreezeInv(db)
    && ContributionInv(db)
    && LeaseInv(db)
    && CreditPath(db.log, db.status)
  }

  /** The same request for the tenant's money, whatever became of it. */
  predicate SameFunding(a: FundingRow, b: FundingRow) {
    b == a.(fundReference := b.fundReference)
  }

  predicate SameTransfer(a: TransferRow, b: TransferRow) {
    b == a.(status := b.status)
  }

  /** What no transaction takes back: identities, the plan, terms, a completed decision, money rows, history. */
  ghost predicate Grows(a: Db, b: Db) {
    && (a.status.ApprovedFunded? ==> b.status.ApprovedFunded?)
    && (a.plan.Some? ==> b.plan == a.plan)
    && (a.identity.Some? ==> b.identity.Some? && b.identity.value.id == a.identity.value.id)
    && (a.request.Some? ==> b.request.Some? && b.request.value.id == a.request.value.id)
    && (a.contract.Some? ==> b.contract.Some?
                             && b.contract.value == a.contract.value.(status := b.contract.value.status))
    && (a.terms.Some? ==> b.terms == a.terms && b.origin == a.origin)
    && (a.assessment.Some? ==> b.assessment.Some? && b.assessment.value.id == a.assessment.value.id
                               && b.assessment.value.full == a.assessment.value.full)
    && (HasDecision(a) ==> b.assessment == a.assessment)
    && (a.approval.Some? ==> b.approval.Some? && b.approval.value.id == a.approval.value.id
                             && b.approval.value.maxLoan == a.approval.value.maxLoan)
    && (a.allocation.Some? ==> b.allocation == a.allocation)
    && (a.freeze.Some? ==> b.freeze.Some? && b.freeze.value.id == a.freeze.value.id
                           && b.freeze.value.allocationId == a.freeze.value.allocationId)
    && (a.principal.Some? ==> b.principal == a.principal && b.freeze == a.freeze)
    && (a.funding.Some? ==> b.funding.Some? && SameFunding(a.funding.value, b.funding.value))
    && (a.transfer.Some? ==> b.transfer.Some? && SameTransfer(a.transfer.value, b.transfer.value))
    && (a.contribution.Some? ==> && b.contribution == a.contribution && b.journal == a.journal
                                 && b.funding == a.funding && b.transfer == a.transfer)
    && a.log <= b.log
    && a.leaseLog <= b.leaseLog
  }

  lemma GrowsTransitive(a: Db, b: Db, c: Db)
    requires Grows(a, b) && Grows(b, c)
    ensures Grows(a, c)
  {
  }

  /** The lease row and its history are left alone, unless the row is only created now. */
  ghost predicate KeepsLease(a: Db, b: Db) {
    a.contract.Some? ==> b.contract == a.contract && b.leaseLog == a.leaseLog
  }

  /** Rows that refer to the lease: adding one needs the lease row, which an advance holds from its first statement to
      its end. */
  predicate AddsToLease(a: Db, b: Db) {
    b.terms != a.terms || b.allocation != a.allocation || b.principal != a.principal || b.contribution != a.contribution
  }

  /** What the rows an advance has read so far tell about the rows as they are now: it holds the lease row's lock, so
      that the lease and all that refers to it stay as they were; the freeze, the transfer and the application's status
      may move on, as long as no principal or contribution comes of it. */
  ghost predicate SeenInv(db: Db, seen: Db, tables: nat) {
    && tables <= ADVANCE_TABLES
    && seen.contract.Some? && db.contract == seen.contract && seen.leaseLog == []
    && (tables > 0 ==>
          && (seen.status.ApprovedFunded? <==> db.status.ApprovedFunded?)
          && (seen.contract.value.status.AwaitingCompletion? ==> seen.status.ApprovedFunded?))
    && (tables > 1 ==>
          && seen.allocation == db.allocation
          && (seen.allocation.None? ==> !seen.status.ApprovedFunded? && !seen.contract.value.status.AwaitingFunding?))
    && (tables > 2 ==> seen.principal == db.principal && (seen.principal.Some? <==> seen.status.ApprovedFunded?))
    && (tables > 3 && seen.status.ApprovedFunded? ==> seen.freeze == db.freeze)
    && (tables > 4 ==> seen.contribution == db.contribution)
    && (tables > 5 && seen.funding.Some? ==> db.funding.Some? && SameFunding(seen.funding.value, db.funding.value))
    && (tables > 5 && seen.contribution.Some? ==> seen.funding == db.funding)
    && (tables > 6 ==>
          && (seen.funding.Some? ==> seen.transfer.Some?)
          && (seen.transfer.Some? ==>
                && db.transfer.Some? && SameTransfer(seen.transfer.value, db.transfer.value)
                && (seen.transfer.value.status.Succeeded? ==> seen.contribution.Some?))
          && (seen.contribution.Some? ==> seen.transfer == db.transfer))
    && (tables > 7 && seen.contribution.Some? ==> seen.journal == db.journal)
    && (tables > 8 ==> seen.terms == db.terms && (seen.status.ApprovedFunded? ==> seen.terms.Some?))
  }

  /** What a call may rely on between its transactions, whatever the others do meanwhile. */
  ghost predicate ProcInv(cfg: Config, received: set<Evidence>, db: Db, p: Proc) {
    match p
    case IdentityAsking(id) => db.identity.Some? && db.identity.value.id == id
    case ContractAsking(id, plan) => db.request.Some? && db.request.value.id == id && db.plan == Some(plan)
    case ContractCapturing(id, contractId, e) =>
      && db.request.Some? && db.request.value.id == id
      && db.contract.Some? && db.contract.value.id == contractId
      && e in received && ValidEvidence(cfg, e)
      && db.contract.value.owner == e.owner && db.contract.value.property == e.property
    case ContractFinalizing(id, contractId, snapshot) =>
      && db.request.Some? && db.request.value.id == id
      && db.contract.Some? && db.contract.value.id == contractId
      && db.terms == Some(snapshot)
    case GradeAsking(id) => db.assessment.Some? && db.assessment.value.id == id
    case BankAsking(cap) =>
      && db.approval.Some? && db.approval.value.id == cap.approvalId
      && db.contract.Some? && db.contract.value.id == cap.contractId
      && db.plan == Some(cap.planKey) && cap.planKey in cfg.catalogue && cap.plan == cfg.catalogue[cap.planKey]
      && HasDecision(db) && db.assessment == Some(cap.eligibility)
    case AllocationReading(contractId) =>
      && db.contract.Some? && db.contract.value.id == contractId && db.allocation.Some?
    case FreezeStarting(contractId, al) =>
      && db.contract.Some? && db.contract.value.id == contractId && db.allocation == Some(al)
    case FreezeAsking(contractId, al, freezeId) =>
      && db.contract.Some? && db.contract.value.id == contractId && db.allocation == Some(al)
      && db.freeze.Some? && db.freeze.value.id == freezeId
    case ContributionAsking(contractId, al, fundingId, transferId) =>
      && db.contract.Some? && db.contract.value.id == contractId && db.allocation == Some(al)
      && db.funding.Some? && db.funding.value.id == fundingId
      && db.transfer.Some? && db.transfer.value.id == transferId
    case Advancing(seen, tables) => SeenInv(db, seen, tables)
  }

  /** A loan is funded exactly when its principal is frozen. */
  lemma FundedMeansFrozen(cfg: Config, received: set<Evidence>, db: Db)
    requires DbInv(cfg, received, db)
    ensures db.status.ApprovedFunded? <==> db.principal.Some?
  {
    hide PlanInv, TermsInv, AssessmentInv, ApprovalInv, AllocationInv, ContributionInv, LeaseInv;
  }

  /** What the lock of the lease row keeps, apart from the holder. */
  ghost predicate LockKeeps(a: Db, b: Db) {
    KeepsLease(a, b) && !AddsToLease(a, b) && (a.status.ApprovedFunded? <==> b.status.ApprovedFunded?)
  }

  /** Interference freedom: growth of the rows never breaks what another call relies on; an advance also relies on
      its lock. */
  lemma ProcStable(cfg: Config, received: set<Evidence>, more: set<Evidence>, a: Db, b: Db, p: Proc)
    requires ProcInv(cfg, received, a, p) && Grows(a, b) && received <= more
    requires p.Advancing? ==> LockKeeps(a, b)
    ensures ProcInv(cfg, more, b, p)
  {
    hide ValidEvidence, Completed;
  }

  /** A transaction keeps everything: invariant, growth, the continuation's assumptions; and it throws only
      when the database refuses what an adapter said. */
  ghost predicate TxSafe(cfg: Config, received: set<Evidence>, db: Db, tx: Tx) {
    && (tx.Commit? ==> DbInv(cfg, received, tx.db) && Grows(db, tx.db))
    && (tx.Commit? && tx.andThen.Continue? ==> ProcInv(cfg, received, tx.db, tx.andThen.proc))
    && (tx.Rollback? && tx.andThen.Continue? ==> ProcInv(cfg, received, db, tx.andThen.proc))
    && (tx.Throw? ==> tx.fault in REFUSALS)
  }
}
