/** Every transaction of every service keeps the invariant. */
module FundingSteps {
  import opened Texts
  import opened Columns
  import opened Rial
  import opened Workflows
  import opened FundingRows
  import opened Intake
  import opened Registration
  import opened Eligibility
  import opened BankFunding
  import opened LeaseFunding
  import opened FundingInvariant

  /** Writing status and transition row together extends the path; nothing visited is forgotten. */
  lemma MoveKeepsPath(log: seq<Edge<CreditStatus>>, status: CreditStatus, next: CreditStatus)
    requires CreditPath(log, status) && CreditEdge(status, next)
    requires next == BankApprovalPending ==> Visited(log, DecisionReady)
    ensures var longer := log + [Edge(status, next)];
            CreditPath(longer, next) && log <= longer
            && (Visited(log, DecisionReady) || next == DecisionReady ==> Visited(longer, DecisionReady))
  {
    ChainExtends(log, Draft, status, next);
    var longer := log + [Edge(status, next)];
    forall j | 0 <= j < |longer| && longer[j].to == BankApprovalPending
      ensures Visited(longer[..j], DecisionReady)
    {
      assert longer[..j] == log[..j];
      if j == |log| {
        assert log[..j] == log;
      }
    }
    if Visited(log, DecisionReady) {
      var i :| 0 <= i < |log| && log[i].to == DecisionReady;
      assert longer[i].to == DecisionReady;
    } else if next == DecisionReady {
      assert longer[|log|].to == DecisionReady;
    }
  }

  lemma LeaseMoveKeepsPath(log: seq<Edge<LeaseStatus>>, status: LeaseStatus, next: LeaseStatus)
    requires LeasePath(log, status) && LeaseEdge(status, next)
    ensures LeasePath(log + [Edge(status, next)], next) && log <= log + [Edge(status, next)]
  {
    ChainExtends(log, LeaseDraft, status, next);
  }

  lemma NewLease()
    ensures LeasePath([], LeaseDraft)
  {
  }

  lemma SubmitSafe(cfg: Config, received: set<Evidence>, db: Db, user: Guid)
    requires ValidConfig(cfg) && DbInv(cfg, received, db)
    ensures TxSafe(cfg, received, db, Submit(cfg, db, user))
  {
    hide Trim, TrustedTerms, TermsOf, FullDeposit, MaximumLoan, LoanRatio, ValidMonths, CreditPath, LeasePath,
         Visited, SoundDecision, UsableEligibility, FrozenEvidence;
    if db.status == Draft {
      MoveKeepsPath(db.log, db.status, IdentityPending);
    }
  }

  lemma IdentityStartSafe(cfg: Config, received: set<Evidence>, db: Db, freshId: Guid)
    requires ValidConfig(cfg) && DbInv(cfg, received, db)
    ensures TxSafe(cfg, received, db, IdentityStart(db, freshId))
  {
    hide Trim, TrustedTerms, TermsOf, FullDeposit, MaximumLoan, LoanRatio, ValidMonths, CreditPath, LeasePath,
         Visited, SoundDecision, UsableEligibility, FrozenEvidence;
  }

  lemma IdentityMoveSafe(cfg: Config, received: set<Evidence>, db: Db, r: IdentityResponse)
    requires ValidConfig(cfg) && DbInv(cfg, received, db) && db.identity.Some? && db.status == IdentityPending
    requires r.outcome == Verified || r.outcome == DocumentsNeeded
    ensures TxSafe(cfg, received, db, IdentityAnswer(db, db.identity.value.id, r))
  {
    hide Trim, TrustedTerms, TermsOf, FullDeposit, MaximumLoan, LoanRatio, ValidMonths, CreditPath, LeasePath,
         Visited, SoundDecision, UsableEligibility, FrozenEvidence, IdentityTextsFit;
    MoveKeepsPath(db.log, db.status, if r.outcome == Verified then PlanSelectionPending else NeedsDocuments);
  }

  lemma IdentityAnswerSafe(cfg: Config, received: set<Evidence>, db: Db, identityId: Guid, r: IdentityResponse)
    requires ValidConfig(cfg) && DbInv(cfg, received, db)
    requires ProcInv(cfg, received, db, IdentityAsking(identityId)) && r.outcome != IdentityWaiting
    ensures TxSafe(cfg, received, db, IdentityAnswer(db, identityId, r))
  {
    hide DbInv, TxSafe, Moved;
    if db.status == IdentityPending && r.outcome != IdentityUnclear && !IsTerminal(db.identity.value.status) {
      IdentityMoveSafe(cfg, received, db, r);
    } else {
      IdentityRecordSafe(cfg, received, db, identityId, r);
    }
  }

  /** The answers that leave the status alone. */
  lemma IdentityRecordSafe(cfg: Config, received: set<Evidence>, db: Db, identityId: Guid, r: IdentityResponse)
    requires DbInv(cfg, received, db) && db.identity.Some? && db.identity.value.id == identityId
    requires r.outcome != IdentityWaiting
    requires db.status != IdentityPending || r.outcome == IdentityUnclear || IsTerminal(db.identity.value.status)
    ensures TxSafe(cfg, received, db, IdentityAnswer(db, identityId, r))
  {
    hide Trim, TrustedTerms, TermsOf, FullDeposit, MaximumLoan, LoanRatio, ValidMonths, CreditPath, LeasePath,
         Visited, SoundDecision, UsableEligibility, FrozenEvidence, ValidEvidence, Moved, IdentityTextsFit;
  }

  lemma SelectPlanSafe(cfg: Config, received: set<Evidence>, db: Db, user: Guid, planId: Guid, version: string,
                       published: bool)
    requires ValidConfig(cfg) && DbInv(cfg, received, db)
    ensures TxSafe(cfg, received, db, SelectPlan(cfg, db, user, planId, version, published))
  {
    hide Trim, TrustedTerms, TermsOf, FullDeposit, MaximumLoan, LoanRatio, ValidMonths, CreditPath, LeasePath,
         Visited, SoundDecision, UsableEligibility, FrozenEvidence;
    TrimIdempotent(version);
    if db.status == PlanSelectionPending {
      MoveKeepsPath(db.log, db.status, PropertyContractPending);
    }
  }

  lemma ContractStartSafe(cfg: Config, received: set<Evidence>, db: Db, user: Guid, freshId: Guid)
    requires ValidConfig(cfg) && DbInv(cfg, received, db)
    ensures TxSafe(cfg, received, db, ContractStart(cfg, db, user, freshId))
  {
    hide Trim, TrustedTerms, TermsOf, FullDeposit, MaximumLoan, LoanRatio, ValidMonths, CreditPath, LeasePath,
         Visited, SoundDecision, UsableEligibility, FrozenEvidence;
  }

  lemma RecordEvidenceSafe(cfg: Config, received: set<Evidence>, db: Db, requestId: Guid, plan: PlanKey,
                           r: EvidenceResponse, e: Evidence, ownerExists: bool, freshId: Guid)
    requires ValidConfig(cfg) && DbInv(cfg, received, db)
    requires ProcInv(cfg, received, db, ContractAsking(requestId, plan))
    requires ValidateEvidence(cfg, r) == Some(e) && e in received && freshId != 0
    ensures TxSafe(cfg, received, db, RecordEvidence(cfg, db, requestId, plan, r, e, ownerExists, freshId))
  {
    hide Trim, TrustedTerms, TermsOf, FullDeposit, MaximumLoan, LoanRatio, ValidMonths, CreditPath, LeasePath,
         Visited, SoundDecision, UsableEligibility, FrozenEvidence, Fits, EvidenceTextsFit, SeenInv;
    EvidenceAccepted(cfg, r);
    NewLease();
  }

  lemma RecordDocumentsSafe(cfg: Config, received: set<Evidence>, db: Db, requestId: Guid, r: EvidenceResponse)
    requires ValidConfig(cfg) && DbInv(cfg, received, db)
    requires db.request.Some? && db.request.value.id == requestId
    ensures TxSafe(cfg, received, db, RecordDocuments(cfg, db, requestId, r))
  {
    hide Trim, TrustedTerms, TermsOf, FullDeposit, MaximumLoan, LoanRatio, ValidMonths, CreditPath, LeasePath,
         Visited, SoundDecision, UsableEligibility, FrozenEvidence, ValidEvidence, Whole, NormalizeOptional,
         ProviderOr, EvidenceTextsFit;
    if db.status == PropertyContractPending {
      MoveKeepsPath(db.log, db.status, NeedsDocuments);
    }
  }

  lemma RecordUnansweredSafe(cfg: Config, received: set<Evidence>, db: Db, requestId: Guid, r: EvidenceResponse)
    requires ValidConfig(cfg) && DbInv(cfg, received, db)
    requires db.request.Some? && db.request.value.id == requestId
    ensures TxSafe(cfg, received, db, RecordUnanswered(cfg, db, requestId, r))
  {
    hide Trim, TrustedTerms, TermsOf, FullDeposit, MaximumLoan, LoanRatio, ValidMonths, CreditPath, LeasePath,
         Visited, SoundDecision, UsableEligibility, FrozenEvidence, EvidenceTextsFit;
  }

  lemma ContractAnswerSafe(cfg: Config, received: set<Evidence>, db: Db, requestId: Guid, plan: PlanKey,
                           r: EvidenceResponse, ownerExists: bool, freshId: Guid)
    requires ValidConfig(cfg) && DbInv(cfg, received, db)
    requires ProcInv(cfg, received, db, ContractAsking(requestId, plan)) && freshId != 0
    requires ValidateEvidence(cfg, r).Some? ==> ValidateEvidence(cfg, r).value in received
    ensures TxSafe(cfg, received, db, ContractAnswer(cfg, db, requestId, plan, r, ownerExists, freshId))
  {
    hide ValidateEvidence, DbInv, TxSafe, RecordEvidence, RecordDocuments, RecordUnanswered;
    RecordDocumentsSafe(cfg, received, db, requestId, r);
    RecordUnansweredSafe(cfg, received, db, requestId, r);
    RecordUnansweredSafe(cfg, received, db, requestId, r.(reason := Some(EVIDENCE_INVALID)));
    if ValidateEvidence(cfg, r).Some? {
      RecordEvidenceSafe(cfg, received, db, requestId, plan, r, ValidateEvidence(cfg, r).value, ownerExists, freshId);
    }
  }

  /** Capturing evidence whose contract it already matched keeps contract and terms on one source. */
  lemma CaptureSafe(cfg: Config, received: set<Evidence>, db: Db, requestId: Guid, contractId: Guid, e: Evidence)
    requires ValidConfig(cfg) && DbInv(cfg, received, db)
    requires ProcInv(cfg, received, db, ContractCapturing(requestId, contractId, e))
    ensures TxSafe(cfg, received, db, Capture(cfg, db, requestId, contractId, e))
  {
    hide Trim, TrustedTerms, MaximumLoan, LoanRatio, ValidMonths, CreditPath, LeasePath, Visited, SoundDecision,
         UsableEligibility, FrozenEvidence, Fits, KeptTime;
    EvidenceIsACommand(cfg, contractId, e);
    if TimesDiffer(TermsOf(contractId, e).months) {
      KeptTermsTrusted(TermsOf(contractId, e));
    }
  }

  lemma FinalizeSafe(cfg: Config, received: set<Evidence>, db: Db, requestId: Guid, contractId: Guid, snapshot: Terms)
    requires ValidConfig(cfg) && DbInv(cfg, received, db)
    requires ProcInv(cfg, received, db, ContractFinalizing(requestId, contractId, snapshot))
    ensures TxSafe(cfg, received, db, Finalize(cfg, db, requestId, contractId, snapshot))
  {
    hide Trim, TrustedTerms, TermsOf, FullDeposit, MaximumLoan, LoanRatio, ValidMonths, CreditPath, LeasePath,
         Visited, SoundDecision, UsableEligibility, FrozenEvidence;
    if db.status == PropertyContractPending {
      MoveKeepsPath(db.log, db.status, ExternalChecksPending);
    }
  }

  lemma GradeStartSafe(cfg: Config, received: set<Evidence>, db: Db, user: Guid, freshId: Guid)
    requires ValidConfig(cfg) && DbInv(cfg, received, db)
    ensures TxSafe(cfg, received, db, GradeStart(cfg, db, user, freshId))
  {
    hide Trim, TrustedTerms, TermsOf, FullDeposit, MaximumLoan, LoanRatio, ValidMonths, CreditPath, LeasePath,
         Visited, FrozenEvidence, UsableEligibility;
  }

  /** An unusable answer leaves an undecided assessment and an application still open to evaluation. */
  lemma GradeUnclearSafe(cfg: Config, received: set<Evidence>, db: Db, recorded: AssessmentRow)
    requires ValidConfig(cfg) && DbInv(cfg, received, db)
    requires db.assessment.Some? && !HasDecision(db) && Evaluatable(db.status)
    requires recorded.id == db.assessment.value.id && recorded.full == db.assessment.value.full
    requires recorded.status != GradeValid
    ensures TxSafe(cfg, received, db, MarkUnclear(db.(assessment := Some(recorded))))
  {
    hide Trim, TrustedTerms, TermsOf, FullDeposit, MaximumLoan, LoanRatio, ValidMonths, CreditPath, LeasePath,
         Visited, UsableEligibility, FrozenEvidence, ValidEvidence, SoundDecision;
    if db.status == ExternalChecksPending {
      MoveKeepsPath(db.log, db.status, ExternalCheckIndeterminate);
    }
  }

  lemma GradeDecidedSafe(cfg: Config, received: set<Evidence>, db: Db, decided: AssessmentRow)
    requires ValidConfig(cfg) && DbInv(cfg, received, db)
    requires db.assessment.Some? && !HasDecision(db) && Evaluatable(db.status)
    requires decided.id == db.assessment.value.id && decided.full == db.assessment.value.full
    requires Completed(decided) && SoundDecision(decided)
    ensures TxSafe(cfg, received, db, CommitMove(db.(assessment := Some(decided)), DecisionReady, Return(Applied)))
  {
    hide Trim, TrustedTerms, TermsOf, FullDeposit, MaximumLoan, LoanRatio, ValidMonths, CreditPath, LeasePath,
         Visited, UsableEligibility, FrozenEvidence, ValidEvidence, SoundDecision;
    MoveKeepsPath(db.log, db.status, DecisionReady);
  }

  lemma GradeAnswerSafe(cfg: Config, received: set<Evidence>, db: Db, assessmentId: Guid, r: GradeResponse)
    requires ValidConfig(cfg) && DbInv(cfg, received, db)
    requires ProcInv(cfg, received, db, GradeAsking(assessmentId))
    ensures TxSafe(cfg, received, db, GradeAnswer(cfg, db, assessmentId, r))
  {
    hide Trim, TrustedTerms, TermsOf, FullDeposit, MaximumLoan, LoanRatio, ValidMonths, CreditPath, LeasePath,
         Visited, UsableEligibility, FrozenEvidence, ValidEvidence, CommitMove, MarkUnclear, GradeTextsFit;
    if !HasDecision(db) && TrustedDeposit(cfg, db).Some? {
      assert Evaluatable(db.status);
      var a := db.assessment.value;
      var recorded := a.(status := r.status, subGrade := NormalizeOptional(r.subGrade), ratio := None, maxLoan := None);
      if r.status != GradeValid {
        GradeUnclearSafe(cfg, received, db, recorded);
      } else if recorded.subGrade.None? || LoanRatio(recorded.subGrade.value).None? {
        GradeUnclearSafe(cfg, received, db, recorded.(status := GradeInvalid));
      } else {
        TrimIdempotent(r.subGrade.value);
        var ratio := LoanRatio(recorded.subGrade.value);
        GradeDecidedSafe(cfg, received, db,
                         recorded.(ratio := ratio, maxLoan := Some(MaximumLoan(a.full, ratio.value))));
      }
    }
  }
}
