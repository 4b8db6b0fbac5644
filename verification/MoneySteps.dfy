/** The money-moving transactions keep the invariant: approval, allocation, freeze, contribution, activation. */
module MoneySteps {
  import opened Texts
  import opened Columns
  import opened Rial
  import opened Workflows
  import opened FundingRows
  import opened Registration
  import opened Eligibility
  import opened BankFunding
  import opened LeaseFunding
  import opened FundingInvariant
  import opened FundingSteps

  /** A sound decision over trusted terms is what the bank service accepts as its trusted snapshot. */
  lemma DecisionMatchesSnapshot(cfg: Config, received: set<Evidence>, db: Db)
    requires DbInv(cfg, received, db) && HasDecision(db)
    ensures db.contract.Some? && db.plan.Some?
    ensures MatchesTrustedSnapshot(db, db.contract.value.id, db.assessment.value)
    ensures WholeNonNegative(db.assessment.value.full) && db.assessment.value.full > 0.0
    ensures UsableEligibility(db.assessment) <==> db.assessment.value.maxLoan.value > 0.0
  {
    hide Trim, FullDeposit, MaximumLoan, LoanRatio, ValidMonths, CreditPath, LeasePath, Visited, FrozenEvidence,
         ValidEvidence;
  }

  /** Once made, an allocation always passes the trusted-state comparison: the Conflict answer is unreachable. */
  lemma AllocationAlwaysMatches(cfg: Config, received: set<Evidence>, db: Db)
    requires DbInv(cfg, received, db) && db.allocation.Some?
    ensures db.contract.Some? && db.plan.Some? && db.plan.value in cfg.catalogue && db.assessment.Some?
    ensures AllocationMatches(db.allocation.value, db.contract.value.id, db.plan.value,
                              cfg.catalogue[db.plan.value], db.assessment.value) == Some(true)
  {
    hide Trim, TermsOf, FullDeposit, MaximumLoan, LoanRatio, ValidMonths, CreditPath, LeasePath, Visited,
         FrozenEvidence, ValidEvidence;
    DecisionMatchesSnapshot(cfg, received, db);
  }

  /** A fresh or resumed bank request: the move into BankApprovalPending. */
  lemma BankRequestMoveSafe(cfg: Config, received: set<Evidence>, db: Db, freshId: Guid)
    requires ValidConfig(cfg) && DbInv(cfg, received, db)
    requires HasDecision(db) && UsableEligibility(db.assessment) && db.plan.Some? && db.contract.Some?
    requires db.allocation.None? && (db.status.DecisionReady? || db.status.ExternalCheckIndeterminate?)
    ensures TxSafe(cfg, received, db, BankRequest(db, cfg.catalogue[db.plan.value], freshId))
  {
    hide Trim, TrustedTerms, TermsOf, FullDeposit, MaximumLoan, LoanRatio, ValidMonths, CreditPath, LeasePath,
         Visited, SoundDecision, FrozenEvidence, ValidEvidence, SeenInv;
    MoveKeepsPath(db.log, db.status, BankApprovalPending);
  }

  /** Resuming a freeze: the move back into FundingPending. */
  lemma FreezeResumeSafe(cfg: Config, received: set<Evidence>, db: Db, freshId: Guid)
    requires ValidConfig(cfg) && DbInv(cfg, received, db)
    requires HasDecision(db) && UsableEligibility(db.assessment) && db.plan.Some? && db.contract.Some?
    requires db.allocation.Some? && db.status.ExternalCheckIndeterminate?
    ensures TxSafe(cfg, received, db, BankRequest(db, cfg.catalogue[db.plan.value], freshId))
  {
    hide Trim, TrustedTerms, TermsOf, FullDeposit, MaximumLoan, LoanRatio, ValidMonths, CreditPath, LeasePath,
         Visited, SoundDecision, FrozenEvidence, ValidEvidence;
    MoveKeepsPath(db.log, db.status, FundingPending);
  }

  lemma BankRequestSafe(cfg: Config, received: set<Evidence>, db: Db, freshId: Guid)
    requires ValidConfig(cfg) && DbInv(cfg, received, db)
    requires HasDecision(db) && UsableEligibility(db.assessment) && db.plan.Some? && db.contract.Some?
    requires db.status.DecisionReady? || db.status.BankApprovalPending? || db.status.FundingPending?
             || db.status.ExternalCheckIndeterminate?
    ensures TxSafe(cfg, received, db, BankRequest(db, cfg.catalogue[db.plan.value], freshId))
  {
    hide Trim, TrustedTerms, TermsOf, FullDeposit, MaximumLoan, LoanRatio, ValidMonths, CreditPath, LeasePath,
         Visited, SoundDecision, FrozenEvidence, ValidEvidence;
    if db.allocation.None? && (db.status.DecisionReady? || db.status.ExternalCheckIndeterminate?) {
      BankRequestMoveSafe(cfg, received, db, freshId);
    } else if db.status.ExternalCheckIndeterminate? {
      FreezeResumeSafe(cfg, received, db, freshId);
    }
  }

  lemma BankStartSafe(cfg: Config, received: set<Evidence>, db: Db, user: Guid, freshId: Guid)
    requires ValidConfig(cfg) && DbInv(cfg, received, db)
    ensures TxSafe(cfg, received, db, BankStart(cfg, db, user, freshId))
  {
    hide Trim, TrustedTerms, TermsOf, FullDeposit, MaximumLoan, LoanRatio, ValidMonths, CreditPath, LeasePath,
         Visited, SoundDecision, FrozenEvidence, ValidEvidence, MatchesTrustedSnapshot, AllocationMatches,
         BankRequest;
    if db.allocation.Some? {
      AllocationAlwaysMatches(cfg, received, db);
    }
    if HasDecision(db) && UsableEligibility(db.assessment) && db.plan.Some? && db.contract.Some?
       && Processable(db.status) && !db.status.ApprovedFunded? {
      BankRequestSafe(cfg, received, db, freshId);
    }
  }

  lemma BankApprovedSafe(cfg: Config, received: set<Evidence>, db: Db, cap: BankCapture, r: BankResponse, freshId: Guid)
    requires ValidConfig(cfg) && DbInv(cfg, received, db) && ProcInv(cfg, received, db, BankAsking(cap))
    requires db.status.BankApprovalPending? && r.status == Approved && !BlankOption(r.reference)
    requires AcceptableLoan(r.approvedLoan, cap.eligibility)
    ensures TxSafe(cfg, received, db, BankAnswer(db, cap, r, freshId))
  {
    hide Trim, TrustedTerms, TermsOf, FullDeposit, MaximumLoan, LoanRatio, ValidMonths, CreditPath, LeasePath,
         Visited, SoundDecision, FrozenEvidence, ValidEvidence, MatchesTrustedSnapshot, BankTextsFit;
    DecisionMatchesSnapshot(cfg, received, db);
    MoveKeepsPath(db.log, db.status, FundingPending);
    TrimIdempotent(r.reference.value);
  }

  /** A refusal, or an answer that settles nothing. */
  lemma BankUnapprovedSafe(cfg: Config, received: set<Evidence>, db: Db, cap: BankCapture, r: BankResponse,
                           freshId: Guid)
    requires ValidConfig(cfg) && DbInv(cfg, received, db) && ProcInv(cfg, received, db, BankAsking(cap))
    requires db.status.BankApprovalPending?
    requires !(r.status == Approved && !BlankOption(r.reference) && AcceptableLoan(r.approvedLoan, cap.eligibility))
    ensures TxSafe(cfg, received, db, BankAnswer(db, cap, r, freshId))
  {
    hide Trim, TrustedTerms, TermsOf, FullDeposit, MaximumLoan, LoanRatio, ValidMonths, CreditPath, LeasePath,
         Visited, SoundDecision, ValidEvidence, UsableEligibility, FrozenEvidence, AcceptableLoan, BankTextsFit,
         KeptOption, SeenInv;
    MoveKeepsPath(db.log, db.status, Rejected);
    MoveKeepsPath(db.log, db.status, ExternalCheckIndeterminate);
  }

  lemma BankAnswerSafe(cfg: Config, received: set<Evidence>, db: Db, cap: BankCapture, r: BankResponse, freshId: Guid)
    requires ValidConfig(cfg) && DbInv(cfg, received, db) && ProcInv(cfg, received, db, BankAsking(cap))
    ensures TxSafe(cfg, received, db, BankAnswer(db, cap, r, freshId))
  {
    hide DbInv, Grows, AcceptableLoan, BankTextsFit, KeptOption, BlankOption, NormalizeOptional, CommitMove;
    if db.status.BankApprovalPending? {
      if r.status == Approved && !BlankOption(r.reference) && AcceptableLoan(r.approvedLoan, cap.eligibility) {
        BankApprovedSafe(cfg, received, db, cap, r, freshId);
      } else {
        BankUnapprovedSafe(cfg, received, db, cap, r, freshId);
      }
    }
  }

  lemma AllocationReadSafe(cfg: Config, received: set<Evidence>, db: Db, contractId: Guid)
    requires ProcInv(cfg, received, db, AllocationReading(contractId))
    ensures TxSafe(cfg, received, db, AllocationRead(db, contractId))
  {
    hide DbInv, Grows;
  }

  lemma FreezeStartSafe(cfg: Config, received: set<Evidence>, db: Db, contractId: Guid, al: AllocationRow,
                        freshId: Guid)
    requires ValidConfig(cfg) && DbInv(cfg, received, db) && ProcInv(cfg, received, db, FreezeStarting(contractId, al))
    ensures TxSafe(cfg, received, db, FreezeStart(cfg, db, contractId, al, freshId))
  {
    hide Trim, TrustedTerms, TermsOf, FullDeposit, MaximumLoan, LoanRatio, ValidMonths, CreditPath, LeasePath,
         Visited, SoundDecision, FrozenEvidence, ValidEvidence, UsableEligibility;
  }

  /** What a confirmation stores is the evidence the lease service asks for. */
  lemma ConfirmationIsEvidence(cfg: Config, row: FreezeRow, r: FreezeResponse, contractId: Guid, al: AllocationRow)
    requires ValidConfig(cfg) && ConfirmsFreeze(r)
    requires FreezeTextsFit(r) && FitsOption(r.fundReference, REFERENCE_LENGTH)
    ensures var recorded, reference := FreezeRecorded(cfg, row, r), Trim(r.fundReference.value);
            && FrozenEvidence(al, PrincipalRow(contractId, al.bankId, al.loan, reference), recorded)
            && !BlankOption(recorded.reference) && Trim(reference) == reference
  {
    hide Trim, Fits, Kept;
    TrimIdempotent(r.fundReference.value);
    TrimIdempotent(r.provider);
    KeptTrims(r.fundReference.value, REFERENCE_LENGTH);
    KeptTrims(r.reference.value, REFERENCE_LENGTH);
  }

  lemma FreezeConfirmedSafe(cfg: Config, received: set<Evidence>, db: Db, contractId: Guid, al: AllocationRow,
                            freezeId: Guid, r: FreezeResponse)
    requires ValidConfig(cfg) && DbInv(cfg, received, db)
    requires ProcInv(cfg, received, db, FreezeAsking(contractId, al, freezeId))
    requires db.status.FundingPending? && ConfirmsFreeze(r)
    ensures TxSafe(cfg, received, db, FreezeAnswer(cfg, db, contractId, al, freezeId, r))
    ensures FreezeAnswer(cfg, db, contractId, al, freezeId, r).Commit? <==>
            FreezeTextsFit(r) && FitsOption(r.fundReference, REFERENCE_LENGTH)
  {
    hide Trim, TrustedTerms, TermsOf, FullDeposit, MaximumLoan, LoanRatio, ValidMonths, CreditPath, LeasePath,
         Visited, SoundDecision, ValidEvidence, UsableEligibility, FreezeTextsFit, FitsOption, Kept, FrozenEvidence;
    if FreezeTextsFit(r) && FitsOption(r.fundReference, REFERENCE_LENGTH) {
      ConfirmationIsEvidence(cfg, db.freeze.value, r, contractId, al);
    }
    MoveKeepsPath(db.log, db.status, ApprovedFunded);
  }

  lemma FreezeUnclearSafe(cfg: Config, received: set<Evidence>, db: Db, contractId: Guid, al: AllocationRow,
                          freezeId: Guid, r: FreezeResponse)
    requires ValidConfig(cfg) && DbInv(cfg, received, db)
    requires ProcInv(cfg, received, db, FreezeAsking(contractId, al, freezeId))
    requires db.status.FundingPending? && !ConfirmsFreeze(r)
    ensures TxSafe(cfg, received, db, FreezeAnswer(cfg, db, contractId, al, freezeId, r))
  {
    hide Trim, TrustedTerms, TermsOf, FullDeposit, MaximumLoan, LoanRatio, ValidMonths, CreditPath, LeasePath,
         Visited, SoundDecision, ValidEvidence, UsableEligibility, FrozenEvidence, FreezeTextsFit, KeptOption,
         ProviderOr, ConfirmsFreeze, SeenInv;
    MoveKeepsPath(db.log, db.status, ExternalCheckIndeterminate);
  }

  lemma FreezeAnswerSafe(cfg: Config, received: set<Evidence>, db: Db, contractId: Guid, al: AllocationRow,
                         freezeId: Guid, r: FreezeResponse)
    requires ValidConfig(cfg) && DbInv(cfg, received, db)
    requires ProcInv(cfg, received, db, FreezeAsking(contractId, al, freezeId))
    ensures TxSafe(cfg, received, db, FreezeAnswer(cfg, db, contractId, al, freezeId, r))
  {
    hide DbInv, Grows, FreezeTextsFit, FitsOption, FreezeRecorded, CommitMove;
    if db.status.FundingPending? {
      if ConfirmsFreeze(r) {
        FreezeConfirmedSafe(cfg, received, db, contractId, al, freezeId, r);
      } else {
        FreezeUnclearSafe(cfg, received, db, contractId, al, freezeId, r);
      }
    }
  }

  lemma ContributionStartSafe(cfg: Config, received: set<Evidence>, db: Db, fundingId: Guid, transferId: Guid)
    requires ValidConfig(cfg) && DbInv(cfg, received, db)
    ensures TxSafe(cfg, received, db, ContributionStart(cfg, db, fundingId, transferId))
  {
    hide Trim, TrustedTerms, TermsOf, FullDeposit, MaximumLoan, LoanRatio, ValidMonths, CreditPath, LeasePath,
         Visited, SoundDecision, ValidEvidence, UsableEligibility, FrozenEvidence, SeenInv;
  }

  lemma ContributionConfirmedSafe(cfg: Config, received: set<Evidence>, db: Db, contractId: Guid, al: AllocationRow,
                                  fundingId: Guid, transferId: Guid, r: ContributionResponse)
    requires ValidConfig(cfg) && DbInv(cfg, received, db)
    requires ProcInv(cfg, received, db, ContributionAsking(contractId, al, fundingId, transferId))
    requires db.contribution.None? && ConfirmsContribution(r, al.contribution)
    ensures TxSafe(cfg, received, db, ContributionAnswer(db, contractId, al, fundingId, transferId, r))
    ensures ContributionAnswer(db, contractId, al, fundingId, transferId, r).Commit? <==>
            ContributionTextsFit(r) && Fits(Trim(r.fundReference.value), REFERENCE_LENGTH)
  {
    hide Trim, TrustedTerms, TermsOf, FullDeposit, MaximumLoan, LoanRatio, ValidMonths, CreditPath, LeasePath,
         Visited, SoundDecision, ValidEvidence, UsableEligibility, Whole, ContributionTextsFit, Fits;
    DecisionMatchesSnapshot(cfg, received, db);
    WholeDifference(al.full, al.loan);
    TrimIdempotent(r.fundReference.value);
  }

  lemma ContributionAnswerSafe(cfg: Config, received: set<Evidence>, db: Db, contractId: Guid, al: AllocationRow,
                               fundingId: Guid, transferId: Guid, r: ContributionResponse)
    requires ValidConfig(cfg) && DbInv(cfg, received, db)
    requires ProcInv(cfg, received, db, ContributionAsking(contractId, al, fundingId, transferId))
    ensures TxSafe(cfg, received, db, ContributionAnswer(db, contractId, al, fundingId, transferId, r))
  {
    hide Trim, TrustedTerms, TermsOf, FullDeposit, MaximumLoan, LoanRatio, ValidMonths, CreditPath, LeasePath,
         Visited, SoundDecision, ValidEvidence, UsableEligibility, FrozenEvidence, ContributionTextsFit,
         ConfirmsContribution, Fits;
    if db.contribution.None? && ConfirmsContribution(r, al.contribution) {
      ContributionConfirmedSafe(cfg, received, db, contractId, al, fundingId, transferId, r);
    }
  }
}
