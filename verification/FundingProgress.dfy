/** What one uninterrupted call achieves from a reachable world, and a complete run from draft to active lease. */
module FundingProgress {
  import opened Texts
  import opened Columns
  import opened Rial
  import opened Workflows
  import opened FundingRows
  import opened Intake
  import opened Registration
  import opened Eligibility
  import opened BankFunding
  import opened LeaseFunding
  import opened FundingInvariant
  import opened FundingSteps
  import opened MoneySteps
  import opened LeaseSteps
  import opened FundingProtocol
  import opened FundingTheorems

  // ---- unfolding runs ----

  lemma RunStep(cfg: Config, w: World, e: Event, rest: seq<Event>)
    ensures Run(cfg, w, [e] + rest) == Run(cfg, Step(cfg, w, e), rest)
  {
    hide Step;
    assert ([e] + rest)[1..] == rest;
  }

  lemma {:induction false} RunAppend(cfg: Config, w: World, first: seq<Event>, second: seq<Event>)
    ensures Run(cfg, w, first + second) == Run(cfg, Run(cfg, w, first), second)
    decreases |first|
  {
    hide Step;
    if first == [] {
      assert first + second == second;
    } else {
      assert first + second == [first[0]] + (first[1..] + second);
      RunStep(cfg, w, first[0], first[1..] + second);
      RunAppend(cfg, Step(cfg, w, first[0]), first[1..], second);
    }
  }

  // ---- the bank call ----

  /** `ProcessAsync` from start to end with the answers it gets; answers it does not ask for are not used. */
  function BankEvents(pid: nat, user: Guid, bank: BankResponse, freeze: FreezeResponse, id: Guid): seq<Event> {
    [Start(pid, BankCall(user), id, id)] + ([Resume(pid, BankSaid(bank), id)] +
    ([Resume(pid, Silent, id)] + ([Resume(pid, Silent, id)] + ([Resume(pid, FreezeSaid(freeze), id)] + []))))
  }

  /** An approval within the limits, whose texts fit. */
  predicate GoodApproval(bank: BankResponse, eligibility: AssessmentRow) {
    && bank.status == Approved && !BlankOption(bank.reference) && AcceptableLoan(bank.approvedLoan, eligibility)
    && BankTextsFit(bank, NormalizeOptional(bank.reference))
  }

  /** A confirmation whose texts fit. */
  predicate GoodFreeze(freeze: FreezeResponse) {
    ConfirmsFreeze(freeze) && FreezeTextsFit(freeze) && FitsOption(freeze.fundReference, REFERENCE_LENGTH)
  }

  /** Nothing was thrown, and lease and tenant transfer are as they were. */
  predicate Beside(w: World, v: World) {
    v.faults == w.faults && v.db.contract == w.db.contract && v.db.transfer == w.db.transfer
  }

  lemma FreezeStartStage(cfg: Config, w: World, pid: nat, id: Guid)
    requires ValidConfig(cfg) && WorldInv(cfg, w) && id != 0
    requires pid in w.procs && w.procs[pid].FreezeStarting? && w.db.status == FundingPending
    ensures var v := Step(cfg, w, Resume(pid, Silent, id));
            && WorldInv(cfg, v) && pid in v.procs && v.procs[pid].FreezeAsking? && v.db.status == FundingPending
            && v.db.allocation == w.db.allocation && Beside(w, v)
  {
    hide DbInv, ProcInv, Grows, TxSafe, ResumeWaits;
    StepKeeps(cfg, w, Resume(pid, Silent, id));
    FewWait(cfg, w, pid, Silent, id);
    assert ProcInv(cfg, w.received, w.db, w.procs[pid]);
    FreezeStartCommits(cfg, w.received, w.db, w.procs[pid].contractId, w.procs[pid].allocation, id);
  }

  lemma FreezeStartCommits(cfg: Config, received: set<Evidence>, db: Db, contractId: Guid, al: AllocationRow, id: Guid)
    requires DbInv(cfg, received, db) && ProcInv(cfg, received, db, FreezeStarting(contractId, al))
    requires db.status == FundingPending
    ensures var tx := FreezeStart(cfg, db, contractId, al, id);
            && tx.Commit? && tx.andThen.Continue? && tx.andThen.proc.FreezeAsking?
            && tx.db == db.(freeze := tx.db.freeze)
  {
    hide Trim, TrustedTerms, TermsOf, FullDeposit, MaximumLoan, LoanRatio, ValidMonths, CreditPath, LeasePath,
         ValidEvidence, FrozenEvidence;
  }

  lemma FreezeAnswerStage(cfg: Config, w: World, pid: nat, freeze: FreezeResponse, id: Guid)
    requires ValidConfig(cfg) && WorldInv(cfg, w) && id != 0 && GoodFreeze(freeze)
    requires pid in w.procs && w.procs[pid].FreezeAsking? && w.db.status == FundingPending
    requires !LeaseHeld(w.procs - {pid})
    ensures var v := Step(cfg, w, Resume(pid, FreezeSaid(freeze), id));
            && WorldInv(cfg, v) && pid !in v.procs && v.db.status == ApprovedFunded
            && v.db.allocation == w.db.allocation && Beside(w, v)
            && v.db.freeze.Some?
            && v.db.freeze.value.fundReference == KeptOption(freeze.fundReference, REFERENCE_LENGTH)
  {
    hide DbInv, ProcInv, Grows, TxSafe, FreezeTextsFit, ConfirmsFreeze, FitsOption, LeaseHeld, Refers;
    var p := w.procs[pid];
    NobodyElse(w.procs, pid);
    StepKeeps(cfg, w, Resume(pid, FreezeSaid(freeze), id));
    assert ProcInv(cfg, w.received, w.db, p);
    FreezeConfirmedSafe(cfg, w.received, w.db, p.contractId, p.allocation, p.freezeId, freeze);
  }

  lemma AllocationStage(cfg: Config, w: World, pid: nat, id: Guid)
    requires ValidConfig(cfg) && WorldInv(cfg, w) && id != 0
    requires pid in w.procs && w.procs[pid].AllocationReading?
    ensures var v := Step(cfg, w, Resume(pid, Silent, id));
            && WorldInv(cfg, v) && pid in v.procs && v.procs[pid].FreezeStarting? && v.db == w.db && Beside(w, v)
  {
    hide DbInv, Grows, TxSafe, ResumeWaits;
    StepKeeps(cfg, w, Resume(pid, Silent, id));
    FewWait(cfg, w, pid, Silent, id);
    assert ProcInv(cfg, w.received, w.db, w.procs[pid]);
  }

  lemma BankAnswerStage(cfg: Config, w: World, pid: nat, bank: BankResponse, id: Guid)
    requires ValidConfig(cfg) && WorldInv(cfg, w) && id != 0
    requires pid in w.procs && w.procs[pid].BankAsking? && w.db.status == BankApprovalPending
    requires GoodApproval(bank, w.procs[pid].capture.eligibility) && !LeaseHeld(w.procs - {pid})
    ensures var v := Step(cfg, w, Resume(pid, BankSaid(bank), id));
            && WorldInv(cfg, v) && pid in v.procs && v.procs[pid].AllocationReading? && v.db.status == FundingPending
            && v.db.allocation.Some? && v.db.allocation.value.loan == bank.approvedLoan.value && Beside(w, v)
            && v.db.freeze == w.db.freeze
  {
    hide DbInv, ProcInv, Grows, TxSafe, GoodApproval, LeaseHeld, Refers;
    NobodyElse(w.procs, pid);
    StepKeeps(cfg, w, Resume(pid, BankSaid(bank), id));
    assert ProcInv(cfg, w.received, w.db, w.procs[pid]);
    BankAnswerCommits(cfg, w.received, w.db, w.procs[pid].capture, bank, id);
  }

  lemma BankAnswerCommits(cfg: Config, received: set<Evidence>, db: Db, cap: BankCapture, r: BankResponse, id: Guid)
    requires DbInv(cfg, received, db) && ProcInv(cfg, received, db, BankAsking(cap))
    requires db.status == BankApprovalPending && GoodApproval(r, cap.eligibility)
    ensures r.approvedLoan.Some?
    ensures var tx := BankAnswer(db, cap, r, id);
            && tx.Commit? && tx.andThen.Continue? && tx.andThen.proc.AllocationReading?
            && tx.db.status == FundingPending
            && tx.db.allocation.Some? && tx.db.allocation.value.loan == r.approvedLoan.value
            && tx.db.contract == db.contract && tx.db.transfer == db.transfer && tx.db.freeze == db.freeze
  {
    hide Trim, TrustedTerms, TermsOf, FullDeposit, MaximumLoan, LoanRatio, ValidMonths, CreditPath, LeasePath,
         ValidEvidence, FrozenEvidence, MatchesTrustedSnapshot;
    DecisionMatchesSnapshot(cfg, received, db);
  }

  /** Statuses in which the bank service still has something to do for a usable decision. */
  predicate Resumable(db: Db) {
    && HasDecision(db) && UsableEligibility(db.assessment)
    && (db.status.DecisionReady? || db.status.BankApprovalPending? || db.status.FundingPending?
        || db.status.ExternalCheckIndeterminate?)
  }

  lemma BankStartStage(cfg: Config, w: World, pid: nat, id: Guid)
    requires ValidConfig(cfg) && WorldInv(cfg, w) && id != 0 && pid !in w.procs && Resumable(w.db)
    ensures var v := Step(cfg, w, Start(pid, BankCall(cfg.applicant), id, id));
            && WorldInv(cfg, v) && pid in v.procs && v.db.allocation == w.db.allocation
            && v.db.assessment == w.db.assessment && Beside(w, v)
            && (w.db.allocation.None? ==> v.db.status == BankApprovalPending && v.procs[pid].BankAsking?
                                          && Some(v.procs[pid].capture.eligibility) == w.db.assessment)
            && (w.db.allocation.Some? ==> v.db.status == FundingPending && v.procs[pid].FreezeStarting?)
  {
    hide DbInv, ProcInv, Grows, TxSafe, Resumable, BankStart;
    StepKeeps(cfg, w, Start(pid, BankCall(cfg.applicant), id, id));
    BankStartCommits(cfg, w.received, w.db, id);
  }

  lemma BankStartCommits(cfg: Config, received: set<Evidence>, db: Db, id: Guid)
    requires ValidConfig(cfg) && DbInv(cfg, received, db) && Resumable(db)
    ensures var tx := BankStart(cfg, db, cfg.applicant, id);
            && tx.Commit? && tx.andThen.Continue? && tx.db.allocation == db.allocation
            && tx.db.assessment == db.assessment && tx.db.contract == db.contract && tx.db.transfer == db.transfer
            && (db.allocation.None? ==> tx.db.status == BankApprovalPending && tx.andThen.proc.BankAsking?
                                        && Some(tx.andThen.proc.capture.eligibility) == db.assessment)
            && (db.allocation.Some? ==> tx.db.status == FundingPending && tx.andThen.proc.FreezeStarting?)
  {
    hide Trim, TrustedTerms, TermsOf, FullDeposit, MaximumLoan, LoanRatio, ValidMonths, CreditPath, LeasePath,
         ValidEvidence, FrozenEvidence, MatchesTrustedSnapshot, AllocationMatches;
    DecisionMatchesSnapshot(cfg, received, db);
    if db.allocation.Some? {
      AllocationAlwaysMatches(cfg, received, db);
    }
  }

  /** One uninterrupted bank call with a valid approval and a confirmed freeze funds the application, wherever the
      earlier calls stopped, unless it has to wait for the lease row; an allocation made before is the one that is
      funded. */
  lemma BankCallFunds(cfg: Config, w: World, pid: nat, bank: BankResponse, freeze: FreezeResponse, id: Guid)
    requires ValidConfig(cfg) && WorldInv(cfg, w) && id != 0 && pid !in w.procs && !LeaseHeld(w.procs)
    requires Resumable(w.db) && GoodFreeze(freeze)
    requires w.db.allocation.None? ==> GoodApproval(bank, w.db.assessment.value)
    ensures var v := Run(cfg, w, BankEvents(pid, cfg.applicant, bank, freeze, id));
            && WorldInv(cfg, v) && pid !in v.procs && v.db.status == ApprovedFunded && v.db.allocation.Some?
            && v.db.allocation.value.loan ==
               (if w.db.allocation.Some? then w.db.allocation.value.loan else bank.approvedLoan.value)
            && Beside(w, v)
            && v.db.freeze.Some?
            && v.db.freeze.value.fundReference == KeptOption(freeze.fundReference, REFERENCE_LENGTH)
  {
    hide WorldInv, Step, Resumable, GoodFreeze, AcceptableLoan, BankTextsFit, LeaseHeld;
    NobodyAtAll(w.procs, pid);
    var e1, e2 := Start(pid, BankCall(cfg.applicant), id, id), Resume(pid, BankSaid(bank), id);
    var e3, e5 := Resume(pid, Silent, id), Resume(pid, FreezeSaid(freeze), id);
    BankStartStage(cfg, w, pid, id);
    var w1 := Step(cfg, w, e1);
    RunStep(cfg, w, e1, [e2] + ([e3] + ([e3] + ([e5] + []))));
    var w2 := Step(cfg, w1, e2);
    RunStep(cfg, w1, e2, [e3] + ([e3] + ([e5] + [])));
    var w3 := Step(cfg, w2, e3);
    RunStep(cfg, w2, e3, [e3] + ([e5] + []));
    var w4 := Step(cfg, w3, e3);
    RunStep(cfg, w3, e3, [e5] + []);
    RunStep(cfg, w4, e5, []);
    OneStepStays(cfg, w, e1);
    OneStepStays(cfg, w1, e2);
    OneStepStays(cfg, w2, e3);
    OneStepStays(cfg, w3, e3);
    if w.db.allocation.None? {
      BankAnswerStage(cfg, w1, pid, bank, id);
      AllocationStage(cfg, w2, pid, id);
      FreezeStartStage(cfg, w3, pid, id);
    } else {
      Ignored(cfg, w1, pid, BankSaid(bank), id);
      FreezeStartStage(cfg, w2, pid, id);
      Ignored(cfg, w3, pid, Silent, id);
    }
    FreezeAnswerStage(cfg, w4, pid, freeze, id);
  }

  lemma Ignored(cfg: Config, w: World, pid: nat, answer: Answer, id: Guid)
    requires pid in w.procs && !Awaits(w.procs[pid], answer)
    ensures Step(cfg, w, Resume(pid, answer, id)) == w
  {
  }

  /** So every state the worker selects is one call away from funded. */
  lemma SelectedMeansFundable(cfg: Config, w: World, pid: nat, bank: BankResponse, freeze: FreezeResponse, id: Guid)
    requires ValidConfig(cfg) && Reachable(cfg, w) && id != 0 && pid !in w.procs && !LeaseHeld(w.procs)
    requires WorkerSelects(cfg, w.db) && GoodFreeze(freeze)
    requires w.db.allocation.None? && w.db.assessment.Some? ==> GoodApproval(bank, w.db.assessment.value)
    ensures Run(cfg, w, BankEvents(pid, cfg.applicant, bank, freeze, id)).db.status == ApprovedFunded
  {
    hide DbInv, ProcInv, WorkerSelects, GoodApproval, GoodFreeze, Run, BankEvents, Reachable;
    ReachableInv(cfg, w);
    WorkerSelectsExactly(cfg, w);
    StartedIsResumable(cfg, w.received, w.db);
    BankCallFunds(cfg, w, pid, bank, freeze, id);
  }

  lemma StartedIsResumable(cfg: Config, received: set<Evidence>, db: Db)
    requires DbInv(cfg, received, db)
    requires db.status == BankApprovalPending || db.status == FundingPending
             || (db.status == ExternalCheckIndeterminate && HasDecision(db))
    ensures Resumable(db)
  {
    hide Trim, TrustedTerms, TermsOf, FullDeposit, MaximumLoan, LoanRatio, ValidMonths, CreditPath, LeasePath,
         ValidEvidence, FrozenEvidence;
  }
}
