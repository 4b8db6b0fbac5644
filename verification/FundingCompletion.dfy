/** When one uninterrupted registration succeeds, and a complete run from draft to active lease. */
module FundingCompletion {
  import opened Texts
  import opened Columns
  import opened Rial
  import opened Workflows
  import opened FundingRows
  import opened Intake
  import opened Registration
  import opened Eligibility
  import opened BankFunding
  import opened LeaseFunding
  import opened FundingInvariant
  import opened FundingSteps
  import opened MoneySteps
  import opened LeaseSteps
  import opened FundingProtocol
  import opened FundingRefusals
  import opened FundingTheorems
  import opened FundingProgress

  // ---- registration ----

  /** `ReconcileAsync` from start to end with one evidence answer. */
  function RegistrationEvents(pid: nat, user: Guid, r: EvidenceResponse, ownerExists: bool, id: Guid): seq<Event> {
    [Start(pid, ContractCall(user), id, id)] + ([Resume(pid, EvidenceSaid(r, ownerExists), id)] +
    ([Resume(pid, Silent, id)] + ([Resume(pid, Silent, id)] + [])))
  }

  /** Validated evidence of a known owner, storable, that agrees with the contract and the terms already on record. */
  predicate Registers(cfg: Config, db: Db, r: EvidenceResponse, ownerExists: bool) {
    Recordable(cfg, db, r, ownerExists) && Capturable(db, ValidateEvidence(cfg, r).value)
  }

  predicate Recordable(cfg: Config, db: Db, r: EvidenceResponse, ownerExists: bool) {
    && ownerExists
    && ValidateEvidence(cfg, r).Some?
    && EvidenceTextsFit(r.(reason := None))
    && SameParties(db, ValidateEvidence(cfg, r).value)
  }

  /** Terms on record are exactly these, or these can be stored. */
  predicate Capturable(db: Db, e: Evidence) {
    if db.terms.None? then Storable(e)
    else db.contract.Some? && db.terms.value == TermsOf(db.contract.value.id, e)
  }

  lemma ContractStartStage(cfg: Config, w: World, pid: nat, id: Guid)
    requires ValidConfig(cfg) && WorldInv(cfg, w) && id != 0 && pid !in w.procs
    requires w.db.status == PropertyContractPending
    ensures var v := Step(cfg, w, Start(pid, ContractCall(cfg.applicant), id, id));
            && WorldInv(cfg, v) && v.received == w.received && pid in v.procs && v.procs[pid].ContractAsking?
            && v.db == w.db.(request := v.db.request) && v.procs - {pid} == w.procs && v.faults == w.faults
  {
    hide DbInv, ProcInv, Grows, TxSafe, ContractStart;
    StepKeeps(cfg, w, Start(pid, ContractCall(cfg.applicant), id, id));
    ContractStartCommits(cfg, w.received, w.db, id);
  }

  lemma ContractStartCommits(cfg: Config, received: set<Evidence>, db: Db, id: Guid)
    requires ValidConfig(cfg) && DbInv(cfg, received, db) && db.status == PropertyContractPending
    ensures var tx := ContractStart(cfg, db, cfg.applicant, id);
            && tx.Commit? && tx.andThen.Continue? && tx.andThen.proc.ContractAsking?
            && tx.db == db.(request := tx.db.request)
  {
    hide Trim, TrustedTerms, TermsOf, FullDeposit, MaximumLoan, LoanRatio, ValidMonths, CreditPath, LeasePath,
         ValidEvidence, FrozenEvidence;
  }

  lemma EvidenceCommits(cfg: Config, received: set<Evidence>, db: Db, requestId: Guid, plan: PlanKey,
                        r: EvidenceResponse, ownerExists: bool, id: Guid)
    requires ValidConfig(cfg) && DbInv(cfg, received, db) && db.status == PropertyContractPending
    requires ProcInv(cfg, received, db, ContractAsking(requestId, plan))
    ensures var tx := ContractAnswer(cfg, db, requestId, plan, r, ownerExists, id);
            if Recordable(cfg, db, r, ownerExists) then
              var e := ValidateEvidence(cfg, r).value;
              && tx.Commit? && PendingFor(tx.db, e)
              && tx.andThen == Continue(ContractCapturing(requestId, tx.db.contract.value.id, e))
              && tx.db.terms == db.terms
              && (db.contract.Some? ==> tx.db.contract == db.contract)
            else !Continues(tx) && (tx.Commit? ==> tx.db.status != ExternalChecksPending)
  {
    hide Trim, TrustedTerms, TermsOf, FullDeposit, MaximumLoan, LoanRatio, ValidMonths, CreditPath, LeasePath,
         ValidEvidence, FrozenEvidence, ByNumber, SupportedDate, Fits;
  }

  lemma EvidenceStage(cfg: Config, w: World, pid: nat, r: EvidenceResponse, ownerExists: bool, id: Guid)
    requires ValidConfig(cfg) && WorldInv(cfg, w) && id != 0
    requires pid in w.procs && w.procs[pid].ContractAsking? && w.db.status == PropertyContractPending
    ensures var v := Step(cfg, w, Resume(pid, EvidenceSaid(r, ownerExists), id));
            && WorldInv(cfg, v) && v.procs - {pid} == w.procs - {pid}
            && (if pid in v.procs
                then
                  && Recordable(cfg, w.db, r, ownerExists)
                  && v.procs[pid].ContractCapturing? && v.procs[pid].evidence == ValidateEvidence(cfg, r).value
                  && PendingFor(v.db, v.procs[pid].evidence)
                  && v.db.terms == w.db.terms && v.faults == w.faults
                  && (w.db.contract.Some? ==> v.db.contract == w.db.contract)
                else v.db.status != ExternalChecksPending && !Registers(cfg, w.db, r, ownerExists))
  {
    hide DbInv, ProcInv, Grows, TxSafe, ContractAnswer, ValidateEvidence, TermsOf, EvidenceTextsFit, SameParties,
         Storable, ResumeWaits;
    FewWait(cfg, w, pid, EvidenceSaid(r, ownerExists), id);
    StepKeeps(cfg, w, Resume(pid, EvidenceSaid(r, ownerExists), id));
    assert ProcInv(cfg, w.received, w.db, w.procs[pid]);
    EvidenceCommits(cfg, w.received, w.db, w.procs[pid].requestId, w.procs[pid].plan, r, ownerExists, id);
    var v := Step(cfg, w, Resume(pid, EvidenceSaid(r, ownerExists), id));
    if pid in v.procs {
      assert ProcInv(cfg, v.received, v.db, v.procs[pid]);
      CapturingOwner(cfg, v.received, v.db, v.procs[pid]);
    }
  }

  predicate PendingFor(db: Db, e: Evidence) {
    && db.status == PropertyContractPending && db.contract.Some?
    && db.contract.value.owner == e.owner && db.contract.value.property == e.property
    && db.request.Some? && db.request.value.status == PendingSnapshot && db.request.value.reference == Some(e.reference)
  }

  lemma CapturingOwner(cfg: Config, received: set<Evidence>, db: Db, p: Proc)
    requires p.ContractCapturing? && ProcInv(cfg, received, db, p)
    ensures db.contract.Some? && db.contract.value.id == p.contractId && db.request.Some?
    ensures db.contract.value.owner == p.evidence.owner && db.contract.value.property == p.evidence.property
    ensures ValidEvidence(cfg, p.evidence) && db.request.value.id == p.requestId
  {
    hide ValidEvidence;
  }

  lemma CaptureStage(cfg: Config, w: World, pid: nat, id: Guid)
    requires ValidConfig(cfg) && WorldInv(cfg, w) && id != 0 && !LeaseHeld(w.procs)
    requires pid in w.procs && w.procs[pid].ContractCapturing? && PendingFor(w.db, w.procs[pid].evidence)
    ensures var v := Step(cfg, w, Resume(pid, Silent, id));
            var e := w.procs[pid].evidence;
            && WorldInv(cfg, v)
            && (pid in v.procs <==> Capturable(w.db, e))
            && v.db.status == PropertyContractPending && v.db.contract == w.db.contract
            && (pid in v.procs ==>
                  && v.procs[pid].ContractFinalizing?
                  && v.procs[pid].snapshot == CapturedTerms(w.db, e) && v.db.terms == Some(v.procs[pid].snapshot)
                  && (w.db.terms.None? ==> v.db.origin == Some(e))
                  && PendingFor(v.db, e) && v.faults == w.faults)
  {
    hide DbInv, ProcInv, Grows, TxSafe, Capture, TermsOf, KeptTerms, Storable;
    StepKeeps(cfg, w, Resume(pid, Silent, id));
    var p := w.procs[pid];
    assert ProcInv(cfg, w.received, w.db, p);
    CapturingOwner(cfg, w.received, w.db, p);
    CaptureCommits(cfg, w.received, w.db, p.requestId, p.contractId, p.evidence);
  }

  /** The terms on record after a capture that succeeds. */
  function CapturedTerms(db: Db, e: Evidence): Terms
    requires db.contract.Some?
  {
    if db.terms.Some? then db.terms.value else KeptTerms(TermsOf(db.contract.value.id, e))
  }

  lemma CaptureCommits(cfg: Config, received: set<Evidence>, db: Db, requestId: Guid, contractId: Guid, e: Evidence)
    requires ValidConfig(cfg) && DbInv(cfg, received, db) && ValidEvidence(cfg, e) && PendingFor(db, e)
    requires db.contract.value.id == contractId
    ensures var tx, wanted := Capture(cfg, db, requestId, contractId, e), TermsOf(contractId, e);
            if db.terms.None? then
              if Storable(e) then
                && tx.Commit? && tx.andThen == Continue(ContractFinalizing(requestId, contractId, KeptTerms(wanted)))
                && tx.db == db.(terms := Some(KeptTerms(wanted)), origin := Some(e))
              else tx.Throw?
            else if db.terms.value == wanted then
              tx == Rollback(Continue(ContractFinalizing(requestId, contractId, wanted)))
            else tx == Reject(Conflict)
  {
    hide Trim, FullDeposit, MaximumLoan, LoanRatio, ValidMonths, CreditPath, LeasePath, FrozenEvidence, ValidCommand,
         ValidEvidence, Fits, KeptTime;
    EvidenceIsACommand(cfg, contractId, e);
    assert db.contract.value.status == LeaseDraft;
  }

  lemma FinalizeStage(cfg: Config, w: World, pid: nat, e: Evidence, id: Guid)
    requires ValidConfig(cfg) && WorldInv(cfg, w) && id != 0
    requires pid in w.procs && w.procs[pid].ContractFinalizing? && PendingFor(w.db, e) && ValidEvidence(cfg, e)
    requires w.procs[pid].snapshot.source == e.reference
    ensures var v := Step(cfg, w, Resume(pid, Silent, id));
            && WorldInv(cfg, v) && v.db.status == ExternalChecksPending && pid !in v.procs
            && v.db.contract == w.db.contract && v.db.terms == Some(w.procs[pid].snapshot) && v.faults == w.faults
  {
    hide DbInv, ProcInv, Grows, TxSafe, Finalize, TermsOf, ResumeWaits;
    FewWait(cfg, w, pid, Silent, id);
    StepKeeps(cfg, w, Resume(pid, Silent, id));
    var p := w.procs[pid];
    assert ProcInv(cfg, w.received, w.db, p);
    FinalizeCommits(cfg, w.received, w.db, p.requestId, p.contractId, p.snapshot, e);
  }

  lemma FinalizeCommits(cfg: Config, received: set<Evidence>, db: Db, requestId: Guid, contractId: Guid, t: Terms,
                        e: Evidence)
    requires ValidConfig(cfg) && DbInv(cfg, received, db) && ValidEvidence(cfg, e) && PendingFor(db, e)
    requires ProcInv(cfg, received, db, ContractFinalizing(requestId, contractId, t))
    requires t.source == e.reference
    ensures var tx := Finalize(cfg, db, requestId, contractId, t);
            && tx.Commit? && tx.db.status == ExternalChecksPending && tx.andThen.Return?
            && tx.db.contract == db.contract && tx.db.terms == Some(t)
  {
    hide Trim, FullDeposit, MaximumLoan, LoanRatio, ValidMonths, CreditPath, LeasePath, FrozenEvidence;
  }

  lemma CapturedSource(cfg: Config, db: Db, e: Evidence)
    requires db.contract.Some? && ValidEvidence(cfg, e) && Capturable(db, e)
    ensures CapturedTerms(db, e).source == e.reference
  {
    hide Trim, Storable;
  }

  /** From PropertyContractPending, one uninterrupted reconciliation registers the contract exactly when its evidence
      is valid, names a known owner, fits the columns, and agrees with the contract and terms left by earlier, possibly
      crashed, reconciliations. */
  lemma ReconcileRegistersIff(cfg: Config, w: World, pid: nat, r: EvidenceResponse, ownerExists: bool, id: Guid)
    requires ValidConfig(cfg) && WorldInv(cfg, w) && id != 0 && pid !in w.procs && !LeaseHeld(w.procs)
    requires w.db.status == PropertyContractPending
    ensures var v := Run(cfg, w, RegistrationEvents(pid, cfg.applicant, r, ownerExists, id));
            && WorldInv(cfg, v) && pid !in v.procs
            && (v.db.status == ExternalChecksPending <==> Registers(cfg, w.db, r, ownerExists))
            && (v.db.status == ExternalChecksPending ==>
                  && v.db.contract.Some? && v.faults == w.faults
                  && v.db.terms == (if w.db.terms.Some? then w.db.terms else
                                      Some(KeptTerms(TermsOf(v.db.contract.value.id, ValidateEvidence(cfg, r).value)))))
  {
    hide WorldInv, Step, TermsOf, KeptTerms, Storable, ValidateEvidence, EvidenceTextsFit, PendingFor, ValidEvidence,
         LeaseHeld;
    var e1 := Start(pid, ContractCall(cfg.applicant), id, id);
    var e2, e3 := Resume(pid, EvidenceSaid(r, ownerExists), id), Resume(pid, Silent, id);
    ContractStartStage(cfg, w, pid, id);
    var w1 := Step(cfg, w, e1);
    RunStep(cfg, w, e1, [e2] + ([e3] + ([e3] + [])));
    var w2 := Step(cfg, w1, e2);
    RunStep(cfg, w1, e2, [e3] + ([e3] + []));
    var w3 := Step(cfg, w2, e3);
    RunStep(cfg, w2, e3, [e3] + []);
    var w4 := Step(cfg, w3, e3);
    RunStep(cfg, w3, e3, []);
    EvidenceStage(cfg, w1, pid, r, ownerExists, id);
    TermsNeedContract(cfg, w);
    if pid !in w2.procs {
      Gone(cfg, w2, pid, id);
    } else {
      var e := w2.procs[pid].evidence;
      Pending(w2.db, e);
      NobodyAtAll(w.procs, pid);
      NobodyElse(w2.procs, pid);
      CaptureStage(cfg, w2, pid, id);
      if pid !in w3.procs {
        Gone(cfg, w3, pid, id);
      } else {
        InFlight(cfg, w2, pid);
        CapturedSource(cfg, w2.db, e);
        FinalizeStage(cfg, w3, pid, e, id);
      }
    }
  }

  /** The evidence whose terms are already on record registers again exactly when its due times are whole microseconds:
      a fraction was cut off when they were stored, and then they never match. */
  lemma CapturedEvidenceRegistersIff(cfg: Config, w: World, pid: nat, r: EvidenceResponse, id: Guid)
    requires ValidConfig(cfg) && WorldInv(cfg, w) && id != 0 && pid !in w.procs && !LeaseHeld(w.procs)
    requires w.db.status == PropertyContractPending && w.db.terms.Some? && EvidenceTextsFit(r.(reason := None))
    requires ValidateEvidence(cfg, r).Some? && w.db.origin == ValidateEvidence(cfg, r)
    ensures var v := Run(cfg, w, RegistrationEvents(pid, cfg.applicant, r, true, id));
            v.db.status == ExternalChecksPending <==>
            forall i :: 0 <= i < |w.db.origin.value.months| ==> w.db.origin.value.months[i].dueAt % 10 == 0
  {
    hide WorldInv, Step, Run, TermsOf, KeptTerms, ValidateEvidence, EvidenceTextsFit, ValidEvidence;
    ReconcileRegistersIff(cfg, w, pid, r, true, id);
    CapturedFrom(cfg, w);
    KeptIsWhole(cfg, w.db.contract.value.id, w.db.origin.value);
  }

  lemma CapturedFrom(cfg: Config, w: World)
    requires WorldInv(cfg, w) && w.db.terms.Some?
    ensures w.db.contract.Some? && w.db.origin.Some? && SameParties(w.db, w.db.origin.value)
    ensures ValidEvidence(cfg, w.db.origin.value) && w.db.contract.value.id != 0
    ensures w.db.terms.value == KeptTerms(TermsOf(w.db.contract.value.id, w.db.origin.value))
  {
    hide TermsOf, KeptTerms, TrustedTerms, ValidEvidence;
  }

  lemma KeptIsWhole(cfg: Config, contractId: Guid, e: Evidence)
    requires ValidEvidence(cfg, e) && contractId != 0
    ensures KeptTerms(TermsOf(contractId, e)) == TermsOf(contractId, e) <==>
            forall i :: 0 <= i < |e.months| ==> e.months[i].dueAt % 10 == 0
  {
    hide Trim, FullDeposit, KeptTime, ValidMonths, ValidEvidence;
    EvidenceIsACommand(cfg, contractId, e);
    var kept := KeptMonths(e.months);
    forall i | 0 <= i < |e.months|
      ensures KeptTime(e.months[i].dueAt) == e.months[i].dueAt <==> e.months[i].dueAt % 10 == 0
    {
      KeptTimeIsWhole(e.months[i].dueAt);
    }
    if forall i :: 0 <= i < |e.months| ==> e.months[i].dueAt % 10 == 0 {
      assert kept == e.months;
    } else {
      var i :| 0 <= i < |e.months| && e.months[i].dueAt % 10 != 0;
      assert kept[i].dueAt != e.months[i].dueAt;
    }
  }

  lemma Gone(cfg: Config, w: World, pid: nat, id: Guid)
    requires pid !in w.procs
    ensures Step(cfg, w, Resume(pid, Silent, id)) == w
  {
  }

  lemma Pending(db: Db, e: Evidence)
    ensures PendingFor(db, e) ==> db.contract.Some? && db.contract.value.owner == e.owner
                                  && db.contract.value.property == e.property
                                  && db.status == PropertyContractPending
  {
  }

  lemma TermsNeedContract(cfg: Config, w: World)
    requires WorldInv(cfg, w)
    ensures w.db.terms.Some? ==> w.db.contract.Some?
  {
    hide TermsOf, TrustedTerms, ValidEvidence;
  }

  lemma InFlight(cfg: Config, w: World, pid: nat)
    requires WorldInv(cfg, w) && pid in w.procs && w.procs[pid].ContractCapturing?
    ensures ValidEvidence(cfg, w.procs[pid].evidence)
  {
    hide DbInv, ValidEvidence;
    assert ProcInv(cfg, w.received, w.db, w.procs[pid]);
  }
}
