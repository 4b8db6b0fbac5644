/** Where the rows come from: for every run, the words of the outside world that put them there. */
module FundingOrigins {
  import opened Texts
  import opened Columns
  import opened Rial
  import opened Workflows
  import opened FundingRows
  import opened Intake
  import opened Registration
  import opened Eligibility
  import opened BankFunding
  import opened LeaseFunding
  import opened FundingInvariant
  import opened FundingProtocol
  import opened FundingRefusals
  import opened FundingAnswers

  // ---- the terms ----

  /** A due time as the column keeps it: whole microseconds, a fraction is dropped towards the epoch. */
  predicate CutOf(kept: int, ticks: int) {
    kept % 10 == 0 && if ticks >= 0 then kept <= ticks < kept + 10 else kept - 10 < ticks <= kept
  }

  predicate SameMonth(kept: Month, month: Month) {
    && kept.number == month.number && CutOf(kept.dueAt, month.dueAt)
    && kept.ownerPayment == month.ownerPayment && kept.bankInterest == month.bankInterest
  }

  /** Every field of these terms is the evidence's own, or follows from it. */
  predicate TermsSay(t: Terms, e: Evidence) {
    && t.calendar == "Persian" && t.termMonths == 12 && t.start == e.start
    && t.cash == e.cash && t.rent == e.rent && t.full == (e.cash.Floor + 100 * e.rent.Floor / 3) as real
    && t.ownerBeneficiary == e.ownerBeneficiary && t.bankBeneficiary == e.bankBeneficiary && t.source == e.reference
    && |t.months| == |e.months| == 12
    && forall i :: 0 <= i < 12 ==> SameMonth(t.months[i], e.months[i])
  }

  /** The terms on record are, field by field, those of one answer the evidence provider gave, for the lease of the two
      parties it named. */
  lemma TermsAreTheEvidence(cfg: Config, w: World)
    requires ValidConfig(cfg) && Reachable(cfg, w) && w.db.terms.Some?
    ensures w.db.contract.Some? && w.db.terms.value.contractId == w.db.contract.value.id
    ensures exists e :: && e in w.received && TermsSay(w.db.terms.value, e)
                        && w.db.contract.value.owner == e.owner && w.db.contract.value.property == e.property
  {
    hide DbInv, Reachable, TermsSay;
    ReachableInv(cfg, w);
    TermsRows(cfg, w.received, w.db);
    assert w.db.origin.value in w.received;
  }

  lemma TermsRows(cfg: Config, received: set<Evidence>, db: Db)
    requires DbInv(cfg, received, db) && db.terms.Some?
    ensures db.contract.Some? && db.origin.Some? && db.origin.value in received
    ensures db.terms.value.contractId == db.contract.value.id && TermsSay(db.terms.value, db.origin.value)
    ensures db.contract.value.owner == db.origin.value.owner && db.contract.value.property == db.origin.value.property
  {
    hide Trim, TrustedTerms, FullDeposit, MaximumLoan, LoanRatio, CreditPath, LeasePath, ValidEvidence, TermsOf,
         AssessmentInv, ApprovalInv, AllocationInv, FreezeInv, ContributionInv, LeaseInv, KeptTime, ValidMonths;
    var e := db.origin.value;
    EvidenceIsACommand(cfg, db.contract.value.id, e);
    TwelveMonths(cfg, e);
    forall i | 0 <= i < 12 ensures SameMonth(db.terms.value.months[i], e.months[i]) {
      CutDown(e.months[i].dueAt);
    }
  }

  lemma TwelveMonths(cfg: Config, e: Evidence)
    requires ValidEvidence(cfg, e)
    ensures |e.months| == 12
  {
  }

  lemma CutDown(ticks: int)
    ensures CutOf(KeptTime(ticks), ticks)
  {
  }

  // ---- who said so ----

  /** What the rows claim about the outside world. */
  datatype Claim =
    | WasSubmitted
    | IsVerified
    | HasPlan(key: PlanKey)
    | HasParties(owner: Guid, property: Guid)
    | HasGrade(subGrade: string)
    | WasRejected
    | HasLoan(loan: real)
    | IsFrozen(fundReference: string)
    | IsPaid(amount: real, fundReference: string)

  predicate Claims(db: Db, c: Claim) {
    match c
    case WasSubmitted => db.status != Draft
    case IsVerified => db.identity.Some? && db.identity.value.status == Verified
    case HasPlan(key) => db.plan == Some(key)
    case HasParties(owner, property) =>
      db.contract.Some? && db.contract.value.owner == owner && db.contract.value.property == property
    case HasGrade(subGrade) => HasDecision(db) && db.assessment.value.subGrade == Some(subGrade)
    case WasRejected => db.status == Rejected
    case HasLoan(loan) => db.allocation.Some? && db.allocation.value.loan == loan
    case IsFrozen(fundReference) => db.principal.Some? && db.principal.value.fundReference == fundReference
    case IsPaid(amount, fundReference) =>
      && db.contribution.Some? && db.journal.Some?
      && db.contribution.value.amount == db.journal.value.amount == amount
      && db.contribution.value.fundReference == fundReference
  }

  /** The event in which the applicant or an adapter said it. */
  predicate Says(cfg: Config, e: Event, c: Claim) {
    match c
    case WasSubmitted => e.Start? && e.call == SubmitCall(cfg.applicant)
    case IsVerified => e.Resume? && e.answer.IdentitySaid? && e.answer.identity.outcome == Verified
    case HasPlan(key) =>
      && e.Start? && e.call.PlanCall? && e.call.user == cfg.applicant && e.call.published
      && key == PlanKey(e.call.planId, Trim(e.call.version))
      && key in cfg.catalogue && cfg.catalogue[key].termMonths == 12
    case HasParties(owner, property) =>
      && e.Resume? && e.answer.EvidenceSaid? && e.answer.ownerExists
      && UsableAnswer(cfg, e.answer.evidence)
      && e.answer.evidence.owner == Some(owner) && e.answer.evidence.property == Some(property)
    case HasGrade(subGrade) =>
      && e.Resume? && e.answer.GradeSaid? && Grades(e.answer.grade)
      && Trim(e.answer.grade.subGrade.value) == subGrade
    case WasRejected => e.Resume? && e.answer.BankSaid? && Declines(e.answer.bank)
    case HasLoan(loan) =>
      && e.Resume? && e.answer.BankSaid? && e.answer.bank.status == Approved
      && e.answer.bank.approvedLoan == Some(loan) && !BlankOption(e.answer.bank.reference)
    case IsFrozen(fundReference) =>
      && e.Resume? && e.answer.FreezeSaid? && Freezes(e.answer.freeze)
      && Trim(e.answer.freeze.fundReference.value) == fundReference
    case IsPaid(amount, fundReference) =>
      && e.Resume? && e.answer.ContributionSaid? && Pays(e.answer.contribution, amount)
      && Trim(e.answer.contribution.fundReference.value) == fundReference
  }

  lemma BeginSaid(cfg: Config, db: Db, pid: nat, call: Call, freshId: Guid, otherId: Guid, c: Claim)
    requires !Claims(db, c)
    ensures var tx := Begin(cfg, db, call, freshId, otherId);
            tx.Commit? && Claims(tx.db, c) ==> Says(cfg, Start(pid, call, freshId, otherId), c)
  {
    hide Trim, MatchesTrustedSnapshot, AllocationMatches, TrustedDeposit;
  }

  lemma EvidenceSaidSo(cfg: Config, db: Db, id: Guid, plan: PlanKey, r: EvidenceResponse, ownerExists: bool,
                       freshId: Guid, c: Claim)
    requires !Claims(db, c)
    ensures var tx := ContractAnswer(cfg, db, id, plan, r, ownerExists, freshId);
            tx.Commit? && Claims(tx.db, c) ==>
              && c.HasParties? && ownerExists && UsableAnswer(cfg, r)
              && r.owner == Some(c.owner) && r.property == Some(c.property)
  {
    hide Trim, EvidenceTextsFit, Answered, ValidateEvidence, UsableAnswer, LoanRatio;
    EvidenceAccepted(cfg, r);
    UsableNames(cfg, r);
  }

  lemma UsableNames(cfg: Config, r: EvidenceResponse)
    ensures UsableAnswer(cfg, r) ==> r.owner.Some? && r.property.Some?
  {
  }

  lemma AdvanceSaysNothing(cfg: Config, db: Db, seen: Db, tables: nat, c: Claim)
    requires !Claims(db, c) && db.contract.Some? && seen.contract == db.contract
    ensures var tx := AdvanceNext(cfg, db, seen, tables);
            tx.Commit? ==> !Claims(tx.db, c)
  {
    hide AllocationBinding, FrozenEvidence, ZeroReadiness, PositiveReadiness, TermsReadiness;
  }

  lemma GradeSaidSo(cfg: Config, db: Db, id: Guid, r: GradeResponse, c: Claim)
    requires !Claims(db, c)
    ensures var tx := GradeAnswer(cfg, db, id, r);
            tx.Commit? && Claims(tx.db, c) ==> c.HasGrade? && Grades(r) && Trim(r.subGrade.value) == c.subGrade
  {
    hide Trim, TrustedDeposit, MaximumLoan, LoanRatio, GradeTextsFit;
    if r.subGrade.Some? {
      RatioOfTrimmed(r.subGrade.value);
    }
  }

  lemma BankSaidSo(db: Db, cap: BankCapture, r: BankResponse, freshId: Guid, c: Claim)
    requires !Claims(db, c)
    ensures var tx := BankAnswer(db, cap, r, freshId);
            tx.Commit? && Claims(tx.db, c) ==>
              || (c.WasRejected? && Declines(r))
              || (c.HasLoan? && r.status == Approved && r.approvedLoan == Some(c.loan) && !BlankOption(r.reference))
  {
    hide Trim, BankTextsFit;
  }

  lemma MoneySaidSo(cfg: Config, db: Db, p: Proc, answer: Answer, freshId: Guid, c: Claim)
    requires !Claims(db, c) && Awaits(p, answer)
    requires p.AllocationReading? || p.FreezeStarting? || p.FreezeAsking? || p.ContributionAsking?
    ensures var tx := Proceed(cfg, db, p, answer, freshId);
            tx.Commit? && Claims(tx.db, c) ==> Says(cfg, Resume(0, answer, freshId), c)
  {
    hide Trim, FreezeTextsFit, ContributionTextsFit, FreezeRecorded;
  }

  lemma ProceedSaid(cfg: Config, db: Db, pid: nat, p: Proc, answer: Answer, freshId: Guid, c: Claim)
    requires !Claims(db, c) && Awaits(p, answer)
    requires p.Advancing? ==> db.contract.Some? && p.seen.contract == db.contract
    ensures var tx := Proceed(cfg, db, p, answer, freshId);
            tx.Commit? && Claims(tx.db, c) ==> Says(cfg, Resume(pid, answer, freshId), c)
  {
    hide Trim, ContractAnswer, GradeAnswer, BankAnswer, FreezeStart, FreezeAnswer, ContributionAnswer, AdvanceNext,
         FullDeposit, IdentityTextsFit, ValidCommand, TermsOf, KeptTerms, UsableAnswer, LoanRatio, Claims;
    match p
    case ContractAsking(id, plan) =>
      EvidenceSaidSo(cfg, db, id, plan, answer.evidence, answer.ownerExists, freshId, c);
    case GradeAsking(id) => GradeSaidSo(cfg, db, id, answer.grade, c);
    case BankAsking(cap) => BankSaidSo(db, cap, answer.bank, freshId, c);
    case Advancing(seen, tables) => AdvanceSaysNothing(cfg, db, seen, tables, c);
    case IdentityAsking(_) => RegisteringSaidSo(cfg, db, p, answer, freshId, c);
    case ContractCapturing(_, _, _) => RegisteringSaidSo(cfg, db, p, answer, freshId, c);
    case ContractFinalizing(_, _, _) => RegisteringSaidSo(cfg, db, p, answer, freshId, c);
    case _ => MoneySaidSo(cfg, db, p, answer, freshId, c);
  }

  lemma RegisteringSaidSo(cfg: Config, db: Db, p: Proc, answer: Answer, freshId: Guid, c: Claim)
    requires !Claims(db, c) && Awaits(p, answer)
    requires p.IdentityAsking? || p.ContractCapturing? || p.ContractFinalizing?
    ensures var tx := Proceed(cfg, db, p, answer, freshId);
            tx.Commit? && Claims(tx.db, c) ==> Says(cfg, Resume(0, answer, freshId), c)
  {
    hide Trim, FullDeposit, IdentityTextsFit, ValidCommand, TermsOf, KeptTerms, Binding, SourceMatches;
  }

  /** What the rows claim after an event and did not claim before, the event said. */
  lemma StepSaid(cfg: Config, w: World, e: Event, c: Claim)
    requires ValidConfig(cfg) && WorldInv(cfg, w) && !Claims(w.db, c)
    ensures Claims(Step(cfg, w, e).db, c) ==> Says(cfg, e, c)
  {
    hide Begin, Proceed, Claims, Says, DbInv, ResumeWaits, StartWaits;
    match e
    case Start(pid, call, freshId, otherId) => BeginSaid(cfg, w.db, pid, call, freshId, otherId, c);
    case Resume(pid, answer, freshId) =>
      if pid in w.procs && Awaits(w.procs[pid], answer) {
        assert ProcInv(cfg, w.received, w.db, w.procs[pid]);
        ProceedSaid(cfg, w.db, pid, w.procs[pid], answer, freshId, c);
      }
    case Crash(_) =>
  }

  lemma {:induction false} RunSaid(cfg: Config, w: World, events: seq<Event>, c: Claim)
    requires ValidConfig(cfg) && WorldInv(cfg, w) && !Claims(w.db, c) && Claims(Run(cfg, w, events).db, c)
    ensures exists i :: 0 <= i < |events| && Says(cfg, events[i], c)
    decreases |events|
  {
    hide Claims, Says, WorldInv, Step;
    StepSaid(cfg, w, events[0], c);
    var v := Step(cfg, w, events[0]);
    if !Claims(v.db, c) {
      StepKeeps(cfg, w, events[0]);
      RunSaid(cfg, v, events[1..], c);
      var i :| 0 <= i < |events[1..]| && Says(cfg, events[1..][i], c);
      assert events[i + 1] == events[1..][i];
    }
  }

  /** Nothing on record is the system's own invention: in every run the submission, the verified identity, the published
      plan, the parties, the grade, the rejection, the loan, the frozen principal and the posted contribution are each
      the word of the applicant or of the adapter that is asked for it, amounts and references included. */
  lemma NothingIsUnsaid(cfg: Config, events: seq<Event>, c: Claim)
    requires ValidConfig(cfg) && Claims(Run(cfg, INITIAL, events).db, c)
    ensures exists i :: 0 <= i < |events| && Says(cfg, events[i], c)
  {
    hide Says, WorldInv, Step, Run;
    InitialInv(cfg);
    RunSaid(cfg, INITIAL, events, c);
  }

  /** Evidence counts as received only when the provider gave it. */
  lemma {:induction false} ReceivedWasSaid(cfg: Config, w: World, events: seq<Event>, e: Evidence)
    requires e in Run(cfg, w, events).received && e !in w.received
    ensures exists i :: && 0 <= i < |events| && events[i].Resume? && events[i].answer.EvidenceSaid?
                        && ValidateEvidence(cfg, events[i].answer.evidence) == Some(e)
    decreases |events|
  {
    hide ValidateEvidence, Begin, Proceed, ResumeWaits;
    var v := Step(cfg, w, events[0]);
    if e !in v.received {
      ReceivedWasSaid(cfg, v, events[1..], e);
      var i :| && 0 <= i < |events[1..]| && events[1..][i].Resume? && events[1..][i].answer.EvidenceSaid?
               && ValidateEvidence(cfg, events[1..][i].answer.evidence) == Some(e);
      assert events[i + 1] == events[1..][i];
    }
  }

  // ---- the way in ----

  /** Whoever is past the identity check has passed it; three statuses of the table no service leads to. */
  predicate IdentityPassed(db: Db) {
    && (!(db.status.Draft? || db.status.IdentityPending? || db.status.NeedsDocuments?) ==> Claims(db, IsVerified))
    && !db.status.OrganizationCheckPending? && !db.status.Withdrawn? && !db.status.Expired?
  }

  lemma BeginKeepsIdentity(cfg: Config, db: Db, call: Call, freshId: Guid, otherId: Guid)
    requires IdentityPassed(db)
    ensures var tx := Begin(cfg, db, call, freshId, otherId);
            tx.Commit? ==> IdentityPassed(tx.db)
  {
    hide Trim, MatchesTrustedSnapshot, AllocationMatches, TrustedDeposit;
  }

  lemma RegisteringKeepsIdentity(cfg: Config, db: Db, p: Proc, answer: Answer, freshId: Guid)
    requires IdentityPassed(db) && Awaits(p, answer)
    requires p.IdentityAsking? || p.ContractAsking? || p.ContractCapturing? || p.ContractFinalizing?
    ensures var tx := Proceed(cfg, db, p, answer, freshId);
            tx.Commit? ==> IdentityPassed(tx.db)
  {
    hide Trim, FullDeposit, IdentityTextsFit, ValidCommand, TermsOf, KeptTerms, Binding, SourceMatches,
         ValidateEvidence, EvidenceTextsFit, Answered;
  }

  lemma MoneyKeepsIdentity(cfg: Config, db: Db, p: Proc, answer: Answer, freshId: Guid)
    requires IdentityPassed(db) && Awaits(p, answer)
    requires p.GradeAsking? || p.BankAsking? || p.AllocationReading? || p.FreezeStarting? || p.FreezeAsking?
             || p.ContributionAsking? || p.Advancing?
    ensures var tx := Proceed(cfg, db, p, answer, freshId);
            tx.Commit? ==> IdentityPassed(tx.db)
  {
    hide Trim, FreezeTextsFit, ContributionTextsFit, FreezeRecorded, TrustedDeposit, LoanRatio, MaximumLoan,
         GradeTextsFit, BankTextsFit, AcceptableLoan, Advance;
  }

  lemma IdentityStaysPassed(cfg: Config, w: World, e: Event)
    requires IdentityPassed(w.db)
    ensures IdentityPassed(Step(cfg, w, e).db)
  {
    hide Begin, Proceed, ResumeWaits, StartWaits, IdentityPassed;
    match e
    case Start(pid, call, freshId, otherId) => BeginKeepsIdentity(cfg, w.db, call, freshId, otherId);
    case Resume(pid, answer, freshId) =>
      if pid in w.procs && Awaits(w.procs[pid], answer) {
        var p := w.procs[pid];
        if p.IdentityAsking? || p.ContractAsking? || p.ContractCapturing? || p.ContractFinalizing? {
          RegisteringKeepsIdentity(cfg, w.db, p, answer, freshId);
        } else {
          MoneyKeepsIdentity(cfg, w.db, p, answer, freshId);
        }
      }
    case Crash(_) =>
  }

  lemma {:induction false} RunKeepsIdentity(cfg: Config, w: World, events: seq<Event>)
    requires IdentityPassed(w.db)
    ensures IdentityPassed(Run(cfg, w, events).db)
    decreases |events|
  {
    hide Step, IdentityPassed;
    if events != [] {
      IdentityStaysPassed(cfg, w, events[0]);
      RunKeepsIdentity(cfg, Step(cfg, w, events[0]), events[1..]);
    }
  }

  /** No application chooses a plan, registers or is funded before its applicant's identity is verified, and from there
      on it has a twelve-month plan of the catalogue. */
  lemma OnlyTheVerifiedGetOn(cfg: Config, w: World)
    requires ValidConfig(cfg) && Reachable(cfg, w)
    requires !(w.db.status.Draft? || w.db.status.IdentityPending? || w.db.status.NeedsDocuments?)
    ensures w.db.identity.Some? && w.db.identity.value.status == Verified
    ensures w.db.status != PlanSelectionPending ==>
              && w.db.plan.Some? && w.db.plan.value in cfg.catalogue && cfg.catalogue[w.db.plan.value].termMonths == 12
  {
    hide Step, Run, TermsInv, ContractInv, AssessmentInv, ApprovalInv, AllocationInv, FreezeInv, ContributionInv,
         LeaseInv, CreditPath;
    var events: seq<Event> :| Run(cfg, INITIAL, events) == w;
    RunKeepsIdentity(cfg, INITIAL, events);
    ReachableInv(cfg, w);
  }
}
