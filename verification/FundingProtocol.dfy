/** The whole credit-to-lease protocol as a state machine: any number of concurrent calls, crashes between
    transactions, and adapters that answer anything at any time. */
module FundingProtocol {
  import opened Texts
  import opened Rial
  import opened Workflows
  import opened FundingRows
  import opened Intake
  import opened Registration
  import opened Eligibility
  import opened BankFunding
  import opened LeaseFunding
  import opened FundingInvariant
  import opened FundingSteps
  import opened MoneySteps
  import opened LeaseSteps

  /** Service entry points. */
  datatype Call =
    | SubmitCall(user: Guid)
    | PlanCall(user: Guid, planId: Guid, version: string, published: bool)
    | IdentityCall
    | ContractCall(user: Guid)
    | GradeCall(user: Guid)
    | BankCall(user: Guid)
    | ContributionCall
    | AdvanceCall

  /** What an adapter says to a waiting call; Silent lets a call that waits for nobody go on. */
  datatype Answer =
    | IdentitySaid(identity: IdentityResponse)
    | EvidenceSaid(evidence: EvidenceResponse, ownerExists: bool)
    | GradeSaid(grade: GradeResponse)
    | BankSaid(bank: BankResponse)
    | FreezeSaid(freeze: FreezeResponse)
    | ContributionSaid(contribution: ContributionResponse)
    | Silent

  datatype Event =
    | Start(pid: nat, call: Call, freshId: Guid, otherId: Guid)
    | Resume(pid: nat, answer: Answer, freshId: Guid)
    | Crash(pid: nat)

  /** Rows, calls in flight, every evidence accepted so far, and every exception that aborted a transaction. */
  datatype World = World(db: Db, procs: map<nat, Proc>, received: set<Evidence>, faults: set<Fault>)

  const INITIAL: World := World(EMPTY, map[], {}, {})

  /** First transaction of a call. */
  function Begin(cfg: Config, db: Db, call: Call, freshId: Guid, otherId: Guid): Tx {
    match call
    case SubmitCall(user) => Submit(cfg, db, user)
    case PlanCall(user, planId, version, published) => SelectPlan(cfg, db, user, planId, version, published)
    case IdentityCall => IdentityStart(db, freshId)
    case ContractCall(user) => ContractStart(cfg, db, user, freshId)
    case GradeCall(user) => GradeStart(cfg, db, user, freshId)
    case BankCall(user) => BankStart(cfg, db, user, freshId)
    case ContributionCall => ContributionStart(cfg, db, freshId, otherId)
    case AdvanceCall => AdvanceStart(db)
  }

  /** Whether this answer is the one the call waits for. */
  predicate Awaits(p: Proc, answer: Answer) {
    match p
    case IdentityAsking(_) => answer.IdentitySaid? && answer.identity.outcome != IdentityWaiting
    case ContractAsking(_, _) => answer.EvidenceSaid?
    case GradeAsking(_) => answer.GradeSaid?
    case BankAsking(_) => answer.BankSaid?
    case FreezeAsking(_, _, _) => answer.FreezeSaid?
    case ContributionAsking(_, _, _, _) => answer.ContributionSaid?
    case _ => answer.Silent?
  }

  /** Next transaction of a call in flight. */
  function Proceed(cfg: Config, db: Db, p: Proc, answer: Answer, freshId: Guid): Tx
    requires Awaits(p, answer)
  {
    match p
    case IdentityAsking(id) => IdentityAnswer(db, id, answer.identity)
    case ContractAsking(id, plan) => ContractAnswer(cfg, db, id, plan, answer.evidence, answer.ownerExists, freshId)
    case ContractCapturing(id, contractId, e) => Capture(cfg, db, id, contractId, e)
    case ContractFinalizing(id, contractId, snapshot) => Finalize(cfg, db, id, contractId, snapshot)
    case GradeAsking(id) => GradeAnswer(cfg, db, id, answer.grade)
    case BankAsking(cap) => BankAnswer(db, cap, answer.bank, freshId)
    case AllocationReading(contractId) => AllocationRead(db, contractId)
    case FreezeStarting(contractId, al) => FreezeStart(cfg, db, contractId, al, freshId)
    case FreezeAsking(contractId, al, freezeId) => FreezeAnswer(cfg, db, contractId, al, freezeId, answer.freeze)
    case ContributionAsking(contractId, al, fundingId, transferId) =>
      ContributionAnswer(db, contractId, al, fundingId, transferId, answer.contribution)
    case Advancing(seen, tables) => AdvanceNext(cfg, db, seen, tables)
  }

  /** Evidence the provider has vouched for. */
  function Heard(cfg: Config, answer: Answer): set<Evidence> {
    if answer.EvidenceSaid? && ValidateEvidence(cfg, answer.evidence).Some?
    then {ValidateEvidence(cfg, answer.evidence).value} else {}
  }

  function Settle(w: World, pid: nat, tx: Tx): World {
    match tx
    case Commit(db, Return(_)) => w.(db := db, procs := w.procs - {pid})
    case Commit(db, Continue(p)) => w.(db := db, procs := w.procs[pid := p])
    case Rollback(Return(_)) => w.(procs := w.procs - {pid})
    case Rollback(Continue(p)) => w.(procs := w.procs[pid := p])
    case Throw(fault) => w.(procs := w.procs - {pid}, faults := w.faults + {fault})
  }

  /** An advance in flight holds the lock of the lease row. */
  predicate LeaseHeld(procs: map<nat, Proc>) {
    exists pid :: pid in procs && procs[pid].Advancing?
  }

  /** The two calls that lock the lease row wait for it, and so does a transaction that adds a row referring to the
      lease, since the database then locks the lease against removal. A bank approval writes no other plan into the
      lease row than the one it has. */
  predicate StartWaits(procs: map<nat, Proc>, call: Call) {
    call.AdvanceCall? && LeaseHeld(procs)
  }

  predicate ResumeWaits(cfg: Config, w: World, pid: nat, answer: Answer, freshId: Guid)
    requires pid in w.procs && Awaits(w.procs[pid], answer)
  {
    && LeaseHeld(w.procs)
    && (w.procs[pid].ContractCapturing? || Refers(w.db, Proceed(cfg, w.db, w.procs[pid], answer, freshId)))
  }

  predicate Refers(db: Db, tx: Tx) {
    tx.Commit? && AddsToLease(db, tx.db)
  }

  /** An event that does not apply changes nothing. New row ids are never the empty guid. */
  function Step(cfg: Config, w: World, e: Event): World {
    match e
    case Start(pid, call, freshId, otherId) =>
      if pid in w.procs || freshId == 0 || otherId == 0 || StartWaits(w.procs, call) then w
      else Settle(w, pid, Begin(cfg, w.db, call, freshId, otherId))
    case Resume(pid, answer, freshId) =>
      if pid !in w.procs || !Awaits(w.procs[pid], answer) || freshId == 0
         || ResumeWaits(cfg, w, pid, answer, freshId) then w
      else
        var tx := Proceed(cfg, w.db, w.procs[pid], answer, freshId);
        Settle(w.(received := w.received + Heard(cfg, answer)), pid, tx)
    case Crash(pid) => w.(procs := w.procs - {pid})
  }

  function Run(cfg: Config, w: World, events: seq<Event>): World
    decreases |events|
  {
    if events == [] then w else Run(cfg, Step(cfg, w, events[0]), events[1..])
  }

  /** A world some run leads to. */
  ghost predicate Reachable(cfg: Config, w: World) {
    exists events: seq<Event> :: Run(cfg, INITIAL, events) == w
  }

  ghost predicate WorldInv(cfg: Config, w: World) {
    && DbInv(cfg, w.received, w.db)
    && (forall pid :: pid in w.procs ==> ProcInv(cfg, w.received, w.db, w.procs[pid]))
    && (forall p, q :: p in w.procs && q in w.procs && w.procs[p].Advancing? && w.procs[q].Advancing? ==> p == q)
    && w.faults <= REFUSALS
  }

  /** No other call holds the lease row. */
  ghost predicate Alone(procs: map<nat, Proc>, pid: nat) {
    forall other :: other in procs && procs[other].Advancing? ==> other == pid
  }

  lemma InitialInv(cfg: Config)
    ensures WorldInv(cfg, INITIAL)
  {
  }

  lemma MoreEvidence(cfg: Config, received: set<Evidence>, more: set<Evidence>, db: Db)
    requires DbInv(cfg, received, db) && received <= more
    ensures DbInv(cfg, more, db)
  {
    hide PlanInv, ContractInv, AssessmentInv, ApprovalInv, AllocationInv, FreezeInv, ContributionInv, LeaseInv,
         CreditPath, TrustedTerms, TermsOf, KeptTerms, ValidEvidence;
  }

  lemma BeginSafe(cfg: Config, received: set<Evidence>, db: Db, call: Call, freshId: Guid, otherId: Guid)
    requires ValidConfig(cfg) && DbInv(cfg, received, db)
    ensures TxSafe(cfg, received, db, Begin(cfg, db, call, freshId, otherId))
  {
    hide DbInv, TxSafe, Submit, SelectPlan, IdentityStart, ContractStart, GradeStart, BankStart, ContributionStart,
         AdvanceStart;
    match call
    case SubmitCall(user) => SubmitSafe(cfg, received, db, user);
    case PlanCall(user, planId, version, published) =>
      SelectPlanSafe(cfg, received, db, user, planId, version, published);
    case IdentityCall => IdentityStartSafe(cfg, received, db, freshId);
    case ContractCall(user) => ContractStartSafe(cfg, received, db, user, freshId);
    case GradeCall(user) => GradeStartSafe(cfg, received, db, user, freshId);
    case BankCall(user) => BankStartSafe(cfg, received, db, user, freshId);
    case ContributionCall => ContributionStartSafe(cfg, received, db, freshId, otherId);
    case AdvanceCall => AdvanceStartSafe(cfg, received, db);
  }

  lemma ProceedSafe(cfg: Config, received: set<Evidence>, db: Db, p: Proc, answer: Answer, freshId: Guid)
    requires ValidConfig(cfg) && DbInv(cfg, received, db) && ProcInv(cfg, received, db, p)
    requires Awaits(p, answer) && freshId != 0 && Heard(cfg, answer) <= received
    ensures TxSafe(cfg, received, db, Proceed(cfg, db, p, answer, freshId))
  {
    hide DbInv, TxSafe, ProcInv, ValidateEvidence, IdentityAnswer, ContractAnswer, Capture, Finalize, GradeAnswer,
         BankAnswer, AllocationRead, FreezeStart, FreezeAnswer, ContributionAnswer, AdvanceNext;
    match p
    case IdentityAsking(id) => IdentityAnswerSafe(cfg, received, db, id, answer.identity);
    case ContractAsking(id, plan) =>
      ContractAnswerSafe(cfg, received, db, id, plan, answer.evidence, answer.ownerExists, freshId);
    case ContractCapturing(id, contractId, e) => CaptureSafe(cfg, received, db, id, contractId, e);
    case ContractFinalizing(id, contractId, snapshot) => FinalizeSafe(cfg, received, db, id, contractId, snapshot);
    case GradeAsking(id) => GradeAnswerSafe(cfg, received, db, id, answer.grade);
    case BankAsking(cap) => BankAnswerSafe(cfg, received, db, cap, answer.bank, freshId);
    case AllocationReading(contractId) => AllocationReadSafe(cfg, received, db, contractId);
    case FreezeStarting(contractId, al) => FreezeStartSafe(cfg, received, db, contractId, al, freshId);
    case FreezeAsking(contractId, al, freezeId) =>
      FreezeAnswerSafe(cfg, received, db, contractId, al, freezeId, answer.freeze);
    case ContributionAsking(contractId, al, fundingId, transferId) =>
      ContributionAnswerSafe(cfg, received, db, contractId, al, fundingId, transferId, answer.contribution);
    case Advancing(seen, tables) => AdvanceNextSafe(cfg, received, db, seen, tables);
  }

  // ---- the lease row ----

  /** Only an advance changes a lease row that exists. */
  ghost predicate LeavesLease(db: Db, tx: Tx) {
    && (tx.Commit? ==> KeepsLease(db, tx.db))
    && (Continues(tx) ==> !tx.andThen.proc.Advancing?)
  }

  lemma BeginLeavesLease(cfg: Config, db: Db, call: Call, freshId: Guid, otherId: Guid)
    requires !call.AdvanceCall?
    ensures LeavesLease(db, Begin(cfg, db, call, freshId, otherId))
    ensures !Refers(db, Begin(cfg, db, call, freshId, otherId))
  {
    hide Trim, MatchesTrustedSnapshot, AllocationMatches, TrustedDeposit;
  }

  lemma EvidenceLeavesLease(cfg: Config, db: Db, requestId: Guid, plan: PlanKey, r: EvidenceResponse,
                            ownerExists: bool, freshId: Guid)
    ensures LeavesLease(db, ContractAnswer(cfg, db, requestId, plan, r, ownerExists, freshId))
  {
    hide Trim, ValidateEvidence, EvidenceTextsFit, Answered;
  }

  lemma BankLeavesLease(cfg: Config, db: Db, cap: BankCapture, r: BankResponse, freshId: Guid)
    requires db.contract.Some? ==> db.contract.value.plan == cap.planKey
    ensures LeavesLease(db, BankAnswer(db, cap, r, freshId))
  {
    hide Trim, BankTextsFit, AcceptableLoan, ApprovalCheck;
  }

  lemma ProceedLeavesLease(cfg: Config, received: set<Evidence>, db: Db, p: Proc, answer: Answer, freshId: Guid)
    requires DbInv(cfg, received, db) && ProcInv(cfg, received, db, p) && Awaits(p, answer) && !p.Advancing?
    ensures LeavesLease(db, Proceed(cfg, db, p, answer, freshId))
  {
    hide DbInv, Trim, ContractAnswer, BankAnswer, TrustedDeposit, MaximumLoan, LoanRatio, FullDeposit,
         IdentityTextsFit, GradeTextsFit, FreezeTextsFit, ContributionTextsFit, ValidCommand, TermsOf, KeptTerms,
         FreezeRecorded;
    match p
    case ContractAsking(id, plan) =>
      EvidenceLeavesLease(cfg, db, id, plan, answer.evidence, answer.ownerExists, freshId);
    case BankAsking(cap) =>
      LeaseHasThePlan(cfg, received, db);
      BankLeavesLease(cfg, db, cap, answer.bank, freshId);
    case _ =>
  }

  /** Apart from the capture of terms only a bank, fund or transfer answer ever waits for the lease row. */
  lemma FewWait(cfg: Config, w: World, pid: nat, answer: Answer, freshId: Guid)
    requires pid in w.procs && Awaits(w.procs[pid], answer)
    requires var p := w.procs[pid];
             !p.ContractCapturing? && !p.BankAsking? && !p.FreezeAsking? && !p.ContributionAsking?
    ensures !ResumeWaits(cfg, w, pid, answer, freshId)
  {
    hide Trim, ContractAnswer, TrustedDeposit, MaximumLoan, LoanRatio, FullDeposit, IdentityTextsFit, GradeTextsFit,
         TermsOf, FreezeRecorded, Advance;
    match w.procs[pid]
    case ContractAsking(id, plan) =>
      EvidenceRefersToNothing(cfg, w.db, id, plan, answer.evidence, answer.ownerExists, freshId);
    case _ =>
  }

  lemma EvidenceRefersToNothing(cfg: Config, db: Db, requestId: Guid, plan: PlanKey, r: EvidenceResponse,
                                ownerExists: bool, freshId: Guid)
    ensures !Refers(db, ContractAnswer(cfg, db, requestId, plan, r, ownerExists, freshId))
  {
    hide Trim, ValidateEvidence, EvidenceTextsFit, Answered;
  }

  /** A call does not wait when nobody else holds the lease row. */
  lemma NobodyElse(procs: map<nat, Proc>, pid: nat)
    requires pid in procs && !procs[pid].Advancing? && !LeaseHeld(procs - {pid})
    ensures !LeaseHeld(procs)
  {
    forall q | q in procs ensures !procs[q].Advancing? {
      if q != pid {
        assert q in procs - {pid} && (procs - {pid})[q] == procs[q];
      }
    }
  }

  lemma NobodyAtAll(procs: map<nat, Proc>, pid: nat)
    requires !LeaseHeld(procs)
    ensures !LeaseHeld(procs - {pid})
  {
    forall q | q in procs - {pid} ensures !(procs - {pid})[q].Advancing? {
      assert q in procs;
    }
  }

  /** An event leaves every other call as it was. */
  lemma OneStepStays(cfg: Config, w: World, e: Event)
    ensures Step(cfg, w, e).procs - {e.pid} == w.procs - {e.pid}
  {
    hide Begin, Proceed, StartWaits, ResumeWaits;
  }

  lemma LeaseHasThePlan(cfg: Config, received: set<Evidence>, db: Db)
    requires DbInv(cfg, received, db)
    ensures db.contract.Some? ==> db.plan == Some(db.contract.value.plan)
  {
    hide PlanInv, TermsInv, AssessmentInv, ApprovalInv, AllocationInv, FreezeInv, ContributionInv, LeaseInv;
  }

  /** Interference: one call's transaction leaves every other call's assumptions standing. */
  lemma SettleKeeps(cfg: Config, w: World, pid: nat, tx: Tx)
    requires WorldInv(cfg, w) && TxSafe(cfg, w.received, w.db, tx)
    requires Alone(w.procs, pid) || (LeavesLease(w.db, tx) && !Refers(w.db, tx))
    ensures WorldInv(cfg, Settle(w, pid, tx)) && Grows(w.db, Settle(w, pid, tx).db)
  {
    hide DbInv, ProcInv, Grows, KeepsLease;
    GrowsReflexive(w.db);
    if tx.Commit? {
      var next := Settle(w, pid, tx);
      forall other | other in next.procs && other != pid
        ensures ProcInv(cfg, next.received, next.db, next.procs[other])
      {
        FundedMeansFrozen(cfg, w.received, w.db);
        FundedMeansFrozen(cfg, w.received, tx.db);
        ProcStable(cfg, w.received, w.received, w.db, tx.db, w.procs[other]);
      }
    }
  }

  lemma GrowsReflexive(db: Db)
    ensures Grows(db, db) && KeepsLease(db, db)
  {
  }

  lemma StepKeeps(cfg: Config, w: World, e: Event)
    requires ValidConfig(cfg) && WorldInv(cfg, w)
    ensures WorldInv(cfg, Step(cfg, w, e)) && Grows(w.db, Step(cfg, w, e).db)
  {
    hide DbInv, ProcInv, Grows, KeepsLease, TxSafe, Begin, Proceed, Settle, Heard;
    GrowsReflexive(w.db);
    match e
    case Start(pid, call, freshId, otherId) =>
      if !StartWaits(w.procs, call) {
        BeginSafe(cfg, w.received, w.db, call, freshId, otherId);
        if !call.AdvanceCall? {
          BeginLeavesLease(cfg, w.db, call, freshId, otherId);
        }
        SettleKeeps(cfg, w, pid, Begin(cfg, w.db, call, freshId, otherId));
      }
    case Resume(pid, answer, freshId) =>
      if pid in w.procs && Awaits(w.procs[pid], answer) && freshId != 0
         && !ResumeWaits(cfg, w, pid, answer, freshId) {
        ResumeKeeps(cfg, w, pid, answer, freshId);
      }
    case Crash(pid) =>
  }

  lemma ResumeKeeps(cfg: Config, w: World, pid: nat, answer: Answer, freshId: Guid)
    requires ValidConfig(cfg) && WorldInv(cfg, w)
    requires pid in w.procs && Awaits(w.procs[pid], answer) && freshId != 0
    requires !ResumeWaits(cfg, w, pid, answer, freshId)
    ensures var heard := w.(received := w.received + Heard(cfg, answer));
            var v := Settle(heard, pid, Proceed(cfg, w.db, w.procs[pid], answer, freshId));
            WorldInv(cfg, v) && Grows(w.db, v.db)
  {
    hide DbInv, ProcInv, Grows, KeepsLease, TxSafe, Proceed, Settle, Heard;
    GrowsReflexive(w.db);
    var more := w.received + Heard(cfg, answer);
    MoreEvidence(cfg, w.received, more, w.db);
    forall other | other in w.procs ensures ProcInv(cfg, more, w.db, w.procs[other]) {
      ProcStable(cfg, w.received, more, w.db, w.db, w.procs[other]);
    }
    ProceedSafe(cfg, more, w.db, w.procs[pid], answer, freshId);
    if !w.procs[pid].Advancing? {
      ProceedLeavesLease(cfg, more, w.db, w.procs[pid], answer, freshId);
    }
    SettleKeeps(cfg, w.(received := more), pid, Proceed(cfg, w.db, w.procs[pid], answer, freshId));
  }

  /** Safety of whole runs, from any good world. */
  lemma {:induction false} RunKeeps(cfg: Config, w: World, events: seq<Event>)
    requires ValidConfig(cfg) && WorldInv(cfg, w)
    ensures WorldInv(cfg, Run(cfg, w, events)) && Grows(w.db, Run(cfg, w, events).db)
    decreases |events|
  {
    hide WorldInv, Grows, Step;
    if events == [] {
      GrowsReflexive(w.db);
    } else {
      var next := Step(cfg, w, events[0]);
      StepKeeps(cfg, w, events[0]);
      RunKeeps(cfg, next, events[1..]);
      GrowsTransitive(w.db, next.db, Run(cfg, w, events).db);
    }
  }

  lemma ReachableInv(cfg: Config, w: World)
    requires ValidConfig(cfg) && Reachable(cfg, w)
    ensures WorldInv(cfg, w)
  {
    hide WorldInv, Step;
    var events: seq<Event> :| Run(cfg, INITIAL, events) == w;
    InitialInv(cfg);
    RunKeeps(cfg, INITIAL, events);
  }
}
