/** `AdvanceAsync` on reachable rows: what its reads add up to, what it commits, when it activates, and the only reasons
    it can refuse. */
module LeaseSteps {
  import opened Texts
  import opened Rial
  import opened Workflows
  import opened FundingRows
  import opened Registration
  import opened Eligibility
  import opened BankFunding
  import opened LeaseFunding
  import opened FundingInvariant
  import opened FundingSteps
  import opened MoneySteps

  /** The tenant's own transfer was reported as definitively failed and not retried since. */
  predicate TenantTransferFailed(db: Db) {
    db.status.ApprovedFunded? && db.transfer.Some? && db.transfer.value.status.Failed?
  }

  /** Read from the rows one after the other: the loan is funded, and the transfer asked for by then had failed. */
  predicate TenantRefuses(seen: Db) {
    seen.status.ApprovedFunded? && seen.funding.Some? && seen.transfer.Some? && seen.transfer.value.status.Failed?
  }

  /** Principal frozen, and the tenant's part either not needed or posted. */
  predicate FullyFunded(db: Db) {
    && db.status.ApprovedFunded? && db.allocation.Some?
    && (db.allocation.value.contribution == 0.0 || db.contribution.Some?)
  }

  /** Where an accepted call leaves the contract. */
  function LeaseTarget(db: Db): LeaseStatus
    requires db.contract.Some?
  {
    if db.allocation.None? then db.contract.value.status
    else if FullyFunded(db) then Active
    else if db.status.ApprovedFunded? then AwaitingCompletion
    else AwaitingFunding
  }

  function Rank(s: LeaseStatus): nat {
    match s
    case LeaseDraft => 0
    case AwaitingFunding => 1
    case AwaitingCompletion => 2
    case _ => 3
  }

  /** Only the three statuses below activation move, one rank per transition row. */
  function Climb(from: LeaseStatus, to: LeaseStatus): seq<Edge<LeaseStatus>>
    decreases 3 - Rank(from)
  {
    if Rank(from) >= Rank(to) then []
    else
      var next :=
        if from.LeaseDraft? then AwaitingFunding else if from.AwaitingFunding? then AwaitingCompletion else Active;
      [Edge(from, next)] + Climb(next, to)
  }

  /** The rows as they look inside the transaction, after some lease moves. */
  function Staged(db: Db, s: LeaseStatus, log: seq<Edge<LeaseStatus>>): Db
    requires db.contract.Some?
  {
    db.(contract := Some(db.contract.value.(status := s)), leaseLog := log)
  }

  // ---- the reads ----

  /** The rows are as an advance relies on, and it has read them all. */
  ghost predicate Sees(cfg: Config, received: set<Evidence>, db: Db, seen: Db) {
    DbInv(cfg, received, db) && SeenInv(db, seen, ADVANCE_TABLES)
  }

  /** What ties the tables together that an advance reads. */
  ghost predicate Coherent(db: Db) {
    && (db.status.ApprovedFunded? ==> db.allocation.Some? && db.terms.Some?)
    && (db.status.ApprovedFunded? <==> db.principal.Some?)
    && (db.contract.Some? && db.contract.value.status.AwaitingCompletion? ==> db.status.ApprovedFunded?)
    && (db.contract.Some? && db.contract.value.status.AwaitingFunding? ==> db.allocation.Some?)
    && (db.funding.Some? <==> db.transfer.Some?)
    && (db.contribution.Some? <==> db.transfer.Some? && db.transfer.value.status.Succeeded?)
  }

  lemma RowsCohere(cfg: Config, received: set<Evidence>, db: Db)
    requires DbInv(cfg, received, db)
    ensures Coherent(db)
  {
    hide Trim, TrustedTerms, TermsOf, FullDeposit, MaximumLoan, LoanRatio, ValidMonths, CreditPath, LeasePath,
         Visited, SoundDecision, ValidEvidence, UsableEligibility, FrozenEvidence;
  }

  /** Every read adds a table that fits the earlier ones. */
  lemma ReadKeepsSeen(cfg: Config, received: set<Evidence>, db: Db, seen: Db, tables: nat)
    requires DbInv(cfg, received, db) && SeenInv(db, seen, tables) && tables < ADVANCE_TABLES
    ensures SeenInv(db, ReadTable(db, seen, tables), tables + 1)
  {
    hide DbInv;
    RowsCohere(cfg, received, db);
  }

  /** All tables as they are at one moment. */
  function SeenAtOnce(db: Db): Db {
    EMPTY.(contract := db.contract, status := db.status, allocation := db.allocation, principal := db.principal,
           freeze := db.freeze, contribution := db.contribution, funding := db.funding, transfer := db.transfer,
           journal := db.journal, terms := db.terms)
  }

  lemma AtOnceIsSeen(cfg: Config, received: set<Evidence>, db: Db)
    requires DbInv(cfg, received, db) && db.contract.Some?
    ensures Sees(cfg, received, db, SeenAtOnce(db))
    ensures TenantRefuses(SeenAtOnce(db)) <==> TenantTransferFailed(db)
    ensures FullyFunded(SeenAtOnce(db)) <==> FullyFunded(db)
  {
    hide Trim, TrustedTerms, TermsOf, FullDeposit, MaximumLoan, LoanRatio, ValidMonths, CreditPath, LeasePath,
         Visited, SoundDecision, ValidEvidence, UsableEligibility, FrozenEvidence;
  }

  // ---- the decision ----

  /** Once the bank side is done, the tenant's evidence is broken only by what `TenantRefuses` says, and ready exactly
      when the lease is seen fully funded; the terms are always ready. */
  lemma TenantReadiness(cfg: Config, received: set<Evidence>, db: Db, seen: Db, s: LeaseStatus,
                        log: seq<Edge<LeaseStatus>>)
    requires Sees(cfg, received, db, seen) && seen.status.ApprovedFunded?
    ensures seen.allocation.Some? && seen.contract.Some?
    ensures var al, id, now := seen.allocation.value, seen.contract.value.id, Staged(seen, s, log);
            var readiness :=
              if al.contribution == 0.0 then ZeroReadiness(now, al, id) else PositiveReadiness(now, al, id);
            && (readiness == Broken <==> TenantRefuses(seen))
            && (readiness == Ready <==> FullyFunded(seen))
            && TermsReadiness(now, al, id) == Ready
  {
    hide Trim, FullDeposit, MaximumLoan, LoanRatio, ValidMonths, CreditPath, LeasePath, Visited, SoundDecision,
         ValidEvidence, UsableEligibility, FrozenEvidence;
  }

  lemma CompletionStage(cfg: Config, received: set<Evidence>, db: Db, seen: Db, log: seq<Edge<LeaseStatus>>,
                        applied: nat)
    requires Sees(cfg, received, db, seen) && seen.status.ApprovedFunded?
    ensures seen.allocation.Some? && seen.contract.Some?
    ensures var now := Staged(seen, AwaitingCompletion, log);
            AdvanceCompletion(now, seen.allocation.value, applied) ==
            if TenantRefuses(seen) then Reject(InvalidState)
            else if FullyFunded(seen) then Commit(LeaseMoved(now, Active), Return(Activated(applied + 1)))
            else AdvancedOrNotReady(now, applied)
  {
    hide Sees, ZeroReadiness, PositiveReadiness, TermsReadiness, FullyFunded, TenantRefuses;
    TenantReadiness(cfg, received, db, seen, AwaitingCompletion, log);
  }

  lemma FundingStage(cfg: Config, received: set<Evidence>, db: Db, seen: Db, log: seq<Edge<LeaseStatus>>, applied: nat)
    requires Sees(cfg, received, db, seen) && seen.contract.Some? && seen.allocation.Some?
    ensures var now := Staged(seen, AwaitingFunding, log);
            AdvanceFunding(now, seen.allocation.value, applied) ==
            if !seen.status.ApprovedFunded? then AdvancedOrNotReady(now, applied)
            else AdvanceCompletion(LeaseMoved(now, AwaitingCompletion), seen.allocation.value, applied + 1)
  {
    hide Trim, TrustedTerms, TermsOf, FullDeposit, MaximumLoan, LoanRatio, ValidMonths, CreditPath, LeasePath,
         Visited, SoundDecision, ValidEvidence, UsableEligibility, FrozenEvidence, AdvanceCompletion;
  }

  lemma BindingHolds(cfg: Config, received: set<Evidence>, db: Db, seen: Db)
    requires ValidConfig(cfg) && Sees(cfg, received, db, seen) && seen.allocation.Some?
    ensures seen.contract.Some? && seen.allocation.value.contractId == seen.contract.value.id
    ensures AllocationBinding(seen.contract.value, seen.allocation.value)
  {
    hide Trim, TrustedTerms, TermsOf, FullDeposit, MaximumLoan, LoanRatio, ValidMonths, CreditPath, LeasePath,
         Visited, SoundDecision, ValidEvidence, UsableEligibility, FrozenEvidence;
  }

  /** What the reads leave open about an open contract. */
  lemma OpenContract(cfg: Config, received: set<Evidence>, db: Db, seen: Db)
    requires Sees(cfg, received, db, seen)
    ensures seen.contract.Some? && seen.contract.value.tenant == cfg.applicant
    ensures seen.allocation.None? && Open(seen.contract.value.status) ==>
              seen.contract.value.status.LeaseDraft? && !TenantRefuses(seen)
    ensures seen.contract.value.status.AwaitingCompletion? ==> seen.status.ApprovedFunded?
    ensures seen.status.ApprovedFunded? ==> seen.allocation.Some?
  {
    hide Trim, TrustedTerms, TermsOf, FullDeposit, MaximumLoan, LoanRatio, ValidMonths, CreditPath, LeasePath,
         Visited, SoundDecision, ValidEvidence, UsableEligibility, FrozenEvidence;
  }

  /** A call on an open contract refuses exactly when the tenant's transfer had failed: nothing about the bank, the
      principal, the freeze or the terms can make a reachable contract invalid. Otherwise it climbs to where the
      evidence allows, with one transition row per rank, and activates exactly when the lease is seen fully funded. */
  lemma AdvanceOutcome(cfg: Config, received: set<Evidence>, db: Db, seen: Db)
    requires ValidConfig(cfg) && Sees(cfg, received, db, seen)
    requires seen.contract.Some? && Open(seen.contract.value.status)
    ensures var tx := Advance(cfg, seen);
            && (tx == Reject(InvalidState) <==> TenantRefuses(seen))
            && (tx == Reject(NotReady) <==> seen.allocation.None?)
            && (tx.Commit? <==> seen.allocation.Some? && !TenantRefuses(seen))
            && (tx.Commit? ==>
                  var climb := Climb(seen.contract.value.status, LeaseTarget(seen));
                  && tx.db == Staged(seen, LeaseTarget(seen), seen.leaseLog + climb)
                  && tx.andThen == Return(if FullyFunded(seen) then Activated(|climb|)
                                          else if climb == [] then NotReady else Advanced(|climb|)))
  {
    hide Sees, AdvanceCompletion, AdvanceFunding, AllocationBinding;
    OpenContract(cfg, received, db, seen);
    if seen.allocation.Some? {
      BindingHolds(cfg, received, db, seen);
      var log := seen.leaseLog;
      var toFunding := Edge(LeaseStatus.LeaseDraft, AwaitingFunding);
      var toCompletion := Edge(LeaseStatus.AwaitingFunding, AwaitingCompletion);
      var toActive := Edge(LeaseStatus.AwaitingCompletion, Active);
      match seen.contract.value.status
      case LeaseDraft =>
        FundingStage(cfg, received, db, seen, log + [toFunding], 1);
        if seen.status.ApprovedFunded? {
          CompletionStage(cfg, received, db, seen, log + [toFunding] + [toCompletion], 2);
        }
        assert log + [toFunding] + [toCompletion] == log + [toFunding, toCompletion];
        assert log + [toFunding] + [toCompletion] + [toActive] == log + [toFunding, toCompletion, toActive];
      case AwaitingFunding =>
        FundingStage(cfg, received, db, seen, log, 0);
        if seen.status.ApprovedFunded? {
          CompletionStage(cfg, received, db, seen, log + [toCompletion], 1);
        }
        assert log + [toCompletion] + [toActive] == log + [toCompletion, toActive];
      case AwaitingCompletion =>
        CompletionStage(cfg, received, db, seen, log, 0);
      case _ =>
    }
  }

  /** What was seen fully funded is, and the other way round. */
  lemma SeenFundedIsFunded(cfg: Config, received: set<Evidence>, db: Db, seen: Db)
    requires Sees(cfg, received, db, seen)
    ensures FullyFunded(seen) <==> FullyFunded(db)
    ensures db.contract.Some? && seen.contract == db.contract && LeaseTarget(seen) == LeaseTarget(db)
    ensures FullyFunded(seen) ==> !TenantRefuses(seen)
  {
    hide Trim, TrustedTerms, TermsOf, FullDeposit, MaximumLoan, LoanRatio, ValidMonths, CreditPath, LeasePath,
         Visited, SoundDecision, ValidEvidence, UsableEligibility, FrozenEvidence;
  }

  // ---- what it commits ----

  lemma {:induction false} ClimbKeepsPath(log: seq<Edge<LeaseStatus>>, from: LeaseStatus, to: LeaseStatus)
    requires LeasePath(log, from) && Rank(from) <= Rank(to)
    requires Open(from) || from == to
    requires Open(to) || to.Active?
    ensures LeasePath(log + Climb(from, to), to) && log <= log + Climb(from, to)
    decreases 3 - Rank(from)
  {
    if Rank(from) >= Rank(to) {
      assert log + Climb(from, to) == log;
    } else {
      var next :=
        if from.LeaseDraft? then AwaitingFunding else if from.AwaitingFunding? then AwaitingCompletion else Active;
      LeaseMoveKeepsPath(log, from, next);
      ClimbKeepsPath(log + [Edge(from, next)], next, to);
      assert log + Climb(from, to) == log + [Edge(from, next)] + Climb(next, to);
    }
  }

  lemma AdvanceStartSafe(cfg: Config, received: set<Evidence>, db: Db)
    requires DbInv(cfg, received, db)
    ensures TxSafe(cfg, received, db, AdvanceStart(db))
  {
    hide DbInv;
  }

  lemma AdvanceNextSafe(cfg: Config, received: set<Evidence>, db: Db, seen: Db, tables: nat)
    requires ValidConfig(cfg) && DbInv(cfg, received, db) && ProcInv(cfg, received, db, Advancing(seen, tables))
    ensures TxSafe(cfg, received, db, AdvanceNext(cfg, db, seen, tables))
  {
    hide DbInv, Grows, SeenInv, Advance, Climb, LeasePath;
    if tables < ADVANCE_TABLES {
      ReadKeepsSeen(cfg, received, db, seen, tables);
    } else {
      assert tables == ADVANCE_TABLES by { AllRead(db, seen, tables); }
      OpenContract(cfg, received, db, seen);
      if Open(seen.contract.value.status) {
        AdvanceOutcome(cfg, received, db, seen);
        if Advance(cfg, seen).Commit? {
          ClimbSafe(cfg, received, db, seen);
          var climb := Climb(seen.contract.value.status, LeaseTarget(seen));
          assert [] + climb == climb;
        }
      } else {
        AdvanceClosed(cfg, seen);
      }
    }
  }

  lemma AllRead(db: Db, seen: Db, tables: nat)
    requires SeenInv(db, seen, tables)
    ensures tables <= ADVANCE_TABLES
  {
  }

  lemma AdvanceClosed(cfg: Config, seen: Db)
    requires seen.contract.Some? && !Open(seen.contract.value.status)
    ensures Advance(cfg, seen) == Reject(AlreadyActivated)
  {
  }

  /** The moves an accepted call commits, onto the rows as they are by then. */
  lemma ClimbSafe(cfg: Config, received: set<Evidence>, db: Db, seen: Db)
    requires ValidConfig(cfg) && Sees(cfg, received, db, seen)
    requires seen.contract.Some? && Open(seen.contract.value.status) && seen.allocation.Some?
    ensures seen.leaseLog == []
    ensures var now := db.(contract := Some(seen.contract.value.(status := LeaseTarget(seen))),
                           leaseLog := db.leaseLog + Climb(seen.contract.value.status, LeaseTarget(seen)));
            DbInv(cfg, received, now) && Grows(db, now)
  {
    hide Trim, TrustedTerms, TermsOf, FullDeposit, MaximumLoan, LoanRatio, ValidMonths, CreditPath, LeasePath,
         Visited, SoundDecision, ValidEvidence, UsableEligibility, FrozenEvidence, Climb;
    ClimbKeepsPath(db.leaseLog, seen.contract.value.status, LeaseTarget(seen));
  }
}
