/** The database session the services work through: changes are tracked, and reach the rows only on commit. */
module FundingContext {
  import opened Texts
  import opened Workflows
  import opened FundingRows

  /** How a service method leaves its transaction. */
  datatype End = Done(next: Then) | Threw(fault: Fault)

  function EndOf(tx: Tx): End {
    match tx
    case Commit(_, next) => Done(next)
    case Rollback(next) => Done(next)
    case Throw(fault) => Threw(fault)
  }

  function After(db: Db, tx: Tx): Db {
    if tx.Commit? then tx.db else db
  }

  const REASON := "A reason is always given."

  class DbContext {
    /** What every other caller sees. */
    var rows: Db
    /** The entities of the open transaction, with this call's changes. */
    var tracked: Db

    constructor ()
      ensures rows == EMPTY
    {
      rows, tracked := EMPTY, EMPTY;
    }

    method BeginTransaction()
      modifies this`tracked
      ensures tracked == rows
    {
      tracked := rows;
    }

    method Commit()
      modifies this`rows
      ensures rows == tracked
    {
      rows := tracked;
    }

    /** Saving and committing: a text its column does not take makes the save throw, and everything is undone. */
    method SaveAndCommit(fits: bool) returns (ok: bool)
      modifies this
      ensures ok == fits
      ensures rows == if fits then old(tracked) else old(rows)
    {
      if fits {
        Commit();
      } else {
        Rollback();
      }
      ok := fits;
    }

    /** Saving an advance: only the lease row and its new transition rows are written. */
    method CommitLease()
      modifies this`rows
      ensures rows == old(rows).(contract := tracked.contract, leaseLog := old(rows).leaseLog + tracked.leaseLog)
    {
      rows := rows.(contract := tracked.contract, leaseLog := rows.leaseLog + tracked.leaseLog);
    }

    /** Also what disposing an uncommitted transaction does after an exception. */
    method Rollback()
      modifies this`tracked
      ensures tracked == rows
    {
      tracked := rows;
    }

    /** Credit applications: status and transition row change together, or the workflow object throws. */
    method ApplyTransition(next: CreditStatus, actorId: string) returns (ok: bool)
      requires !Blank(actorId)
      modifies this`tracked
      ensures ok <==> CreditEdge(old(tracked.status), next)
      ensures tracked == if ok then Moved(old(tracked), next) else old(tracked)
    {
      hide Trim;
      VisibleStart(REASON);
      var workflow := new CreditApplicationWorkflow.Restore(tracked.status);
      var transition := workflow.MoveTo(next, actorId, REASON);
      if transition.None? {
        return false;
      }
      tracked := tracked.(status := transition.value.to, log := tracked.log + [transition.value]);
      ok := true;
    }

    /** Lease contracts likewise. */
    method ApplyLeaseTransition(next: LeaseStatus, actorId: string) returns (ok: bool)
      requires tracked.contract.Some? && !Blank(actorId)
      modifies this`tracked
      ensures ok <==> LeaseEdge(old(tracked.contract.value.status), next)
      ensures tracked == if ok then LeaseMoved(old(tracked), next) else old(tracked)
    {
      hide Trim;
      VisibleStart(REASON);
      var contract := tracked.contract.value;
      var workflow := new LeaseContractWorkflow.Restore(contract.status);
      var transition := workflow.MoveTo(next, actorId, REASON);
      if transition.None? {
        return false;
      }
      tracked := tracked.(contract := Some(contract.(status := transition.value.to)),
                          leaseLog := tracked.leaseLog + [transition.value]);
      ok := true;
    }
  }
}
