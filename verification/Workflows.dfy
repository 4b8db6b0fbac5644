/** The two status tables and the workflow objects that write transition rows. */
module Workflows {
  import opened Texts

  datatype CreditStatus =
    | Draft | IdentityPending | OrganizationCheckPending | PlanSelectionPending | PropertyContractPending
    | ExternalChecksPending | ExternalCheckIndeterminate | NeedsDocuments | DecisionReady
    | BankApprovalPending | FundingPending | ApprovedFunded | Rejected | Withdrawn | Expired

  datatype LeaseStatus =
    | LeaseDraft | AwaitingFunding | AwaitingCompletion | Active
    | SettlementPending | Settled | CancellationPending | Cancelled

  /** A committed transition row: the status left and the status entered. */
  datatype Edge<S> = Edge(from: S, to: S)

  predicate CreditEdge(from: CreditStatus, to: CreditStatus) {
    match from
    case Draft => to.IdentityPending? || to.Withdrawn?
    case IdentityPending =>
      to.OrganizationCheckPending? || to.PlanSelectionPending? || to.NeedsDocuments? || to.Rejected?
    case OrganizationCheckPending => to.PlanSelectionPending? || to.NeedsDocuments? || to.Rejected?
    case PlanSelectionPending => to.PropertyContractPending? || to.Withdrawn? || to.Expired?
    case PropertyContractPending => to.ExternalChecksPending? || to.NeedsDocuments? || to.Withdrawn?
    case ExternalChecksPending =>
      to.DecisionReady? || to.ExternalCheckIndeterminate? || to.NeedsDocuments? || to.Rejected?
    case ExternalCheckIndeterminate =>
      to.ExternalChecksPending? || to.DecisionReady? || to.BankApprovalPending? || to.FundingPending? || to.Rejected?
    case NeedsDocuments => to.Withdrawn? || to.Expired?
    case DecisionReady => to.BankApprovalPending? || to.Rejected?
    case BankApprovalPending => to.FundingPending? || to.ExternalCheckIndeterminate? || to.Rejected?
    case FundingPending => to.ApprovedFunded? || to.ExternalCheckIndeterminate? || to.Expired?
    case _ => false
  }

  predicate ResumeTarget(to: CreditStatus) {
    to.IdentityPending? || to.OrganizationCheckPending? || to.PropertyContractPending? || to.ExternalChecksPending?
  }

  /** Before activation. */
  predicate Open(s: LeaseStatus) {
    s.LeaseDraft? || s.AwaitingFunding? || s.AwaitingCompletion?
  }

  predicate LeaseEdge(from: LeaseStatus, to: LeaseStatus) {
    match from
    case LeaseDraft => to == AwaitingFunding
    case AwaitingFunding => to == AwaitingCompletion
    case AwaitingCompletion => to == Active
    case Active => to.SettlementPending? || to.CancellationPending?
    case SettlementPending => to == Settled
    case CancellationPending => to == Cancelled
    case _ => false
  }

  /** The rows, in commit order, lead from one status to another without a gap. */
  predicate Chain<S(==)>(log: seq<Edge<S>>, start: S, end: S) {
    && (log == [] ==> start == end)
    && (log != [] ==> log[0].from == start && log[|log| - 1].to == end)
    && forall i :: 0 <= i < |log| - 1 ==> log[i].to == log[i + 1].from
  }

  lemma ChainExtends<S>(log: seq<Edge<S>>, start: S, end: S, next: S)
    requires Chain(log, start, end)
    ensures Chain(log + [Edge(end, next)], start, next)
  {
    var longer := log + [Edge(end, next)];
    forall i | 0 <= i < |longer| - 1 ensures longer[i].to == longer[i + 1].from {
    }
  }

  ghost predicate Visited<S>(log: seq<Edge<S>>, s: S) {
    exists i :: 0 <= i < |log| && log[i].to == s
  }

  /** The bare table lets an application reach bank approval with no eligibility decision ever taken. */
  lemma TableAllowsShortcut()
    ensures exists log: seq<Edge<CreditStatus>> ::
              && Chain(log, ExternalChecksPending, BankApprovalPending)
              && (forall i :: 0 <= i < |log| ==> CreditEdge(log[i].from, log[i].to))
              && !Visited(log, DecisionReady)
  {
    var log := [Edge(ExternalChecksPending, ExternalCheckIndeterminate),
                Edge(ExternalCheckIndeterminate, BankApprovalPending)];
    assert Chain(log, ExternalChecksPending, BankApprovalPending);
    assert !Visited(log, DecisionReady);
  }

  /** `CreditApplicationWorkflow`: a status and the transitions made since it was restored. */
  class CreditApplicationWorkflow {
    var Status: CreditStatus
    var Transitions: seq<Edge<CreditStatus>>
    ghost const RestoredFrom: CreditStatus

    ghost predicate Valid()
      reads this
    {
      && Chain(Transitions, RestoredFrom, Status)
      && forall i :: 0 <= i < |Transitions| ==>
           || CreditEdge(Transitions[i].from, Transitions[i].to)
           || (Transitions[i].from == NeedsDocuments && ResumeTarget(Transitions[i].to))
    }

    constructor Restore(status: CreditStatus)
      ensures Valid() && Status == status == RestoredFrom && Transitions == []
    {
      Status := status;
      RestoredFrom := status;
      Transitions := [];
    }

    /** None stands for the InvalidOperationException or ArgumentException; the object is then unchanged. */
    method MoveTo(next: CreditStatus, actorId: string, reason: string) returns (made: Option<Edge<CreditStatus>>)
      requires Valid()
      modifies this
      ensures Valid()
      ensures made.Some? <==> CreditEdge(old(Status), next) && !Blank(actorId) && !Blank(reason)
      ensures made.Some? ==> made.value == Edge(old(Status), next) && Status == next
                             && Transitions == old(Transitions) + [made.value]
      ensures made.None? ==> Status == old(Status) && Transitions == old(Transitions)
    {
      if !CreditEdge(Status, next) {
        return None;
      }
      made := Apply(next, actorId, reason);
    }

    method ResumeFromNeedsDocuments(previous: CreditStatus, actorId: string, reason: string)
      returns (made: Option<Edge<CreditStatus>>)
      requires Valid()
      modifies this
      ensures Valid()
      ensures made.Some? <==>
              old(Status) == NeedsDocuments && ResumeTarget(previous) && !Blank(actorId) && !Blank(reason)
      ensures made.Some? ==> made.value == Edge(NeedsDocuments, previous) && Status == previous
                             && Transitions == old(Transitions) + [made.value]
      ensures made.None? ==> Status == old(Status) && Transitions == old(Transitions)
    {
      if Status != NeedsDocuments || !ResumeTarget(previous) {
        return None;
      }
      made := Apply(previous, actorId, reason);
    }

    method Apply(next: CreditStatus, actorId: string, reason: string) returns (made: Option<Edge<CreditStatus>>)
      requires Valid()
      requires CreditEdge(Status, next) || (Status == NeedsDocuments && ResumeTarget(next))
      modifies this
      ensures Valid()
      ensures made.Some? <==> !Blank(actorId) && !Blank(reason)
      ensures made.Some? ==> made.value == Edge(old(Status), next) && Status == next
                             && Transitions == old(Transitions) + [made.value]
      ensures made.None? ==> Status == old(Status) && Transitions == old(Transitions)
    {
      if Blank(actorId) || Blank(reason) {
        return None;
      }
      ChainExtends(Transitions, RestoredFrom, Status, next);
      var transition := Edge(Status, next);
      Status := next;
      Transitions := Transitions + [transition];
      made := Some(transition);
    }
  }

  /** `LeaseContractWorkflow`. */
  class LeaseContractWorkflow {
    var Status: LeaseStatus
    var Transitions: seq<Edge<LeaseStatus>>
    ghost const RestoredFrom: LeaseStatus

    ghost predicate Valid()
      reads this
    {
      && Chain(Transitions, RestoredFrom, Status)
      && forall i :: 0 <= i < |Transitions| ==> LeaseEdge(Transitions[i].from, Transitions[i].to)
    }

    constructor Restore(status: LeaseStatus)
      ensures Valid() && Status == status == RestoredFrom && Transitions == []
    {
      Status := status;
      RestoredFrom := status;
      Transitions := [];
    }

    method MoveTo(next: LeaseStatus, actorId: string, reason: string) returns (made: Option<Edge<LeaseStatus>>)
      requires Valid()
      modifies this
      ensures Valid()
      ensures made.Some? <==> LeaseEdge(old(Status), next) && !Blank(actorId) && !Blank(reason)
      ensures made.Some? ==> made.value == Edge(old(Status), next) && Status == next
                             && Transitions == old(Transitions) + [made.value]
      ensures made.None? ==> Status == old(Status) && Transitions == old(Transitions)
    {
      if !LeaseEdge(Status, next) || Blank(actorId) || Blank(reason) {
        return None;
      }
      ChainExtends(Transitions, RestoredFrom, Status, next);
      var transition := Edge(Status, next);
      Status := next;
      Transitions := Transitions + [transition];
      made := Some(transition);
    }
  }
}
