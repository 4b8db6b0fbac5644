/** Missed months: the fold over closed months and the incremental tracker. */
module Delinquency {
  import opened Texts
  import opened Arrears

  datatype ObligationStatus = Open | Paid | Missed | Covered

  const CANCELLATION_THRESHOLD := 3

  /** The streak of a newest-first history; months behind a paid one are not looked at. */
  function Streak(newestToOldest: seq<ObligationStatus>): Result<nat> {
    if newestToOldest == [] || newestToOldest[0] == Paid then Ok(0)
    else if newestToOldest[0] == ObligationStatus.Open then Err(BadArgument)
    else
      match Streak(newestToOldest[1..])
      case Err(e) => Err(e)
      case Ok(n) => Ok(n + 1)
  }

  /** `DelinquencySequence.CalculateCurrentStreak`. */
  method CalculateCurrentStreak(newestToOldest: seq<ObligationStatus>) returns (result: Result<nat>)
    ensures result == Streak(newestToOldest)
  {
    var count := 0;
    for i := 0 to |newestToOldest|
      invariant Streak(newestToOldest) ==
                (match Streak(newestToOldest[i..]) case Err(e) => Err(e) case Ok(n) => Ok(count + n))
    {
      assert newestToOldest[i..][0] == newestToOldest[i] && newestToOldest[i..][1..] == newestToOldest[i + 1..];
      match newestToOldest[i] {
        case Paid => return Ok(count);
        case Missed => count := count + 1;
        case Covered => count := count + 1;
        case Open => return Err(BadArgument);
      }
    }
    assert newestToOldest[|newestToOldest|..] == [];
    result := Ok(count);
  }

  // ---- the tracker ----

  datatype Tracker = Tracker(count: nat, requiresCancellation: bool)

  /** One closed month; None for the exception once cancellation is required. */
  function Register(t: Tracker, paidInFull: bool): Option<Tracker> {
    if t.requiresCancellation then None
    else
      var count := if paidInFull then 0 else t.count + 1;
      Some(Tracker(count, count >= CANCELLATION_THRESHOLD))
  }

  /** `ConsecutiveMissedMonths`. */
  class ConsecutiveMissedMonths {
    var Count: nat
    var RequiresCancellation: bool

    function State(): Tracker
      reads this
    {
      Tracker(Count, RequiresCancellation)
    }

    constructor ()
      ensures State() == Tracker(0, false)
    {
      Count, RequiresCancellation := 0, false;
    }

    /** False when the month is refused. */
    method RegisterClosedMonth(tenantPaidInFull: bool) returns (accepted: bool)
      modifies this
      ensures var next := Register(old(State()), tenantPaidInFull);
              accepted == next.Some? && State() == if accepted then next.value else old(State())
    {
      if RequiresCancellation {
        return false;
      }
      Count := if tenantPaidInFull then 0 else Count + 1;
      if Count >= CANCELLATION_THRESHOLD {
        RequiresCancellation := true;
      }
      accepted := true;
    }
  }

  /** A closed history, oldest month first, through a fresh tracker. */
  function Track(history: seq<ObligationStatus>): Option<Tracker> {
    if history == [] then Some(Tracker(0, false))
    else
      match Track(history[..|history| - 1])
      case None => None
      case Some(t) => Register(t, history[|history| - 1] == Paid)
  }

  function Reverse(history: seq<ObligationStatus>): seq<ObligationStatus> {
    if history == [] then [] else [history[|history| - 1]] + Reverse(history[..|history| - 1])
  }

  predicate Closed(history: seq<ObligationStatus>) {
    forall i :: 0 <= i < |history| ==> history[i] != ObligationStatus.Open
  }

  /** For every closed history the tracker still accepts, its count is the fold of the history read backwards. */
  lemma {:induction false} TrackerIsTheFold(history: seq<ObligationStatus>)
    requires Closed(history)
    ensures Streak(Reverse(history)).Ok?
    ensures Track(history).Some? ==> Streak(Reverse(history)) == Ok(Track(history).value.count)
  {
    if history != [] {
      var init, last := history[..|history| - 1], history[|history| - 1];
      TrackerIsTheFold(init);
      assert Reverse(history)[1..] == Reverse(init);
    }
  }

  /** The streak is what lies before the latest paid month, or the whole history without one; a month still open is
      refused when the fold gets to it, and not when a paid one comes first. */
  lemma {:induction false} StreakDecides(newestToOldest: seq<ObligationStatus>, k: nat)
    requires k <= |newestToOldest|
    requires forall i :: 0 <= i < k ==> newestToOldest[i] == Missed || newestToOldest[i] == Covered
    ensures k == |newestToOldest| || newestToOldest[k] == Paid ==> Streak(newestToOldest) == Ok(k)
    ensures k < |newestToOldest| && newestToOldest[k] == ObligationStatus.Open ==>
              Streak(newestToOldest) == Err(BadArgument)
  {
    if k > 0 {
      StreakDecides(newestToOldest[1..], k - 1);
    }
  }

  /** Three misses in a row, the last of them in month `i`. */
  predicate WindowAt(history: seq<ObligationStatus>, i: nat)
    requires i < |history|
  {
    i >= 2 && history[i] != Paid && history[i - 1] != Paid && history[i - 2] != Paid
  }

  /** The misses at the end of a history. */
  function Trailing(history: seq<ObligationStatus>): nat {
    if history == [] || history[|history| - 1] == Paid then 0 else 1 + Trailing(history[..|history| - 1])
  }

  lemma TrailingThree(history: seq<ObligationStatus>)
    ensures Trailing(history) >= 3 <==> |history| > 0 && WindowAt(history, |history| - 1)
  {
    if |history| >= 1 {
      var init := history[..|history| - 1];
      if |init| >= 1 {
        var first := init[..|init| - 1];
        assert Trailing(history) >= 3 <==>
               history[|history| - 1] != Paid && init[|init| - 1] != Paid && Trailing(first) >= 1;
      }
    }
  }

  /** The tracker refuses a month exactly when three misses in a row lie behind it, and requires cancellation exactly
      when the latest month completes the first such window. */
  lemma {:induction false} LatchesAtTheFirstWindow(history: seq<ObligationStatus>)
    ensures Track(history).Some? <==> forall i: nat :: i < |history| - 1 ==> !WindowAt(history, i)
    ensures Track(history).Some? ==>
              && Track(history).value.count == Trailing(history)
              && (Track(history).value.requiresCancellation <==>
                  |history| > 0 && WindowAt(history, |history| - 1))
  {
    if history != [] {
      var init := history[..|history| - 1];
      LatchesAtTheFirstWindow(init);
      TrailingThree(history);
      TrailingThree(init);
      forall i: nat | i < |init| ensures WindowAt(init, i) <==> WindowAt(history, i) {
      }
    }
  }

  /** Platform coverage of a missed month changes neither the fold nor the tracker. */
  lemma {:induction false} CoverageStaysAMiss(history: seq<ObligationStatus>, covered: seq<ObligationStatus>)
    requires |history| == |covered| && Closed(history) && Closed(covered)
    requires forall i :: 0 <= i < |history| ==> (history[i] == Paid <==> covered[i] == Paid)
    ensures Streak(history) == Streak(covered) && Track(history) == Track(covered)
    decreases |history|
  {
    StreakOfCovered(history, covered);
    if history != [] {
      CoverageStaysAMiss(history[..|history| - 1], covered[..|covered| - 1]);
    }
  }

  lemma {:induction false} StreakOfCovered(history: seq<ObligationStatus>, covered: seq<ObligationStatus>)
    requires |history| == |covered| && Closed(history) && Closed(covered)
    requires forall i :: 0 <= i < |history| ==> (history[i] == Paid <==> covered[i] == Paid)
    ensures Streak(history) == Streak(covered)
    decreases |history|
  {
    if history != [] {
      StreakOfCovered(history[1..], covered[1..]);
    }
  }
}
