/** Whose rows get confirmed and released, over every run and whatever its environment does: what was
    asked for, stated without the queries themselves. */
module SeatOutcomes {
  import opened Basics
  import opened SeatProtocol
  import opened SeatSafety
  import opened SeatHistory

  /** Step j is the SELECT of a confirm that was called with the reservation id of row i, then pending. */
  predicate AskedFor(s: State, steps: seq<Step>, j: nat, i: nat, c: nat) {
    && j < |steps| && i < |At(s, steps, j).tickets|
    && steps[j] == ConfirmSelect(c, At(s, steps, j).tickets[i].reservation)
    && At(s, steps, j).tickets[i].status == PendingPayment
  }

  /** Step j is the SELECT of a cleanup that found row i pending for more than 900 seconds. */
  predicate TimedOut(s: State, steps: seq<Step>, j: nat, i: nat, c: nat) {
    && j < |steps| && i < |At(s, steps, j).tickets| && steps[j] == CleanupSelect(c)
    && At(s, steps, j).tickets[i].status == PendingPayment
    && At(s, steps, j).now - At(s, steps, j).tickets[i].lockedAt > 900 * SECOND
  }

  predicate Found(s: State, steps: seq<Step>, j: nat, i: nat, c: nat, cause: Cause) {
    match cause
    case ByConfirm => AskedFor(s, steps, j, i, c)
    case ByCleanup => TimedOut(s, steps, j, i, c)
  }

  /** The rows an operation has selected were found by its SELECT. */
  ghost predicate AllFound(s: State, steps: seq<Step>) {
    var t := Run(s, steps);
    forall c, i :: c in t.updates && i in t.updates[c].rows ==>
      exists j: nat :: Found(s, steps, j, i, c, t.updates[c].cause)
  }

  lemma AtPrefix(s: State, steps: seq<Step>, j: nat)
    requires steps != [] && j < |steps|
    ensures At(s, steps[..|steps| - 1], j) == At(s, steps, j)
  {
    assert steps[..|steps| - 1][..j] == steps[..j];
  }

  lemma FoundStays(s: State, steps: seq<Step>, j: nat, i: nat, c: nat, cause: Cause)
    requires steps != [] && Found(s, steps[..|steps| - 1], j, i, c, cause)
    ensures Found(s, steps, j, i, c, cause)
  {
    AtPrefix(s, steps, j);
  }

  /** What a step can add to the selected rows. */
  lemma StepSelects(s: State, step: Step, t: State, c: nat, i: nat)
    requires t == Next(s, step) && c in t.updates && i in t.updates[c].rows
    ensures (c in s.updates && t.updates[c] == s.updates[c]) || NewlyFound(s, step, c, i, t.updates[c].cause)
  {
    match step
    case ConfirmSelect(_, _) =>
    case CleanupSelect(_) =>
    case _ => UpdatesFrame(s, step, t);
  }

  predicate NewlyFound(s: State, step: Step, c: nat, i: nat, cause: Cause) {
    && i < |s.tickets| && s.tickets[i].status == PendingPayment
    && match cause
       case ByConfirm => step == ConfirmSelect(c, s.tickets[i].reservation)
       case ByCleanup => step == CleanupSelect(c) && s.now - s.tickets[i].lockedAt > 900 * SECOND
  }

  lemma {:induction false} SelectedWereFound(start: int, steps: seq<Step>)
    ensures AllFound(Init(start), steps)
  {
    if steps != [] {
      var s, n := Init(start), |steps| - 1;
      SelectedWereFound(start, steps[..n]);
      var t, u := Run(s, steps[..n]), Run(s, steps);
      forall c, i | c in u.updates && i in u.updates[c].rows
        ensures exists j: nat :: Found(s, steps, j, i, c, u.updates[c].cause)
      {
        StepSelects(t, steps[n], u, c, i);
        if NewlyFound(t, steps[n], c, i, u.updates[c].cause) {
          assert Found(s, steps, n, i, c, u.updates[c].cause);
        } else {
          var j: nat :| Found(s, steps[..n], j, i, c, t.updates[c].cause);
          FoundStays(s, steps, j, i, c, t.updates[c].cause);
        }
      }
    }
  }

  /** The flush at step k wrote the outcome to row i, which its SELECT at step j had found. */
  predicate WroteOutcome(s: State, steps: seq<Step>, j: nat, k: nat, i: nat, c: nat, cause: Cause) {
    && j < k < |steps| && Found(s, steps, j, i, c, cause) && steps[k] == Flush(c)
    && c in At(s, steps, k).updates && At(s, steps, k).updates[c].cause == cause && i in At(s, steps, k).updates[c].rows
  }

  ghost predicate Explained(s: State, steps: seq<Step>, i: nat, cause: Cause) {
    exists j: nat, k: nat, c: nat :: WroteOutcome(s, steps, j, k, i, c, cause)
  }

  lemma ExplainedStays(s: State, steps: seq<Step>, i: nat, cause: Cause)
    requires steps != [] && Explained(s, steps[..|steps| - 1], i, cause)
    ensures Explained(s, steps, i, cause)
  {
    var front := steps[..|steps| - 1];
    var j: nat, k: nat, c: nat :| WroteOutcome(s, front, j, k, i, c, cause);
    FoundStays(s, steps, j, i, c, cause);
    AtPrefix(s, steps, k);
    assert WroteOutcome(s, steps, j, k, i, c, cause);
  }

  function Outcome(cause: Cause): Status {
    match cause
    case ByConfirm => Confirmed
    case ByCleanup => Released
  }

  /** Only a flush of the matching kind gives a row a status it did not have. */
  lemma StatusComesFromAFlush(s: State, step: Step, t: State, i: nat, cause: Cause)
    requires Selections(s) && t == Next(s, step) && i < |t.tickets| && t.tickets[i].status == Outcome(cause)
    ensures i < |s.tickets|
    ensures s.tickets[i].status == Outcome(cause) ||
            (step.Flush? && step.call in s.updates && s.updates[step.call].cause == cause
             && i in s.updates[step.call].rows)
  {
    match step
    case Flush(c) =>
      if c in s.updates {
        FlushWrites(s, c, t);
      }
    case Commit(c) => assert s.tickets <= t.tickets;
    case _ => assert t.tickets == s.tickets;
  }

  lemma {:induction false} EveryOutcomeExplained(start: int, steps: seq<Step>, i: nat, cause: Cause)
    requires var ts := Run(Init(start), steps).tickets; i < |ts| && ts[i].status == Outcome(cause)
    ensures Explained(Init(start), steps, i, cause)
  {
    if steps != [] {
      var s, n := Init(start), |steps| - 1;
      var t := Run(s, steps[..n]);
      TidyRun(s, steps[..n]);
      StatusComesFromAFlush(t, steps[n], Run(s, steps), i, cause);
      if t.tickets[i].status == Outcome(cause) {
        EveryOutcomeExplained(start, steps[..n], i, cause);
        ExplainedStays(s, steps, i, cause);
      } else {
        SelectedWereFound(start, steps[..n]);
        var c := steps[n].call;
        var j: nat :| Found(s, steps[..n], j, i, c, cause);
        FoundStays(s, steps, j, i, c, cause);
        assert WroteOutcome(s, steps, j, n, i, c, cause);
      }
    }
  }

  /** Over every run: a row is confirmed only by the flush of a confirm_reservation that had been called
      with the row's own reservation id and had found it pending. */
  lemma ConfirmedWasAskedFor(start: int, steps: seq<Step>, i: nat) returns (j: nat, k: nat, c: nat)
    requires var ts := Run(Init(start), steps).tickets; i < |ts| && ts[i].status == Confirmed
    ensures j < k < |steps| && i < |At(Init(start), steps, j).tickets|
    ensures steps[j] == ConfirmSelect(c, Run(Init(start), steps).tickets[i].reservation) && steps[k] == Flush(c)
    ensures At(Init(start), steps, j).tickets[i].status == PendingPayment
    ensures c in At(Init(start), steps, k).updates && i in At(Init(start), steps, k).updates[c].rows
  {
    EveryOutcomeExplained(start, steps, i, ByConfirm);
    j, k, c :| WroteOutcome(Init(start), steps, j, k, i, c, ByConfirm);
    SameReservation(Init(start), steps, j, i);
  }

  /** ... and released only by the flush of a cleanup that had found it pending for over 900 seconds. */
  lemma ReleasedHadTimedOut(start: int, steps: seq<Step>, i: nat) returns (j: nat, k: nat, c: nat)
    requires var ts := Run(Init(start), steps).tickets; i < |ts| && ts[i].status == Released
    ensures j < k < |steps| && i < |At(Init(start), steps, j).tickets|
    ensures steps[j] == CleanupSelect(c) && steps[k] == Flush(c)
    ensures At(Init(start), steps, j).tickets[i].status == PendingPayment
    ensures At(Init(start), steps, j).now - Run(Init(start), steps).tickets[i].lockedAt > 900 * SECOND
    ensures c in At(Init(start), steps, k).updates && i in At(Init(start), steps, k).updates[c].rows
  {
    EveryOutcomeExplained(start, steps, i, ByCleanup);
    j, k, c :| WroteOutcome(Init(start), steps, j, k, i, c, ByCleanup);
    SameReservation(Init(start), steps, j, i);
  }

  /** A row keeps its reservation and the time it was locked. */
  lemma {:induction false} SameReservation(s: State, steps: seq<Step>, j: nat, i: nat)
    requires j <= |steps| && i < |At(s, steps, j).tickets|
    ensures var ts := Run(s, steps).tickets;
            && i < |ts| && ts[i].reservation == At(s, steps, j).tickets[i].reservation
            && ts[i].lockedAt == At(s, steps, j).tickets[i].lockedAt
    decreases |steps|
  {
    if j < |steps| {
      var n := |steps| - 1;
      assert steps[..n][..j] == steps[..j];
      SameReservation(s, steps[..n], j, i);
      RowsStay(Run(s, steps[..n]), steps[n]);
      assert Extends(Run(s, steps[..n]).tickets, Run(s, steps).tickets);
    } else {
      assert steps[..j] == steps;
    }
  }
}
