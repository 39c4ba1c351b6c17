/** The books of the reservation protocol: rows, outcomes and the cleanup's backlog. */
module SeatLedger {
  import opened Basics
  import opened SeatProtocol
  import opened SeatSafety
  import opened SeatHistory
  import Sets

  /** Assumption (f) alone: every flush lands while its rows are still pending. */
  predicate FlushesInTime(s: State, steps: seq<Step>) {
    steps == [] ||
    (var t := Run(s, steps[..|steps| - 1]);
     FlushesInTime(s, steps[..|steps| - 1]) && (steps[|steps| - 1].Flush? ==> Guard(t, steps[|steps| - 1])))
  }

  // ---------------------------------------------------------------- conservation of tickets

  function WithStatus(ts: seq<Ticket>, st: Status): set<nat> {
    set i: nat | i < |ts| && ts[i].status == st
  }

  ghost predicate Balanced(s: State) {
    && |WithStatus(s.tickets, Confirmed)| == s.confirmed
    && |WithStatus(s.tickets, Released)| == s.released
    && |s.tickets| == |WithStatus(s.tickets, PendingPayment)| + s.confirmed + s.released
  }

  lemma StatusesPartition(ts: seq<Ticket>)
    ensures |ts| == |WithStatus(ts, PendingPayment)| + |WithStatus(ts, Confirmed)| + |WithStatus(ts, Released)|
  {
    var p, c, r := WithStatus(ts, PendingPayment), WithStatus(ts, Confirmed), WithStatus(ts, Released);
    assert p + c + r == Sets.Range(0, |ts|);
    assert |p + c| == |p| + |c| && |p + c + r| == |p + c| + |r|;
  }

  /** What a flush does to the rows of each status. */
  lemma FlushMoves(s: State, c: nat, t: State)
    requires Selections(s) && c in s.updates && t == Next(s, Flush(c))
    ensures var into, other := if s.updates[c].cause == ByConfirm then Confirmed else Released,
                               if s.updates[c].cause == ByConfirm then Released else Confirmed;
            && WithStatus(t.tickets, into) == WithStatus(s.tickets, into) + s.updates[c].rows
            && WithStatus(t.tickets, other) == WithStatus(s.tickets, other) - s.updates[c].rows
  {
    FlushWrites(s, c, t);
  }

  lemma Union(a: set<nat>, b: set<nat>)
    ensures |a + b| == |a| + |b| <==> a !! b
    ensures |a - b| == |a| <==> a !! b
  {
    assert |a + b| == |a| + |b| - |a * b|;
    assert (a - b) + (a * b) == a;
    if a * b == {} {
      assert a - b == a;
    }
  }

  /** Moving rows into one set and out of another adds up exactly when they were in neither. */
  lemma Moving(into: set<nat>, other: set<nat>, rows: set<nat>)
    ensures |into + rows| == |into| + |rows| && |other - rows| == |other| <==> into !! rows && other !! rows
  {
    Union(into, rows);
    Union(other, rows);
  }

  lemma TwoSumsSuffice(s: State)
    ensures Balanced(s) <==>
              |WithStatus(s.tickets, Confirmed)| == s.confirmed && |WithStatus(s.tickets, Released)| == s.released
  {
    StatusesPartition(s.tickets);
  }

  /** The books stay balanced over a flush exactly when its rows are all still pending. */
  lemma FlushBalancesIff(s: State, c: nat)
    requires Balanced(s) && Selections(s) && c in s.updates
    ensures Balanced(Next(s, Flush(c))) <==>
              forall i :: i in s.updates[c].rows ==> i < |s.tickets| && s.tickets[i].status == PendingPayment
  {
    var t := Next(s, Flush(c));
    PendingMeansApart(s, c);
    TwoSumsSuffice(t);
    FlushSums(s, c, t);
  }

  lemma FlushSums(s: State, c: nat, t: State)
    requires |WithStatus(s.tickets, Confirmed)| == s.confirmed && |WithStatus(s.tickets, Released)| == s.released
    requires Selections(s) && c in s.updates && t == Next(s, Flush(c))
    ensures |WithStatus(t.tickets, Confirmed)| == t.confirmed && |WithStatus(t.tickets, Released)| == t.released <==>
              WithStatus(s.tickets, Confirmed) !! s.updates[c].rows
              && WithStatus(s.tickets, Released) !! s.updates[c].rows
  {
    FlushCounts(s, c, t);
    if s.updates[c].cause == ByConfirm {
      Moving(WithStatus(s.tickets, Confirmed), WithStatus(s.tickets, Released), s.updates[c].rows);
    } else {
      Moving(WithStatus(s.tickets, Released), WithStatus(s.tickets, Confirmed), s.updates[c].rows);
    }
  }

  lemma PendingMeansApart(s: State, c: nat)
    requires Selections(s) && c in s.updates
    ensures WithStatus(s.tickets, Confirmed) !! s.updates[c].rows
            && WithStatus(s.tickets, Released) !! s.updates[c].rows
            <==> forall i :: i in s.updates[c].rows ==> i < |s.tickets| && s.tickets[i].status == PendingPayment
  {
    assert Selection(s, s.updates[c].cause, s.updates[c].rows);
  }

  lemma FlushCounts(s: State, c: nat, t: State)
    requires Selections(s) && c in s.updates && t == Next(s, Flush(c))
    ensures var rows, confirmed, released := s.updates[c].rows, WithStatus(s.tickets, Confirmed),
                                             WithStatus(s.tickets, Released);
            if s.updates[c].cause == ByConfirm then
              && |WithStatus(t.tickets, Confirmed)| == |confirmed + rows|
                 && |WithStatus(t.tickets, Released)| == |released - rows|
              && t.confirmed == s.confirmed + |rows| && t.released == s.released
            else
              && |WithStatus(t.tickets, Confirmed)| == |confirmed - rows|
                 && |WithStatus(t.tickets, Released)| == |released + rows|
              && t.confirmed == s.confirmed && t.released == s.released + |rows|
  {
    FlushMoves(s, c, t);
  }

  lemma StepBalances(s: State, step: Step)
    requires Balanced(s) && Selections(s) && (step.Flush? ==> Guard(s, step))
    ensures Balanced(Next(s, step))
  {
    match step
    case Commit(c) => CommitBalances(s, c, Next(s, step));
    case Flush(c) =>
      if c in s.updates {
        assert Selection(s, s.updates[c].cause, s.updates[c].rows);
        FlushBalancesIff(s, c);
      }
    case _ => BooksFrame(s, step, Next(s, step));
  }

  lemma BooksFrame(s: State, step: Step, t: State)
    requires t == Next(s, step) && !step.Commit? && !step.Flush?
    ensures t.tickets == s.tickets && t.confirmed == s.confirmed && t.released == s.released
  {}

  lemma CommitBalances(s: State, c: nat, t: State)
    requires Balanced(s) && t == Next(s, Commit(c))
    ensures Balanced(t)
  {
    assert WithStatus(t.tickets, Confirmed) == WithStatus(s.tickets, Confirmed);
    assert WithStatus(t.tickets, Released) == WithStatus(s.tickets, Released);
    StatusesPartition(t.tickets);
  }

  /** Where flushes land in time, every row ever inserted is pending, or was counted by exactly one
      confirm or one cleanup. */
  lemma {:induction false} TicketsConserved(start: int, steps: seq<Step>)
    requires FlushesInTime(Init(start), steps)
    ensures Balanced(Run(Init(start), steps))
  {
    if steps != [] {
      TicketsConserved(start, steps[..|steps| - 1]);
      TidyRun(Init(start), steps[..|steps| - 1]);
      StepBalances(Run(Init(start), steps[..|steps| - 1]), steps[|steps| - 1]);
    }
  }

  lemma StepOutcome(s: State, step: Step, i: nat)
    requires i < |s.tickets|
    ensures var t := Next(s, step);
            && i < |t.tickets| && (t.tickets[i].status == PendingPayment ==> t.tickets[i] == s.tickets[i])
            && (s.tickets[i].status != PendingPayment && (step.Flush? ==> Guard(s, step)) ==>
                t.tickets[i] == s.tickets[i])
  {
    RowsStay(s, step);
  }

  /** Rows never disappear or change hands; and where flushes land in time a confirmed or released
      row is never touched again: a confirmation that arrives after the cleanup revives nothing. */
  lemma {:induction false} OutcomesAreFinal(s: State, steps: seq<Step>, i: nat)
    requires i < |s.tickets|
    ensures Extends(s.tickets, Run(s, steps).tickets)
    ensures FlushesInTime(s, steps) && s.tickets[i].status != PendingPayment ==>
              Run(s, steps).tickets[i] == s.tickets[i]
  {
    if steps != [] {
      var front, last := steps[..|steps| - 1], steps[|steps| - 1];
      OutcomesAreFinal(s, front, i);
      RowsStay(Run(s, front), last);
      StepOutcome(Run(s, front), last, i);
    }
  }

  // ---------------------------------------------------------------- the backlog

  ghost predicate Fresh(s: State, cutoff: int) {
    forall i :: 0 <= i < |s.tickets| && s.tickets[i].status == PendingPayment ==> cutoff <= s.tickets[i].lockedAt
  }

  /** All pending rows from before the cutoff are on a cleanup's list. */
  ghost predicate Marked(s: State, c: nat, cutoff: int) {
    && c in s.updates && s.updates[c].cause == ByCleanup
    && forall i :: 0 <= i < |s.tickets| && s.tickets[i].status == PendingPayment && s.tickets[i].lockedAt < cutoff
                   ==> i in s.updates[c].rows
  }

  lemma StaysFresh(s: State, step: Step, cutoff: int)
    requires Fresh(s, cutoff) && cutoff <= s.now
    ensures Fresh(Next(s, step), cutoff)
  {
    RowsStay(s, step);
    forall i | 0 <= i < |s.tickets|
      ensures Next(s, step).tickets[i].status == PendingPayment ==> Next(s, step).tickets[i] == s.tickets[i]
    {
      StepOutcome(s, step, i);
    }
  }

  lemma StaysMarked(s: State, step: Step, c: nat, cutoff: int)
    requires Marked(s, c, cutoff) && cutoff <= s.now && step != Flush(c)
    ensures Marked(Next(s, step), c, cutoff)
  {
    var t := Next(s, step);
    UpdateStays(s, step, t, c);
    RowsStay(s, step);
    forall i | 0 <= i < |s.tickets| ensures t.tickets[i].status == PendingPayment ==> t.tickets[i] == s.tickets[i] {
      StepOutcome(s, step, i);
    }
    NewRowsAreFresh(s, step, t, cutoff);
  }

  lemma UpdateStays(s: State, step: Step, t: State, c: nat)
    requires c in s.updates && step != Flush(c) && t == Next(s, step)
    ensures c in t.updates && t.updates[c] == s.updates[c]
  {}

  lemma NewRowsAreFresh(s: State, step: Step, t: State, cutoff: int)
    requires t == Next(s, step) && cutoff <= s.now
    ensures forall i :: |s.tickets| <= i < |t.tickets| ==> cutoff <= t.tickets[i].lockedAt
  {}

  lemma FlushFreshens(s: State, c: nat, cutoff: int)
    requires Marked(s, c, cutoff)
    ensures Fresh(Next(s, Flush(c)), cutoff)
  {}

  lemma SelectMarks(s: State, c: nat)
    requires c !in s.updates && c !in s.deletes
    ensures var t, cutoff := Next(s, CleanupSelect(c)), s.now - PENDING_EXPIRY;
            if Expiring(s.tickets, s.now) == {} then Fresh(t, cutoff) else Marked(t, c, cutoff)
  {
    assert forall i :: 0 <= i < |s.tickets| && Stale(s.tickets[i], s.now) ==> i in Expiring(s.tickets, s.now);
  }

  /** A cleanup whose SELECT is step i and whose flush, if it found anything, is step j. */
  predicate Cleanup(s: State, steps: seq<Step>, i: nat, j: nat, c: nat) {
    && i <= j < |steps| && steps[i] == CleanupSelect(c) && c !in At(s, steps, i).updates
       && c !in At(s, steps, i).deletes
    && if Expiring(At(s, steps, i).tickets, At(s, steps, i).now) == {} then i == j
       else i < j && steps[j] == Flush(c) && forall m :: i < m < j ==> steps[m] != Flush(c)
  }

  lemma {:induction false} MarkedUntilFlush(s: State, steps: seq<Step>, i: nat, c: nat, n: nat)
    requires i < n <= |steps| && steps[i] == CleanupSelect(c) && c !in At(s, steps, i).updates
    requires c !in At(s, steps, i).deletes
    requires Expiring(At(s, steps, i).tickets, At(s, steps, i).now) != {}
    requires forall m :: i < m < n ==> steps[m] != Flush(c)
    ensures Marked(At(s, steps, n), c, At(s, steps, i).now - PENDING_EXPIRY)
    ensures At(s, steps, i).now <= At(s, steps, n).now
    decreases n
  {
    AtNext(s, steps, n - 1);
    RowsStay(At(s, steps, n - 1), steps[n - 1]);
    if n == i + 1 {
      SelectMarks(At(s, steps, i), c);
    } else {
      MarkedUntilFlush(s, steps, i, c, n - 1);
      StaysMarked(At(s, steps, n - 1), steps[n - 1], c, At(s, steps, i).now - PENDING_EXPIRY);
    }
  }

  lemma {:induction false} FreshAfterwards(s: State, steps: seq<Step>, i: nat, j: nat, c: nat, n: nat)
    requires Cleanup(s, steps, i, j, c) && j < n <= |steps|
    ensures Fresh(At(s, steps, n), At(s, steps, i).now - PENDING_EXPIRY) && At(s, steps, i).now <= At(s, steps, n).now
    decreases n
  {
    AtNext(s, steps, n - 1);
    RowsStay(At(s, steps, n - 1), steps[n - 1]);
    if n - 1 > j {
      FreshAfterwards(s, steps, i, j, c, n - 1);
      StaysFresh(At(s, steps, n - 1), steps[n - 1], At(s, steps, i).now - PENDING_EXPIRY);
    } else {
      FreshAtFlush(s, steps, i, j, c);
    }
  }

  lemma FreshAtFlush(s: State, steps: seq<Step>, i: nat, j: nat, c: nat)
    requires Cleanup(s, steps, i, j, c)
    ensures Fresh(Next(At(s, steps, j), steps[j]), At(s, steps, i).now - PENDING_EXPIRY)
    ensures At(s, steps, i).now <= At(s, steps, j).now
  {
    if i == j {
      SelectMarks(At(s, steps, i), c);
    } else {
      MarkedUntilFlush(s, steps, i, c, j);
      FlushFreshens(At(s, steps, j), c, At(s, steps, i).now - PENDING_EXPIRY);
    }
  }

  /** If a cleanup that has been flushed selected its rows within the last p microseconds, no pending
      ticket is older than the expiry window plus p. */
  lemma BacklogBounded(s: State, steps: seq<Step>, i: nat, j: nat, c: nat, p: int)
    requires Cleanup(s, steps, i, j, c) && Run(s, steps).now - At(s, steps, i).now <= p
    ensures forall t :: t in Run(s, steps).tickets && t.status == PendingPayment
                        ==> Run(s, steps).now - t.lockedAt <= 900 * SECOND + p
  {
    FreshAfterwards(s, steps, i, j, c, |steps|);
    AtNext(s, steps, |steps| - 1);
  }
}
