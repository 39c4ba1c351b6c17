/** Over every run of the reservation protocol, whatever its environment does: what it takes for a
    seat to be sold twice. */
module SeatHistory {
  import opened Basics
  import opened RedisModel
  import opened SeatProtocol
  import opened SeatSafety
  import opened SeatAges
  import Text

  /** The state before step i (after the whole run for i == |steps|). */
  function At(s: State, steps: seq<Step>, i: nat): State
    requires i <= |steps|
  {
    Run(s, steps[..i])
  }

  lemma AtNext(s: State, steps: seq<Step>, i: nat)
    requires i < |steps|
    ensures At(s, steps, i + 1) == Next(At(s, steps, i), steps[i])
    ensures At(s, steps, |steps|) == Run(s, steps)
  {
    assert steps[..i + 1][..i] == steps[..i];
    assert steps[..|steps|] == steps;
  }

  // ---------------------------------------------------------------- what one step can change

  predicate Takes(step: Step, h: string, k: string) {
    step.Acquire? && step.holder == h && LockKey(step.event, step.seat) == k
  }

  lemma StepLocks(s: State, step: Step, k: string)
    ensures var t := Next(s, step);
            && (k in t.locks && !(k in s.locks && t.locks[k] == s.locks[k]) ==>
                  step.Acquire? && Takes(step, step.holder, k) && step.holder in s.acquiring && !Live(s.locks, k, s.now)
                  && t.locks[k] == Lease(step.holder, s.now + LOCK_TTL))
            && (k in s.locks && k !in t.locks ==> Cuts(s, step, k))
            && (k in s.locks && k in t.locks && t.locks[k] != s.locks[k] ==> !Live(s.locks, k, s.now))
            && s.now <= t.now
  {}

  lemma StepCalls(s: State, step: Step, c: nat, j: nat)
    requires c in Next(s, step).calls && j < |Next(s, step).calls[c].checked|
    ensures var call := Next(s, step).calls[c];
            || (c in s.calls && j < |s.calls[c].checked| && CheckKey(s.calls[c], j) == CheckKey(call, j)
                && CallHolder(s.calls[c]) == CallHolder(call))
            || (CheckKey(call, j) in s.locks && s.locks[CheckKey(call, j)].value == CallHolder(call))
  {
    match step
    case Check(b, seat) => CheckCalls(s, b, seat, c, j);
    case _ => CallsFrame(s, step, Next(s, step), c);
  }

  lemma CallsFrame(s: State, step: Step, t: State, c: nat)
    requires t == Next(s, step) && !step.Check? && c in t.calls && t.calls[c].checked != []
    ensures c in s.calls && t.calls[c] == s.calls[c]
  {}

  lemma CheckCalls(s: State, b: nat, seat: string, c: nat, j: nat)
    requires c in Next(s, Check(b, seat)).calls && j < |Next(s, Check(b, seat)).calls[c].checked|
    ensures var call := Next(s, Check(b, seat)).calls[c];
            || (c in s.calls && j < |s.calls[c].checked| && CheckKey(s.calls[c], j) == CheckKey(call, j)
                && CallHolder(s.calls[c]) == CallHolder(call))
            || (CheckKey(call, j) in s.locks && s.locks[CheckKey(call, j)].value == CallHolder(call))
  {}

  lemma StepRows(s: State, step: Step, i: nat)
    requires i < |Next(s, step).tickets|
    ensures var t := Next(s, step).tickets[i];
            if i < |s.tickets| then KeyOf(t) == KeyOf(s.tickets[i]) && HolderOf(t) == HolderOf(s.tickets[i])
            else
              step.Commit? && step.call in s.calls && i - |s.tickets| < |s.calls[step.call].checked|
              && HolderOf(t) == CallHolder(s.calls[step.call])
              && KeyOf(t) == CheckKey(s.calls[step.call], i - |s.tickets|)
  {}

  // ---------------------------------------------------------------- causes of overselling

  /** Step i is a SET NX on k that succeeds for h. */
  predicate Acquired(s: State, steps: seq<Step>, i: nat, h: string, k: string) {
    && i < |steps| && Takes(steps[i], h, k)
    && h in At(s, steps, i).acquiring && !Live(At(s, steps, i).locks, k, At(s, steps, i).now)
  }

  /** The lock h took at step i may be gone at step j: it has expired, or a confirm, cleanup or
      rollback in between has deleted it. */
  ghost predicate Lapsed(s: State, steps: seq<Step>, i: nat, j: nat, h: string, k: string)
    requires i <= j <= |steps|
  {
    var d := At(s, steps, i).now + 300 * SECOND;
    d <= At(s, steps, j).now || exists m: nat :: i < m < j && Deleted(s, steps, m, h, k, d)
  }

  /** Step m deletes the lock that h holds on k. */
  predicate Deleted(s: State, steps: seq<Step>, m: nat, h: string, k: string, d: int) {
    m < |steps| && Cuts(At(s, steps, m), steps[m], k) && HeldBy(At(s, steps, m), k, h, d)
  }

  lemma DeletedIsLapsed(s: State, steps: seq<Step>, i: nat, m: nat, n: nat, h: string, k: string)
    requires i < m < n <= |steps| && Deleted(s, steps, m, h, k, At(s, steps, i).now + LOCK_TTL)
    ensures Lapsed(s, steps, i, n, h, k)
  {}

  lemma {:induction false} LockLasts(s: State, steps: seq<Step>, i: nat, n: nat, h: string, k: string)
    requires Acquired(s, steps, i, h, k) && i < n <= |steps| && !Lapsed(s, steps, i, n, h, k)
    ensures HeldBy(At(s, steps, n), k, h, At(s, steps, i).now + LOCK_TTL)
  {
    var t, step, d := At(s, steps, n - 1), steps[n - 1], At(s, steps, i).now + LOCK_TTL;
    AtNext(s, steps, n - 1);
    StepLocks(t, step, k);
    if n - 1 > i {
      assert !Lapsed(s, steps, i, n - 1, h, k);
      LockLasts(s, steps, i, n - 1, h, k);
      if Deleted(s, steps, n - 1, h, k, d) {
        DeletedIsLapsed(s, steps, i, n - 1, n, h, k);
      }
    } else {
      assert Next(t, step).locks[k] == Lease(h, d);
    }
  }

  lemma SecondLockMeansLapse(s: State, steps: seq<Step>, i: nat, j: nat, h: string, g: string, k: string)
    requires Acquired(s, steps, i, h, k) && Acquired(s, steps, j, g, k) && i < j
    ensures Lapsed(s, steps, i, j, h, k)
  {
    if !Lapsed(s, steps, i, j, h, k) {
      LockLasts(s, steps, i, j, h, k);
    }
  }

  predicate EverAcquired(s: State, steps: seq<Step>, h: string, k: string) {
    exists i: nat | i < |steps| :: Acquired(s, steps, i, h, k)
  }

  lemma EverAcquiredGrows(s: State, steps: seq<Step>, h: string, k: string)
    requires steps != [] && EverAcquired(s, steps[..|steps| - 1], h, k)
    ensures EverAcquired(s, steps, h, k)
  {
    var i: nat :| i < |steps| - 1 && Acquired(s, steps[..|steps| - 1], i, h, k);
    assert steps[..|steps| - 1][..i] == steps[..i];
    assert Acquired(s, steps, i, h, k);
  }

  ghost predicate LocksTraced(s: State, steps: seq<Step>) {
    forall k :: k in Run(s, steps).locks ==> EverAcquired(s, steps, Run(s, steps).locks[k].value, k)
  }

  ghost predicate ChecksTraced(s: State, steps: seq<Step>) {
    var t := Run(s, steps);
    forall c, j: nat :: c in t.calls && j < |t.calls[c].checked|
      ==> EverAcquired(s, steps, CallHolder(t.calls[c]), CheckKey(t.calls[c], j))
  }

  ghost predicate RowsTraced(s: State, steps: seq<Step>) {
    var ts := Run(s, steps).tickets;
    forall i :: 0 <= i < |ts| ==> EverAcquired(s, steps, HolderOf(ts[i]), KeyOf(ts[i]))
  }

  lemma {:induction false} EverythingTraced(start: int, steps: seq<Step>)
    ensures LocksTraced(Init(start), steps) && ChecksTraced(Init(start), steps) && RowsTraced(Init(start), steps)
  {
    if steps != [] {
      var s, front, last := Init(start), steps[..|steps| - 1], steps[|steps| - 1];
      EverythingTraced(start, front);
      forall h, k | EverAcquired(s, front, h, k) ensures EverAcquired(s, steps, h, k) {
        EverAcquiredGrows(s, steps, h, k);
      }
      LocksStayTraced(s, steps);
      ChecksStayTraced(s, steps);
      RowsStayTraced(s, steps);
    }
  }

  lemma LocksStayTraced(s: State, steps: seq<Step>)
    requires steps != [] && LocksTraced(s, steps[..|steps| - 1])
    requires forall h, k :: EverAcquired(s, steps[..|steps| - 1], h, k) ==> EverAcquired(s, steps, h, k)
    ensures LocksTraced(s, steps)
  {
    var n := |steps| - 1;
    var t, u := Run(s, steps[..n]), Run(s, steps);
    forall k | k in u.locks ensures EverAcquired(s, steps, u.locks[k].value, k) {
      StepLocks(t, steps[n], k);
      if k in t.locks && u.locks[k] == t.locks[k] {
        assert EverAcquired(s, steps[..n], t.locks[k].value, k);
      } else {
        assert Acquired(s, steps, n, u.locks[k].value, k);
      }
    }
  }

  lemma ChecksStayTraced(s: State, steps: seq<Step>)
    requires steps != [] && LocksTraced(s, steps[..|steps| - 1]) && ChecksTraced(s, steps[..|steps| - 1])
    requires forall h, k :: EverAcquired(s, steps[..|steps| - 1], h, k) ==> EverAcquired(s, steps, h, k)
    ensures ChecksTraced(s, steps)
  {
    var n := |steps| - 1;
    var t, u := Run(s, steps[..n]), Run(s, steps);
    forall c, j: nat | c in u.calls && j < |u.calls[c].checked|
      ensures EverAcquired(s, steps, CallHolder(u.calls[c]), CheckKey(u.calls[c], j))
    {
      StepCalls(t, steps[n], c, j);
      assert EverAcquired(s, steps[..n], CallHolder(u.calls[c]), CheckKey(u.calls[c], j));
    }
  }

  lemma RowsStayTraced(s: State, steps: seq<Step>)
    requires steps != [] && ChecksTraced(s, steps[..|steps| - 1]) && RowsTraced(s, steps[..|steps| - 1])
    requires forall h, k :: EverAcquired(s, steps[..|steps| - 1], h, k) ==> EverAcquired(s, steps, h, k)
    ensures RowsTraced(s, steps)
  {
    var n := |steps| - 1;
    var t, u := Run(s, steps[..n]), Run(s, steps);
    forall i | 0 <= i < |u.tickets| ensures EverAcquired(s, steps, HolderOf(u.tickets[i]), KeyOf(u.tickets[i])) {
      StepRows(t, steps[n], i);
      assert EverAcquired(s, steps[..n], HolderOf(u.tickets[i]), KeyOf(u.tickets[i]));
    }
  }

  /** Some two acquisitions of k by h and g, in either order, with the earlier lock lapsed. */
  ghost predicate LapseBetween(s: State, steps: seq<Step>, h: string, g: string, k: string) {
    exists i: nat, j: nat :: i < j && Acquired(s, steps, i, h, k) && Acquired(s, steps, j, g, k)
                             && Lapsed(s, steps, i, j, h, k)
  }

  /** With no assumption on the callers: if two reservations ever get tickets for one seat, each
      took the seat's lock, and the earlier lock had been held for its whole time to live or was
      deleted by a confirm, cleanup or rollback before the later one was granted. */
  lemma OversellingNeedsALapse(start: int, steps: seq<Step>, a: nat, b: nat)
    requires a < |Run(Init(start), steps).tickets| && b < |Run(Init(start), steps).tickets|
    requires var ts := Run(Init(start), steps).tickets;
             ts[a].event == ts[b].event && ts[a].seat == ts[b].seat && ts[a].reservation != ts[b].reservation
    ensures var ts := Run(Init(start), steps).tickets;
            var h, g, k := HolderOf(ts[a]), HolderOf(ts[b]), KeyOf(ts[a]);
            LapseBetween(Init(start), steps, h, g, k) || LapseBetween(Init(start), steps, g, h, k)
  {
    var s, ts := Init(start), Run(Init(start), steps).tickets;
    var h, g, k := HolderOf(ts[a]), HolderOf(ts[b]), KeyOf(ts[a]);
    EverythingTraced(start, steps);
    var i: nat :| i < |steps| && Acquired(s, steps, i, h, k);
    var j: nat :| j < |steps| && Acquired(s, steps, j, g, k);
    if h == g {
      Text.FirstColon(ts[a].user, ts[a].reservation, ts[b].user, ts[b].reservation);
    } else if i < j {
      SecondLockMeansLapse(s, steps, i, j, h, g, k);
    } else {
      SecondLockMeansLapse(s, steps, j, i, g, h, k);
    }
  }

  // ---------------------------------------------------------------- tidier clients

  /** The rollback finds no lock but its own on the keys it deletes. */
  predicate OwnRollback(s: State, step: Step) {
    step.Rollback? && step.holder in s.acquiring ==>
      forall k :: k in s.acquiring[step.holder] && k in s.locks ==> s.locks[k].value == step.holder
  }

  /** What a client keeps to that runs its calls one at a time: rollbacks only delete own locks, and
      no checkout presents an id that lock_seats has yet to return. */
  predicate Tame(s: State, step: Step) {
    OwnRollback(s, step) && (step.Check? ==> Guard(s, step))
  }

  predicate TameRun(s: State, steps: seq<Step>) {
    steps == [] || (TameRun(s, steps[..|steps| - 1]) && Tame(Run(s, steps[..|steps| - 1]), steps[|steps| - 1]))
  }

  lemma {:induction false} TameAt(s: State, steps: seq<Step>, i: nat)
    requires TameRun(s, steps) && i < |steps|
    ensures Tame(At(s, steps, i), steps[i])
  {
    var front := steps[..|steps| - 1];
    if i < |front| {
      TameAt(s, front, i);
      assert front[..i] == steps[..i];
    }
  }

  lemma {:induction false} TameReturnsIds(s: State, steps: seq<Step>)
    requires TameRun(s, steps)
    ensures IdsReturned(s, steps)
  {
    if steps != [] {
      TameReturnsIds(s, steps[..|steps| - 1]);
    }
  }

  predicate RollsBack(s: State, steps: seq<Step>, m: nat, h: string) {
    m < |steps| && steps[m] == Rollback(h) && h in At(s, steps, m).acquiring
  }

  /** h took the lock at step i and has not rolled back since. */
  ghost predicate Firm(s: State, steps: seq<Step>, i: nat, h: string, k: string) {
    Acquired(s, steps, i, h, k) && forall m: nat :: i < m < |steps| ==> !RollsBack(s, steps, m, h)
  }

  ghost predicate Firmly(s: State, steps: seq<Step>, h: string, k: string) {
    exists i: nat :: Firm(s, steps, i, h, k)
  }

  lemma FirmGrows(s: State, steps: seq<Step>, h: string, k: string)
    requires steps != [] && Firmly(s, steps[..|steps| - 1], h, k)
    requires !(steps[|steps| - 1] == Rollback(h) && h in Run(s, steps[..|steps| - 1]).acquiring)
    ensures Firmly(s, steps, h, k)
  {
    var front := steps[..|steps| - 1];
    var i: nat :| Firm(s, front, i, h, k);
    assert front[..i] == steps[..i];
    forall m: nat | i < m < |steps| ensures !RollsBack(s, steps, m, h) {
      if m < |front| {
        assert front[..m] == steps[..m] && !RollsBack(s, front, m, h);
      }
    }
    assert Firm(s, steps, i, h, k);
  }

  ghost predicate FirmLocks(s: State, steps: seq<Step>) {
    forall k :: k in Run(s, steps).locks ==> Firmly(s, steps, Run(s, steps).locks[k].value, k)
  }

  ghost predicate FirmChecks(s: State, steps: seq<Step>) {
    var t := Run(s, steps);
    forall c, j: nat :: c in t.calls && j < |t.calls[c].checked|
      ==> Firmly(s, steps, CallHolder(t.calls[c]), CheckKey(t.calls[c], j))
  }

  ghost predicate FirmRows(s: State, steps: seq<Step>) {
    var ts := Run(s, steps).tickets;
    forall i :: 0 <= i < |ts| ==> Firmly(s, steps, HolderOf(ts[i]), KeyOf(ts[i]))
  }

  lemma {:induction false} EverythingFirm(start: int, steps: seq<Step>)
    requires TameRun(Init(start), steps)
    ensures FirmLocks(Init(start), steps) && FirmChecks(Init(start), steps) && FirmRows(Init(start), steps)
  {
    if steps != [] {
      var s, front := Init(start), steps[..|steps| - 1];
      EverythingFirm(start, front);
      TameReturnsIds(s, front);
      AgedRun(start, front);
      LocksStayFirm(s, steps);
      ChecksStayFirm(s, steps);
      RowsStayFirm(s, steps);
    }
  }

  lemma LocksStayFirm(s: State, steps: seq<Step>)
    requires steps != [] && FirmLocks(s, steps[..|steps| - 1]) && Named(Run(s, steps[..|steps| - 1]))
    ensures FirmLocks(s, steps)
  {
    var n := |steps| - 1;
    var t, u := Run(s, steps[..n]), Run(s, steps);
    forall k | k in u.locks ensures Firmly(s, steps, u.locks[k].value, k) {
      StepLocks(t, steps[n], k);
      if k in t.locks && u.locks[k] == t.locks[k] {
        NotRolledBack(t, steps[n], u, k);
        FirmGrows(s, steps, t.locks[k].value, k);
      } else {
        assert Firm(s, steps, n, u.locks[k].value, k);
      }
    }
  }

  lemma NotRolledBack(t: State, step: Step, u: State, k: string)
    requires Named(t) && u == Next(t, step) && k in t.locks && k in u.locks
    ensures !(step == Rollback(t.locks[k].value) && t.locks[k].value in t.acquiring)
  {}

  lemma ChecksStayFirm(s: State, steps: seq<Step>)
    requires steps != [] && FirmLocks(s, steps[..|steps| - 1]) && FirmChecks(s, steps[..|steps| - 1])
    requires Aged(Run(s, steps[..|steps| - 1]))
    requires (steps[|steps| - 1].Check? ==> Guard(Run(s, steps[..|steps| - 1]), steps[|steps| - 1]))
    ensures FirmChecks(s, steps)
  {
    var n := |steps| - 1;
    var t, u := Run(s, steps[..n]), Run(s, steps);
    AgedKept(t, steps[n]);
    forall c, j: nat | c in u.calls && j < |u.calls[c].checked|
      ensures Firmly(s, steps, CallHolder(u.calls[c]), CheckKey(u.calls[c], j))
    {
      StepCalls(t, steps[n], c, j);
      assert Firmly(s, steps[..n], CallHolder(u.calls[c]), CheckKey(u.calls[c], j));
      IssuedDoesNotRollBack(t, steps[n], u, CallHolder(u.calls[c]));
      FirmGrows(s, steps, CallHolder(u.calls[c]), CheckKey(u.calls[c], j));
    }
  }

  lemma IssuedDoesNotRollBack(t: State, step: Step, u: State, h: string)
    requires Named(t) && u == Next(t, step) && h in u.issued
    ensures !(step == Rollback(h) && h in t.acquiring)
  {}

  lemma RowsStayFirm(s: State, steps: seq<Step>)
    requires steps != [] && FirmChecks(s, steps[..|steps| - 1]) && FirmRows(s, steps[..|steps| - 1])
    requires Aged(Run(s, steps[..|steps| - 1]))
    ensures FirmRows(s, steps)
  {
    var n := |steps| - 1;
    var t, u := Run(s, steps[..n]), Run(s, steps);
    forall i | 0 <= i < |u.tickets| ensures Firmly(s, steps, HolderOf(u.tickets[i]), KeyOf(u.tickets[i])) {
      StepRows(t, steps[n], i);
      assert Firmly(s, steps[..n], HolderOf(u.tickets[i]), KeyOf(u.tickets[i]));
      assert HolderOf(u.tickets[i]) in t.issued;
      FirmGrows(s, steps, HolderOf(u.tickets[i]), KeyOf(u.tickets[i]));
    }
  }

  /** Acquisitions by h and then g of a lock that had been held for its whole 300 seconds, or was
      deleted by a confirm or a cleanup in between. */
  ghost predicate DroppedBetween(s: State, steps: seq<Step>, h: string, g: string, k: string) {
    exists i: nat, j: nat ::
      i < j && Acquired(s, steps, i, h, k) && Acquired(s, steps, j, g, k) && DropLapsed(s, steps, i, j, h, k)
  }

  ghost predicate DropLapsed(s: State, steps: seq<Step>, i: nat, j: nat, h: string, k: string)
    requires i <= j <= |steps|
  {
    var d := At(s, steps, i).now + 300 * SECOND;
    d <= At(s, steps, j).now || exists m: nat :: i < m < j && steps[m].Drop? && Deleted(s, steps, m, h, k, d)
  }

  lemma FirmLapseIsADrop(s: State, steps: seq<Step>, i: nat, j: nat, h: string, g: string, k: string)
    requires TameRun(s, steps) && i < j && Firm(s, steps, i, h, k) && Acquired(s, steps, j, g, k)
    ensures DropLapsed(s, steps, i, j, h, k)
  {
    SecondLockMeansLapse(s, steps, i, j, h, g, k);
    var d := At(s, steps, i).now + LOCK_TTL;
    if d > At(s, steps, j).now {
      var m: nat :| i < m < j && Deleted(s, steps, m, h, k, d);
      TameAt(s, steps, m);
      if steps[m].Rollback? {
        assert RollsBack(s, steps, m, h);
      }
      assert steps[m].Drop?;
    }
  }

  /** Where clients are tidy, two reservations can only get tickets for one seat when the earlier lock
      had run its 300 seconds, or was deleted by a confirm or a cleanup: never by a rollback. */
  lemma TameOversellingNeedsADrop(start: int, steps: seq<Step>, a: nat, b: nat)
    requires TameRun(Init(start), steps)
    requires a < |Run(Init(start), steps).tickets| && b < |Run(Init(start), steps).tickets|
    requires var ts := Run(Init(start), steps).tickets;
             ts[a].event == ts[b].event && ts[a].seat == ts[b].seat && ts[a].reservation != ts[b].reservation
    ensures var ts := Run(Init(start), steps).tickets;
            var h, g, k := HolderOf(ts[a]), HolderOf(ts[b]), KeyOf(ts[a]);
            DroppedBetween(Init(start), steps, h, g, k) || DroppedBetween(Init(start), steps, g, h, k)
  {
    var s, ts := Init(start), Run(Init(start), steps).tickets;
    var h, g, k := HolderOf(ts[a]), HolderOf(ts[b]), KeyOf(ts[a]);
    EverythingFirm(start, steps);
    var i: nat :| Firm(s, steps, i, h, k);
    var j: nat :| Firm(s, steps, j, g, k);
    if h == g {
      Text.FirstColon(ts[a].user, ts[a].reservation, ts[b].user, ts[b].reservation);
    } else if i < j {
      FirmLapseIsADrop(s, steps, i, j, h, g, k);
    } else {
      FirmLapseIsADrop(s, steps, j, i, g, h, k);
    }
  }
}
