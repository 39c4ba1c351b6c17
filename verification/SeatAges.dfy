/** Deadlines and dates along a run in which no checkout presents an id that lock_seats has yet to
    return, whatever else its environment does. */
module SeatAges {
  import opened Basics
  import opened RedisModel
  import opened SeatProtocol
  import opened SeatSafety

  /** Assumption (e) alone. */
  predicate IdsReturned(s: State, steps: seq<Step>) {
    steps == [] ||
    (var t := Run(s, steps[..|steps| - 1]);
     IdsReturned(s, steps[..|steps| - 1]) && (steps[|steps| - 1].Check? ==> Guard(t, steps[|steps| - 1])))
  }

  /** Tickets and checkouts belong to reservations that lock_seats has returned. */
  ghost predicate OnlyIssued(s: State) {
    && (forall i :: 0 <= i < |s.tickets| ==> HolderOf(s.tickets[i]) in s.issued)
    && (forall c :: c in s.calls && s.calls[c].checked != [] ==> CallHolder(s.calls[c]) in s.issued)
  }

  /** No deadline lies further ahead than a lock's time to live. */
  ghost predicate Bounded(s: State) {
    && (forall k :: k in s.locks ==> s.locks[k].deadline <= s.now + LOCK_TTL)
    && (forall c, j: nat :: c in s.calls && j < |s.calls[c].checked| ==>
        s.calls[c].checked[j].deadline <= s.now + LOCK_TTL)
  }

  predicate SameClaim(t: Ticket, k: string, h: string) { KeyOf(t) == k && HolderOf(t) == h }

  /** A holder's lock was there before its row. */
  ghost predicate LocksBeforeRows(s: State) {
    forall i, k :: 0 <= i < |s.tickets| && k in s.locks && SameClaim(s.tickets[i], k, s.locks[k].value)
      ==> s.locks[k].deadline <= s.tickets[i].lockedAt + LOCK_TTL
  }

  ghost predicate ChecksBeforeRows(s: State) {
    forall i, c, j: nat :: 0 <= i < |s.tickets| && c in s.calls && j < |s.calls[c].checked|
      && SameClaim(s.tickets[i], CheckKey(s.calls[c], j), CallHolder(s.calls[c]))
      ==> s.calls[c].checked[j].deadline <= s.tickets[i].lockedAt + LOCK_TTL
  }

  /** Rows are not dated ahead, and a released one was past the expiry. */
  ghost predicate RowsDated(s: State) {
    forall i :: 0 <= i < |s.tickets| ==>
      && s.tickets[i].lockedAt <= s.now
      && (s.tickets[i].status == Released ==> s.tickets[i].lockedAt < s.now - PENDING_EXPIRY)
  }

  ghost predicate Aged(s: State) {
    Tidy(s) && OnlyIssued(s) && Bounded(s) && LocksBeforeRows(s) && ChecksBeforeRows(s) && RowsDated(s)
  }

  lemma AgedKept(s: State, step: Step)
    requires Aged(s) && (step.Check? ==> Guard(s, step))
    ensures Aged(Next(s, step))
  {
    var t := Next(s, step);
    TidyKept(s, step);
    match step
    case Acquire(h, e, seat) => AcquireAges(s, h, e, seat, t);
    case Check(c, seat) => CheckAges(s, c, seat, t);
    case Commit(c) => CommitAges(s, c, t);
    case Flush(c) => FlushAges(s, c, t);
    case _ => OthersAge(s, step, t);
  }

  lemma OthersAge(s: State, step: Step, t: State)
    requires Aged(s) && t == Next(s, step) && !step.Acquire? && !step.Check? && !step.Commit? && !step.Flush?
    ensures OnlyIssued(t) && Bounded(t) && LocksBeforeRows(t) && ChecksBeforeRows(t) && RowsDated(t)
  {
    OthersFrame(s, step, t);
    FewerAge(s, t);
  }

  /** Nothing new but time and issued ids. */
  ghost predicate Fewer(s: State, t: State) {
    && t.tickets == s.tickets && s.now <= t.now && s.issued <= t.issued
    && (forall k :: k in t.locks ==> k in s.locks && t.locks[k] == s.locks[k])
    && (forall c :: c in t.calls && t.calls[c].checked != [] ==> c in s.calls && t.calls[c] == s.calls[c])
  }

  lemma OthersFrame(s: State, step: Step, t: State)
    requires t == Next(s, step) && !step.Acquire? && !step.Check? && !step.Commit? && !step.Flush?
    ensures Fewer(s, t)
  {
    if step.Rollback? || step.Drop? {
      CutFrame(s, step, t);
    } else if step.Open? {
      OpenFrame(s, step.call, step.event, step.user, step.reservation, t);
    } else {
      QuietFrame(s, step, t);
    }
  }

  lemma CutFrame(s: State, step: Step, t: State)
    requires t == Next(s, step) && (step.Rollback? || step.Drop?)
    ensures t == s.(locks := t.locks, acquiring := t.acquiring, deletes := t.deletes)
    ensures forall k :: k in t.locks ==> k in s.locks && t.locks[k] == s.locks[k]
  {}

  lemma QuietFrame(s: State, step: Step, t: State)
    requires t == Next(s, step)
    requires step.Advance? || step.Begin? || step.Issue? || step.ConfirmSelect? || step.CleanupSelect?
    ensures t == s.(now := t.now, acquiring := t.acquiring, issued := t.issued, updates := t.updates)
    ensures s.now <= t.now && s.issued <= t.issued
  {}

  lemma FewerAge(s: State, t: State)
    requires Aged(s) && Fewer(s, t)
    ensures OnlyIssued(t) && Bounded(t) && LocksBeforeRows(t) && ChecksBeforeRows(t) && RowsDated(t)
  {}

  lemma AcquireAges(s: State, h: string, e: Uuid, seat: string, t: State)
    requires Aged(s) && t == Next(s, Acquire(h, e, seat))
    ensures OnlyIssued(t) && Bounded(t) && LocksBeforeRows(t) && ChecksBeforeRows(t) && RowsDated(t)
  {
    assert t.tickets == s.tickets && t.now == s.now && t.issued == s.issued && t.calls == s.calls;
    forall i, k | 0 <= i < |t.tickets| && k in t.locks && SameClaim(t.tickets[i], k, t.locks[k].value)
      ensures t.locks[k].deadline <= t.tickets[i].lockedAt + LOCK_TTL
    {
      assert HolderOf(t.tickets[i]) in s.issued;
      assert k in s.locks && t.locks[k] == s.locks[k];
    }
  }

  lemma CheckAges(s: State, c: nat, seat: string, t: State)
    requires Aged(s) && Guard(s, Check(c, seat)) && t == Next(s, Check(c, seat))
    ensures OnlyIssued(t) && Bounded(t) && LocksBeforeRows(t) && ChecksBeforeRows(t) && RowsDated(t)
  {
    CheckExtends(s, c, seat, t);
    forall b, j: nat | b in t.calls && j < |t.calls[b].checked| ensures CheckAged(t, b, j) {
      CheckStaysAged(s, c, seat, t, b, j);
    }
    AllChecksAged(s, t);
  }

  ghost predicate CheckAged(s: State, c: nat, j: nat)
    requires c in s.calls && j < |s.calls[c].checked|
  {
    var k, h, d := CheckKey(s.calls[c], j), CallHolder(s.calls[c]), s.calls[c].checked[j].deadline;
    && d <= s.now + LOCK_TTL && h in s.issued
    && forall i :: 0 <= i < |s.tickets| && SameClaim(s.tickets[i], k, h) ==> d <= s.tickets[i].lockedAt + LOCK_TTL
  }

  lemma AllChecksAged(s: State, t: State)
    requires Aged(s) && t == s.(calls := t.calls)
    requires forall b, j: nat :: b in t.calls && j < |t.calls[b].checked| ==> CheckAged(t, b, j)
    ensures OnlyIssued(t) && Bounded(t) && LocksBeforeRows(t) && ChecksBeforeRows(t) && RowsDated(t)
  {
    forall c | c in t.calls && t.calls[c].checked != [] ensures CallHolder(t.calls[c]) in t.issued {
      assert CheckAged(t, c, 0);
    }
    forall c, j: nat | c in t.calls && j < |t.calls[c].checked|
      ensures t.calls[c].checked[j].deadline <= t.now + LOCK_TTL
    {
      assert CheckAged(t, c, j);
    }
    forall i, c, j: nat | 0 <= i < |t.tickets| && c in t.calls && j < |t.calls[c].checked|
      && SameClaim(t.tickets[i], CheckKey(t.calls[c], j), CallHolder(t.calls[c]))
      ensures t.calls[c].checked[j].deadline <= t.tickets[i].lockedAt + LOCK_TTL
    {
      assert CheckAged(t, c, j);
    }
  }

  lemma CheckStaysAged(s: State, c: nat, seat: string, t: State, b: nat, j: nat)
    requires Aged(s) && Guard(s, Check(c, seat)) && t == Next(s, Check(c, seat)) && b in t.calls
    requires j < |t.calls[b].checked|
    ensures CheckAged(t, b, j)
  {
    CheckExtends(s, c, seat, t);
    if j < |s.calls[b].checked| {
      assert t.calls[b].checked[j] == s.calls[b].checked[j] && CheckKey(t.calls[b], j) == CheckKey(s.calls[b], j);
    } else {
      NewCheckHeld(s, c, seat, t, b, j);
      NewCheckIssued(s, c, seat, t, b);
    }
  }

  lemma NewCheckIssued(s: State, c: nat, seat: string, t: State, b: nat)
    requires Guard(s, Check(c, seat)) && t == Next(s, Check(c, seat)) && b in t.calls && b in s.calls
    requires |s.calls[b].checked| < |t.calls[b].checked|
    ensures CallHolder(t.calls[b]) in t.issued
  {}

  lemma CommitAges(s: State, c: nat, t: State)
    requires Aged(s) && t == Next(s, Commit(c))
    ensures OnlyIssued(t) && Bounded(t) && LocksBeforeRows(t) && ChecksBeforeRows(t) && RowsDated(t)
  {
    CommitFrame(s, c, t);
    forall i | 0 <= i < |t.tickets| ensures OldOrNew(s, t, i) {
      RowComesFrom(s, c, t, i);
    }
    InsertedAges(s, t);
  }

  lemma CommitFrame(s: State, c: nat, t: State)
    requires t == Next(s, Commit(c))
    ensures t.now == s.now && t.locks == s.locks && t.issued == s.issued
    ensures forall b :: b in t.calls ==> b in s.calls && t.calls[b] == s.calls[b]
  {}

  lemma InsertedAges(s: State, t: State)
    requires Aged(s) && t.now == s.now && t.locks == s.locks && t.issued == s.issued
    requires forall b :: b in t.calls ==> b in s.calls && t.calls[b] == s.calls[b]
    requires forall i {:trigger t.tickets[i]} :: 0 <= i < |t.tickets| ==> OldOrNew(s, t, i)
    ensures OnlyIssued(t) && Bounded(t) && LocksBeforeRows(t) && ChecksBeforeRows(t) && RowsDated(t)
  {}

  predicate OldOrNew(s: State, t: State, i: nat)
    requires i < |t.tickets|
  {
    (i < |s.tickets| && t.tickets[i] == s.tickets[i]) ||
    (t.tickets[i].lockedAt == s.now && t.tickets[i].status == PendingPayment && HolderOf(t.tickets[i]) in s.issued)
  }

  lemma RowComesFrom(s: State, c: nat, t: State, i: nat)
    requires OnlyIssued(s) && t == Next(s, Commit(c)) && i < |t.tickets|
    ensures OldOrNew(s, t, i)
  {}

  lemma FlushAges(s: State, c: nat, t: State)
    requires Aged(s) && t == Next(s, Flush(c))
    ensures OnlyIssued(t) && Bounded(t) && LocksBeforeRows(t) && ChecksBeforeRows(t) && RowsDated(t)
  {
    if c in s.updates {
      FlushWrites(s, c, t);
      assert Selection(s, s.updates[c].cause, s.updates[c].rows);
      forall i | 0 <= i < |t.tickets|
        ensures t.tickets[i].lockedAt == s.tickets[i].lockedAt && HolderOf(t.tickets[i]) == HolderOf(s.tickets[i])
                && KeyOf(t.tickets[i]) == KeyOf(s.tickets[i])
        ensures t.tickets[i].status == Released ==> t.tickets[i].lockedAt < s.now - PENDING_EXPIRY
      {}
    }
  }

  lemma {:induction false} AgedRun(start: int, steps: seq<Step>)
    requires IdsReturned(Init(start), steps)
    ensures Aged(Run(Init(start), steps))
  {
    if steps != [] {
      AgedRun(start, steps[..|steps| - 1]);
      AgedKept(Run(Init(start), steps[..|steps| - 1]), steps[|steps| - 1]);
    }
  }

  lemma {:induction false} GuardedReturnsIds(s: State, steps: seq<Step>)
    requires Guarded(s, steps)
    ensures IdsReturned(s, steps)
  {
    if steps != [] {
      GuardedReturnsIds(s, steps[..|steps| - 1]);
    }
  }

  // ---------------------------------------------------------------- the cleanup job

  /** A reservation never holds the lock of a seat on which it has a ticket past the expiry. */
  lemma OldRowsHoldNoLock(s: State, i: nat)
    requires Aged(s) && i < |s.tickets| && s.tickets[i].lockedAt < s.now - PENDING_EXPIRY
    ensures Get(s.locks, KeyOf(s.tickets[i]), s.now) != Some(HolderOf(s.tickets[i]))
  {
    var k := KeyOf(s.tickets[i]);
    if k in s.locks && s.locks[k].value == HolderOf(s.tickets[i]) {
      assert SameClaim(s.tickets[i], k, s.locks[k].value);
    }
  }

  /** A cleanup never deletes a lock still held by a reservation it releases: not when its flush
      marks the rows, nor when its DELETE lands, however late. */
  lemma CleanupSparesTheReleased(start: int, steps: seq<Step>)
    requires IdsReturned(Init(start), steps)
    ensures var s := Run(Init(start), steps);
            && (forall i :: 0 <= i < |s.tickets| && s.tickets[i].status == Released
                            ==> Get(s.locks, KeyOf(s.tickets[i]), s.now) != Some(HolderOf(s.tickets[i])))
            && (forall c, i :: c in s.deletes && s.deletes[c].cause == ByCleanup && i in s.deletes[c].rows
                            ==> i < |s.tickets| && KeyOf(s.tickets[i]) in s.deletes[c].keys
                                && Get(s.locks, KeyOf(s.tickets[i]), s.now) != Some(HolderOf(s.tickets[i])))
  {
    AgedRun(start, steps);
    SparesTheReleased(Run(Init(start), steps));
  }

  lemma SparesTheReleased(s: State)
    requires Aged(s)
    ensures forall i :: 0 <= i < |s.tickets| && s.tickets[i].status == Released
                        ==> Get(s.locks, KeyOf(s.tickets[i]), s.now) != Some(HolderOf(s.tickets[i]))
    ensures forall c, i :: c in s.deletes && s.deletes[c].cause == ByCleanup && i in s.deletes[c].rows
                           ==> i < |s.tickets| && KeyOf(s.tickets[i]) in s.deletes[c].keys
                               && Get(s.locks, KeyOf(s.tickets[i]), s.now) != Some(HolderOf(s.tickets[i]))
  {
    forall i | 0 <= i < |s.tickets| && s.tickets[i].lockedAt < s.now - PENDING_EXPIRY
      ensures Get(s.locks, KeyOf(s.tickets[i]), s.now) != Some(HolderOf(s.tickets[i]))
    {
      OldRowsHoldNoLock(s, i);
    }
    forall c, i | c in s.deletes && s.deletes[c].cause == ByCleanup && i in s.deletes[c].rows
      ensures i < |s.tickets| && KeyOf(s.tickets[i]) in s.deletes[c].keys
      ensures s.tickets[i].lockedAt < s.now - PENDING_EXPIRY
    {
      assert Selection(s, s.deletes[c].cause, s.deletes[c].rows);
    }
  }

  /** Where the assumptions are respected a cleanup frees no seat that is locked, so its DELETE is
      harmless when sent at once. */
  lemma CleanupMeetsNoLiveLock(s: State, c: nat)
    requires Sound(s) && Aged(s) && c in s.updates && s.updates[c].cause == ByCleanup && Guard(s, Flush(c))
    ensures forall i :: i in s.updates[c].rows ==> i < |s.tickets| && !Live(s.locks, KeyOf(s.tickets[i]), s.now)
    ensures Guard(Next(s, Flush(c)), Drop(c))
  {
    assert Selection(s, s.updates[c].cause, s.updates[c].rows);
    forall i | i in s.updates[c].rows ensures !Live(s.locks, KeyOf(s.tickets[i]), s.now) {
      OldRowsHoldNoLock(s, i);
    }
    FlushWrites(s, c, Next(s, Flush(c)));
  }
}
