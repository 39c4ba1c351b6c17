/** Exclusivity of seats over every interleaved run of the reservation protocol whose environment
    respects the assumptions. */
module SeatSafety {
  import opened Basics
  import opened RedisModel
  import opened SeatProtocol
  import Text

  predicate HeldBy(s: State, k: string, h: string, d: int) {
    k in s.locks && s.locks[k] == Lease(h, d)
  }

  function CallHolder(call: Call): string { Holder(call.user, call.reservation) }

  function CheckKey(call: Call, j: nat): string
    requires j < |call.checked|
  {
    LockKey(call.event, call.checked[j].seat)
  }

  // ---------------------------------------------------------------- what every step keeps

  ghost predicate IsLockKey(k: string) {
    exists e: Uuid, seat: string :: k == LockKey(e, seat)
  }

  /** A lock names a reservation that has been handed out, or the lock_seats that is taking it. */
  ghost predicate Named(s: State) {
    && (forall h :: h in s.acquiring ==> h !in s.issued && ':' in h)
    && (forall h :: h in s.issued ==> ':' in h)
    && (forall k :: k in s.locks ==>
          s.locks[k].value in s.issued ||
          (s.locks[k].value in s.acquiring && k in s.acquiring[s.locks[k].value]))
    && (forall h, k :: h in s.acquiring && k in s.acquiring[h] ==> IsLockKey(k))
  }

  /** Selected rows exist, and those of a cleanup are past the expiry. */
  ghost predicate Selection(s: State, cause: Cause, rows: set<nat>) {
    forall i :: i in rows ==> i < |s.tickets| && (cause == ByCleanup ==> s.tickets[i].lockedAt < s.now - PENDING_EXPIRY)
  }

  ghost predicate Selections(s: State) {
    && (forall c :: c in s.updates ==> Selection(s, s.updates[c].cause, s.updates[c].rows))
    && (forall c :: c in s.deletes ==> Selection(s, s.deletes[c].cause, s.deletes[c].rows)
                                       && s.deletes[c].keys == KeysAt(s.tickets, s.deletes[c].rows))
  }

  /** Rows stay, in order, with their key, holder and time of locking. */
  ghost predicate Extends(ts: seq<Ticket>, us: seq<Ticket>) {
    |ts| <= |us| && forall i :: 0 <= i < |ts| ==>
      us[i].(status := ts[i].status, confirmedAt := ts[i].confirmedAt, releasedAt := ts[i].releasedAt) == ts[i]
  }

  lemma RowsStay(s: State, step: Step)
    ensures Extends(s.tickets, Next(s, step).tickets) && s.now <= Next(s, step).now
  {
    var t := Next(s, step);
    match step
    case Commit(c) => assert s.tickets <= t.tickets;
    case Flush(c) => WrittenExtends(s, c, t);
    case _ => assert t.tickets == s.tickets;
  }

  lemma WrittenExtends(s: State, c: nat, t: State)
    requires t == Next(s, Flush(c))
    ensures Extends(s.tickets, t.tickets)
  {
    assert c in s.updates ==> t.tickets == Written(s.tickets, s.updates[c].rows, s.updates[c].cause, s.now);
  }

  lemma KeysStay(ts: seq<Ticket>, us: seq<Ticket>, rows: set<nat>)
    requires Extends(ts, us) && forall i :: i in rows ==> i < |ts|
    ensures KeysAt(us, rows) == KeysAt(ts, rows)
  {
    assert forall i :: i in rows ==> KeyOf(us[i]) == KeyOf(ts[i]);
  }

  lemma NamedKept(s: State, step: Step)
    requires Named(s)
    ensures Named(Next(s, step))
  {
    var t := Next(s, step);
    match step
    case Begin(u, r) => HandlingNames(s, step, t);
    case Acquire(h, e, seat) => AcquireNames(s, h, e, seat, t);
    case Rollback(h) => HandlingNames(s, step, t);
    case Issue(h) => HandlingNames(s, step, t);
    case _ => OthersName(s, step, t);
  }

  lemma OthersName(s: State, step: Step, t: State)
    requires Named(s) && t == Next(s, step) && !step.Begin? && !step.Acquire? && !step.Rollback? && !step.Issue?
    ensures Named(t)
  {
    OthersFrame(s, step, t);
  }

  lemma OthersFrame(s: State, step: Step, t: State)
    requires t == Next(s, step) && !step.Begin? && !step.Acquire? && !step.Rollback? && !step.Issue?
    ensures t.acquiring == s.acquiring && t.issued == s.issued
    ensures forall k :: k in t.locks ==> k in s.locks && t.locks[k] == s.locks[k]
  {
    assert !step.Drop? ==> t.locks == s.locks;
  }

  lemma HandlingNames(s: State, step: Step, t: State)
    requires Named(s) && t == Next(s, step) && (step.Begin? || step.Rollback? || step.Issue?)
    ensures Named(t)
  {}

  lemma AcquireNames(s: State, h: string, e: Uuid, seat: string, t: State)
    requires Named(s) && t == Next(s, Acquire(h, e, seat))
    ensures Named(t)
  {
    assert IsLockKey(LockKey(e, seat));
  }

  lemma SelectionStays(s: State, t: State, cause: Cause, rows: set<nat>)
    requires Extends(s.tickets, t.tickets) && s.now <= t.now && Selection(s, cause, rows)
    ensures Selection(t, cause, rows)
  {}

  lemma SelectionsKept(s: State, step: Step)
    requires Selections(s)
    ensures Selections(Next(s, step))
  {
    var t := Next(s, step);
    RowsStay(s, step);
    forall c | c in t.updates ensures Selection(t, t.updates[c].cause, t.updates[c].rows) {
      UpdateKept(s, step, t, c);
    }
    forall c | c in t.deletes ensures Selection(t, t.deletes[c].cause, t.deletes[c].rows)
                                      && t.deletes[c].keys == KeysAt(t.tickets, t.deletes[c].rows)
    {
      DeleteKept(s, step, t, c);
    }
  }

  lemma UpdateKept(s: State, step: Step, t: State, c: nat)
    requires Selections(s) && t == Next(s, step) && Extends(s.tickets, t.tickets) && s.now <= t.now && c in t.updates
    ensures Selection(t, t.updates[c].cause, t.updates[c].rows)
  {
    UpdateComesFrom(s, step, t, c);
    SelectionStays(s, t, t.updates[c].cause, t.updates[c].rows);
  }

  lemma UpdateComesFrom(s: State, step: Step, t: State, c: nat)
    requires Selections(s) && t == Next(s, step) && c in t.updates
    ensures Selection(s, t.updates[c].cause, t.updates[c].rows)
  {
    match step
    case ConfirmSelect(b, r) => SelectionMade(s, b, ByConfirm, Confirming(s.tickets, r), t);
    case CleanupSelect(b) => SelectionMade(s, b, ByCleanup, Expiring(s.tickets, s.now), t);
    case _ => UpdatesFrame(s, step, t);
  }

  lemma UpdatesFrame(s: State, step: Step, t: State)
    requires t == Next(s, step) && !step.ConfirmSelect? && !step.CleanupSelect?
    ensures forall c :: c in t.updates ==> c in s.updates && t.updates[c] == s.updates[c]
  {
    assert !step.Flush? ==> t.updates == s.updates;
  }

  lemma SelectionMade(s: State, b: nat, cause: Cause, rows: set<nat>, t: State)
    requires Selections(s) && Selection(s, cause, rows) && t == Selected(s, b, cause, rows)
    ensures forall c :: c in t.updates ==> Selection(s, t.updates[c].cause, t.updates[c].rows)
  {}

  lemma DeleteKept(s: State, step: Step, t: State, c: nat)
    requires Selections(s) && t == Next(s, step) && Extends(s.tickets, t.tickets) && s.now <= t.now && c in t.deletes
    ensures Selection(t, t.deletes[c].cause, t.deletes[c].rows)
    ensures t.deletes[c].keys == KeysAt(t.tickets, t.deletes[c].rows)
  {
    DeleteComesFrom(s, step, t, c);
    SelectionStays(s, t, t.deletes[c].cause, t.deletes[c].rows);
    KeysStay(s.tickets, t.tickets, t.deletes[c].rows);
  }

  lemma DeleteComesFrom(s: State, step: Step, t: State, c: nat)
    requires Selections(s) && t == Next(s, step) && c in t.deletes
    ensures Selection(s, t.deletes[c].cause, t.deletes[c].rows)
    ensures t.deletes[c].keys == KeysAt(s.tickets, t.deletes[c].rows)
  {
    match step
    case Flush(b) => FlushDeletes(s, b, t);
    case _ => DeletesFrame(s, step, t);
  }

  lemma FlushDeletes(s: State, b: nat, t: State)
    requires t == Next(s, Flush(b))
    ensures t.deletes == if b !in s.updates then s.deletes else
              s.deletes[b := Delete(s.updates[b].cause, s.updates[b].rows, KeysAt(s.tickets, s.updates[b].rows))]
  {}

  lemma DeletesFrame(s: State, step: Step, t: State)
    requires t == Next(s, step) && !step.Flush?
    ensures forall c :: c in t.deletes ==> c in s.deletes && t.deletes[c] == s.deletes[c]
  {
    assert !step.Drop? ==> t.deletes == s.deletes;
  }

  /** What holds of every run, whatever its environment does. */
  ghost predicate Tidy(s: State) { Named(s) && Selections(s) }

  lemma TidyKept(s: State, step: Step)
    requires Tidy(s)
    ensures Tidy(Next(s, step))
  {
    NamedKept(s, step);
    SelectionsKept(s, step);
  }

  lemma {:induction false} TidyRun(s: State, steps: seq<Step>)
    requires Tidy(s)
    ensures Tidy(Run(s, steps))
  {
    if steps != [] {
      TidyRun(s, steps[..|steps| - 1]);
      TidyKept(Run(s, steps[..|steps| - 1]), steps[|steps| - 1]);
    }
  }

  // ---------------------------------------------------------------- the invariant

  /** The holder can no longer lose its locks to a rollback of its own that lands in time. */
  predicate Settled(s: State, h: string) {
    h in s.issued || (h in s.acquiring && !Punctual(s.acquiring[h], s.now))
  }

  ghost predicate HoldersSettled(s: State) {
    && (forall i :: 0 <= i < |s.tickets| ==> Settled(s, HolderOf(s.tickets[i])))
    && (forall c :: c in s.calls && s.calls[c].checked != [] && Ready(s.calls[c], s.now) ==>
        Settled(s, CallHolder(s.calls[c])))
  }

  /** Active rows for one key agree on the holder. */
  ghost predicate RowsAgree(ts: seq<Ticket>) {
    forall i, j :: 0 <= i < |ts| && 0 <= j < |ts| && Active(ts[i]) && Active(ts[j])
                   && KeyOf(ts[i]) == KeyOf(ts[j])
                   ==> HolderOf(ts[i]) == HolderOf(ts[j])
  }

  /** A live lock on a key with an active row belongs to the row's holder. */
  ghost predicate RowsOwnLocks(s: State) {
    forall i :: 0 <= i < |s.tickets| && Active(s.tickets[i]) && Live(s.locks, KeyOf(s.tickets[i]), s.now)
      ==> s.locks[KeyOf(s.tickets[i])].value == HolderOf(s.tickets[i])
  }

  /** The row keeps the key for its holder until the deadline at least. */
  predicate Covers(t: Ticket, k: string, h: string, d: int) {
    KeyOf(t) == k && HolderOf(t) == h && (t.status == Confirmed
                                          || (t.status == PendingPayment && d <= t.lockedAt + PENDING_EXPIRY))
  }

  predicate Covered(ts: seq<Ticket>, k: string, h: string, d: int) {
    exists i :: 0 <= i < |ts| && Covers(ts[i], k, h, d)
  }

  predicate Backed(s: State, k: string, h: string, d: int) {
    HeldBy(s, k, h, d) || Covered(s.tickets, k, h, d)
  }

  /** Each seat of a checkout that can still commit in time is backed by the very lock it saw, or by
      a ticket of its own. */
  ghost predicate ChecksBacked(s: State) {
    forall c, j: nat :: c in s.calls && j < |s.calls[c].checked| && Ready(s.calls[c], s.now)
      ==> Backed(s, CheckKey(s.calls[c], j), CallHolder(s.calls[c]), s.calls[c].checked[j].deadline)
  }

  /** A lock_seats that can still roll back in time holds the locks it took. */
  ghost predicate AcquiredHeld(s: State) {
    forall h, k :: h in s.acquiring && Punctual(s.acquiring[h], s.now) && k in s.acquiring[h]
      ==> HeldBy(s, k, h, s.acquiring[h][k])
  }

  predicate Sold(ts: seq<Ticket>, k: string) {
    exists i :: 0 <= i < |ts| && ts[i].status == Confirmed && KeyOf(ts[i]) == k
  }

  /** A confirm only ever deletes the locks of sold seats. */
  ghost predicate ConfirmDeletesSold(s: State) {
    forall c, k :: c in s.deletes && s.deletes[c].cause == ByConfirm && k in s.deletes[c].keys ==> Sold(s.tickets, k)
  }

  ghost predicate Sound(s: State) {
    && Tidy(s) && HoldersSettled(s) && RowsAgree(s.tickets) && RowsOwnLocks(s) && ChecksBacked(s)
    && AcquiredHeld(s) && ConfirmDeletesSold(s)
  }

  lemma SoundIsExclusive(s: State)
    requires RowsAgree(s.tickets)
    ensures Exclusive(s.tickets)
  {
    var ts := s.tickets;
    forall i, j | 0 <= i < |ts| && 0 <= j < |ts| && Active(ts[i]) && Active(ts[j])
      && ts[i].event == ts[j].event && ts[i].seat == ts[j].seat
      ensures ts[i].reservation == ts[j].reservation && ts[i].user == ts[j].user
    {
      Text.FirstColon(ts[i].user, ts[i].reservation, ts[j].user, ts[j].reservation);
    }
  }

  // ---------------------------------------------------------------- one lemma per kind of step

  lemma AdvanceKeeps(s: State, d: nat)
    requires Sound(s)
    ensures Sound(Next(s, Advance(d)))
  {
    TidyKept(s, Advance(d));
    var t := Next(s, Advance(d));
    forall c | c in t.calls && Ready(t.calls[c], t.now) ensures Ready(s.calls[c], s.now) {}
  }

  lemma BeginKeeps(s: State, u: Uuid, r: string)
    requires Sound(s)
    ensures Sound(Next(s, Begin(u, r)))
  {
    var t := Next(s, Begin(u, r));
    TidyKept(s, Begin(u, r));
    BeginKeepsHolders(s, u, r, t);
    ChecksStay(s, t);
  }

  lemma BeginKeepsHolders(s: State, u: Uuid, r: string, t: State)
    requires HoldersSettled(s) && AcquiredHeld(s) && t == Next(s, Begin(u, r))
    ensures HoldersSettled(t) && AcquiredHeld(t)
  {
    forall g | Settled(s, g) ensures Settled(t, g) {}
  }

  lemma IssueKeeps(s: State, h: string)
    requires Sound(s)
    ensures Sound(Next(s, Issue(h)))
  {
    var t := Next(s, Issue(h));
    TidyKept(s, Issue(h));
    IssueKeepsHolders(s, h, t);
    ChecksStay(s, t);
  }

  lemma IssueKeepsHolders(s: State, h: string, t: State)
    requires HoldersSettled(s) && AcquiredHeld(s) && t == Next(s, Issue(h))
    ensures t == s.(acquiring := t.acquiring, issued := t.issued) && HoldersSettled(t) && AcquiredHeld(t)
  {
    forall g | Settled(s, g) ensures Settled(t, g) {}
  }

  lemma OpenKeeps(s: State, c: nat, e: Uuid, u: Uuid, r: string)
    requires Sound(s)
    ensures Sound(Next(s, Open(c, e, u, r)))
  {
    var t := Next(s, Open(c, e, u, r));
    TidyKept(s, Open(c, e, u, r));
    OpenFrame(s, c, e, u, r, t);
    OldChecksStay(s, t);
    CallsKeep(s, t);
  }

  lemma OpenFrame(s: State, c: nat, e: Uuid, u: Uuid, r: string, t: State)
    requires t == Next(s, Open(c, e, u, r))
    ensures t == s.(calls := t.calls)
    ensures forall b :: b in t.calls && t.calls[b].checked != [] ==> b in s.calls && t.calls[b] == s.calls[b]
  {}

  lemma OldChecksStay(s: State, t: State)
    requires HoldersSettled(s) && ChecksBacked(s) && t == s.(calls := t.calls)
    requires forall b :: b in t.calls && t.calls[b].checked != [] ==> b in s.calls && t.calls[b] == s.calls[b]
    ensures HoldersSettled(t) && ChecksBacked(t)
  {
    forall b, j: nat | b in t.calls && j < |t.calls[b].checked| && Ready(t.calls[b], t.now)
      ensures Backed(t, CheckKey(t.calls[b], j), CallHolder(t.calls[b]), t.calls[b].checked[j].deadline)
    {
      assert Backed(s, CheckKey(s.calls[b], j), CallHolder(s.calls[b]), s.calls[b].checked[j].deadline);
    }
  }

  /** Where only checkouts change, only what is said of them is to be proved. */
  lemma CallsKeep(s: State, t: State)
    requires Sound(s) && t == s.(calls := t.calls) && Tidy(t) && HoldersSettled(t) && ChecksBacked(t)
    ensures Sound(t)
  {}

  /** The holder of a live lock that its lock_seats can still roll back has no ticket. */
  lemma FreshLockIsUnsold(s: State, h: string, k: string)
    requires Sound(s) && h in s.acquiring && Punctual(s.acquiring[h], s.now)
    requires Live(s.locks, k, s.now) && s.locks[k].value == h
    ensures !HasActive(s.tickets, k)
  {}

  lemma AcquireSettles(s: State, h: string, e: Uuid, seat: string)
    requires Named(s)
    ensures forall g :: Settled(s, g) ==> Settled(Next(s, Acquire(h, e, seat)), g)
  {
    var t := Next(s, Acquire(h, e, seat));
    forall g | Settled(s, g) ensures Settled(t, g) {
      if g !in s.issued {
        var k :| k in s.acquiring[g] && s.now >= s.acquiring[g][k];
        assert k in t.acquiring[g] && t.acquiring[g][k] == s.acquiring[g][k];
      }
    }
  }

  lemma AcquireKeepsHeld(s: State, h: string, e: Uuid, seat: string)
    requires AcquiredHeld(s)
    ensures AcquiredHeld(Next(s, Acquire(h, e, seat)))
  {
    var t, k := Next(s, Acquire(h, e, seat)), LockKey(e, seat);
    forall g, q | g in t.acquiring && Punctual(t.acquiring[g], t.now) && q in t.acquiring[g]
      ensures HeldBy(t, q, g, t.acquiring[g][q])
    {
      assert Punctual(s.acquiring[g], s.now) by {
        forall x | x in s.acquiring[g] ensures s.now < s.acquiring[g][x] {
          assert x in t.acquiring[g] && t.acquiring[g][x] == s.acquiring[g][x];
        }
      }
      if q in s.acquiring[g] {
        assert HeldBy(s, q, g, s.acquiring[g][q]);
      }
    }
  }

  lemma AcquireKeeps(s: State, h: string, e: Uuid, seat: string)
    requires Sound(s) && Guard(s, Acquire(h, e, seat))
    ensures Sound(Next(s, Acquire(h, e, seat)))
  {
    var t, k := Next(s, Acquire(h, e, seat)), LockKey(e, seat);
    if h !in s.acquiring || Live(s.locks, k, s.now) {
      return;
    }
    TidyKept(s, Acquire(h, e, seat));
    AcquireSettles(s, h, e, seat);
    AcquireKeepsHeld(s, h, e, seat);
    forall c, j: nat | c in t.calls && j < |t.calls[c].checked| && Ready(t.calls[c], t.now)
      ensures Backed(t, CheckKey(t.calls[c], j), CallHolder(t.calls[c]), t.calls[c].checked[j].deadline)
    {
      assert Backed(s, CheckKey(s.calls[c], j), CallHolder(s.calls[c]), s.calls[c].checked[j].deadline);
    }
  }

  /** A punctual rollback only deletes locks of its own holder, whom no checkout in time has presented. */
  lemma RollbackKeeps(s: State, h: string)
    requires Sound(s) && Guard(s, Rollback(h))
    ensures Sound(Next(s, Rollback(h)))
  {
    var t := Next(s, Rollback(h));
    TidyKept(s, Rollback(h));
    if h in s.acquiring {
      RollbackFrees(s, h, t);
      RollbackKeepsBacked(s, h, t);
    }
  }

  lemma RollbackFrees(s: State, h: string, t: State)
    requires Sound(s) && h in s.acquiring && Punctual(s.acquiring[h], s.now) && t == Next(s, Rollback(h))
    ensures forall k :: k in t.locks ==> k in s.locks && t.locks[k] == s.locks[k]
    ensures forall k :: k in s.locks && s.locks[k].value != h ==> k in t.locks
    ensures HoldersSettled(t) && AcquiredHeld(t)
  {
    forall g | Settled(s, g) ensures Settled(t, g) {}
  }

  lemma RollbackKeepsBacked(s: State, h: string, t: State)
    requires Sound(s) && h in s.acquiring && Punctual(s.acquiring[h], s.now) && t == Next(s, Rollback(h))
    requires forall k :: k in s.locks && s.locks[k].value != h ==> k in t.locks && t.locks[k] == s.locks[k]
    ensures ChecksBacked(t)
  {
    forall c, j: nat | c in t.calls && j < |t.calls[c].checked| && Ready(t.calls[c], t.now)
      ensures Backed(t, CheckKey(t.calls[c], j), CallHolder(t.calls[c]), t.calls[c].checked[j].deadline)
    {
      assert Backed(s, CheckKey(s.calls[c], j), CallHolder(s.calls[c]), s.calls[c].checked[j].deadline);
      assert Settled(s, CallHolder(s.calls[c]));
    }
  }

  lemma CheckKeeps(s: State, c: nat, seat: string)
    requires Sound(s) && Guard(s, Check(c, seat))
    ensures Sound(Next(s, Check(c, seat)))
  {
    var t := Next(s, Check(c, seat));
    TidyKept(s, Check(c, seat));
    CheckExtends(s, c, seat, t);
    CheckKeepsSettled(s, c, seat, t);
    CheckKeepsBacked(s, c, seat, t);
    CallsKeep(s, t);
  }

  lemma CheckKeepsSettled(s: State, c: nat, seat: string, t: State)
    requires HoldersSettled(s) && Guard(s, Check(c, seat)) && t == Next(s, Check(c, seat))
    ensures HoldersSettled(t)
  {
    CheckExtends(s, c, seat, t);
    CheckKeepsReady(s, c, seat, t);
    forall b | b in t.calls && t.calls[b].checked != [] && Ready(t.calls[b], t.now)
      ensures Settled(t, CallHolder(t.calls[b]))
    {
      if b != c {
        assert t.calls[b] == s.calls[b];
      }
    }
  }

  lemma CheckExtends(s: State, c: nat, seat: string, t: State)
    requires t == Next(s, Check(c, seat))
    ensures t == s.(calls := t.calls)
    ensures forall b :: b in t.calls ==> b in s.calls && CallHolder(t.calls[b]) == CallHolder(s.calls[b])
                                         && t.calls[b].event == s.calls[b].event
                                            && s.calls[b].checked <= t.calls[b].checked
  {
    if c in s.calls && c in t.calls {
      assert t.calls[c].(checked := s.calls[c].checked) == s.calls[c];
    }
    assert forall b :: b in t.calls && b != c ==> b in s.calls && t.calls[b] == s.calls[b];
  }

  lemma ReadyPrefix(a: Call, b: Call, now: int)
    requires a.checked <= b.checked && Ready(b, now)
    ensures Ready(a, now)
  {
    assert forall j :: 0 <= j < |a.checked| ==> a.checked[j] == b.checked[j];
  }

  /** Another check never makes a checkout ready that was not. */
  lemma CheckKeepsReady(s: State, c: nat, seat: string, t: State)
    requires t == Next(s, Check(c, seat))
    ensures forall b :: b in t.calls && Ready(t.calls[b], t.now) ==> b in s.calls && Ready(s.calls[b], s.now)
  {
    CheckExtends(s, c, seat, t);
    forall b | b in t.calls && Ready(t.calls[b], t.now) ensures Ready(s.calls[b], s.now) {
      ReadyPrefix(s.calls[b], t.calls[b], s.now);
    }
  }

  /** A new check is backed by the lock it sees, whosever turn it is. */
  lemma CheckKeepsBacked(s: State, c: nat, seat: string, t: State)
    requires ChecksBacked(s) && t == Next(s, Check(c, seat))
    ensures ChecksBacked(t)
  {
    CheckExtends(s, c, seat, t);
    CheckKeepsReady(s, c, seat, t);
    forall b, j: nat | b in t.calls && j < |t.calls[b].checked| && Ready(t.calls[b], t.now)
      ensures Backed(t, CheckKey(t.calls[b], j), CallHolder(t.calls[b]), t.calls[b].checked[j].deadline)
    {
      if j < |s.calls[b].checked| {
        assert t.calls[b].checked[j] == s.calls[b].checked[j];
        assert Backed(s, CheckKey(s.calls[b], j), CallHolder(s.calls[b]), s.calls[b].checked[j].deadline);
      } else {
        NewCheckHeld(s, c, seat, t, b, j);
      }
    }
  }

  lemma NewCheckHeld(s: State, c: nat, seat: string, t: State, b: nat, j: nat)
    requires t == Next(s, Check(c, seat)) && b in t.calls && b in s.calls
    requires |s.calls[b].checked| <= j < |t.calls[b].checked|
    ensures HeldBy(t, CheckKey(t.calls[b], j), CallHolder(t.calls[b]), t.calls[b].checked[j].deadline)
  {}

  // ---------------------------------------------------------------- commits

  /** What a commit needs at its own instant: nobody else has an active ticket or a live lock. */
  ghost predicate Unclaimed(s: State, c: nat)
    requires c in s.calls
  {
    var call := s.calls[c];
    forall j: nat :: j < |call.checked| ==>
      && (Live(s.locks, CheckKey(call, j), s.now) ==> s.locks[CheckKey(call, j)].value == CallHolder(call))
      && (forall i :: 0 <= i < |s.tickets| && Active(s.tickets[i]) && KeyOf(s.tickets[i]) == CheckKey(call, j)
            ==> HolderOf(s.tickets[i]) == CallHolder(call))
  }

  lemma PunctualIsUnclaimed(s: State, c: nat)
    requires Sound(s) && c in s.calls && Guard(s, Commit(c))
    ensures Unclaimed(s, c)
  {
    var call := s.calls[c];
    forall j: nat | j < |call.checked|
      ensures Live(s.locks, CheckKey(call, j), s.now) ==> s.locks[CheckKey(call, j)].value == CallHolder(call)
      ensures forall i :: 0 <= i < |s.tickets| && Active(s.tickets[i]) && KeyOf(s.tickets[i]) == CheckKey(call, j)
                          ==> HolderOf(s.tickets[i]) == CallHolder(call)
    {
      assert Backed(s, CheckKey(call, j), CallHolder(call), call.checked[j].deadline);
    }
  }

  /** The old rows stay, and the new ones belong to the call. */
  ghost predicate Inserted(s: State, c: nat, t: State)
    requires c in s.calls
  {
    var n, call := |s.tickets|, s.calls[c];
    && |t.tickets| == n + |call.checked| && (forall i :: 0 <= i < n ==> t.tickets[i] == s.tickets[i])
    && forall i :: n <= i < |t.tickets| ==>
         HolderOf(t.tickets[i]) == CallHolder(call) && KeyOf(t.tickets[i]) == CheckKey(call, i - n)
         && t.tickets[i].lockedAt == s.now
  }

  lemma CommitKeepsRows(s: State, c: nat, t: State)
    requires Sound(s) && c in s.calls && Unclaimed(s, c) && Inserted(s, c, t) && t.now == s.now && t.locks == s.locks
    ensures RowsAgree(t.tickets) && RowsOwnLocks(t)
  {}

  lemma CoveredGrows(ts: seq<Ticket>, us: seq<Ticket>)
    requires |ts| <= |us|
    requires forall i :: 0 <= i < |ts| ==>
               us[i] == ts[i] || us[i] == ts[i].(status := Confirmed, confirmedAt := us[i].confirmedAt)
    ensures forall k, h, d :: Covered(ts, k, h, d) ==> Covered(us, k, h, d)
    ensures forall k :: Sold(ts, k) ==> Sold(us, k)
  {
    forall k, h, d | Covered(ts, k, h, d) ensures Covered(us, k, h, d) {
      var i :| 0 <= i < |ts| && Covers(ts[i], k, h, d);
      assert Covers(us[i], k, h, d);
    }
  }

  lemma CommitKeeps(s: State, c: nat)
    requires Sound(s) && c in s.calls && Unclaimed(s, c)
    requires (s.calls[c].checked != [] ==> Settled(s, CallHolder(s.calls[c])))
    ensures Sound(Next(s, Commit(c)))
  {
    var t := Next(s, Commit(c));
    TidyKept(s, Commit(c));
    assert Inserted(s, c, t);
    CommitKeepsRows(s, c, t);
    CoveredGrows(s.tickets, t.tickets);
    ChecksStay(s, t);
  }

  lemma ChecksStay(s: State, t: State)
    requires ChecksBacked(s) && t.now == s.now && t.locks == s.locks
    requires forall k, h, d :: Covered(s.tickets, k, h, d) ==> Covered(t.tickets, k, h, d)
    requires forall b :: b in t.calls ==> b in s.calls && t.calls[b] == s.calls[b]
    ensures ChecksBacked(t)
  {
    forall b, j: nat | b in t.calls && j < |t.calls[b].checked| && Ready(t.calls[b], t.now)
      ensures Backed(t, CheckKey(t.calls[b], j), CallHolder(t.calls[b]), t.calls[b].checked[j].deadline)
    {
      assert Backed(s, CheckKey(s.calls[b], j), CallHolder(s.calls[b]), s.calls[b].checked[j].deadline);
    }
  }

  // ---------------------------------------------------------------- confirms and cleanups

  lemma SelectKeeps(s: State, step: Step)
    requires Sound(s) && (step.ConfirmSelect? || step.CleanupSelect?)
    ensures Sound(Next(s, step))
  {
    var t := Next(s, step);
    TidyKept(s, step);
    assert t == s.(updates := t.updates);
    ChecksStay(s, t);
  }

  lemma FlushWrites(s: State, c: nat, t: State)
    requires Selections(s) && c in s.updates && t == Next(s, Flush(c))
    ensures |t.tickets| == |s.tickets| && t.locks == s.locks && t.now == s.now && t.calls == s.calls
    ensures t.acquiring == s.acquiring && t.issued == s.issued
    ensures forall i :: 0 <= i < |s.tickets| ==>
              t.tickets[i] == if i !in s.updates[c].rows then s.tickets[i]
                              else Write(s.tickets[i], s.updates[c].cause, s.now)
  {}

  lemma ConfirmFlushSells(s: State, c: nat, t: State)
    requires Selections(s) && ConfirmDeletesSold(s) && c in s.updates && s.updates[c].cause == ByConfirm
    requires t == Next(s, Flush(c))
    ensures ConfirmDeletesSold(t)
  {
    FlushWrites(s, c, t);
    forall b, k | b in t.deletes && t.deletes[b].cause == ByConfirm && k in t.deletes[b].keys
      ensures Sold(t.tickets, k)
    {
      if b == c {
        var i :| i in s.updates[c].rows && i < |s.tickets| && k == KeyOf(s.tickets[i]);
        assert t.tickets[i].status == Confirmed && KeyOf(t.tickets[i]) == k;
      } else {
        assert b in s.deletes && t.deletes[b] == s.deletes[b];
        assert Sold(s.tickets, k);
        var i :| 0 <= i < |s.tickets| && s.tickets[i].status == Confirmed && KeyOf(s.tickets[i]) == k;
        assert t.tickets[i].status == Confirmed && KeyOf(t.tickets[i]) == k;
      }
    }
  }

  /** A confirm's flush is sound when no row it revives has lost its seat meanwhile. */
  lemma ConfirmFlushKeeps(s: State, c: nat, t: State)
    requires Sound(s) && c in s.updates && s.updates[c].cause == ByConfirm && t == Next(s, Flush(c))
    requires RowsAgree(t.tickets) && RowsOwnLocks(t)
    ensures Sound(t)
  {
    TidyKept(s, Flush(c));
    FlushWrites(s, c, t);
    ConfirmFlushSells(s, c, t);
    RewrittenHolders(s, t);
    forall k, h, d | Covered(s.tickets, k, h, d) ensures Covered(t.tickets, k, h, d) {
      var i :| 0 <= i < |s.tickets| && Covers(s.tickets[i], k, h, d);
      assert Covers(t.tickets[i], k, h, d);
    }
    ChecksStay(s, t);
  }

  lemma RewrittenHolders(s: State, t: State)
    requires HoldersSettled(s) && Extends(s.tickets, t.tickets) && |t.tickets| == |s.tickets| && t.now == s.now
    requires t.calls == s.calls && t.acquiring == s.acquiring && t.issued == s.issued
    ensures HoldersSettled(t)
  {
    forall i | 0 <= i < |t.tickets| ensures Settled(t, HolderOf(t.tickets[i])) {
      assert HolderOf(t.tickets[i]) == HolderOf(s.tickets[i]) && Settled(s, HolderOf(s.tickets[i]));
    }
  }

  /** No checkout that can still commit in time leans on a sold row among these. */
  ghost predicate Unneeded(s: State, rows: set<nat>) {
    forall i, b, j: nat :: i in rows && i < |s.tickets| && b in s.calls && j < |s.calls[b].checked|
      && Ready(s.calls[b], s.now)
      && CheckKey(s.calls[b], j) == KeyOf(s.tickets[i]) && CallHolder(s.calls[b]) == HolderOf(s.tickets[i])
      ==> s.tickets[i].status != Confirmed
  }

  /** A cleanup's flush is sound when no seat it frees is about to lose its lock to a confirm: a
      pending row past the expiry backs no checkout that can still commit in time. */
  lemma CleanupFlushKeeps(s: State, c: nat, t: State)
    requires Sound(s) && c in s.updates && s.updates[c].cause == ByCleanup && t == Next(s, Flush(c))
    requires ConfirmDeletesSold(t) && Unneeded(s, s.updates[c].rows)
    ensures Sound(t)
  {
    TidyKept(s, Flush(c));
    FlushWrites(s, c, t);
    RewrittenHolders(s, t);
    CleanupKeepsRows(s, c, t);
    forall b, j: nat | b in t.calls && j < |t.calls[b].checked| && Ready(t.calls[b], t.now)
      ensures Backed(t, CheckKey(t.calls[b], j), CallHolder(t.calls[b]), t.calls[b].checked[j].deadline)
    {
      CleanupKeepsBacking(s, c, t, b, j);
    }
  }

  lemma CleanupKeepsRows(s: State, c: nat, t: State)
    requires Sound(s) && c in s.updates && s.updates[c].cause == ByCleanup && t == Next(s, Flush(c))
    ensures RowsAgree(t.tickets) && RowsOwnLocks(t)
  {
    FlushWrites(s, c, t);
    forall i | 0 <= i < |t.tickets| && Active(t.tickets[i]) ensures t.tickets[i] == s.tickets[i] {}
  }

  lemma CleanupKeepsBacking(s: State, c: nat, t: State, b: nat, j: nat)
    requires Sound(s) && c in s.updates && s.updates[c].cause == ByCleanup && t == Next(s, Flush(c))
    requires b in s.calls && j < |s.calls[b].checked| && Ready(s.calls[b], s.now) && Unneeded(s, s.updates[c].rows)
    ensures Backed(t, CheckKey(s.calls[b], j), CallHolder(s.calls[b]), s.calls[b].checked[j].deadline)
  {
    var k, h, d := CheckKey(s.calls[b], j), CallHolder(s.calls[b]), s.calls[b].checked[j].deadline;
    FlushWrites(s, c, t);
    assert Backed(s, k, h, d) && s.now < d;
    if !HeldBy(s, k, h, d) {
      var i :| 0 <= i < |s.tickets| && Covers(s.tickets[i], k, h, d);
      if i in s.updates[c].rows {
        OldRowsCoverNothing(s, c, i, k, h, d);
      }
      assert Covers(t.tickets[i], k, h, d);
    }
  }

  lemma OldRowsCoverNothing(s: State, c: nat, i: nat, k: string, h: string, d: int)
    requires Selections(s) && c in s.updates && s.updates[c].cause == ByCleanup && i in s.updates[c].rows && s.now < d
    requires i < |s.tickets| && Covers(s.tickets[i], k, h, d)
    ensures s.tickets[i].status == Confirmed
  {
    assert Selection(s, ByCleanup, s.updates[c].rows);
  }

  /** Nobody loses by it when the lock on this key goes. */
  ghost predicate Spare(s: State, k: string)
    requires k in s.locks
  {
    var h := s.locks[k].value;
    && (h in s.acquiring ==> !Punctual(s.acquiring[h], s.now))
    && forall c, j: nat :: c in s.calls && j < |s.calls[c].checked| && Ready(s.calls[c], s.now)
         && CheckKey(s.calls[c], j) == k && CallHolder(s.calls[c]) == h
         ==> Covered(s.tickets, k, h, s.calls[c].checked[j].deadline)
  }

  /** Deleting locks is sound when the live ones among them are to spare. */
  lemma CutKeeps(s: State, t: State, keys: set<string>)
    requires ChecksBacked(s) && AcquiredHeld(s) && RowsOwnLocks(s) && HoldersSettled(s)
    requires t == s.(locks := s.locks - keys, deletes := t.deletes)
    requires forall k :: k in keys && Live(s.locks, k, s.now) ==> Spare(s, k)
    ensures ChecksBacked(t) && AcquiredHeld(t) && RowsOwnLocks(t) && HoldersSettled(t)
  {
    forall c, j: nat | c in t.calls && j < |t.calls[c].checked| && Ready(t.calls[c], t.now)
      ensures Backed(t, CheckKey(t.calls[c], j), CallHolder(t.calls[c]), t.calls[c].checked[j].deadline)
    {
      assert Backed(s, CheckKey(s.calls[c], j), CallHolder(s.calls[c]), s.calls[c].checked[j].deadline);
    }
    CutKeepsHeld(s, t, keys);
  }

  lemma CutKeepsHeld(s: State, t: State, keys: set<string>)
    requires AcquiredHeld(s) && t == s.(locks := s.locks - keys, deletes := t.deletes)
    requires forall k :: k in keys && Live(s.locks, k, s.now) ==> Spare(s, k)
    ensures AcquiredHeld(t)
  {
    forall h, k | h in t.acquiring && Punctual(t.acquiring[h], t.now) && k in t.acquiring[h]
      ensures HeldBy(t, k, h, t.acquiring[h][k])
    {
      assert HeldBy(s, k, h, s.acquiring[h][k]);
    }
  }

  lemma DropKeeps(s: State, c: nat)
    requires Sound(s) && c in s.deletes
    requires forall k :: k in s.deletes[c].keys && Live(s.locks, k, s.now) ==> Spare(s, k)
    ensures Sound(Next(s, Drop(c)))
  {
    var t := Next(s, Drop(c));
    TidyKept(s, Drop(c));
    CutKeeps(s, t, s.deletes[c].keys);
  }

  lemma SoldIsSpare(s: State, k: string)
    requires Sound(s) && Live(s.locks, k, s.now) && Sold(s.tickets, k)
    ensures Spare(s, k)
  {
    var i :| 0 <= i < |s.tickets| && s.tickets[i].status == Confirmed && KeyOf(s.tickets[i]) == k;
    var h := s.locks[k].value;
    assert HolderOf(s.tickets[i]) == h && Settled(s, h);
    assert forall d :: Covers(s.tickets[i], k, h, d);
  }

  lemma GuardedDropKeeps(s: State, c: nat)
    requires Sound(s) && Guard(s, Drop(c))
    ensures Sound(Next(s, Drop(c)))
  {
    if c in s.deletes {
      forall k | k in s.deletes[c].keys && Live(s.locks, k, s.now) ensures Spare(s, k) {
        SoldIsSpare(s, k);
      }
      DropKeeps(s, c);
    }
  }

  lemma GuardedFlushKeeps(s: State, c: nat)
    requires Sound(s) && Guard(s, Flush(c))
    ensures Sound(Next(s, Flush(c)))
  {
    if c in s.updates {
      var t := Next(s, Flush(c));
      FlushWrites(s, c, t);
      match s.updates[c].cause
      case ByConfirm =>
        PendingRowsStayActive(s, c, t);
        ConfirmFlushKeeps(s, c, t);
      case ByCleanup =>
        PendingRowsSellNothing(s, c, t);
        CleanupFlushKeeps(s, c, t);
    }
  }

  lemma PendingRowsStayActive(s: State, c: nat, t: State)
    requires Sound(s) && c in s.updates && s.updates[c].cause == ByConfirm && Guard(s, Flush(c))
    requires t == Next(s, Flush(c))
    ensures RowsAgree(t.tickets) && RowsOwnLocks(t)
  {
    FlushWrites(s, c, t);
    forall i | 0 <= i < |t.tickets| && Active(t.tickets[i])
      ensures Active(s.tickets[i]) && KeyOf(t.tickets[i]) == KeyOf(s.tickets[i])
      ensures HolderOf(t.tickets[i]) == HolderOf(s.tickets[i])
    {}
  }

  lemma PendingRowsSellNothing(s: State, c: nat, t: State)
    requires Sound(s) && c in s.updates && s.updates[c].cause == ByCleanup && Guard(s, Flush(c))
    requires t == Next(s, Flush(c))
    ensures ConfirmDeletesSold(t)
  {
    PendingRowsOnly(s, c, t);
    forall b, k | b in t.deletes && t.deletes[b].cause == ByConfirm && k in t.deletes[b].keys
      ensures Sold(t.tickets, k)
    {
      OtherDeletesStay(s, c, t, b);
      SoldStays(s.tickets, t.tickets, k);
    }
  }

  lemma SoldStays(ts: seq<Ticket>, us: seq<Ticket>, k: string)
    requires |ts| <= |us| && forall i :: 0 <= i < |ts| && ts[i].status == Confirmed ==> us[i] == ts[i]
    requires Sold(ts, k)
    ensures Sold(us, k)
  {
    var i :| 0 <= i < |ts| && ts[i].status == Confirmed && KeyOf(ts[i]) == k;
    assert us[i] == ts[i];
  }

  lemma PendingRowsOnly(s: State, c: nat, t: State)
    requires Selections(s) && c in s.updates && Guard(s, Flush(c)) && t == Next(s, Flush(c))
    ensures |t.tickets| == |s.tickets|
    ensures forall i :: 0 <= i < |s.tickets| && s.tickets[i].status != PendingPayment ==> t.tickets[i] == s.tickets[i]
  {}

  lemma OtherDeletesStay(s: State, c: nat, t: State, b: nat)
    requires Tidy(s) && ConfirmDeletesSold(s) && c in s.updates && s.updates[c].cause == ByCleanup
    requires t == Next(s, Flush(c))
    requires b in t.deletes && t.deletes[b].cause == ByConfirm
    ensures b in s.deletes && t.deletes[b] == s.deletes[b]
  {
    assert t.deletes[c].cause == ByCleanup;
  }

  lemma GuardedCommitKeeps(s: State, c: nat)
    requires Sound(s) && Guard(s, Commit(c))
    ensures Sound(Next(s, Commit(c)))
  {
    if c in s.calls {
      PunctualIsUnclaimed(s, c);
      CommitKeeps(s, c);
    }
  }

  lemma GuardedStepKeeps(s: State, step: Step)
    requires Sound(s) && Guard(s, step)
    ensures Sound(Next(s, step))
  {
    match step
    case Advance(d) => AdvanceKeeps(s, d);
    case Begin(u, r) => BeginKeeps(s, u, r);
    case Issue(h) => IssueKeeps(s, h);
    case Open(c, e, u, r) => OpenKeeps(s, c, e, u, r);
    case Acquire(h, e, seat) => AcquireKeeps(s, h, e, seat);
    case Rollback(h) => RollbackKeeps(s, h);
    case Check(c, seat) => CheckKeeps(s, c, seat);
    case Commit(c) => GuardedCommitKeeps(s, c);
    case ConfirmSelect(_, _) => SelectKeeps(s, step);
    case CleanupSelect(_) => SelectKeeps(s, step);
    case Flush(c) => GuardedFlushKeeps(s, c);
    case Drop(c) => GuardedDropKeeps(s, c);
  }

  lemma {:induction false} GuardedRunKeeps(s: State, steps: seq<Step>)
    requires Sound(s) && Guarded(s, steps)
    ensures Sound(Run(s, steps))
  {
    if steps != [] {
      GuardedRunKeeps(s, steps[..|steps| - 1]);
      GuardedStepKeeps(Run(s, steps[..|steps| - 1]), steps[|steps| - 1]);
    }
  }

  /** Timed exclusivity: whatever the interleaving, a run whose environment respects (a) to (f)
      never has active tickets of two reservations on one seat. */
  lemma SeatsStayExclusive(start: int, steps: seq<Step>)
    requires Guarded(Init(start), steps)
    ensures Exclusive(Run(Init(start), steps).tickets)
  {
    GuardedRunKeeps(Init(start), steps);
    SoundIsExclusive(Run(Init(start), steps));
  }
}
