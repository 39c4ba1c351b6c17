/** For every step an assumption is about: exactly when taking it is safe. */
module SeatExact {
  import opened Basics
  import opened RedisModel
  import opened SeatProtocol
  import opened SeatSafety
  import opened SeatAges
  import opened SeatLimits

  // ---------------------------------------------------------------- (a) locks

  /** lock_seats never reads the ticket table, and the missing test is exactly what decides whether
      the lock it grants can oversell the seat. */
  lemma LockIsSafeIff(s: State, e: Uuid, seat: string, u: Uuid, r: string, c: nat)
    requires Inv(s) && c !in s.calls
    requires Holder(u, r) in s.acquiring && !Live(s.locks, LockKey(e, seat), s.now)
    ensures Safe(Next(s, Acquire(Holder(u, r), e, seat))) <==> !HasActive(s.tickets, LockKey(e, seat))
  {
    var h, k := Holder(u, r), LockKey(e, seat);
    var t := Next(s, Acquire(h, e, seat));
    if HasActive(s.tickets, k) {
      var i :| 0 <= i < |s.tickets| && Active(s.tickets[i]) && KeyOf(s.tickets[i]) == k;
      assert HolderOf(s.tickets[i]) in s.issued;
      HeldOverRowIsUnsafe(t, e, seat, u, r, c, i);
    } else {
      AcquireKeeps(s, h, e, seat);
      SoundIsSafe(t);
    }
  }

  // ---------------------------------------------------------------- (b) commits

  lemma ClaimedCommitIsUnsafe(s: State, c: nat, b: nat, j: nat, t: State)
    requires Named(s) && c in s.calls && b !in s.calls && j < |s.calls[c].checked| && t == Next(s, Commit(c))
    requires var k, h := CheckKey(s.calls[c], j), CallHolder(s.calls[c]);
             (Live(s.locks, k, s.now) && s.locks[k].value != h)
             || exists i :: 0 <= i < |s.tickets| && Active(s.tickets[i]) && KeyOf(s.tickets[i]) == k
                            && HolderOf(s.tickets[i]) != h
    ensures !Safe(t)
  {
    var call := s.calls[c];
    var k, mine := CheckKey(call, j), |s.tickets| + j;
    CommitRow(s, c, j, t);
    if Live(s.locks, k, s.now) && s.locks[k].value != CallHolder(call) {
      var u, r := SplitHolder(s.locks[k].value);
      HeldOverRowIsUnsafe(t, call.event, call.checked[j].seat, u, r, b, mine);
    } else {
      var i :| 0 <= i < |s.tickets| && Active(s.tickets[i]) && KeyOf(s.tickets[i]) == k
        && HolderOf(s.tickets[i]) != CallHolder(call);
      assert t.tickets[i] == t.tickets[..|s.tickets|][i];
      TwoOwnersNotExclusive(t.tickets, i, mine);
      OversoldIsUnsafe(t, []);
    }
  }

  /** The check loop and the insert are separate calls, so a commit may be late.  It is safe exactly
      when, at its own instant, nobody else has a live lock or an active ticket on its seats. */
  lemma CommitIsSafeIff(s: State, c: nat, b: nat)
    requires Inv(s) && c in s.calls && b !in s.calls
    ensures Safe(Next(s, Commit(c))) <==> Unclaimed(s, c)
  {
    if Unclaimed(s, c) {
      CommitKeeps(s, c);
      SoundIsSafe(Next(s, Commit(c)));
    } else {
      var j := ClaimedSeat(s, c);
      ClaimedCommitIsUnsafe(s, c, b, j, Next(s, Commit(c)));
    }
  }

  lemma ClaimedSeat(s: State, c: nat) returns (j: nat)
    requires c in s.calls && !Unclaimed(s, c)
    ensures j < |s.calls[c].checked|
    ensures var k, h := CheckKey(s.calls[c], j), CallHolder(s.calls[c]);
            (Live(s.locks, k, s.now) && s.locks[k].value != h)
            || exists i :: 0 <= i < |s.tickets| && Active(s.tickets[i]) && KeyOf(s.tickets[i]) == k
                           && HolderOf(s.tickets[i]) != h
  {
    var call := s.calls[c];
    j :| j < |call.checked| &&
      !((Live(s.locks, CheckKey(call, j), s.now) ==> s.locks[CheckKey(call, j)].value == CallHolder(call))
        && (forall i :: 0 <= i < |s.tickets| && Active(s.tickets[i]) && KeyOf(s.tickets[i]) == CheckKey(call, j)
              ==> HolderOf(s.tickets[i]) == CallHolder(call)));
  }

  // ---------------------------------------------------------------- (c), (d) deletes

  /** The checkout can still commit in time and has seen the lock that is on this key. */
  ghost predicate Sees(s: State, c: nat, j: nat, k: string)
    requires k in s.locks
  {
    && c in s.calls && j < |s.calls[c].checked| && Ready(s.calls[c], s.now)
    && CheckKey(s.calls[c], j) == k && CallHolder(s.calls[c]) == s.locks[k].value
  }

  /** Somebody relies on the lock on this key: a lock_seats that can still roll back in time, or a
      checkout that can still commit in time. */
  ghost predicate Relied(s: State, k: string)
    requires k in s.locks
  {
    || (s.locks[k].value in s.acquiring && Punctual(s.acquiring[s.locks[k].value], s.now))
    || exists c, j: nat :: Sees(s, c, j, k)
  }

  /** Deleting the lock harms nobody: the seat has an active ticket, or nobody relies on the lock. */
  ghost predicate Harmless(s: State, k: string) {
    Live(s.locks, k, s.now) ==> HasActive(s.tickets, k) || !Relied(s, k)
  }

  lemma HarmlessIsSpare(s: State, k: string)
    requires Inv(s) && Live(s.locks, k, s.now) && Harmless(s, k)
    ensures Spare(s, k)
  {
    var h := s.locks[k].value;
    if HasActive(s.tickets, k) {
      var i :| 0 <= i < |s.tickets| && Active(s.tickets[i]) && KeyOf(s.tickets[i]) == k;
      assert HolderOf(s.tickets[i]) == h && h in s.issued;
      forall c, j: nat | c in s.calls && j < |s.calls[c].checked| && Ready(s.calls[c], s.now)
        && CheckKey(s.calls[c], j) == k && CallHolder(s.calls[c]) == h
        ensures Covered(s.tickets, k, h, s.calls[c].checked[j].deadline)
      {
        assert SameClaim(s.tickets[i], CheckKey(s.calls[c], j), CallHolder(s.calls[c]));
        assert Covers(s.tickets[i], k, h, s.calls[c].checked[j].deadline);
      }
    } else {
      forall c, j: nat | c in s.calls && j < |s.calls[c].checked| && Ready(s.calls[c], s.now)
        && CheckKey(s.calls[c], j) == k && CallHolder(s.calls[c]) == h
        ensures false
      {
        assert Sees(s, c, j, k);
      }
    }
  }

  /** Somebody relied on a free seat's lock in s, and the lock is gone in t. */
  lemma HarmIsUnsafe(s: State, t: State, k: string, x: Uuid, rx: string, y: Uuid, ry: string, c1: nat, c2: nat)
    requires Named(s) && Live(s.locks, k, s.now) && !HasActive(s.tickets, k) && Relied(s, k) && k !in t.locks
    requires t == s.(locks := t.locks, acquiring := t.acquiring, deletes := t.deletes)
    requires s.locks[k].value in s.acquiring ==>
               s.locks[k].value in t.acquiring && t.acquiring[s.locks[k].value] == s.acquiring[s.locks[k].value]
    requires Newcomers(s, x, rx, y, ry, c1, c2) && Newcomers(t, x, rx, y, ry, c1, c2)
    ensures !Safe(t)
  {
    var h := s.locks[k].value;
    if h in s.acquiring && Punctual(s.acquiring[h], s.now) {
      assert k in s.acquiring[h] && IsLockKey(k);
      var e: Uuid, seat: string :| k == LockKey(e, seat);
      var steps := StrayRollbackOversells(t, h, e, seat, x, rx, y, ry, c1, c2);
      OversoldIsUnsafe(t, steps);
    } else {
      var c, j: nat :| Sees(s, c, j, k);
      var steps := LostCheckOversells(t, c, j, x, rx, c1);
      OversoldIsUnsafe(t, steps);
    }
  }

  /** A DELETE of a confirm or cleanup, however late, is safe exactly when no live lock it cuts, on a
      seat without an active ticket, is relied on. */
  lemma DropIsSafeIff(s: State, c: nat, x: Uuid, rx: string, y: Uuid, ry: string, c1: nat, c2: nat)
    requires Inv(s) && c in s.deletes && Newcomers(s, x, rx, y, ry, c1, c2)
    ensures Safe(Next(s, Drop(c))) <==> forall k :: k in s.deletes[c].keys ==> Harmless(s, k)
  {
    if forall k :: k in s.deletes[c].keys ==> Harmless(s, k) {
      HarmlessDropKeeps(s, c);
      SoundIsSafe(Next(s, Drop(c)));
    } else {
      var k :| k in s.deletes[c].keys && !Harmless(s, k);
      DropFrame(s, c, k, Next(s, Drop(c)));
      HarmIsUnsafe(s, Next(s, Drop(c)), k, x, rx, y, ry, c1, c2);
    }
  }

  lemma DropFrame(s: State, c: nat, k: string, t: State)
    requires c in s.deletes && k in s.deletes[c].keys && t == Next(s, Drop(c))
    ensures k !in t.locks && t == s.(locks := t.locks, deletes := t.deletes)
  {}

  lemma HarmlessDropKeeps(s: State, c: nat)
    requires Inv(s) && c in s.deletes && forall k :: k in s.deletes[c].keys ==> Harmless(s, k)
    ensures Sound(Next(s, Drop(c)))
  {
    forall k | k in s.deletes[c].keys && Live(s.locks, k, s.now) ensures Spare(s, k) {
      HarmlessIsSpare(s, k);
    }
    DropKeeps(s, c);
  }

  /** A rollback, however late, is safe exactly when no live lock of somebody else that it cuts, on a
      seat without an active ticket, is relied on. */
  lemma RollbackIsSafeIff(s: State, g: string, x: Uuid, rx: string, y: Uuid, ry: string, c1: nat, c2: nat)
    requires Inv(s) && g in s.acquiring && Newcomers(s, x, rx, y, ry, c1, c2)
    ensures Safe(Next(s, Rollback(g))) <==>
              forall k :: k in s.acquiring[g] && k in s.locks && s.locks[k].value != g ==> Harmless(s, k)
  {
    var t := Next(s, Rollback(g));
    if forall k :: k in s.acquiring[g] && k in s.locks && s.locks[k].value != g ==> Harmless(s, k) {
      HarmlessRollbackKeeps(s, g, t);
      SoundIsSafe(t);
    } else {
      var k :| k in s.acquiring[g] && k in s.locks && s.locks[k].value != g && !Harmless(s, k);
      HarmIsUnsafe(s, t, k, x, rx, y, ry, c1, c2);
    }
  }

  lemma HarmlessRollbackKeeps(s: State, g: string, t: State)
    requires Inv(s) && g in s.acquiring && t == Next(s, Rollback(g))
    requires forall k :: k in s.acquiring[g] && k in s.locks && s.locks[k].value != g ==> Harmless(s, k)
    ensures Sound(t)
  {
    TidyKept(s, Rollback(g));
    var m := s.(acquiring := s.acquiring - {g});
    forall k | k in s.acquiring[g].Keys && Live(m.locks, k, m.now) ensures Spare(m, k) {
      if s.locks[k].value != g {
        HarmlessIsSpare(s, k);
        StaysSpare(s, g, m, k);
      }
    }
    ChecksStay(s, m);
    CutKeeps(m, t, s.acquiring[g].Keys);
  }

  lemma StaysSpare(s: State, g: string, m: State, k: string)
    requires k in s.locks && Spare(s, k) && m == s.(acquiring := s.acquiring - {g})
    ensures Spare(m, k)
  {}

  // ---------------------------------------------------------------- (e) early checks

  /** A checkout that presents the id of a reservation still being locked is safe exactly when that
      lock_seats can no longer roll back in time, or the checkout can no longer commit in time. */
  lemma CheckIsSafeIff(s: State, c: nat, seat: string, x: Uuid, rx: string, b: nat)
    requires Inv(s) && c in s.calls && CallHolder(s.calls[c]) in s.acquiring
    requires Get(s.locks, LockKey(s.calls[c].event, seat), s.now) == Some(CallHolder(s.calls[c]))
    requires Unused(s, x, rx) && b !in s.calls
    ensures Safe(Next(s, Check(c, seat))) <==>
              !Punctual(s.acquiring[CallHolder(s.calls[c])], s.now) || !Ready(s.calls[c], s.now)
  {
    var t := Next(s, Check(c, seat));
    CheckKeepsReady(s, c, seat, t);
    if !Punctual(s.acquiring[CallHolder(s.calls[c])], s.now) || !Ready(t.calls[c], t.now) {
      LateCheckKeeps(s, c, seat, t);
      SoundIsSafe(t);
    } else {
      EarlyCheckIsUnsafe(s, c, seat, t, x, rx, b);
    }
  }

  lemma LateCheckKeeps(s: State, c: nat, seat: string, t: State)
    requires Sound(s) && c in s.calls && CallHolder(s.calls[c]) in s.acquiring && t == Next(s, Check(c, seat))
    requires Get(s.locks, LockKey(s.calls[c].event, seat), s.now) == Some(CallHolder(s.calls[c]))
    requires !Punctual(s.acquiring[CallHolder(s.calls[c])], s.now) || !Ready(t.calls[c], t.now)
    ensures Sound(t)
  {
    TidyKept(s, Check(c, seat));
    CheckExtends(s, c, seat, t);
    CheckKeepsBacked(s, c, seat, t);
    LateCheckSettles(s, c, seat, t);
  }

  lemma LateCheckSettles(s: State, c: nat, seat: string, t: State)
    requires HoldersSettled(s) && c in s.calls && CallHolder(s.calls[c]) in s.acquiring && t == Next(s, Check(c, seat))
    requires Get(s.locks, LockKey(s.calls[c].event, seat), s.now) == Some(CallHolder(s.calls[c]))
    requires !Punctual(s.acquiring[CallHolder(s.calls[c])], s.now) || !Ready(t.calls[c], t.now)
    ensures HoldersSettled(t)
  {
    CheckExtends(s, c, seat, t);
    CheckKeepsReady(s, c, seat, t);
    assert t == s.(calls := t.calls) && forall b :: b in t.calls && b != c ==> t.calls[b] == s.calls[b];
  }

  lemma EarlyCheckIsUnsafe(s: State, c: nat, seat: string, t: State, x: Uuid, rx: string, b: nat)
    requires Inv(s) && c in s.calls && CallHolder(s.calls[c]) in s.acquiring && t == Next(s, Check(c, seat))
    requires Get(s.locks, LockKey(s.calls[c].event, seat), s.now) == Some(CallHolder(s.calls[c]))
    requires Punctual(s.acquiring[CallHolder(s.calls[c])], s.now) && Ready(t.calls[c], t.now)
    requires Unused(s, x, rx) && b !in s.calls
    ensures !Safe(t)
  {
    var h, e := CallHolder(s.calls[c]), s.calls[c].event;
    var k, j := LockKey(e, seat), |s.calls[c].checked|;
    FreshLockIsUnsold(s, h, k);
    var xs, m := Then(t, [], t, Acquire(h, e, seat));
    assert m == t;
    var ys, n := Then(t, xs, t, Rollback(h));
    assert CheckKey(n.calls[c], j) == k && !Live(n.locks, k, n.now);
    var zs := LostCheckOversells(n, c, j, x, rx, b);
    RunConcat(t, ys, zs);
    OversoldIsUnsafe(t, ys + zs);
  }

  // ---------------------------------------------------------------- (f) flushes

  /** Nobody else has a live lock on the row's seat, nor an active ticket, these rows counted as such. */
  ghost predicate Undisputed(s: State, rows: set<nat>, t: Ticket) {
    && (Live(s.locks, KeyOf(t), s.now) ==> s.locks[KeyOf(t)].value == HolderOf(t))
    && forall j :: 0 <= j < |s.tickets| && (Active(s.tickets[j]) || j in rows) && KeyOf(s.tickets[j]) == KeyOf(t)
                   ==> HolderOf(s.tickets[j]) == HolderOf(t)
  }

  ghost predicate Rejoins(s: State, rows: set<nat>) {
    forall i :: i in rows && i < |s.tickets| ==> Undisputed(s, rows, s.tickets[i])
  }

  /** The flush of a confirm writes its rows even if a cleanup has released them since.  That is safe
      exactly when nobody else has a live lock or an active ticket on their seats. */
  lemma ConfirmFlushIsSafeIff(s: State, c: nat, b: nat)
    requires Inv(s) && c in s.updates && s.updates[c].cause == ByConfirm && b !in s.calls
    ensures Safe(Next(s, Flush(c))) <==> Rejoins(s, s.updates[c].rows)
  {
    var t, rows := Next(s, Flush(c)), s.updates[c].rows;
    FlushWrites(s, c, t);
    if Rejoins(s, rows) {
      RejoinsKeeps(s, c, t);
      ConfirmFlushKeeps(s, c, t);
      SoundIsSafe(t);
    } else {
      var i :| i in rows && i < |s.tickets| && !Undisputed(s, rows, s.tickets[i]);
      RevivedRowIsUnsafe(s, c, t, i, b);
    }
  }

  lemma RejoinsKeeps(s: State, c: nat, t: State)
    requires Sound(s) && c in s.updates && s.updates[c].cause == ByConfirm && t == Next(s, Flush(c))
    requires Rejoins(s, s.updates[c].rows)
    ensures RowsAgree(t.tickets) && RowsOwnLocks(t)
  {
    FlushWrites(s, c, t);
    forall i | 0 <= i < |t.tickets| && Active(t.tickets[i])
      ensures (Active(s.tickets[i]) || i in s.updates[c].rows) && KeyOf(t.tickets[i]) == KeyOf(s.tickets[i])
              && HolderOf(t.tickets[i]) == HolderOf(s.tickets[i])
    {}
  }

  lemma RevivedRowIsUnsafe(s: State, c: nat, t: State, i: nat, b: nat)
    requires Named(s) && Selections(s) && c in s.updates && s.updates[c].cause == ByConfirm && b !in s.calls
    requires t == Next(s, Flush(c)) && i in s.updates[c].rows && i < |s.tickets|
    requires !Undisputed(s, s.updates[c].rows, s.tickets[i])
    ensures !Safe(t)
  {
    FlushWrites(s, c, t);
    var row := s.tickets[i];
    if Live(s.locks, KeyOf(row), s.now) && s.locks[KeyOf(row)].value != HolderOf(row) {
      var u, r := SplitHolder(s.locks[KeyOf(row)].value);
      HeldOverRowIsUnsafe(t, row.event, row.seat, u, r, b, i);
    } else {
      var j :| 0 <= j < |s.tickets| && (Active(s.tickets[j]) || j in s.updates[c].rows)
               && KeyOf(s.tickets[j]) == KeyOf(row) && HolderOf(s.tickets[j]) != HolderOf(row);
      TwoOwnersNotExclusive(t.tickets, i, j);
      OversoldIsUnsafe(t, []);
    }
  }

  /** A confirm has yet to delete the lock of a seat that is not sold any more once these rows are
      released. */
  ghost predicate Unsells(s: State, c: nat, b: nat, k: string)
    requires c in s.updates
  {
    && b in s.deletes && b != c && s.deletes[b].cause == ByConfirm && k in s.deletes[b].keys
    && forall i :: 0 <= i < |s.tickets| && s.tickets[i].status == Confirmed && KeyOf(s.tickets[i]) == k ==>
         i in s.updates[c].rows
  }

  /** The flush of a cleanup writes its rows even if a confirm has sold them since.  For exclusivity
      that is safe exactly when no confirm has yet to delete the lock of a seat it unsells. */
  lemma CleanupFlushIsSafeIff(s: State, c: nat, d: nat, x: Uuid, rx: string, y: Uuid, ry: string, c1: nat, c2: nat)
    requires Inv(s) && c in s.updates && s.updates[c].cause == ByCleanup && d !in s.updates && d !in s.deletes
    requires Newcomers(s, x, rx, y, ry, c1, c2)
    ensures Safe(Next(s, Flush(c))) <==> !exists b, k :: Unsells(s, c, b, k)
  {
    var t := Next(s, Flush(c));
    if exists b, k :: Unsells(s, c, b, k) {
      var b, k :| Unsells(s, c, b, k);
      UnsoldSeatIsUnsafe(s, c, t, b, k, d, x, rx, y, ry, c1, c2);
    } else {
      NothingUnsold(s, c, t);
      OldRowsUnneeded(s, c);
      CleanupFlushKeeps(s, c, t);
      SoundIsSafe(t);
    }
  }

  lemma NothingUnsold(s: State, c: nat, t: State)
    requires Tidy(s) && c in s.updates && s.updates[c].cause == ByCleanup && t == Next(s, Flush(c))
    requires !exists b, k :: Unsells(s, c, b, k)
    ensures ConfirmDeletesSold(t)
  {
    forall b, k | b in t.deletes && t.deletes[b].cause == ByConfirm && k in t.deletes[b].keys
      ensures Sold(t.tickets, k)
    {
      assert t.deletes[c].cause == ByCleanup;
      assert b != c && b in s.deletes && t.deletes[b] == s.deletes[b];
      assert !Unsells(s, c, b, k);
      StillSold(s, c, t, k);
    }
  }

  lemma StillSold(s: State, c: nat, t: State, k: string)
    requires Selections(s) && c in s.updates && s.updates[c].cause == ByCleanup && t == Next(s, Flush(c))
    ensures Sold(t.tickets, k) <==>
              exists i :: 0 <= i < |s.tickets| && s.tickets[i].status == Confirmed && KeyOf(s.tickets[i]) == k
                          && i !in s.updates[c].rows
  {
    FlushWrites(s, c, t);
    forall i | 0 <= i < |s.tickets|
      ensures t.tickets[i].status == Confirmed <==> s.tickets[i].status == Confirmed && i !in s.updates[c].rows
      ensures KeyOf(t.tickets[i]) == KeyOf(s.tickets[i])
    {}
  }

  lemma OldRowsUnneeded(s: State, c: nat)
    requires Aged(s) && c in s.updates && s.updates[c].cause == ByCleanup
    ensures Unneeded(s, s.updates[c].rows)
  {
    assert Selection(s, ByCleanup, s.updates[c].rows);
    forall i, b, j: nat | i in s.updates[c].rows && i < |s.tickets| && b in s.calls && j < |s.calls[b].checked|
      && CheckKey(s.calls[b], j) == KeyOf(s.tickets[i]) && CallHolder(s.calls[b]) == HolderOf(s.tickets[i])
      ensures s.calls[b].checked[j].deadline < s.now
    {
      assert SameClaim(s.tickets[i], CheckKey(s.calls[b], j), CallHolder(s.calls[b]));
    }
  }

  /** Wait until every lock is dead and every pending row can be cleaned up: the unsold seat is free,
      with the confirm's DELETE still to come. */
  lemma UnsoldSeatIsUnsafe(s: State, c: nat, t: State, b: nat, k: string, d: nat,
                           x: Uuid, rx: string, y: Uuid, ry: string, c1: nat, c2: nat)
    requires Inv(s) && c in s.updates && s.updates[c].cause == ByCleanup && t == Next(s, Flush(c))
    requires Unsells(s, c, b, k)
    requires d !in s.updates && d !in s.deletes && Newcomers(s, x, rx, y, ry, c1, c2)
    ensures !Safe(t)
  {
    AgedKept(s, Flush(c));
    StillSold(s, c, t, k);
    assert t.deletes[b] == s.deletes[b] && d !in t.updates && d !in t.deletes;
    assert Newcomers(t, x, rx, y, ry, c1, c2);
    FreedSeatIsUnsafe(t, b, k, d, x, rx, y, ry, c1, c2);
  }

  lemma FreedSeatIsUnsafe(t: State, b: nat, k: string, d: nat, x: Uuid, rx: string, y: Uuid, ry: string, c1: nat,
                          c2: nat)
    requires Aged(t) && b in t.deletes && t.deletes[b].cause == ByConfirm && k in t.deletes[b].keys
    requires !Sold(t.tickets, k)
    requires d !in t.updates && d !in t.deletes && Newcomers(t, x, rx, y, ry, c1, c2)
    ensures !Safe(t)
  {
    var e, seat := SeatOfDelete(t, b, k);
    var zs, u := EverythingExpires(t, d, k);
    assert u.deletes[b] == t.deletes[b];
    var ws := StrayConfirmOversells(u, b, e, seat, x, rx, y, ry, c1, c2);
    RunConcat(t, zs, ws);
    OversoldIsUnsafe(t, zs + ws);
  }

  /** 900 seconds and a cleanup later no lock is live, and only sold seats have active rows. */
  lemma EverythingExpires(t: State, d: nat, k: string) returns (steps: seq<Step>, u: State)
    requires Aged(t) && !Sold(t.tickets, k) && d !in t.updates && d !in t.deletes
    ensures Guarded(t, steps) && u == Run(t, steps) && !HasActive(u.tickets, k) && !Live(u.locks, k, u.now)
    ensures u == t.(now := u.now, tickets := u.tickets, deletes := u.deletes, released := u.released)
    ensures forall b :: b in t.deletes ==> b in u.deletes && u.deletes[b] == t.deletes[b]
  {
    var m, n;
    steps, m := Then(t, [], t, Advance(PENDING_EXPIRY + 1));
    assert m == t.(now := t.now + PENDING_EXPIRY + 1);
    steps, n := Then(t, steps, m, CleanupSelect(d));
    steps, u := Then(t, steps, n, Flush(d));
    AllCleaned(m, d, n, u, k);
  }

  lemma SeatOfDelete(s: State, b: nat, k: string) returns (e: Uuid, seat: string)
    requires Selections(s) && b in s.deletes && k in s.deletes[b].keys
    ensures k == LockKey(e, seat)
  {
    var i :| i in s.deletes[b].rows && i < |s.tickets| && k == KeyOf(s.tickets[i]);
    e, seat := s.tickets[i].event, s.tickets[i].seat;
  }

  /** When everything pending is past the expiry, a cleanup leaves active rows on sold seats only. */
  lemma AllCleaned(m: State, d: nat, n: State, u: State, k: string)
    requires d !in m.updates && d !in m.deletes && !Sold(m.tickets, k)
    requires forall i :: 0 <= i < |m.tickets| ==> m.tickets[i].lockedAt < m.now - PENDING_EXPIRY
    requires n == Next(m, CleanupSelect(d)) && u == Next(n, Flush(d))
    ensures Guard(n, Flush(d)) && !HasActive(u.tickets, k)
    ensures u == m.(tickets := u.tickets, deletes := u.deletes, released := u.released)
    ensures forall b :: b in m.deletes ==> b in u.deletes && u.deletes[b] == m.deletes[b]
  {
    var rows := Expiring(m.tickets, m.now);
    assert forall i: nat :: i < |m.tickets| ==> (m.tickets[i].status == PendingPayment <==> i in rows);
    CleanupWrites(m, d, n, u);
    OnlySoldLeft(m.tickets, rows, m.now, k);
  }

  /** A cleanup on its own: its SELECT and its flush. */
  lemma CleanupWrites(m: State, d: nat, n: State, u: State)
    requires d !in m.updates && d !in m.deletes && n == Next(m, CleanupSelect(d)) && u == Next(n, Flush(d))
    ensures Guard(n, Flush(d)) && u.tickets == Written(m.tickets, Expiring(m.tickets, m.now), ByCleanup, m.now)
    ensures u == m.(tickets := u.tickets, deletes := u.deletes, released := u.released)
    ensures forall b :: b in m.deletes ==> b in u.deletes && u.deletes[b] == m.deletes[b]
  {
    var rows := Expiring(m.tickets, m.now);
    if rows != {} {
      assert n == m.(updates := m.updates[d := Update(ByCleanup, rows)]);
      assert n.updates - {d} == m.updates;
    }
  }

  lemma OnlySoldLeft(ts: seq<Ticket>, rows: set<nat>, now: int, k: string)
    requires !Sold(ts, k) && forall i: nat :: i < |ts| ==> (ts[i].status == PendingPayment <==> i in rows)
    ensures !HasActive(Written(ts, rows, ByCleanup, now), k)
  {}
}
