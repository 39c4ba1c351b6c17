/** Runs that oversell a seat, one for each environment assumption: all their other steps respect
    the assumptions. */
module SeatRuns {
  import opened Basics
  import opened RedisModel
  import opened SeatProtocol
  import opened SeatSafety
  import opened SeatLimits

  predicate ThreeHolders(a: Uuid, ra: string, b: Uuid, rb: string, x: Uuid, rx: string) {
    Holder(a, ra) != Holder(b, rb) && Holder(b, rb) != Holder(x, rx) && Holder(a, ra) != Holder(x, rx)
  }

  /** One checkout that inserted its row: a pending row, its lock still in Redis. */
  lemma LoneReservation(start: int, e: Uuid, seat: string, a: Uuid, ra: string) returns (steps: seq<Step>, t: State)
    ensures Guarded(Init(start), steps) && t == Run(Init(start), steps)
    ensures t == State(start, map[LockKey(e, seat) := Lease(Holder(a, ra), start + LOCK_TTL)], map[], {Holder(a, ra)},
                       map[], map[], map[], [NewRow(e, seat, a, ra, start)], 0, 0)
  {
    steps, t := CanReserve(Init(start), e, seat, a, ra, 0);
    CanCommit(t, e, seat, a, ra, 0, start + LOCK_TTL);
    steps, t := Then(Init(start), steps, t, Commit(0));
    assert t.calls == map[] && t.tickets == [NewRow(e, seat, a, ra, start)];
  }

  /** The flush of the only row there is. */
  lemma FlushOne(s: State, c: nat, row: Ticket, cause: Cause)
    requires s.tickets == [row] && c in s.updates && s.updates[c] == Update(cause, {0})
    ensures row.status == PendingPayment ==> Guard(s, Flush(c))
    ensures Next(s, Flush(c)) ==
              s.(tickets := [Write(row, cause, s.now)], updates := s.updates - {c},
                 deletes := s.deletes[c := Delete(cause, {0}, {KeyOf(row)})],
                 confirmed := s.confirmed + if cause == ByConfirm then 1 else 0,
                 released := s.released + if cause == ByCleanup then 1 else 0)
  {
    assert KeysAt(s.tickets, {0}) == {KeyOf(row)};
    assert Written(s.tickets, {0}, cause, s.now) == [Write(row, cause, s.now)];
  }

  /** The flush after a SELECT, in state p, has found the only row there is. */
  lemma ThenFlush(s: State, select: seq<Step>, p: State, m: State, c: nat, row: Ticket, cause: Cause)
    returns (steps: seq<Step>, t: State)
    requires m == Run(s, select) && Guarded(s, select)
    requires p.tickets == [row] && row.status == PendingPayment && c !in p.updates
    requires m == p.(updates := p.updates[c := Update(cause, {0})])
    ensures Guarded(s, steps) && t == Run(s, steps)
    ensures t == p.(tickets := [Write(row, cause, p.now)], deletes := p.deletes[c := Delete(cause, {0}, {KeyOf(row)})],
                    confirmed := p.confirmed + if cause == ByConfirm then 1 else 0,
                    released := p.released + if cause == ByCleanup then 1 else 0)
  {
    FlushOne(m, c, row, cause);
    assert m.updates - {c} == p.updates;
    steps, t := Then(s, select, m, Flush(c));
  }

  lemma CleanOne(s: State, c: nat, row: Ticket) returns (steps: seq<Step>, t: State)
    requires s.tickets == [row] && Stale(row, s.now) && c !in s.updates && c !in s.deletes
    ensures Guarded(s, steps) && t == Run(s, steps)
    ensures t == s.(tickets := [Write(row, ByCleanup, s.now)],
                    deletes := s.deletes[c := Delete(ByCleanup, {0}, {KeyOf(row)})], released := s.released + 1)
  {
    assert Expiring(s.tickets, s.now) == {0};
    steps, t := Then(s, [], s, CleanupSelect(c));
    steps, t := ThenFlush(s, steps, s, t, c, row, ByCleanup);
  }

  lemma SellOne(s: State, c: nat, row: Ticket) returns (steps: seq<Step>, t: State)
    requires s.tickets == [row] && row.status == PendingPayment && c !in s.updates && c !in s.deletes
    ensures Guarded(s, steps) && t == Run(s, steps)
    ensures t == s.(tickets := [Write(row, ByConfirm, s.now)],
                    deletes := s.deletes[c := Delete(ByConfirm, {0}, {KeyOf(row)})], confirmed := s.confirmed + 1)
  {
    assert Confirming(s.tickets, row.reservation) == {0};
    steps, t := Then(s, [], s, ConfirmSelect(c, row.reservation));
    steps, t := ThenFlush(s, steps, s, t, c, row, ByConfirm);
  }

  /** A confirm of the only row there is. */
  lemma ConfirmOne(s: State, c: nat, row: Ticket) returns (steps: seq<Step>, t: State)
    requires s.tickets == [row] && row.status == PendingPayment && c !in s.updates && c !in s.deletes
    ensures Guarded(s, steps) && t == Run(s, steps)
    ensures t == s.(tickets := [Write(row, ByConfirm, s.now)], locks := s.locks - {KeyOf(row)},
                    confirmed := s.confirmed + 1)
  {
    steps, t := SellOne(s, c, row);
    steps, t := Then(s, steps, t, Drop(c));
    assert t.deletes == s.deletes;
  }

  /** A stray delete of the lock that a ready checkout relies on lets a newcomer sell the seat too. */
  lemma CutOversells(s: State, cut: Step, e: Uuid, seat: string, c: nat, x: Uuid, rx: string, d: nat)
    returns (after: seq<Step>)
    requires Cuts(s, cut, LockKey(e, seat)) && !HasActive(s.tickets, LockKey(e, seat)) && Unused(s, x, rx)
    requires d !in s.calls
    requires c in s.calls && Ready(s.calls[c], s.now) && s.calls[c].checked != []
    requires CheckKey(s.calls[c], 0) == LockKey(e, seat)
    requires Holder(x, rx) != CallHolder(s.calls[c])
    ensures Guarded(Next(s, cut), after) && !Exclusive(Run(Next(s, cut), after).tickets)
  {
    var t := Next(s, cut);
    assert t.calls == s.calls && t.now == s.now && t.tickets == s.tickets && t.issued == s.issued;
    assert !Live(t.locks, LockKey(e, seat), t.now);
    after := LostCheckOversells(t, c, 0, x, rx, d);
  }

  /** One checkout that was confirmed: its lock is gone. */
  lemma SoldReservation(start: int, e: Uuid, seat: string, a: Uuid, ra: string) returns (steps: seq<Step>, t: State)
    ensures Guarded(Init(start), steps) && t == Run(Init(start), steps)
    ensures t == State(start, map[], map[], {Holder(a, ra)}, map[], map[], map[],
                       [NewRow(e, seat, a, ra, start).(status := Confirmed, confirmedAt := Some(start))], 1, 0)
  {
    var lone, m := LoneReservation(start, e, seat, a, ra);
    var more;
    more, t := ConfirmOne(m, 0, m.tickets[0]);
    steps := lone + more;
    RunConcat(Init(start), lone, more);
    assert t.locks == map[];
  }

  /** Assumption (a): a paid seat is free to be locked the moment its confirmation has deleted the
      lock, so the code as written can sell it again at the very same instant. */
  lemma ConfirmedSeatIsSoldAgain(start: int, e: Uuid, seat: string, a: Uuid, ra: string, b: Uuid, rb: string)
    returns (first: seq<Step>, s: State, second: seq<Step>, t: State)
    requires Holder(a, ra) != Holder(b, rb)
    ensures Guarded(Init(start), first) && s == Run(Init(start), first) && t == Run(s, second)
    ensures s.now == t.now == start
    ensures s.tickets == [NewRow(e, seat, a, ra, start).(status := Confirmed, confirmedAt := Some(start))]
    ensures t.tickets == s.tickets + [NewRow(e, seat, b, rb, start)] && !Exclusive(t.tickets)
  {
    first, s := SoldReservation(start, e, seat, a, ra);
    second, t := CanReserve(s, e, seat, b, rb, 1);
    CanCommit(t, e, seat, b, rb, 1, start + LOCK_TTL);
    second, t := Then(s, second, t, Commit(1));
    TwoOwnersNotExclusive(t.tickets, 0, 1);
  }

  /** Assumption (b): a commit that lands when its locks have expired inserts its row although the
      seat has been locked and checked anew. */
  lemma LateCommitOversells(start: int, e: Uuid, seat: string, a: Uuid, ra: string, b: Uuid, rb: string)
    returns (before: seq<Step>, s: State, after: seq<Step>)
    requires Holder(a, ra) != Holder(b, rb)
    ensures Guarded(Init(start), before) && s == Run(Init(start), before) && 0 in s.calls
    ensures Guarded(Next(s, Commit(0)), after) && !Exclusive(Run(Next(s, Commit(0)), after).tickets)
  {
    before, s := TwoCheckouts(start, e, seat, a, ra, b, rb);
    var t := Next(s, Commit(0));
    CommitRow(s, 0, 0, t);
    var u;
    after, u := Then(t, [], t, Commit(1));
    CommitRow(t, 1, 0, u);
    assert u.tickets[0] == u.tickets[..1][0] && t.tickets[0] == t.tickets[|s.tickets| + 0];
    TwoOwnersNotExclusive(u.tickets, 0, 1);
  }

  /** Two checkouts for one seat, the first with a lock that has expired. */
  lemma TwoCheckouts(start: int, e: Uuid, seat: string, a: Uuid, ra: string, b: Uuid, rb: string)
    returns (steps: seq<Step>, t: State)
    requires Holder(a, ra) != Holder(b, rb)
    ensures Guarded(Init(start), steps) && t == Run(Init(start), steps) && t.tickets == [] && t.now == start + LOCK_TTL
    ensures t.calls == map[0 := Call(e, a, ra, [Checked(seat, start + LOCK_TTL)]),
                           1 := Call(e, b, rb, [Checked(seat, t.now + LOCK_TTL)])]
  {
    steps, t := CanReserve(Init(start), e, seat, a, ra, 0);
    steps, t := Then(Init(start), steps, t, Advance(LOCK_TTL));
    var more, m := CanReserve(t, e, seat, b, rb, 1);
    RunConcat(Init(start), steps, more);
    steps, t := steps + more, m;
  }

  /** Assumption (c): the DELETE of a cleanup that lands when the seat has been locked and checked anew. */
  lemma LateCleanupOversells(start: int, e: Uuid, seat: string, a: Uuid, ra: string, b: Uuid, rb: string, x: Uuid,
                             rx: string)
    returns (before: seq<Step>, s: State, after: seq<Step>)
    requires ThreeHolders(a, ra, b, rb, x, rx)
    ensures Guarded(Init(start), before) && s == Run(Init(start), before) && 0 in s.deletes
    ensures s.deletes[0].cause == ByCleanup
    ensures Guarded(Next(s, Drop(0)), after) && !Exclusive(Run(Next(s, Drop(0)), after).tickets)
  {
    before, s := AbandonedReservation(start, e, seat, a, ra);
    var more, m := CanReserve(s, e, seat, b, rb, 1);
    RunConcat(Init(start), before, more);
    before, s := before + more, m;
    assert CheckKey(s.calls[1], 0) == LockKey(e, seat);
    after := CutOversells(s, Drop(0), e, seat, 1, x, rx, 2);
  }

  /** A reservation nobody paid for, released by a cleanup whose DELETE is still to come. */
  lemma AbandonedReservation(start: int, e: Uuid, seat: string, a: Uuid, ra: string)
    returns (steps: seq<Step>, t: State)
    ensures Guarded(Init(start), steps) && t == Run(Init(start), steps)
    ensures t.acquiring == map[] && t.issued == {Holder(a, ra)} && t.calls == map[] && t.updates == map[]
    ensures t.deletes == map[0 := Delete(ByCleanup, {0}, {LockKey(e, seat)})]
    ensures |t.tickets| == 1 && t.tickets[0].status == Released && !Live(t.locks, LockKey(e, seat), t.now)
  {
    steps, t := LoneReservation(start, e, seat, a, ra);
    steps, t := Then(Init(start), steps, t, Advance(PENDING_EXPIRY + 1));
    var more, m := CleanOne(t, 0, t.tickets[0]);
    RunConcat(Init(start), steps, more);
    steps, t := steps + more, m;
  }

  /** Assumption (d): a lock_seats for the same seat twice stalls after taking its lock; by the time
      its second SET NX is refused the lock has expired and the seat been locked and checked by
      somebody else, and the rollback deletes that lock. */
  lemma LateRollbackOversells(start: int, e: Uuid, seat: string, a: Uuid, ra: string, b: Uuid, rb: string, x: Uuid,
                              rx: string)
    returns (before: seq<Step>, s: State, after: seq<Step>)
    requires ThreeHolders(a, ra, b, rb, x, rx)
    ensures Guarded(Init(start), before) && s == Run(Init(start), before) && Holder(a, ra) in s.acquiring
    ensures before != [] && before[|before| - 1] == Acquire(Holder(a, ra), e, seat)
    ensures Live(s.locks, LockKey(e, seat), s.now)
    ensures s.locks[LockKey(e, seat)].value == Holder(b, rb)
    ensures Guarded(Next(s, Rollback(Holder(a, ra))), after)
    ensures !Exclusive(Run(Next(s, Rollback(Holder(a, ra))), after).tickets)
  {
    before, s := RefusedAfterStall(start, e, seat, a, ra, b, rb);
    assert CheckKey(s.calls[1], 0) == LockKey(e, seat);
    after := CutOversells(s, Rollback(Holder(a, ra)), e, seat, 1, x, rx, 2);
  }

  /** After the stall somebody else has locked and checked the seat, and the second SET NX is refused. */
  lemma RefusedAfterStall(start: int, e: Uuid, seat: string, a: Uuid, ra: string, b: Uuid, rb: string)
    returns (steps: seq<Step>, t: State)
    requires Holder(a, ra) != Holder(b, rb)
    ensures Guarded(Init(start), steps) && t == Run(Init(start), steps) && t.tickets == [] && t.now == start + LOCK_TTL
    ensures steps != [] && steps[|steps| - 1] == Acquire(Holder(a, ra), e, seat)
    ensures LockKey(e, seat) in t.locks && t.locks[LockKey(e, seat)] == Lease(Holder(b, rb), t.now + LOCK_TTL)
    ensures t.acquiring == map[Holder(a, ra) := map[LockKey(e, seat) := t.now]] && t.issued == {Holder(b, rb)}
    ensures t.calls == map[1 := Call(e, b, rb, [Checked(seat, t.now + LOCK_TTL)])]
  {
    steps, t := Stalled(start, e, seat, a, ra);
    var more, m := CanReserve(t, e, seat, b, rb, 1);
    RunConcat(Init(start), steps, more);
    steps, t := Then(Init(start), steps + more, m, Acquire(Holder(a, ra), e, seat));
    assert t == m;
  }

  lemma Stalled(start: int, e: Uuid, seat: string, a: Uuid, ra: string) returns (steps: seq<Step>, t: State)
    ensures Guarded(Init(start), steps) && t == Run(Init(start), steps)
    ensures t.calls == map[] && t.tickets == [] && t.issued == {} && t.now == start + LOCK_TTL
    ensures t.acquiring == map[Holder(a, ra) := map[LockKey(e, seat) := start + LOCK_TTL]]
    ensures !Live(t.locks, LockKey(e, seat), t.now)
  {
    var m := LockTaken(Init(start), e, seat, a, ra);
    steps, t := Then(Init(start), [], Init(start), Begin(a, ra));
    steps, t := Then(Init(start), steps, t, Acquire(Holder(a, ra), e, seat));
    assert t == m;
    steps, t := Then(Init(start), steps, t, Advance(LOCK_TTL));
  }

  /** Assumption (e): a checkout presents the id of a reservation whose lock_seats is still running;
      when that is refused a seat and rolls back, the checkout is left without its lock. */
  lemma EarlyCheckOversells(start: int, e: Uuid, seat: string, a: Uuid, ra: string, x: Uuid, rx: string)
    returns (before: seq<Step>, s: State, after: seq<Step>)
    requires Holder(a, ra) != Holder(x, rx)
    ensures Guarded(Init(start), before) && s == Run(Init(start), before) && Holder(a, ra) in s.acquiring
    ensures 0 in s.calls
    ensures Guarded(Next(s, Check(0, seat)), after) && !Exclusive(Run(Next(s, Check(0, seat)), after).tickets)
  {
    var h := Holder(a, ra);
    before, s := Hurried(start, e, seat, a, ra);
    var t := Next(s, Check(0, seat));
    assert [] + [Checked(seat, start + LOCK_TTL)] == [Checked(seat, start + LOCK_TTL)];
    assert t == s.(calls := map[0 := Call(e, a, ra, [Checked(seat, start + LOCK_TTL)])]);
    var n;
    after, n := Then(t, [], t, Acquire(h, e, seat));
    after := CutOversellsGuarded(t, after, Rollback(h), e, seat, 0, x, rx, 1);
  }

  /** A lock_seats that has taken its first lock, and a checkout that does not wait for it to return. */
  lemma Hurried(start: int, e: Uuid, seat: string, a: Uuid, ra: string) returns (steps: seq<Step>, t: State)
    ensures Guarded(Init(start), steps) && t == Run(Init(start), steps)
    ensures var h, k, d := Holder(a, ra), LockKey(e, seat), start + LOCK_TTL;
            t == State(start, map[k := Lease(h, d)], map[h := map[k := d]], {}, map[0 := Call(e, a, ra, [])],
                       map[], map[], [], 0, 0)
  {
    var m := LockTaken(Init(start), e, seat, a, ra);
    steps, t := Then(Init(start), [], Init(start), Begin(a, ra));
    steps, t := Then(Init(start), steps, t, Acquire(Holder(a, ra), e, seat));
    assert t == m;
    steps, t := Then(Init(start), steps, t, Open(0, e, a, ra));
  }

  /** The same, when the cut itself respects the assumptions. */
  lemma CutOversellsGuarded(s: State, xs: seq<Step>, cut: Step, e: Uuid, seat: string, c: nat, x: Uuid, rx: string,
                            d: nat)
    returns (after: seq<Step>)
    requires Guarded(s, xs) && Run(s, xs) == s && Guard(s, cut)
    requires Cuts(s, cut, LockKey(e, seat)) && !HasActive(s.tickets, LockKey(e, seat)) && Unused(s, x, rx)
    requires d !in s.calls
    requires c in s.calls && Ready(s.calls[c], s.now) && s.calls[c].checked != []
    requires CheckKey(s.calls[c], 0) == LockKey(e, seat)
    requires Holder(x, rx) != CallHolder(s.calls[c])
    ensures Guarded(s, after) && !Exclusive(Run(s, after).tickets)
  {
    var ys, t := Then(s, xs, s, cut);
    var zs := CutOversells(s, cut, e, seat, c, x, rx, d);
    after := ys + zs;
    RunConcat(s, ys, zs);
  }

  /** Assumption (f): a confirm's SELECT has seen a pending row, a cleanup then releases it, somebody
      else reserves the seat, and the confirm's flush, which goes by primary key, revives the row. */
  lemma LateConfirmRevives(start: int, e: Uuid, seat: string, a: Uuid, ra: string, b: Uuid, rb: string)
    returns (before: seq<Step>, s: State, t: State)
    requires Holder(a, ra) != Holder(b, rb)
    ensures Guarded(Init(start), before) && s == Run(Init(start), before) && t == Next(s, Flush(0))
    ensures 0 in s.updates && s.updates[0] == Update(ByConfirm, {0})
    ensures |s.tickets| == |t.tickets| == 2 && s.tickets[0].status == Released && t.tickets[0].status == Confirmed
    ensures s.released == t.released == 1 && s.confirmed == 0 && t.confirmed == 1
    ensures !Exclusive(t.tickets)
  {
    before, s := SoldUnderConfirm(start, e, seat, a, ra, b, rb);
    t := Next(s, Flush(0));
    TwoOwnersNotExclusive(t.tickets, 0, 1);
  }

  /** A confirm has selected a row that a cleanup has released since, and the seat has a new row. */
  lemma SoldUnderConfirm(start: int, e: Uuid, seat: string, a: Uuid, ra: string, b: Uuid, rb: string)
    returns (steps: seq<Step>, t: State)
    requires Holder(a, ra) != Holder(b, rb)
    ensures Guarded(Init(start), steps) && t == Run(Init(start), steps) && t.updates == map[0 := Update(ByConfirm, {0})]
    ensures t.tickets == [Write(NewRow(e, seat, a, ra, start), ByCleanup, t.now), NewRow(e, seat, b, rb, t.now)]
    ensures t.confirmed == 0 && t.released == 1
  {
    steps, t := ReleasedUnderConfirm(start, e, seat, a, ra);
    var more, m := CanReserve(t, e, seat, b, rb, 2);
    RunConcat(Init(start), steps, more);
    CanCommit(m, e, seat, b, rb, 2, m.now + LOCK_TTL);
    steps, t := Then(Init(start), steps + more, m, Commit(2));
  }

  lemma ReleasedUnderConfirm(start: int, e: Uuid, seat: string, a: Uuid, ra: string)
    returns (steps: seq<Step>, t: State)
    ensures Guarded(Init(start), steps) && t == Run(Init(start), steps)
    ensures t.updates == map[0 := Update(ByConfirm, {0})] && t.calls == map[] && t.acquiring == map[]
    ensures t.issued == {Holder(a, ra)}
    ensures t.tickets == [Write(NewRow(e, seat, a, ra, start), ByCleanup, t.now)] && t.confirmed == 0 && t.released == 1
    ensures !Live(t.locks, LockKey(e, seat), t.now)
  {
    steps, t := SelectedByConfirm(start, e, seat, a, ra);
    var more, m := CleanOne(t, 1, NewRow(e, seat, a, ra, start));
    RunConcat(Init(start), steps, more);
    steps, t := Then(Init(start), steps + more, m, Drop(1));
  }

  /** A confirm has selected its row and stalls until the row can be cleaned up. */
  lemma SelectedByConfirm(start: int, e: Uuid, seat: string, a: Uuid, ra: string) returns (steps: seq<Step>, t: State)
    ensures Guarded(Init(start), steps) && t == Run(Init(start), steps)
    ensures t == State(start + PENDING_EXPIRY + 1, map[LockKey(e, seat) := Lease(Holder(a, ra), start + LOCK_TTL)],
                       map[], {Holder(a, ra)}, map[], map[0 := Update(ByConfirm, {0})], map[],
                       [NewRow(e, seat, a, ra, start)], 0, 0)
  {
    steps, t := LoneReservation(start, e, seat, a, ra);
    assert Confirming(t.tickets, ra) == {0};
    steps, t := Then(Init(start), steps, t, ConfirmSelect(0, ra));
    assert t.updates == map[0 := Update(ByConfirm, {0})];
    steps, t := Then(Init(start), steps, t, Advance(PENDING_EXPIRY + 1));
  }
}
