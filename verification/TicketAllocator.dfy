/** The ticket allocator itself: loops over Redis and the ticket table, every call of which is a
    step of the reservation protocol, recorded in a ghost history. */
module TicketAllocation {
  import opened Basics
  import opened RedisModel
  import opened SeatProtocol
  import opened SeatAtomic
  import SeatHistory
  import SeatLedger
  import SeatSafety

  datatype AllocationError = ValidationError | NotFoundError | ConflictError(seat: string)

  class Database {
    var events: set<Uuid>
    var tickets: seq<Ticket>

    constructor (events: set<Uuid>)
      ensures this.events == events && tickets == []
    {
      this.events := events;
      tickets := [];
    }

    /** SELECT of the row numbers whose ticket satisfies a condition, in table order. */
    method Select(condition: Ticket -> bool) returns (rows: seq<nat>)
      ensures forall i :: 0 <= i < |rows| ==> rows[i] < |tickets| && condition(tickets[rows[i]])
      ensures forall i, j :: 0 <= i < j < |rows| ==> rows[i] < rows[j]
      ensures forall n: nat :: n in rows <==> n < |tickets| && condition(tickets[n])
    {
      rows := [];
      for n := 0 to |tickets|
        invariant forall i :: 0 <= i < |rows| ==> rows[i] < n && condition(tickets[rows[i]])
        invariant forall i, j :: 0 <= i < j < |rows| ==> rows[i] < rows[j]
        invariant forall m: nat :: m in rows <==> m < n && condition(tickets[m])
      {
        if condition(tickets[n]) {
          rows := rows + [n];
        }
      }
    }

    /** The loop of confirm_reservation over the rows it selected. */
    method Confirm(rows: seq<nat>, now: int) returns (keys: seq<string>)
      requires forall i :: 0 <= i < |rows| ==> rows[i] < |tickets|
      requires forall i, j :: 0 <= i < j < |rows| ==> rows[i] != rows[j]
      modifies this`tickets
      ensures |tickets| == |old(tickets)|
      ensures forall m :: 0 <= m < |tickets| ==>
                tickets[m] == if m !in rows then old(tickets)[m]
                              else old(tickets)[m].(status := Confirmed, confirmedAt := Some(now))
      ensures |keys| == |rows| && forall j :: 0 <= j < |rows| ==> keys[j] == KeyOf(old(tickets)[rows[j]])
    {
      keys := [];
      for i := 0 to |rows|
        invariant |tickets| == |old(tickets)|
        invariant forall m :: 0 <= m < |tickets| && m !in rows[..i] ==> tickets[m] == old(tickets)[m]
        invariant forall m :: 0 <= m < |tickets| && m in rows[..i]
                              ==> tickets[m] == old(tickets)[m].(status := Confirmed, confirmedAt := Some(now))
        invariant |keys| == i && forall j :: 0 <= j < i ==> keys[j] == KeyOf(old(tickets)[rows[j]])
      {
        var row := rows[i];
        assert rows[..i + 1] == rows[..i] + [row];
        tickets := tickets[row := tickets[row].(status := Confirmed, confirmedAt := Some(now))];
        keys := keys + [LockKey(tickets[row].event, tickets[row].seat)];
      }
      assert rows[..|rows|] == rows;
    }

    /** The loop of the cleanup over the rows it selected. */
    method Release(rows: seq<nat>, now: int) returns (keys: seq<string>)
      requires forall i :: 0 <= i < |rows| ==> rows[i] < |tickets|
      requires forall i, j :: 0 <= i < j < |rows| ==> rows[i] != rows[j]
      modifies this`tickets
      ensures |tickets| == |old(tickets)|
      ensures forall m :: 0 <= m < |tickets| ==>
                tickets[m] == if m !in rows then old(tickets)[m]
                              else old(tickets)[m].(status := Released, releasedAt := Some(now))
      ensures |keys| == |rows| && forall j :: 0 <= j < |rows| ==> keys[j] == KeyOf(old(tickets)[rows[j]])
    {
      keys := [];
      for i := 0 to |rows|
        invariant |tickets| == |old(tickets)|
        invariant forall m :: 0 <= m < |tickets| && m !in rows[..i] ==> tickets[m] == old(tickets)[m]
        invariant forall m :: 0 <= m < |tickets| && m in rows[..i]
                              ==> tickets[m] == old(tickets)[m].(status := Released, releasedAt := Some(now))
        invariant |keys| == i && forall j :: 0 <= j < i ==> keys[j] == KeyOf(old(tickets)[rows[j]])
      {
        var row := rows[i];
        assert rows[..i + 1] == rows[..i] + [row];
        tickets := tickets[row := tickets[row].(status := Released, releasedAt := Some(now))];
        keys := keys + [LockKey(tickets[row].event, tickets[row].seat)];
      }
      assert rows[..|rows|] == rows;
    }
  }

  predicate Distinct(seats: seq<string>) {
    forall i, j :: 0 <= i < j < |seats| ==> seats[i] != seats[j]
  }

  function Keys(event: Uuid, seats: seq<string>): set<string> {
    set i | 0 <= i < |seats| :: LockKey(event, seats[i])
  }

  predicate AllFree(locks: Store, now: int, event: Uuid, seats: seq<string>) {
    forall i :: 0 <= i < |seats| ==> !Live(locks, LockKey(event, seats[i]), now)
  }

  predicate AllHeld(locks: Store, now: int, event: Uuid, seats: seq<string>, holder: string) {
    forall i :: 0 <= i < |seats| ==> Get(locks, LockKey(event, seats[i]), now) == Some(holder)
  }

  /** Seat i is the first one that lock_seats is refused: held by somebody, or named before. */
  predicate Refused(locks: Store, now: int, event: Uuid, seats: seq<string>, i: nat)
    requires i < |seats|
  {
    && (Live(locks, LockKey(event, seats[i]), now) || seats[i] in seats[..i])
    && Distinct(seats[..i]) && AllFree(locks, now, event, seats[..i])
  }

  /** Seat i is the first one whose lock is not live in the holder's name. */
  predicate NotHeld(locks: Store, now: int, event: Uuid, seats: seq<string>, holder: string, i: nat)
    requires i < |seats|
  {
    Get(locks, LockKey(event, seats[i]), now) != Some(holder) && AllHeld(locks, now, event, seats[..i], holder)
  }

  /** The deadlines recorded for a set of keys all taken at one instant. */
  function Stamped(keys: set<string>, deadline: int): map<string, int> {
    map k | k in keys :: deadline
  }

  function Leased(keys: set<string>, holder: string, deadline: int): Store {
    map k | k in keys :: Lease(holder, deadline)
  }

  function PendingRows(event: Uuid, seats: seq<string>, user: Uuid, reservation: string, now: int): seq<Ticket> {
    seq(|seats|, i requires 0 <= i < |seats| =>
      Ticket(event, seats[i], user, reservation, PendingPayment, now, None, None))
  }

  lemma LeasedMeans(before: Store, event: Uuid, seats: seq<string>, holder: string, deadline: int)
    ensures var after := before + Leased(Keys(event, seats), holder, deadline);
            forall i :: 0 <= i < |seats| ==>
              var k := "seat_lock:" + event + ":" + seats[i]; k in after && after[k] == Lease(holder, deadline)
    ensures var after := before + Leased(Keys(event, seats), holder, deadline);
            && (forall k :: k in before ==> k in after)
            && (forall k :: k in after && !(k in before && after[k] == before[k]) ==>
                  exists i :: 0 <= i < |seats| && k == "seat_lock:" + event + ":" + seats[i])
  {
    var after := before + Leased(Keys(event, seats), holder, deadline);
    forall k | k in after && !(k in before && after[k] == before[k])
      ensures exists i :: 0 <= i < |seats| && k == "seat_lock:" + event + ":" + seats[i]
    {
      var i :| 0 <= i < |seats| && k == LockKey(event, seats[i]);
    }
    forall i | 0 <= i < |seats| ensures "seat_lock:" + event + ":" + seats[i] in Keys(event, seats) {
      assert LockKey(event, seats[i]) in Keys(event, seats);
    }
  }

  lemma KeysOfPrefix(event: Uuid, seats: seq<string>, n: nat)
    requires n < |seats|
    ensures Keys(event, seats[..n + 1]) == Keys(event, seats[..n]) + {LockKey(event, seats[n])}
    ensures LockKey(event, seats[n]) in Keys(event, seats[..n]) <==> seats[n] in seats[..n]
  {
    forall k | k in Keys(event, seats[..n + 1])
      ensures k in Keys(event, seats[..n]) + {LockKey(event, seats[n])}
    {
      var i :| 0 <= i <= n && k == LockKey(event, seats[..n + 1][i]);
      if i < n {
        assert seats[..n][i] == seats[i];
      }
    }
    forall k | k in Keys(event, seats[..n]) ensures k in Keys(event, seats[..n + 1]) {
      var i :| 0 <= i < n && k == LockKey(event, seats[..n][i]);
      assert seats[..n + 1][i] == seats[i];
    }
    assert seats[..n + 1][n] == seats[n];
    if LockKey(event, seats[n]) in Keys(event, seats[..n]) {
      var i :| 0 <= i < n && LockKey(event, seats[n]) == LockKey(event, seats[..n][i]);
      SplitSeat(event, seats[n], seats[i]);
      assert seats[..n][i] in seats[..n];
    }
    if seats[n] in seats[..n] {
      var i :| 0 <= i < n && seats[..n][i] == seats[n];
      assert LockKey(event, seats[..n][i]) in Keys(event, seats[..n]);
    }
  }

  lemma SplitSeat(event: Uuid, x: string, y: string)
    requires LockKey(event, x) == LockKey(event, y)
    ensures x == y
  {
    assert LockKey(event, x)[|"seat_lock:"| + |event| + 1..] == x;
    assert LockKey(event, y)[|"seat_lock:"| + |event| + 1..] == y;
  }

  // ---------------------------------------------------------------- the loop of lock_seats

  /** lock_seats holds the locks it has taken since the store was as before, and has seen no refusal. */
  ghost predicate Holding(p: State, taken: set<string>, holder: string, before: Store) {
    && p.acquiring == map[holder := Stamped(taken, p.now + LOCK_TTL)]
    && p.locks == before + Leased(taken, holder, p.now + LOCK_TTL)
  }

  /** These are the locks of the given seats, all different and free before. */
  ghost predicate Taken(event: Uuid, seats: seq<string>, taken: set<string>, before: Store, now: int) {
    taken == Keys(event, seats) && Distinct(seats) && AllFree(before, now, event, seats)
  }

  lemma HoldingStarts(p: State, event: Uuid, seats: seq<string>, holder: string)
    requires p.acquiring == map[holder := map[]]
    ensures Holding(p, {}, holder, p.locks) && Taken(event, seats[..0], {}, p.locks, p.now)
  {
    assert Stamped({}, p.now + LOCK_TTL) == map[];
  }

  lemma OneMoreLease(before: Store, keys: set<string>, k: string, holder: string, now: int, d: int)
    requires now < d
    ensures Stamped(keys + {k}, d) == Stamped(keys, d)[k := d]
    ensures before + Leased(keys + {k}, holder, d) == (before + Leased(keys, holder, d))[k := Lease(holder, d)]
    ensures Live(before + Leased(keys, holder, d), k, now) <==> Live(before, k, now) || k in keys
  {}

  lemma HoldingOneMore(p: State, taken: set<string>, event: Uuid, seat: string, holder: string, before: Store)
    requires Holding(p, taken, holder, before)
    ensures var k := LockKey(event, seat);
            && (Live(p.locks, k, p.now) <==> Live(before, k, p.now) || k in taken)
            && Holding(Next(p, Acquire(holder, event, seat)),
                       if Live(p.locks, k, p.now) then taken else taken + {k}, holder, before)
  {
    OneMoreLease(before, taken, LockKey(event, seat), holder, p.now, p.now + LOCK_TTL);
    assert p.acquiring[holder] == Stamped(taken, p.now + LOCK_TTL);
  }

  lemma TakenGrows(event: Uuid, seats: seq<string>, n: nat, taken: set<string>, before: Store, now: int)
    requires n < |seats| && Taken(event, seats[..n], taken, before, now)
    ensures var k := LockKey(event, seats[n]);
            if Live(before, k, now) || k in taken then Refused(before, now, event, seats, n)
            else Taken(event, seats[..n + 1], taken + {k}, before, now)
  {
    KeysOfPrefix(event, seats, n);
    if !Live(before, LockKey(event, seats[n]), now) && seats[n] !in seats[..n] {
      DistinctGrows(before, now, event, seats, n);
    }
  }

  lemma DistinctGrows(before: Store, now: int, event: Uuid, seats: seq<string>, n: nat)
    requires n < |seats| && Distinct(seats[..n]) && seats[n] !in seats[..n]
    requires AllFree(before, now, event, seats[..n]) && !Live(before, LockKey(event, seats[n]), now)
    ensures Distinct(seats[..n + 1]) && AllFree(before, now, event, seats[..n + 1])
  {}

  lemma TakenIsFree(event: Uuid, seats: seq<string>, taken: set<string>, before: Store, now: int)
    requires Taken(event, seats, taken, before, now)
    ensures forall k :: k in taken ==> !Live(before, k, now)
  {}

  lemma HoldingUndone(p: State, taken: set<string>, holder: string, before: Store)
    requires Holding(p, taken, holder, before)
    ensures Next(p, Rollback(holder)) == p.(locks := p.locks - taken, acquiring := map[])
    ensures Prompt(p, Rollback(holder))
  {
    assert p.acquiring[holder] == Stamped(taken, p.now + LOCK_TTL);
    assert Stamped(taken, p.now + LOCK_TTL).Keys == taken;
  }

  lemma LeasesUndone(before: Store, taken: set<string>, holder: string, now: int, d: int)
    requires forall k :: k in taken ==> !Live(before, k, now)
    ensures LiveView(before + Leased(taken, holder, d) - taken, now) == LiveView(before, now)
  {}

  /** A SET NX touches the locks only, and is in time whatever it meets. */
  lemma LockStep(p: State, step: Step, q: State)
    requires step.Acquire? && q == Next(p, step)
    ensures q == p.(locks := q.locks, acquiring := q.acquiring) && Prompt(p, step)
    ensures q.locks == if step.holder !in p.acquiring
            || Live(p.locks, LockKey(step.event, step.seat), p.now) then p.locks
                       else p.locks[LockKey(step.event, step.seat) := Lease(step.holder, p.now + LOCK_TTL)]
  {}

  lemma HoldingEnds(p: State, taken: set<string>, holder: string, before: Store)
    requires Holding(p, taken, holder, before)
    ensures var q := Next(p, Issue(holder)); q == p.(acquiring := map[], issued := q.issued) && holder in q.issued
  {}

  // ---------------------------------------------------------------- the loops of the other methods

  /** What the check loop has noted after the given seats. */
  function Seen(locks: Store, event: Uuid, seats: seq<string>): seq<Checked> {
    seq(|seats|, i requires 0 <= i < |seats| =>
      var k := LockKey(event, seats[i]); Checked(seats[i], if k in locks then locks[k].deadline else 0))
  }

  lemma CheckAdds(p: State, event: Uuid, user: Uuid, reservation: string, seats: seq<string>, n: nat)
    requires n < |seats| && p.calls == map[0 := Call(event, user, reservation, Seen(p.locks, event, seats[..n]))]
    requires forall k :: k in p.locks ==> p.locks[k].value in p.issued
    ensures Prompt(p, Check(0, seats[n]))
    ensures Next(p, Check(0, seats[n])) == p.(calls :=
              if Get(p.locks, LockKey(event, seats[n]), p.now) == Some(Holder(user, reservation))
              then map[0 := Call(event, user, reservation, Seen(p.locks, event, seats[..n + 1]))] else map[])
  {
    assert seats[..n + 1] == seats[..n] + [seats[n]];
    var q := Next(p, Check(0, seats[n]));
    if Get(p.locks, LockKey(event, seats[n]), p.now) == Some(Holder(user, reservation)) {
      assert q.calls[0].checked == Seen(p.locks, event, seats[..n + 1]);
    } else {
      assert q.calls == map[];
    }
  }

  lemma CommitInserts(p: State, event: Uuid, user: Uuid, reservation: string, seats: seq<string>)
    requires p.calls == map[0 := Call(event, user, reservation, Seen(p.locks, event, seats))]
    requires AllHeld(p.locks, p.now, event, seats, Holder(user, reservation))
    ensures Prompt(p, Commit(0))
    ensures Next(p, Commit(0)) ==
              p.(calls := map[], tickets := p.tickets + PendingRows(event, seats, user, reservation, p.now))
  {}

  /** The list has every element of the set once. */
  ghost predicate Listed(rows: seq<nat>, hit: set<nat>) {
    (forall n :: n in rows <==> n in hit) && forall i, j :: 0 <= i < j < |rows| ==> rows[i] != rows[j]
  }

  lemma {:induction false} RowCount(rows: seq<nat>, hit: set<nat>)
    requires Listed(rows, hit)
    ensures |rows| == |hit|
  {
    if rows != [] {
      var front, last := rows[..|rows| - 1], rows[|rows| - 1];
      assert rows == front + [last];
      RowCount(front, hit - {last});
    } else {
      assert hit == {};
    }
  }

  lemma KeysListed(ts: seq<Ticket>, rows: seq<nat>, hit: set<nat>, keys: seq<string>)
    requires forall n :: n in rows <==> n in hit
    requires forall i :: 0 <= i < |rows| ==> rows[i] < |ts|
    requires |keys| == |rows| && forall i :: 0 <= i < |keys| ==> keys[i] == KeyOf(ts[rows[i]])
    ensures (set k | k in keys) == KeysAt(ts, hit)
  {}

  lemma NothingToDo(ts: seq<Ticket>, locks: Store, cause: Cause, now: int)
    ensures Written(ts, {}, cause, now) == ts && locks - KeysAt(ts, {}) == locks
  {
    assert KeysAt(ts, {}) == {};
  }

  /** What a confirm does to each row, to the count and to the locks, in plain terms. */
  lemma ConfirmMeans(ts: seq<Ticket>, reservation: string, now: int)
    ensures var mine := set m | 0 <= m < |ts| && ts[m].reservation == reservation && ts[m].status == PendingPayment;
            && Confirming(ts, reservation) == mine
            && KeysAt(ts, mine) == set m | m in mine :: "seat_lock:" + ts[m].event + ":" + ts[m].seat
    ensures var after := Written(ts, Confirming(ts, reservation), ByConfirm, now);
            forall m :: 0 <= m < |ts| ==>
              after[m] == if ts[m].reservation == reservation && ts[m].status == PendingPayment
                          then ts[m].(status := Confirmed, confirmedAt := Some(now)) else ts[m]
  {}

  lemma CleanupMeans(ts: seq<Ticket>, now: int)
    ensures var stale := set m | 0 <= m < |ts| && ts[m].status == PendingPayment && ts[m].lockedAt < now - 900 * SECOND;
            && Expiring(ts, now) == stale
            && KeysAt(ts, stale) == set m | m in stale :: "seat_lock:" + ts[m].event + ":" + ts[m].seat
    ensures var after := Written(ts, Expiring(ts, now), ByCleanup, now);
            forall m :: 0 <= m < |ts| ==>
              after[m] == if ts[m].status == PendingPayment && ts[m].lockedAt < now - 900 * SECOND
                          then ts[m].(status := Released, releasedAt := Some(now)) else ts[m]
  {}

  /** The SELECT, in state p, finds these rows, all of them pending. */
  ghost predicate Selects(p: State, select: Step, cause: Cause, rows: set<nat>) {
    && (forall i :: i in rows ==> i < |p.tickets| && p.tickets[i].status == PendingPayment)
    && match select
       case ConfirmSelect(c, r) => c == 0 && cause == ByConfirm && rows == Confirming(p.tickets, r)
       case CleanupSelect(c) => c == 0 && cause == ByCleanup && rows == Expiring(p.tickets, p.now)
       case _ => false
  }

  lemma SelectStep(p: State, select: Step, cause: Cause, rows: set<nat>)
    requires Selects(p, select, cause, rows) && rows != {} && p.updates == map[] && p.deletes == map[]
    ensures Next(p, select) == p.(updates := map[0 := Update(cause, rows)]) && Prompt(p, select)
  {}

  lemma FlushStep(p: State, cause: Cause, rows: set<nat>)
    requires p.updates == map[0 := Update(cause, rows)] && p.deletes == map[]
    requires forall i :: i in rows ==> i < |p.tickets| && p.tickets[i].status == PendingPayment
    ensures Prompt(p, Flush(0))
    ensures var q := Next(p, Flush(0));
            && q == p.(tickets := Written(p.tickets, rows, cause, p.now), updates := map[], deletes := q.deletes,
                       confirmed := q.confirmed, released := q.released)
            && q.deletes == map[0 := Delete(cause, rows, KeysAt(p.tickets, rows))]
  {}

  lemma DropStep(p: State)
    requires 0 in p.deletes && p.deletes.Keys == {0}
    ensures Prompt(p, Drop(0)) && Next(p, Drop(0)) == p.(locks := p.locks - p.deletes[0].keys, deletes := map[])
  {}

  class TicketAllocator {
    const redis: Redis
    const db: Database
    ghost var history: seq<Step>
    ghost var states: seq<State>

    /** The protocol state the recorded history has led to. */
    ghost function Protocol(): State
      requires states != []
      reads this
    {
      states[|states| - 1]
    }

    /** Every call so far was a step of the protocol, taken in time, and the stores are what those
        steps made of them. */
    ghost predicate Synced()
      reads this, redis, db
    {
      && PromptRun(states, history)
      && redis.now == Protocol().now && redis.strings == Protocol().locks && db.tickets == Protocol().tickets
    }

    ghost predicate Idle()
      requires states != []
      reads this
    {
      Protocol().acquiring == map[] && OnlyLocking()
    }

    /** Within lock_seats nothing else is in flight. */
    ghost predicate OnlyLocking()
      requires states != []
      reads this
    {
      Protocol().calls == map[] && Protocol().updates == map[] && Protocol().deletes == map[]
    }

    /** ... and between two calls nothing is in flight. */
    ghost predicate Valid()
      reads this, redis, db
    {
      Synced() && Idle()
    }

    /** So everything proved about runs holds of the allocator and its stores.  Of the assumptions only
        (a) is left: as long as locks are taken on seats without active tickets, no seat is oversold. */
    lemma HistoryIsARun()
      requires Valid()
      ensures Protocol() == Run(Init(states[0].now), history)
      ensures SeatLedger.Balanced(Protocol())
      ensures LocksFreeSeats(states, history) ==> Exclusive(db.tickets)
    {
      PassesIsRun(states, history);
      PromptIsTame(states, history);
      SeatLedger.TicketsConserved(states[0].now, history);
      if LocksFreeSeats(states, history) {
        PromptIsGuarded(states, history);
        SeatSafety.SeatsStayExclusive(states[0].now, history);
      }
    }

    /** Where (a) does not hold: two reservations have tickets for one seat only if the earlier lock had
        run its 300 seconds, or a confirm or cleanup deleted it before the later one was taken. */
    lemma OversellingNeedsADrop(a: nat, b: nat)
      requires Valid() && a < |db.tickets| && b < |db.tickets| && db.tickets[a].reservation != db.tickets[b].reservation
      requires db.tickets[a].event == db.tickets[b].event && db.tickets[a].seat == db.tickets[b].seat
      ensures var s, h, g, k := Init(states[0].now), HolderOf(db.tickets[a]), HolderOf(db.tickets[b]),
                                KeyOf(db.tickets[a]);
              SeatHistory.DroppedBetween(s, history, h, g, k) || SeatHistory.DroppedBetween(s, history, g, h, k)
    {
      PassesIsRun(states, history);
      PromptIsTame(states, history);
      SeatHistory.TameOversellingNeedsADrop(states[0].now, history, a, b);
    }

    constructor (events: set<Uuid>, now: int)
      ensures Valid() && fresh(redis) && fresh(db) && history == [] && redis.now == now && db.events == events
    {
      redis := new Redis(now);
      db := new Database(events);
      history := [];
      states := [Init(now)];
    }

    ghost method Record(step: Step)
      requires PromptRun(states, history) && Prompt(Protocol(), step)
      requires step.Drop? ==> history != [] && history[|history| - 1] == Flush(step.call)
      modifies this`history, this`states
      ensures history == old(history) + [step] && states == old(states) + [Next(old(Protocol()), step)]
      ensures PromptRun(states, history)
    {
      PromptSnoc(states, history, step);
      history := history + [step];
      states := states + [Next(Protocol(), step)];
    }

    method Wait(d: nat)
      requires Valid()
      modifies this`history, this`states, redis`now
      ensures Valid() && history == old(history) + [Advance(d)] && redis.now == old(redis.now) + d
    {
      redis.Advance(d);
      Record(Advance(d));
    }

    /** One SET NX of the loop. */
    method LockSeat(event: Uuid, seat: string, holder: string, ghost taken: set<string>, ghost before: Store)
      returns (ok: bool)
      requires Synced() && OnlyLocking() && Holding(Protocol(), taken, holder, before)
      modifies this`history, this`states, redis`strings
      ensures Synced() && OnlyLocking() && old(history) <= history
      ensures ok <==> !Live(before, LockKey(event, seat), redis.now) && LockKey(event, seat) !in taken
      ensures Holding(Protocol(), if ok then taken + {LockKey(event, seat)} else taken, holder, before)
    {
      ghost var p := Protocol();
      HoldingOneMore(p, taken, event, seat, holder, before);
      LockStep(p, Acquire(holder, event, seat), Next(p, Acquire(holder, event, seat)));
      ok := redis.SetNx(LockKey(event, seat), holder, LOCK_TTL);
      Record(Acquire(holder, event, seat));
    }

    /** The except branch: delete the keys acquired so far. */
    method Undo(holder: string, acquired: seq<string>, ghost taken: set<string>, ghost before: Store)
      requires Synced() && OnlyLocking() && Holding(Protocol(), taken, holder, before)
      requires (set k | k in acquired) == taken && forall k :: k in taken ==> !Live(before, k, redis.now)
      modifies this`history, this`states, redis`strings
      ensures Valid() && old(history) <= history
      ensures LiveView(redis.strings, redis.now) == LiveView(before, redis.now)
    {
      HoldingUndone(Protocol(), taken, holder, before);
      LeasesUndone(before, taken, holder, redis.now, redis.now + LOCK_TTL);
      DeleteAcquired(acquired, taken);
      Record(Rollback(holder));
    }

    method DeleteAcquired(acquired: seq<string>, ghost taken: set<string>)
      requires (set k | k in acquired) == taken
      modifies redis`strings
      ensures redis.strings == old(redis.strings) - taken
    {
      if |acquired| > 0 {
        redis.Delete(set k | k in acquired);
      } else {
        assert taken == {};
      }
    }

    ghost method Start(user: Uuid, reservation: string)
      requires Valid() && Holder(user, reservation) !in Protocol().issued
      modifies this`history, this`states
      ensures Synced() && OnlyLocking() && old(history) <= history
      ensures Protocol().acquiring == map[Holder(user, reservation) := map[]]
    {
      Record(Begin(user, reservation));
    }

    /** The id is handed out: the locks stay. */
    ghost method Keep(holder: string, taken: set<string>, before: Store)
      requires Synced() && OnlyLocking() && Holding(Protocol(), taken, holder, before)
      modifies this`history, this`states
      ensures Valid() && old(history) <= history && holder in Protocol().issued
      ensures redis.strings == before + Leased(taken, holder, redis.now + LOCK_TTL)
    {
      HoldingEnds(Protocol(), taken, holder, before);
      Record(Issue(holder));
    }

    /** One turn of the loop: a refused SET NX raises, and the except branch undoes the earlier ones. */
    method LockOrUndo(event: Uuid, seats: seq<string>, n: nat, holder: string, acquired: seq<string>,
                      ghost taken: set<string>, ghost before: Store) returns (ok: bool)
      requires n < |seats| && Synced() && OnlyLocking() && Holding(Protocol(), taken, holder, before)
      requires Taken(event, seats[..n], taken, before, redis.now) && (set k | k in acquired) == taken
      modifies this`history, this`states, redis`strings
      ensures old(history) <= history
      ensures ok ==> Synced() && OnlyLocking()
      ensures ok ==> Holding(Protocol(), taken + {LockKey(event, seats[n])}, holder, before)
      ensures ok ==> Taken(event, seats[..n + 1], taken + {LockKey(event, seats[n])}, before, redis.now)
      ensures !ok ==> Valid() && LiveView(redis.strings, redis.now) == LiveView(before, redis.now)
      ensures !ok ==> Refused(before, redis.now, event, seats, n)
    {
      TakenGrows(event, seats, n, taken, before, redis.now);
      ok := LockSeat(event, seats[n], holder, taken, before);
      if !ok {
        TakenIsFree(event, seats[..n], taken, before, redis.now);
        Undo(holder, acquired, taken, before);
      }
    }

    /** SET NX seat by seat until one is refused. */
    method AcquireSeats(event: Uuid, seats: seq<string>, holder: string, ghost before: Store)
      returns (refused: Option<nat>)
      requires Synced() && OnlyLocking() && Protocol().acquiring == map[holder := map[]] && redis.strings == before
      modifies this`history, this`states, redis`strings
      ensures old(history) <= history
      ensures refused.None? ==> Synced() && OnlyLocking() && Holding(Protocol(), Keys(event, seats), holder, before)
                                && Distinct(seats) && AllFree(before, redis.now, event, seats)
      ensures refused.Some? ==> Valid() && LiveView(redis.strings, redis.now) == LiveView(before, redis.now)
      ensures refused.Some? ==> refused.value < |seats| && Refused(before, redis.now, event, seats, refused.value)
    {
      var acquired: seq<string> := [];
      ghost var taken := {};
      HoldingStarts(Protocol(), event, seats, holder);
      for n := 0 to |seats|
        invariant Synced() && OnlyLocking() && old(history) <= history && (set k | k in acquired) == taken
        invariant Holding(Protocol(), taken, holder, before) && Taken(event, seats[..n], taken, before, redis.now)
      {
        var ok := LockOrUndo(event, seats, n, holder, acquired, taken, before);
        if !ok {
          return Some(n);
        }
        acquired := acquired + [LockKey(event, seats[n])];
        taken := taken + {LockKey(event, seats[n])};
      }
      assert seats[..|seats|] == seats;
      return None;
    }

    /** The try block and its except branch. */
    method LockAll(event: Uuid, seats: seq<string>, user: Uuid, reservation: string) returns (refused: Option<nat>)
      requires Valid() && Holder(user, reservation) !in Protocol().issued
      modifies this`history, this`states, redis`strings
      ensures Valid() && old(history) <= history
      ensures refused.None? ==> Distinct(seats) && AllFree(old(redis.strings), redis.now, event, seats)
      ensures refused.None? ==>
                redis.strings == old(redis.strings) + Leased(Keys(event, seats), Holder(user, reservation),
                                                             redis.now + LOCK_TTL)
      ensures refused.None? ==> Holder(user, reservation) in Protocol().issued
      ensures refused.Some? ==> LiveView(redis.strings, redis.now) == LiveView(old(redis.strings), redis.now)
      ensures refused.Some? ==>
                refused.value < |seats| && Refused(old(redis.strings), redis.now, event, seats, refused.value)
    {
      Start(user, reservation);
      refused := AcquireOrRaise(event, seats, Holder(user, reservation));
    }

    method AcquireOrRaise(event: Uuid, seats: seq<string>, holder: string) returns (refused: Option<nat>)
      requires Synced() && OnlyLocking() && Protocol().acquiring == map[holder := map[]]
      modifies this`history, this`states, redis`strings
      ensures Valid() && old(history) <= history
      ensures refused.None? ==> Distinct(seats) && AllFree(old(redis.strings), redis.now, event, seats)
      ensures refused.None? ==>
                redis.strings == old(redis.strings) + Leased(Keys(event, seats), holder, redis.now + LOCK_TTL)
      ensures refused.None? ==> holder in Protocol().issued
      ensures refused.Some? ==> LiveView(redis.strings, redis.now) == LiveView(old(redis.strings), redis.now)
      ensures refused.Some? ==>
                refused.value < |seats| && Refused(old(redis.strings), redis.now, event, seats, refused.value)
    {
      refused := AcquireSeats(event, seats, holder, redis.strings);
      if refused.None? {
        Keep(holder, Keys(event, seats), old(redis.strings));
      }
    }

    /** All or nothing, at one instant: it succeeds exactly when the event exists and the seats are
        distinct and free; then exactly those keys name this reservation for 300 seconds.  On any
        error no client can see a difference. */
    method LockSeats(event: Uuid, seats: seq<string>, user: Uuid, reservation: string)
      returns (r: Result<string, AllocationError>)
      requires Valid() && Holder(user, reservation) !in Protocol().issued
      modifies this`history, this`states, redis`strings
      ensures Valid() && old(history) <= history
      ensures r.Ok? <==> seats != [] && event in db.events && Distinct(seats)
                         && AllFree(old(redis.strings), redis.now, event, seats)
      ensures r.Ok? ==> forall i :: 0 <= i < |seats| ==>
                var k := "seat_lock:" + event + ":" + seats[i];
                k in redis.strings && redis.strings[k] == Lease(user + ":" + reservation, redis.now + 300 * SECOND)
      ensures r.Ok? ==> forall k :: k in old(redis.strings) ==> k in redis.strings
      ensures r.Ok? ==> forall k :: k in redis.strings && (k in old(redis.strings) ==>
                                                             redis.strings[k] != old(redis.strings)[k]) ==>
                exists i :: 0 <= i < |seats| && k == "seat_lock:" + event + ":" + seats[i]
      ensures r.Ok? ==> r.value == reservation && Holder(user, reservation) in Protocol().issued
      ensures r.Ok? ==> redis.strings == old(redis.strings)
                        + Leased(Keys(event, seats), Holder(user, reservation), redis.now + LOCK_TTL)
      ensures r.Err? ==> LiveView(redis.strings, redis.now) == LiveView(old(redis.strings), redis.now)
      ensures seats == [] ==> r == Err(ValidationError)
      ensures seats != [] && event !in db.events ==> r == Err(NotFoundError)
      ensures r.Err? && seats != [] && event in db.events ==>
                exists i :: 0 <= i < |seats| && r.error == ConflictError(seats[i])
                            && Refused(old(redis.strings), redis.now, event, seats, i)
    {
      if |seats| == 0 {
        return Err(ValidationError);
      }
      if event !in db.events {
        return Err(NotFoundError);
      }
      var refused := LockAll(event, seats, user, reservation);
      if refused.Some? {
        return Err(ConflictError(seats[refused.value]));
      }
      LeasedMeans(old(redis.strings), event, seats, Holder(user, reservation), redis.now + LOCK_TTL);
      return Ok(reservation);
    }

    /** Succeeds exactly when every seat's lock is live and names this reservation, and then inserts
        one pending row per seat, in order, stamped with the current time.  Locks are only read. */
    method TransitionToPendingPayment(event: Uuid, reservation: string, seats: seq<string>, user: Uuid)
      returns (r: Result<(), AllocationError>)
      requires Valid()
      modifies this`history, this`states, db`tickets
      ensures Valid() && old(history) <= history
      ensures r.Ok? <==> forall i :: 0 <= i < |seats| ==>
                var k := "seat_lock:" + event + ":" + seats[i];
                && k in redis.strings && redis.now < redis.strings[k].deadline
                && redis.strings[k].value == user + ":" + reservation
      ensures old(db.tickets) <= db.tickets && |db.tickets| == |old(db.tickets)| + if r.Ok? then |seats| else 0
      ensures r.Ok? ==> forall i :: 0 <= i < |seats| ==>
                db.tickets[|old(db.tickets)| + i] ==
                  Ticket(event, seats[i], user, reservation, PendingPayment, redis.now, None, None)
      ensures r.Err? ==>
                exists i :: 0 <= i < |seats| && r.error == ConflictError(seats[i])
                            && NotHeld(redis.strings, redis.now, event, seats, Holder(user, reservation), i)
    {
      Opening(event, user, reservation);
      var missing := CheckSeats(event, reservation, seats, user);
      if missing.Some? {
        return Err(ConflictError(seats[missing.value]));
      }
      InsertRows(event, reservation, seats, user);
      return Ok(());
    }

    ghost method Opening(event: Uuid, user: Uuid, reservation: string)
      requires Valid()
      modifies this`history, this`states
      ensures Synced() && history == old(history) + [Open(0, event, user, reservation)]
      ensures Protocol() == old(Protocol()).(calls := map[0 := Call(event, user, reservation, [])])
      ensures forall k :: k in redis.strings ==> redis.strings[k].value in Protocol().issued
    {
      NamedAlong(states, history);
      Record(Open(0, event, user, reservation));
    }

    /** The check loop: the first seat whose lock is not live in the reservation's name. */
    method CheckSeats(event: Uuid, reservation: string, seats: seq<string>, user: Uuid) returns (missing: Option<nat>)
      requires Synced() && Protocol().calls == map[0 := Call(event, user, reservation, [])]
      requires forall k :: k in redis.strings ==> redis.strings[k].value in Protocol().issued
      modifies this`history, this`states
      ensures Synced() && old(history) <= history
      ensures missing.None? ==> AllHeld(redis.strings, redis.now, event, seats, Holder(user, reservation))
      ensures missing.Some? ==> missing.value < |seats|
                                && NotHeld(redis.strings, redis.now, event, seats, Holder(user, reservation),
                                           missing.value)
      ensures Protocol() == old(Protocol()).(calls := if missing.Some? then map[] else
                              map[0 := Call(event, user, reservation, Seen(redis.strings, event, seats))])
    {
      var expected := Holder(user, reservation);
      assert Seen(redis.strings, event, seats[..0]) == [];
      for n := 0 to |seats|
        invariant Synced() && old(history) <= history
        invariant Protocol() == old(Protocol()).(calls := map[0 := Call(event, user, reservation,
                                                                        Seen(redis.strings, event, seats[..n]))])
        invariant AllHeld(redis.strings, redis.now, event, seats[..n], expected)
      {
        var holder := redis.Lookup(LockKey(event, seats[n]));
        CheckAdds(Protocol(), event, user, reservation, seats, n);
        Record(Check(0, seats[n]));
        if holder != Some(expected) {
          return Some(n);
        }
      }
      assert seats[..|seats|] == seats;
      return None;
    }

    /** The insert loop and its flush. */
    method InsertRows(event: Uuid, reservation: string, seats: seq<string>, user: Uuid)
      requires Synced() && Protocol().acquiring == map[] && Protocol().updates == map[] && Protocol().deletes == map[]
      requires Protocol().calls == map[0 := Call(event, user, reservation, Seen(redis.strings, event, seats))]
      requires AllHeld(redis.strings, redis.now, event, seats, Holder(user, reservation))
      modifies this`history, this`states, db`tickets
      ensures Valid() && history == old(history) + [Commit(0)]
      ensures db.tickets == old(db.tickets) + PendingRows(event, seats, user, reservation, redis.now)
    {
      var added: seq<Ticket> := [];
      for n := 0 to |seats|
        invariant added == PendingRows(event, seats[..n], user, reservation, redis.now)
      {
        assert seats[..n + 1] == seats[..n] + [seats[n]];
        added := added + [Ticket(event, seats[n], user, reservation, PendingPayment, redis.now, None, None)];
      }
      assert seats[..|seats|] == seats;
      db.tickets := db.tickets + added;
      CommitInserts(Protocol(), event, user, reservation, seats);
      Record(Commit(0));
    }

    /** Confirms exactly the pending rows of the reservation and reports how many, or finds none.
        The locks of those seats are deleted, whoever holds them. */
    method ConfirmReservation(reservation: string) returns (r: Result<nat, AllocationError>)
      requires Valid()
      modifies this`history, this`states, db`tickets, redis`strings
      ensures Valid() && old(history) <= history
      ensures |db.tickets| == |old(db.tickets)|
      ensures forall m :: 0 <= m < |db.tickets| ==>
                var t := old(db.tickets)[m];
                db.tickets[m] == if t.reservation == reservation && t.status == PendingPayment
                                 then t.(status := Confirmed, confirmedAt := Some(redis.now)) else t
      ensures var mine := set m | 0 <= m < |old(db.tickets)| && old(db.tickets)[m].reservation == reservation
                                  && old(db.tickets)[m].status == PendingPayment;
              && r == (if mine == {} then Err(NotFoundError) else Ok(|mine|))
              && redis.strings == old(redis.strings)
                   - (set m | m in mine :: "seat_lock:" + old(db.tickets)[m].event + ":" + old(db.tickets)[m].seat)
    {
      ConfirmMeans(db.tickets, reservation, redis.now);
      var rows := db.Select(t => ToConfirm(t, reservation));
      ghost var hit := Confirming(db.tickets, reservation);
      RowCount(rows, hit);
      if |rows| == 0 {
        NothingToDo(db.tickets, redis.strings, ByConfirm, redis.now);
        return Err(NotFoundError);
      }
      ConfirmRows(reservation, rows, hit);
      return Ok(|rows|);
    }

    method ConfirmRows(reservation: string, rows: seq<nat>, ghost hit: set<nat>)
      requires Valid() && hit == Confirming(db.tickets, reservation) && hit != {}
      requires Listed(rows, hit) && forall i :: 0 <= i < |rows| ==> rows[i] < |db.tickets|
      modifies this`history, this`states, db`tickets, redis`strings
      ensures Valid() && old(history) <= history
      ensures db.tickets == Written(old(db.tickets), hit, ByConfirm, redis.now)
      ensures redis.strings == old(redis.strings) - KeysAt(old(db.tickets), hit)
    {
      SelectStep(Protocol(), ConfirmSelect(0, reservation), ByConfirm, hit);
      Record(ConfirmSelect(0, reservation));
      var keys := db.Confirm(rows, redis.now);
      KeysListed(old(db.tickets), rows, hit, keys);
      FlushThenDrop(ByConfirm, hit, keys);
    }

    /** Releases exactly the pending rows older than 900 seconds and reports how many. */
    method CleanupAbandonedReservations() returns (released: nat)
      requires Valid()
      modifies this`history, this`states, db`tickets, redis`strings
      ensures Valid() && old(history) <= history
      ensures |db.tickets| == |old(db.tickets)|
      ensures forall m :: 0 <= m < |db.tickets| ==>
                var t := old(db.tickets)[m];
                db.tickets[m] == if t.status == PendingPayment && t.lockedAt < redis.now - 900 * SECOND
                                 then t.(status := Released, releasedAt := Some(redis.now)) else t
      ensures var stale := set m | 0 <= m < |old(db.tickets)| && old(db.tickets)[m].status == PendingPayment
                                   && old(db.tickets)[m].lockedAt < redis.now - 900 * SECOND;
              && released == |stale|
              && redis.strings == old(redis.strings)
                   - (set m | m in stale :: "seat_lock:" + old(db.tickets)[m].event + ":" + old(db.tickets)[m].seat)
    {
      var now := redis.now;
      CleanupMeans(db.tickets, now);
      var rows := db.Select(t => Stale(t, now));
      ghost var hit := Expiring(db.tickets, now);
      RowCount(rows, hit);
      if |rows| == 0 {
        NothingToDo(db.tickets, redis.strings, ByCleanup, now);
        return 0;
      }
      ReleaseRows(rows, hit);
      return |rows|;
    }

    method ReleaseRows(rows: seq<nat>, ghost hit: set<nat>)
      requires Valid() && hit == Expiring(db.tickets, redis.now) && hit != {}
      requires Listed(rows, hit) && forall i :: 0 <= i < |rows| ==> rows[i] < |db.tickets|
      modifies this`history, this`states, db`tickets, redis`strings
      ensures Valid() && old(history) <= history
      ensures db.tickets == Written(old(db.tickets), hit, ByCleanup, redis.now)
      ensures redis.strings == old(redis.strings) - KeysAt(old(db.tickets), hit)
    {
      SelectStep(Protocol(), CleanupSelect(0), ByCleanup, hit);
      Record(CleanupSelect(0));
      var keys := db.Release(rows, redis.now);
      KeysListed(old(db.tickets), rows, hit, keys);
      FlushThenDrop(ByCleanup, hit, keys);
    }

    /** The flush of the updated rows, then the DELETE of their keys. */
    method FlushThenDrop(ghost cause: Cause, ghost rows: set<nat>, keys: seq<string>)
      requires PromptRun(states, history)
      requires Protocol().acquiring == map[] && Protocol().calls == map[] && Protocol().deletes == map[]
      requires Protocol().updates == map[0 := Update(cause, rows)]
      requires forall i :: i in rows ==> i < |Protocol().tickets| && Protocol().tickets[i].status == PendingPayment
      requires redis.now == Protocol().now && redis.strings == Protocol().locks
      requires db.tickets == Written(Protocol().tickets, rows, cause, redis.now)
      requires (set k | k in keys) == KeysAt(Protocol().tickets, rows)
      modifies this`history, this`states, redis`strings
      ensures Valid() && history == old(history) + [Flush(0), Drop(0)]
      ensures redis.strings == old(redis.strings) - (set k | k in keys)
    {
      FlushStep(Protocol(), cause, rows);
      Record(Flush(0));
      redis.Delete(set k | k in keys);
      DropStep(Protocol());
      Record(Drop(0));
    }
  }
}
