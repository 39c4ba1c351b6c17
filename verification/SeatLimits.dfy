/** What clients that respect the assumptions can do next, and when that oversells a seat. */
module SeatLimits {
  import opened Basics
  import opened RedisModel
  import opened SeatProtocol
  import opened SeatSafety
  import opened SeatAges

  /** No continuation that respects the assumptions ever oversells. */
  ghost predicate Safe(s: State) {
    forall steps :: Guarded(s, steps) ==> Exclusive(Run(s, steps).tickets)
  }

  /** What holds while the assumptions are respected. */
  ghost predicate Inv(s: State) { Sound(s) && Aged(s) }

  lemma InvHolds(start: int, steps: seq<Step>)
    requires Guarded(Init(start), steps)
    ensures Inv(Run(Init(start), steps))
  {
    GuardedRunKeeps(Init(start), steps);
    GuardedReturnsIds(Init(start), steps);
    AgedRun(start, steps);
  }

  lemma SoundIsSafe(s: State)
    requires Sound(s)
    ensures Safe(s)
  {
    forall steps | Guarded(s, steps) ensures Exclusive(Run(s, steps).tickets) {
      GuardedRunKeeps(s, steps);
      SoundIsExclusive(Run(s, steps));
    }
  }

  lemma OversoldIsUnsafe(s: State, steps: seq<Step>)
    requires Guarded(s, steps) && !Exclusive(Run(s, steps).tickets)
    ensures !Safe(s)
  {}

  lemma TwoOwnersNotExclusive(ts: seq<Ticket>, i: nat, j: nat)
    requires i < |ts| && j < |ts| && Active(ts[i]) && Active(ts[j])
    requires KeyOf(ts[i]) == KeyOf(ts[j]) && HolderOf(ts[i]) != HolderOf(ts[j])
    ensures !Exclusive(ts)
  {
    SameSeatSameKey(ts[i], ts[j]);
  }

  // ---------------------------------------------------------------- what respectful clients can do

  function NewRow(e: Uuid, seat: string, u: Uuid, r: string, now: int): Ticket {
    Ticket(e, seat, u, r, PendingPayment, now, None, None)
  }

  /** Steps after steps. */
  lemma Then(s: State, xs: seq<Step>, t: State, x: Step) returns (steps: seq<Step>, u: State)
    requires t == Run(s, xs)
    ensures steps == xs + [x] && u == Next(t, x) == Run(s, steps)
    ensures Guarded(s, steps) <==> Guarded(s, xs) && Guard(t, x)
  {
    RunSnoc(s, xs, x);
    steps, u := xs + [x], Next(t, x);
  }

  /** A holder whose lock is live can open a checkout and see its lock. */
  lemma CanCheck(s: State, e: Uuid, seat: string, u: Uuid, r: string, c: nat) returns (steps: seq<Step>, t: State)
    requires c !in s.calls && Holder(u, r) in s.issued
    requires Live(s.locks, LockKey(e, seat), s.now) && s.locks[LockKey(e, seat)].value == Holder(u, r)
    ensures Guarded(s, steps) && t == Run(s, steps)
    ensures t == s.(calls := s.calls[c := Call(e, u, r, [Checked(seat, s.locks[LockKey(e, seat)].deadline)])])
  {
    var d := s.locks[LockKey(e, seat)].deadline;
    steps, t := Then(s, [], s, Open(c, e, u, r));
    assert t == s.(calls := s.calls[c := Call(e, u, r, [])]);
    assert [] + [Checked(seat, d)] == [Checked(seat, d)];
    steps, t := Then(s, steps, t, Check(c, seat));
    assert t.calls == s.calls[c := Call(e, u, r, [Checked(seat, d)])];
  }

  /** What a commit inserts for one of its seats. */
  lemma CommitRow(s: State, c: nat, j: nat, t: State)
    requires c in s.calls && j < |s.calls[c].checked| && t == Next(s, Commit(c))
    ensures |t.tickets| == |s.tickets| + |s.calls[c].checked| && t.tickets[..|s.tickets|] == s.tickets
    ensures var row := t.tickets[|s.tickets| + j];
            Active(row) && KeyOf(row) == CheckKey(s.calls[c], j) && HolderOf(row) == CallHolder(s.calls[c])
    ensures t.now == s.now && t.calls == s.calls - {c}
  {}

  lemma CanCommit(s: State, e: Uuid, seat: string, u: Uuid, r: string, c: nat, d: int)
    requires c in s.calls && s.calls[c] == Call(e, u, r, [Checked(seat, d)])
    ensures Next(s, Commit(c)) == s.(calls := s.calls - {c}, tickets := s.tickets + [NewRow(e, seat, u, r, s.now)])
  {}

  /** A holder nobody has used. */
  predicate Unused(s: State, u: Uuid, r: string) {
    Holder(u, r) !in s.acquiring && Holder(u, r) !in s.issued
  }

  /** lock_seats for one free seat, as the assumptions allow it. */
  lemma CanLock(s: State, e: Uuid, seat: string, u: Uuid, r: string) returns (steps: seq<Step>, t: State)
    requires Unused(s, u, r) && !Live(s.locks, LockKey(e, seat), s.now)
    ensures t == Run(s, steps) && (!HasActive(s.tickets, LockKey(e, seat)) ==> Guarded(s, steps))
    ensures t == s.(locks := s.locks[LockKey(e, seat) := Lease(Holder(u, r), s.now + LOCK_TTL)],
                    issued := s.issued + {Holder(u, r)})
  {
    var h := Holder(u, r);
    var m := LockTaken(s, e, seat, u, r);
    steps, t := Then(s, [], s, Begin(u, r));
    steps, t := Then(s, steps, t, Acquire(h, e, seat));
    assert t == m;
    steps, t := Then(s, steps, t, Issue(h));
    assert m.acquiring - {h} == s.acquiring;
  }

  lemma LockTaken(s: State, e: Uuid, seat: string, u: Uuid, r: string) returns (m: State)
    requires Unused(s, u, r) && !Live(s.locks, LockKey(e, seat), s.now)
    ensures m == Next(Next(s, Begin(u, r)), Acquire(Holder(u, r), e, seat))
    ensures var k, d := LockKey(e, seat), s.now + LOCK_TTL;
            m == s.(locks := s.locks[k := Lease(Holder(u, r), d)],
                    acquiring := s.acquiring[Holder(u, r) := map[k := d]])
  {
    m := Next(Next(s, Begin(u, r)), Acquire(Holder(u, r), e, seat));
  }

  /** lock_seats followed by a checkout that has seen its lock and not yet inserted its row. */
  lemma CanReserve(s: State, e: Uuid, seat: string, u: Uuid, r: string, c: nat) returns (steps: seq<Step>, t: State)
    requires Unused(s, u, r) && c !in s.calls && !Live(s.locks, LockKey(e, seat), s.now)
    ensures t == Run(s, steps) && (!HasActive(s.tickets, LockKey(e, seat)) ==> Guarded(s, steps))
    ensures t == s.(locks := s.locks[LockKey(e, seat) := Lease(Holder(u, r), s.now + LOCK_TTL)],
                    issued := s.issued + {Holder(u, r)},
                    calls := s.calls[c := Call(e, u, r, [Checked(seat, s.now + LOCK_TTL)])])
  {
    var xs, m := CanLock(s, e, seat, u, r);
    var ys;
    ys, t := CanCheck(m, e, seat, u, r, c);
    steps := xs + ys;
    RunConcat(s, xs, ys);
  }

  // ---------------------------------------------------------------- overselling

  /** Two checkouts of different holders that have both seen a lock on one seat oversell it. */
  lemma TwoReadyOversell(s: State, c1: nat, j1: nat, c2: nat, j2: nat) returns (steps: seq<Step>)
    requires c1 != c2 && c1 in s.calls && c2 in s.calls && Ready(s.calls[c1], s.now) && Ready(s.calls[c2], s.now)
    requires j1 < |s.calls[c1].checked| && j2 < |s.calls[c2].checked|
    requires CheckKey(s.calls[c1], j1) == CheckKey(s.calls[c2], j2)
    requires CallHolder(s.calls[c1]) != CallHolder(s.calls[c2])
    ensures Guarded(s, steps) && !Exclusive(Run(s, steps).tickets)
  {
    var m, t;
    steps, m := Then(s, [], s, Commit(c1));
    CommitRow(s, c1, j1, m);
    steps, t := Then(s, steps, m, Commit(c2));
    CommitRow(m, c2, j2, t);
    assert t.tickets[|s.tickets| + j1] == t.tickets[..|m.tickets|][|s.tickets| + j1];
    TwoOwnersNotExclusive(t.tickets, |s.tickets| + j1, |m.tickets| + j2);
  }

  /** Once the lock that a ready checkout relies on is gone, somebody else can sell the seat too. */
  lemma LostCheckOversells(s: State, b: nat, j: nat, x: Uuid, rx: string, c: nat) returns (steps: seq<Step>)
    requires b in s.calls && Ready(s.calls[b], s.now) && j < |s.calls[b].checked| && c !in s.calls
    requires var k := CheckKey(s.calls[b], j); !Live(s.locks, k, s.now) && !HasActive(s.tickets, k)
    requires Unused(s, x, rx) && Holder(x, rx) != CallHolder(s.calls[b])
    ensures Guarded(s, steps) && !Exclusive(Run(s, steps).tickets)
  {
    var more, t := CanReserve(s, s.calls[b].event, s.calls[b].checked[j].seat, x, rx, c);
    var sale := TwoReadyOversell(t, b, j, c, 0);
    steps := more + sale;
    RunConcat(s, more, sale);
  }

  /** Two clients and their checkouts, none of them seen before. */
  predicate Newcomers(s: State, x: Uuid, rx: string, y: Uuid, ry: string, c1: nat, c2: nat) {
    Unused(s, x, rx) && Unused(s, y, ry) && Holder(x, rx) != Holder(y, ry) && c1 !in s.calls && c2 !in s.calls
    && c1 != c2
  }

  /** If a step that cuts a free seat's lock is still to come when the seat is locked and checked
      anew, the seat is oversold. */
  lemma StrayCutOversells(s: State, e: Uuid, seat: string, xs: seq<Step>, m: State, cut: Step,
                          x: Uuid, rx: string, y: Uuid, ry: string, c1: nat, c2: nat) returns (steps: seq<Step>)
    requires Newcomers(s, x, rx, y, ry, c1, c2) && Guarded(s, xs) && m == Run(s, xs) && Guard(m, cut)
    requires m == s.(locks := m.locks, issued := s.issued + {Holder(x, rx)},
                     calls := s.calls[c1 := Call(e, x, rx, [Checked(seat, s.now + LOCK_TTL)])])
    requires Cuts(m, cut, LockKey(e, seat)) && !HasActive(s.tickets, LockKey(e, seat))
    ensures Guarded(s, steps) && !Exclusive(Run(s, steps).tickets)
  {
    var ys, n := Then(s, xs, m, cut);
    assert n.calls == m.calls && n.now == m.now && n.tickets == s.tickets && n.issued == m.issued;
    assert !Live(n.locks, LockKey(e, seat), n.now);
    assert CheckKey(n.calls[c1], 0) == LockKey(e, seat);
    var zs := LostCheckOversells(n, c1, 0, y, ry, c2);
    steps := ys + zs;
    RunConcat(s, ys, zs);
  }

  /** A lock_seats that believes itself in time but has lost a lock: when its next SET NX is refused
      it deletes the lock of whoever has taken the seat since. */
  lemma StrayRollbackOversells(s: State, g: string, e: Uuid, seat: string,
                               x: Uuid, rx: string, y: Uuid, ry: string, c1: nat, c2: nat) returns (steps: seq<Step>)
    requires g in s.acquiring && Punctual(s.acquiring[g], s.now) && LockKey(e, seat) in s.acquiring[g]
    requires !Live(s.locks, LockKey(e, seat), s.now) && !HasActive(s.tickets, LockKey(e, seat))
    requires Newcomers(s, x, rx, y, ry, c1, c2)
    ensures Guarded(s, steps) && !Exclusive(Run(s, steps).tickets)
  {
    var xs, m := CanReserve(s, e, seat, x, rx, c1);
    var ys, n := Then(s, xs, m, Acquire(g, e, seat));
    assert n == m;
    steps := StrayCutOversells(s, e, seat, ys, m, Rollback(g), x, rx, y, ry, c1, c2);
  }

  /** A confirm whose DELETE is still to come for a seat that is no longer sold. */
  lemma StrayConfirmOversells(s: State, b: nat, e: Uuid, seat: string,
                              x: Uuid, rx: string, y: Uuid, ry: string, c1: nat, c2: nat) returns (steps: seq<Step>)
    requires b in s.deletes && s.deletes[b].cause == ByConfirm && LockKey(e, seat) in s.deletes[b].keys
    requires !Live(s.locks, LockKey(e, seat), s.now) && !HasActive(s.tickets, LockKey(e, seat))
    requires Newcomers(s, x, rx, y, ry, c1, c2)
    ensures Guarded(s, steps) && !Exclusive(Run(s, steps).tickets)
  {
    var xs, m := CanReserve(s, e, seat, x, rx, c1);
    steps := StrayCutOversells(s, e, seat, xs, m, Drop(b), x, rx, y, ry, c1, c2);
  }

  /** A held key with another's active ticket on it is one checkout away from being oversold. */
  lemma HeldOverRowIsUnsafe(s: State, e: Uuid, seat: string, u: Uuid, r: string, c: nat, i: nat)
    requires c !in s.calls && i < |s.tickets| && Active(s.tickets[i]) && KeyOf(s.tickets[i]) == LockKey(e, seat)
    requires HolderOf(s.tickets[i]) != Holder(u, r)
    requires Holder(u, r) in s.issued || Holder(u, r) in s.acquiring
    requires Live(s.locks, LockKey(e, seat), s.now) && s.locks[LockKey(e, seat)].value == Holder(u, r)
    ensures !Safe(s)
  {
    var xs, t := [], s;
    if Holder(u, r) in s.acquiring {
      xs, t := Then(s, [], s, Issue(Holder(u, r)));
    }
    var ys, m := CanCheck(t, e, seat, u, r, c);
    RunConcat(s, xs, ys);
    var zs, n := Then(s, xs + ys, m, Commit(c));
    CommitRow(m, c, 0, n);
    assert n.tickets[i] == n.tickets[..|m.tickets|][i];
    TwoOwnersNotExclusive(n.tickets, i, |m.tickets|);
    OversoldIsUnsafe(s, zs);
  }

  lemma SplitHolder(h: string) returns (u: Uuid, r: string)
    requires ':' in h
    ensures h == Holder(u, r)
  {
    if h[0] == ':' {
      u, r := "", h[1..];
    } else {
      var v;
      v, r := SplitHolder(h[1..]);
      u := [h[0]] + v;
    }
    assert h == u + ":" + r;
  }
}
