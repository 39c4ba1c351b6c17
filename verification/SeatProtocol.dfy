/** The seat reservation protocol as a state machine, one step for every Redis or database call
    of the ticket allocator, so that requests may interleave between any two calls.  A confirm and
    a cleanup are three calls each: the SELECT of their rows, the flush that rewrites them and the
    DELETE of their locks. */
module SeatProtocol {
  import opened Basics
  import opened RedisModel
  import Text

  const LOCK_TTL: int := 300 * SECOND
  const PENDING_EXPIRY: int := 900 * SECOND

  datatype Status = PendingPayment | Confirmed | Released

  datatype Ticket = Ticket(event: Uuid, seat: string, user: Uuid, reservation: string, status: Status,
                           lockedAt: int, confirmedAt: Option<int>, releasedAt: Option<int>)

  function LockKey(event: Uuid, seat: string): string {
    "seat_lock:" + event + ":" + seat
  }

  /** The value stored under a lock key. */
  function Holder(user: Uuid, reservation: string): string {
    user + ":" + reservation
  }

  function KeyOf(t: Ticket): string { LockKey(t.event, t.seat) }

  function HolderOf(t: Ticket): string { Holder(t.user, t.reservation) }

  predicate Active(t: Ticket) { t.status != Released }

  // ---------------------------------------------------------------- state and steps

  datatype Checked = Checked(seat: string, deadline: int)

  /** A transition_to_pending_payment in flight, with the seats whose lock it has seen so far. */
  datatype Call = Call(event: Uuid, user: Uuid, reservation: string, checked: seq<Checked>)

  datatype Cause = ByConfirm | ByCleanup

  /** The rows a confirm or cleanup has selected and not yet written. */
  datatype Update = Update(cause: Cause, rows: set<nat>)

  /** A DELETE that a confirm or cleanup has yet to send after its flush. */
  datatype Delete = Delete(cause: Cause, rows: set<nat>, keys: set<string>)

  datatype State = State(
    now: int,
    locks: Store,
    acquiring: map<string, map<string, int>>,  // lock_seats in flight: holder -> acquired key -> first deadline
    issued: set<string>,                       // holders whose lock_seats has returned
    calls: map<nat, Call>,
    updates: map<nat, Update>,
    deletes: map<nat, Delete>,
    tickets: seq<Ticket>,
    confirmed: nat,                            // sum of the values confirm_reservation returned
    released: nat)                             // sum of the values the cleanup returned

  datatype Step =
    | Advance(d: nat)
    | Begin(user: Uuid, reservation: string)
    | Acquire(holder: string, event: Uuid, seat: string)
    | Rollback(holder: string)
    | Issue(holder: string)
    | Open(call: nat, event: Uuid, user: Uuid, reservation: string)
    | Check(call: nat, seat: string)
    | Commit(call: nat)
    | ConfirmSelect(call: nat, reservation: string)
    | CleanupSelect(call: nat)
    | Flush(call: nat)
    | Drop(call: nat)

  function Init(start: int): State {
    State(start, map[], map[], {}, map[], map[], map[], [], 0, 0)
  }

  function Rows(call: Call, now: int): seq<Ticket> {
    seq(|call.checked|, i requires 0 <= i < |call.checked| =>
      Ticket(call.event, call.checked[i].seat, call.user, call.reservation, PendingPayment, now, None, None))
  }

  predicate ToConfirm(t: Ticket, reservation: string) {
    t.reservation == reservation && t.status == PendingPayment
  }

  predicate Stale(t: Ticket, now: int) {
    t.status == PendingPayment && t.lockedAt < now - PENDING_EXPIRY
  }

  function Confirming(ts: seq<Ticket>, reservation: string): set<nat> {
    set i: nat | i < |ts| && ToConfirm(ts[i], reservation)
  }

  function Expiring(ts: seq<Ticket>, now: int): set<nat> {
    set i: nat | i < |ts| && Stale(ts[i], now)
  }

  /** A flush writes its rows by primary key, whatever has become of them since their SELECT. */
  function Write(t: Ticket, cause: Cause, now: int): Ticket {
    match cause
    case ByConfirm => t.(status := Confirmed, confirmedAt := Some(now))
    case ByCleanup => t.(status := Released, releasedAt := Some(now))
  }

  function Written(ts: seq<Ticket>, rows: set<nat>, cause: Cause, now: int): seq<Ticket> {
    seq(|ts|, i requires 0 <= i < |ts| => if i in rows then Write(ts[i], cause, now) else ts[i])
  }

  function KeysAt(ts: seq<Ticket>, at: set<nat>): set<string> {
    set i | i in at && i < |ts| :: KeyOf(ts[i])
  }

  /** A lock_seats whose locks are all still within their time to live. */
  predicate Punctual(taken: map<string, int>, now: int) {
    forall k :: k in taken ==> now < taken[k]
  }

  /** A checkout all of whose checked locks are still within the time to live it has seen. */
  predicate Ready(call: Call, now: int) {
    forall j :: 0 <= j < |call.checked| ==> now < call.checked[j].deadline
  }

  function Selected(s: State, c: nat, cause: Cause, rows: set<nat>): State {
    if c in s.updates || c in s.deletes || rows == {} then s else s.(updates := s.updates[c := Update(cause, rows)])
  }

  /** A step that the code would not take in this state leaves the state as it is.  A holder name
      already in use cannot be begun again: reservation ids come from uuid4. */
  function Next(s: State, step: Step): State {
    match step
    case Advance(d) => s.(now := s.now + d)
    case Begin(u, r) =>
      var h := Holder(u, r);
      if h in s.acquiring || h in s.issued then s else s.(acquiring := s.acquiring[h := map[]])
    case Acquire(h, e, seat) =>
      var k := LockKey(e, seat);
      if h !in s.acquiring || Live(s.locks, k, s.now) then s
      else
        var taken := s.acquiring[h];
        s.(locks := s.locks[k := Lease(h, s.now + LOCK_TTL)],
           acquiring := s.acquiring[h := if k in taken then taken else taken[k := s.now + LOCK_TTL]])
    case Rollback(h) =>
      if h !in s.acquiring then s
      else s.(locks := s.locks - s.acquiring[h].Keys, acquiring := s.acquiring - {h})
    case Issue(h) =>
      if h !in s.acquiring then s
      else s.(acquiring := s.acquiring - {h}, issued := s.issued + {h})
    case Open(c, e, u, r) =>
      if c in s.calls then s else s.(calls := s.calls[c := Call(e, u, r, [])])
    case Check(c, seat) =>
      if c !in s.calls then s
      else
        var call := s.calls[c];
        var k := LockKey(call.event, seat);
        if Get(s.locks, k, s.now) == Some(Holder(call.user, call.reservation))
        then s.(calls := s.calls[c := call.(checked := call.checked + [Checked(seat, s.locks[k].deadline)])])
        else s.(calls := s.calls - {c})
    case Commit(c) =>
      if c !in s.calls then s
      else s.(tickets := s.tickets + Rows(s.calls[c], s.now), calls := s.calls - {c})
    case ConfirmSelect(c, r) => Selected(s, c, ByConfirm, Confirming(s.tickets, r))
    case CleanupSelect(c) => Selected(s, c, ByCleanup, Expiring(s.tickets, s.now))
    case Flush(c) =>
      if c !in s.updates then s
      else
        var u := s.updates[c];
        s.(tickets := Written(s.tickets, u.rows, u.cause, s.now), updates := s.updates - {c},
           deletes := s.deletes[c := Delete(u.cause, u.rows, KeysAt(s.tickets, u.rows))],
           confirmed := s.confirmed + if u.cause == ByConfirm then |u.rows| else 0,
           released := s.released + if u.cause == ByCleanup then |u.rows| else 0)
    case Drop(c) =>
      if c !in s.deletes then s
      else s.(locks := s.locks - s.deletes[c].keys, deletes := s.deletes - {c})
  }

  function Run(s: State, steps: seq<Step>): State {
    if steps == [] then s else Next(Run(s, steps[..|steps| - 1]), steps[|steps| - 1])
  }

  /** A step that would delete a seat's lock, whoever holds it. */
  predicate Cuts(s: State, step: Step, k: string) {
    match step
    case Drop(c) => c in s.deletes && k in s.deletes[c].keys
    case Rollback(h) => h in s.acquiring && k in s.acquiring[h]
    case _ => false
  }

  // ---------------------------------------------------------------- what callers must respect

  predicate HasActive(ts: seq<Ticket>, k: string) {
    exists i :: 0 <= i < |ts| && Active(ts[i]) && KeyOf(ts[i]) == k
  }

  /** The environment assumptions, each one something its caller can test before the call:
      (a) a lock is only taken on a seat without an active ticket;
      (b) a commit lands before the deadlines its checks have seen;
      (c) a cleanup's DELETE lands while none of its keys is locked again;
      (d) a rollback lands before the locks it took expire;
      (e) a checkout does not present the id of a reservation that lock_seats has yet to return;
      (f) a flush lands while the rows it has selected are still pending. */
  predicate Guard(s: State, step: Step) {
    match step
    case Acquire(h, e, seat) =>
        h in s.acquiring && !Live(s.locks, LockKey(e, seat), s.now) ==> !HasActive(s.tickets, LockKey(e, seat))
    case Commit(c) => c in s.calls ==> Ready(s.calls[c], s.now)
    case Drop(c) => c in s.deletes && s.deletes[c].cause == ByCleanup ==>
        forall k :: k in s.deletes[c].keys ==> !Live(s.locks, k, s.now)
    case Rollback(h) => h in s.acquiring ==> Punctual(s.acquiring[h], s.now)
    case Check(c, seat) => c in s.calls ==>
        var h := Holder(s.calls[c].user, s.calls[c].reservation);
        Get(s.locks, LockKey(s.calls[c].event, seat), s.now) == Some(h) ==> h in s.issued
    case Flush(c) => c in s.updates ==>
        forall i :: i in s.updates[c].rows && i < |s.tickets| ==> s.tickets[i].status == PendingPayment
    case _ => true
  }

  predicate Guarded(s: State, steps: seq<Step>) {
    steps == [] ||
    (Guarded(s, steps[..|steps| - 1]) && Guard(Run(s, steps[..|steps| - 1]), steps[|steps| - 1]))
  }

  // ---------------------------------------------------------------- safety

  /** No seat of an event has active tickets of two reservations. */
  ghost predicate Exclusive(ts: seq<Ticket>) {
    forall i, j :: 0 <= i < |ts| && 0 <= j < |ts| && Active(ts[i]) && Active(ts[j])
      && ts[i].event == ts[j].event && ts[i].seat == ts[j].seat
      ==> ts[i].reservation == ts[j].reservation && ts[i].user == ts[j].user
  }

  lemma SameSeatSameKey(t: Ticket, u: Ticket)
    ensures KeyOf(t) == KeyOf(u) <==> t.event == u.event && t.seat == u.seat
  {
    if KeyOf(t) == KeyOf(u) {
      assert KeyOf(t)[10..] == t.event + ":" + t.seat && KeyOf(u)[10..] == u.event + ":" + u.seat;
      Text.FirstColon(t.event, t.seat, u.event, u.seat);
    }
  }

  // ---------------------------------------------------------------- runs in pieces

  /** A run written out: the states it passes through. */
  ghost predicate Passes(states: seq<State>, steps: seq<Step>) {
    |states| == |steps| + 1 && forall i :: 0 <= i < |steps| ==> states[i + 1] == Next(states[i], steps[i])
  }

  lemma {:induction false} PassesIsRun(states: seq<State>, steps: seq<Step>)
    requires Passes(states, steps)
    ensures states[|steps|] == Run(states[0], steps)
  {
    if steps != [] {
      PassesIsRun(states[..|steps|], steps[..|steps| - 1]);
    }
  }

  lemma RunSnoc(s: State, xs: seq<Step>, x: Step)
    ensures Run(s, xs + [x]) == Next(Run(s, xs), x)
    ensures Guarded(s, xs + [x]) <==> Guarded(s, xs) && Guard(Run(s, xs), x)
  {}

  lemma {:induction false} RunConcat(s: State, xs: seq<Step>, ys: seq<Step>)
    ensures Run(s, xs + ys) == Run(Run(s, xs), ys)
    ensures Guarded(s, xs + ys) <==> Guarded(s, xs) && Guarded(Run(s, xs), ys)
  {
    if ys == [] {
      assert xs + ys == xs;
    } else {
      var front, last := ys[..|ys| - 1], ys[|ys| - 1];
      RunConcat(s, xs, front);
      assert xs + ys == (xs + front) + [last];
      RunSnoc(s, xs + front, last);
    }
  }
}
