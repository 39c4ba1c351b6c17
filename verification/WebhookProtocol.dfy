/** Webhook deduplication as a machine: Stripe delivers at least once, handlers run concurrently and
    may die at any point, and an event is marked only after a successful dispatch. */
module WebhookProtocol {
  import opened Basics
  import opened RedisModel

  const WEBHOOK_TOLERANCE_SECONDS: int := 600
  const PROCESSED_EVENT_TTL: int := 604800 * SECOND

  /** A request: the event id in its payload, the timestamp in its header, whether its HMAC is right. */
  datatype Delivery = Delivery(id: string, timestamp: int, signed: bool)

  function MarkKey(id: string): string { "webhook:processed:" + id }

  lemma MarksAreApart(a: string, b: string)
    requires MarkKey(a) == MarkKey(b)
    ensures a == b
  {
    assert MarkKey(a)[18..] == a && MarkKey(b)[18..] == b;
  }

  function Distance(a: int, b: int): nat { if a <= b then b - a else a - b }

  /** _verify_signature, on the clock's whole seconds */
  predicate Accepts(d: Delivery, now: nat) {
    d.signed && Distance(now / SECOND, d.timestamp) <= WEBHOOK_TOLERANCE_SECONDS
  }

  // ---------------------------------------------------------------- the machine

  datatype Step =
    | Wait(d: nat)
    | Verify(h: nat, delivery: Delivery)
    | Check(h: nat)
    | Dispatch(h: nat, succeeds: bool)
    | Mark(h: nat)

  datatype Stamp = Stamp(index: nat, time: nat)

  /** How far a handling has come: at is its check, done its successful dispatch, mark its mark. */
  datatype Phase =
    | Accepted
    | Skipped(seen: Stamp)
    | Checked(at: Stamp)
    | Failed(at: Stamp)
    | Done(at: Stamp, done: Stamp)
    | Marked(at: Stamp, done: Stamp, mark: Stamp)

  datatype Handling = Handling(delivery: Delivery, verified: nat, phase: Phase)

  predicate Succeeded(x: Handling) { x.phase.Done? || x.phase.Marked? }

  predicate WentAhead(x: Handling) { x.phase.Checked? || x.phase.Failed? || Succeeded(x) }

  datatype Web = Web(now: nat, index: nat, store: Store, all: map<nat, Handling>)

  function Start(now: nat): Web { Web(now, 0, map[], map[]) }

  function Key(x: Handling): string { MarkKey(x.delivery.id) }

  function Move(s: Web, h: nat, phase: Phase): Web
    requires h in s.all
  {
    s.(all := s.all[h := s.all[h].(phase := phase)])
  }

  /** A step that does not fit the phase of its handling changes nothing. */
  function Next(s: Web, e: Step): Web {
    var s := s.(index := s.index + 1);
    var stamp := Stamp(s.index, s.now);
    match e
    case Wait(d) => s.(now := s.now + d)
    case Verify(h, d) =>
      if h !in s.all && Accepts(d, s.now) then s.(all := s.all[h := Handling(d, s.now, Accepted)]) else s
    case Check(h) =>
      if h in s.all && s.all[h].phase.Accepted? then
        Move(s, h, if Live(s.store, Key(s.all[h]), s.now) then Skipped(stamp) else Checked(stamp))
      else s
    case Dispatch(h, succeeds) =>
      if h in s.all && s.all[h].phase.Checked? then
        Move(s, h, if succeeds then Done(s.all[h].phase.at, stamp) else Failed(s.all[h].phase.at))
      else s
    case Mark(h) =>
      if h in s.all && s.all[h].phase.Done? then
        Move(s.(store := s.store[Key(s.all[h]) := Lease("1", s.now + PROCESSED_EVENT_TTL)]), h,
             Marked(s.all[h].phase.at, s.all[h].phase.done, stamp))
      else s
  }

  function Run(start: nat, steps: seq<Step>): Web {
    if steps == [] then Start(start) else Next(Run(start, steps[..|steps| - 1]), steps[|steps| - 1])
  }

  // ---------------------------------------------------------------- what every run keeps

  /** The stages of a handling come in order, and nothing is dated ahead. */
  predicate Placed(x: Handling, now: nat, index: nat) {
    && x.verified <= now && Accepts(x.delivery, x.verified)
    && (WentAhead(x) ==> x.phase.at.index <= index && x.verified <= x.phase.at.time <= now)
    && (x.phase.Skipped? ==> x.phase.seen.index <= index && x.verified <= x.phase.seen.time <= now)
    && (Succeeded(x) ==> x.phase.at.index < x.phase.done.index <= index && x.phase.at.time <= x.phase.done.time <= now)
    && (x.phase.Marked? ==>
          x.phase.done.index < x.phase.mark.index <= index && x.phase.done.time <= x.phase.mark.time <= now)
  }

  ghost predicate AllPlaced(s: Web) {
    forall h :: h in s.all ==> Placed(s.all[h], s.now, s.index)
  }

  /** g checked before x's mark, or only once that mark had run out. */
  predicate Apart(x: Handling, g: Handling)
    requires x.phase.Marked? && WentAhead(g)
  {
    g.phase.at.index < x.phase.mark.index || x.phase.mark.time + PROCESSED_EVENT_TTL <= g.phase.at.time
  }

  /** A mark is kept for its full time. */
  ghost predicate Kept(store: Store, x: Handling) {
    x.phase.Marked? ==> Key(x) in store && x.phase.mark.time + PROCESSED_EVENT_TTL <= store[Key(x)].deadline
  }

  ghost predicate Lasting(s: Web) {
    && (forall h :: h in s.all ==> Kept(s.store, s.all[h]))
    && (forall h, g ::
          h in s.all && g in s.all && s.all[h].phase.Marked? && WentAhead(s.all[g]) && Key(s.all[h]) == Key(s.all[g])
          ==> Apart(s.all[h], s.all[g]))
  }

  predicate Looked(x: Handling) { x.phase.Skipped? || WentAhead(x) }

  /** The duplicate check of a handling, whatever it found. */
  function Look(x: Handling): Stamp
    requires Looked(x)
  {
    if x.phase.Skipped? then x.phase.seen else x.phase.at
  }

  /** x dispatched and marked the event before g looked, less than seven days before. */
  predicate Covers(x: Handling, g: Handling)
    requires Looked(g)
  {
    && x.phase.Marked? && x.delivery.id == g.delivery.id
    && x.phase.mark.index < Look(g).index && Look(g).time < x.phase.mark.time + 604800 * SECOND
  }

  predicate Wrote(x: Handling, k: string, deadline: int) {
    x.phase.Marked? && k == Key(x) && deadline == x.phase.mark.time + PROCESSED_EVENT_TTL
  }

  /** Every mark was made by a successful dispatch, and every skip was earned by one. */
  ghost predicate Earned(s: Web) {
    && (forall k :: k in s.store ==> exists h :: h in s.all && Wrote(s.all[h], k, s.store[k].deadline))
    && (forall g :: g in s.all && s.all[g].phase.Skipped? ==> exists h :: h in s.all && Covers(s.all[h], s.all[g]))
  }

  ghost predicate Inv(s: Web) {
    AllPlaced(s) && Lasting(s) && Earned(s)
  }

  /** The step moves one handling at most, never a marked or skipped one. */
  ghost predicate Moves(s: Web, t: Web, h: nat) {
    && s.now <= t.now && t.index == s.index + 1 && (h in s.all ==> h in t.all)
    && (forall g :: g != h ==> (g in s.all <==> g in t.all) && (g in s.all ==> t.all[g] == s.all[g]))
    && (h in s.all && (s.all[h].phase.Marked? || s.all[h].phase.Skipped?) ==> t.all[h] == s.all[h])
    && (h in s.all ==> t.all[h].delivery == s.all[h].delivery && t.all[h].verified == s.all[h].verified
                       && (WentAhead(s.all[h]) ==> WentAhead(t.all[h]) && t.all[h].phase.at == s.all[h].phase.at))
    && (h in t.all && t.store != s.store ==> t.all[h].phase.Marked?)
  }

  function Subject(e: Step): nat { if e.Wait? then 0 else e.h }

  lemma NextMoves(s: Web, e: Step, t: Web)
    requires t == Next(s, e)
    ensures Moves(s, t, Subject(e))
  {}

  lemma NextKeepsPlaced(s: Web, e: Step, t: Web)
    requires AllPlaced(s) && t == Next(s, e)
    ensures AllPlaced(t)
  {
    NextMoves(s, e, t);
    forall h | h in t.all ensures Placed(t.all[h], t.now, t.index) {
      if h != Subject(e) {
        assert Placed(s.all[h], s.now, s.index);
      } else {
        SubjectStaysPlaced(s, e, t);
      }
    }
  }

  lemma SubjectStaysPlaced(s: Web, e: Step, t: Web)
    requires t == Next(s, e) && Subject(e) in t.all
    requires Subject(e) in s.all ==> Placed(s.all[Subject(e)], s.now, s.index)
    ensures Placed(t.all[Subject(e)], t.now, t.index)
  {}

  /** The store changes only where a handling marks its event. */
  lemma StoreEffect(s: Web, e: Step, t: Web)
    requires t == Next(s, e)
    ensures t.store == s.store ||
            (var h := Subject(e);
             && h in s.all && h in t.all && s.all[h].phase.Done? && t.all[h].phase.Marked? && t.now == s.now
             && t.all[h].phase.mark == Stamp(t.index, s.now) && Key(t.all[h]) == Key(s.all[h])
             && t.store == s.store[Key(s.all[h]) := Lease("1", s.now + PROCESSED_EVENT_TTL)])
  {}

  lemma NextKeepsKept(s: Web, e: Step, t: Web)
    requires Inv(s) && t == Next(s, e)
    ensures forall h :: h in t.all ==> Kept(t.store, t.all[h])
  {}

  /** What the subject of a step becomes, when it goes ahead or is marked by it. */
  lemma SubjectEffect(s: Web, e: Step, t: Web)
    requires t == Next(s, e) && Subject(e) in t.all
    ensures var h := Subject(e);
            && (WentAhead(t.all[h]) ==> h in s.all && (WentAhead(s.all[h]) || (!Live(s.store, Key(s.all[h]), s.now)
                                                      && t.all[h].phase == Checked(Stamp(t.index, s.now)))))
            && (t.all[h].phase.Marked? ==>
                  h in s.all && (s.all[h] == t.all[h] || t.all[h].phase.mark == Stamp(t.index, s.now)))
            && (t.all[h].phase.Skipped? ==> h in s.all && (s.all[h] == t.all[h] || (Live(s.store, Key(s.all[h]), s.now)
                                                           && t.all[h].phase.seen == Stamp(t.index, s.now))))
  {}

  lemma StaysApart(s: Web, e: Step, t: Web, h: nat, g: nat)
    requires AllPlaced(s) && Lasting(s) && t == Next(s, e) && h in t.all && g in t.all
    requires t.all[h].phase.Marked? && WentAhead(t.all[g]) && Key(t.all[h]) == Key(t.all[g])
    ensures Apart(t.all[h], t.all[g])
  {
    NextMoves(s, e, t);
    if Subject(e) in t.all {
      SubjectEffect(s, e, t);
    }
    assert h in s.all && g in s.all && Placed(s.all[g], s.now, s.index) && Placed(s.all[h], s.now, s.index);
    assert Kept(s.store, s.all[h]);
    if s.all[h].phase.Marked? && WentAhead(s.all[g]) {
      assert Apart(s.all[h], s.all[g]);
    }
  }

  lemma NextKeepsLasting(s: Web, e: Step, t: Web)
    requires Inv(s) && t == Next(s, e)
    ensures Lasting(t)
  {
    NextKeepsKept(s, e, t);
    forall h, g | h in t.all && g in t.all && t.all[h].phase.Marked? && WentAhead(t.all[g])
                  && Key(t.all[h]) == Key(t.all[g])
      ensures Apart(t.all[h], t.all[g])
    {
      StaysApart(s, e, t, h, g);
    }
  }

  lemma MarkEarned(s: Web, e: Step, t: Web, k: string)
    requires Earned(s) && t == Next(s, e) && k in t.store
    ensures exists h :: h in t.all && Wrote(t.all[h], k, t.store[k].deadline)
  {
    NextMoves(s, e, t);
    StoreEffect(s, e, t);
    if k in s.store && t.store[k] == s.store[k] {
      OldMarkEarned(s, t, Subject(e), k);
    } else {
      assert Wrote(t.all[Subject(e)], k, t.store[k].deadline);
    }
  }

  lemma OldMarkEarned(s: Web, t: Web, moved: nat, k: string)
    requires Earned(s) && Moves(s, t, moved) && k in s.store && k in t.store && t.store[k] == s.store[k]
    ensures exists h :: h in t.all && Wrote(t.all[h], k, t.store[k].deadline)
  {
    var h :| h in s.all && Wrote(s.all[h], k, s.store[k].deadline);
    assert Wrote(t.all[h], k, t.store[k].deadline);
  }

  lemma SkipEarned(s: Web, e: Step, t: Web, g: nat)
    requires AllPlaced(s) && Earned(s) && t == Next(s, e) && g in t.all && t.all[g].phase.Skipped?
    ensures exists h :: h in t.all && Covers(t.all[h], t.all[g])
  {
    NextMoves(s, e, t);
    if g == Subject(e) {
      SubjectEffect(s, e, t);
    }
    if g in s.all && s.all[g] == t.all[g] {
      OldSkipEarned(s, t, Subject(e), g);
    } else {
      NewSkipEarned(s, t, g);
    }
  }

  lemma OldSkipEarned(s: Web, t: Web, moved: nat, g: nat)
    requires Earned(s) && Moves(s, t, moved) && g in s.all && g in t.all && s.all[g] == t.all[g]
    requires t.all[g].phase.Skipped?
    ensures exists h :: h in t.all && Covers(t.all[h], t.all[g])
  {
    var h :| h in s.all && Covers(s.all[h], s.all[g]);
    assert Covers(t.all[h], t.all[g]);
  }

  lemma NewSkipEarned(s: Web, t: Web, g: nat)
    requires AllPlaced(s) && Earned(s) && Moves(s, t, g) && g in s.all && g in t.all
    requires Live(s.store, Key(s.all[g]), s.now) && t.all[g].phase == Skipped(Stamp(t.index, s.now))
    ensures exists h :: h in t.all && Covers(t.all[h], t.all[g])
  {
    var h := LiveMarkEarned(s, s.all[g]);
    assert Covers(t.all[h], t.all[g]);
  }

  lemma LiveMarkEarned(s: Web, x: Handling) returns (h: nat)
    requires AllPlaced(s) && Earned(s) && Live(s.store, Key(x), s.now)
    ensures h in s.all && s.all[h].phase.Marked? && s.all[h].delivery.id == x.delivery.id
    ensures s.all[h].phase.mark.index <= s.index && s.now < s.all[h].phase.mark.time + PROCESSED_EVENT_TTL
  {
    h :| h in s.all && Wrote(s.all[h], Key(x), s.store[Key(x)].deadline);
    assert Placed(s.all[h], s.now, s.index);
    MarksAreApart(x.delivery.id, s.all[h].delivery.id);
  }

  lemma NextKeepsInv(s: Web, e: Step, t: Web)
    requires Inv(s) && t == Next(s, e)
    ensures Inv(t)
  {
    NextKeepsPlaced(s, e, t);
    NextKeepsLasting(s, e, t);
    forall k | k in t.store ensures exists h :: h in t.all && Wrote(t.all[h], k, t.store[k].deadline) {
      MarkEarned(s, e, t, k);
    }
    forall g | g in t.all && t.all[g].phase.Skipped? ensures exists h :: h in t.all && Covers(t.all[h], t.all[g]) {
      SkipEarned(s, e, t, g);
    }
  }

  lemma {:induction false} RunKeepsInv(start: nat, steps: seq<Step>)
    ensures Inv(Run(start, steps))
  {
    if steps != [] {
      RunKeepsInv(start, steps[..|steps| - 1]);
      NextKeepsInv(Run(start, steps[..|steps| - 1]), steps[|steps| - 1], Run(start, steps));
    }
  }

  // ---------------------------------------------------------------- the promises

  /** What the duplicate check finds: in any run, a handling is skipped if and only if some handling
      of the same event had been marked before it looked, less than seven days before. */
  lemma SkippedIff(start: nat, steps: seq<Step>, s: Web, g: nat)
    requires s == Run(start, steps) && g in s.all && Looked(s.all[g])
    ensures s.all[g].phase.Skipped? <==> exists h :: h in s.all && Covers(s.all[h], s.all[g])
  {
    RunKeepsInv(start, steps);
    if WentAhead(s.all[g]) {
      forall h | h in s.all && s.all[h].phase.Marked? && s.all[h].delivery.id == s.all[g].delivery.id
        ensures !Covers(s.all[h], s.all[g])
      {
        assert Key(s.all[h]) == Key(s.all[g]) && Apart(s.all[h], s.all[g]);
      }
    }
  }

  /** A skipped delivery is never a lost event: an earlier handling of the same event had succeeded
      and been marked less than seven days before.  In particular failures never suppress retries. */
  lemma SkipsAreEarned(start: nat, steps: seq<Step>, s: Web, g: nat) returns (h: nat)
    requires s == Run(start, steps) && g in s.all && s.all[g].phase.Skipped?
    ensures h in s.all && h != g && Covers(s.all[h], s.all[g])
  {
    SkippedIff(start, steps, s, g);
    h :| h in s.all && Covers(s.all[h], s.all[g]);
  }

  /** g checked while x had not yet marked the event. */
  predicate Overlooked(x: Handling, g: Handling)
    requires Looked(g)
  {
    x.phase.Marked? ==> Look(g).index < x.phase.mark.index
  }

  /** g checked at least seven days after x marked the event. */
  predicate MarkRanOut(x: Handling, g: Handling)
    requires Looked(g)
  {
    x.phase.Marked? && x.phase.mark.time + 604800 * SECOND <= Look(g).time
  }

  /** Nothing more will happen to the event at this handling's hand. */
  predicate Finished(x: Handling) { x.phase.Skipped? || x.phase.Failed? || Succeeded(x) }

  /** When a handling takes effect: exactly when its dispatch does not fail and it had overlooked every
      mark of the event, or looked once that mark had run out. */
  lemma TakesEffectIff(start: nat, steps: seq<Step>, s: Web, g: nat)
    requires s == Run(start, steps) && g in s.all && Finished(s.all[g])
    ensures Succeeded(s.all[g]) <==>
              !s.all[g].phase.Failed? &&
              forall h :: h in s.all && s.all[h].delivery.id == s.all[g].delivery.id
                          ==> Overlooked(s.all[h], s.all[g]) || MarkRanOut(s.all[h], s.all[g])
  {
    SkippedIff(start, steps, s, g);
    if WentAhead(s.all[g]) {
      RunKeepsInv(start, steps);
      forall h | h in s.all && s.all[h].delivery.id == s.all[g].delivery.id && s.all[h].phase.Marked?
        ensures Overlooked(s.all[h], s.all[g]) || MarkRanOut(s.all[h], s.all[g])
      {
        assert Apart(s.all[h], s.all[g]);
      }
    } else {
      var h :| h in s.all && Covers(s.all[h], s.all[g]);
      assert !Overlooked(s.all[h], s.all[g]) && !MarkRanOut(s.all[h], s.all[g]);
    }
  }

  /** So two handlings of one event both take effect only if each checked before the other had marked
      it (they overlapped, or one died before its mark), or one checked seven days after the other's
      mark. */
  lemma TwoEffectsNeedAnOverlap(start: nat, steps: seq<Step>, s: Web, g: nat, h: nat)
    requires s == Run(start, steps) && g != h && g in s.all && h in s.all
    requires Succeeded(s.all[g]) && Succeeded(s.all[h]) && s.all[g].delivery.id == s.all[h].delivery.id
    ensures (Overlooked(s.all[g], s.all[h]) && Overlooked(s.all[h], s.all[g])) ||
            MarkRanOut(s.all[g], s.all[h]) || MarkRanOut(s.all[h], s.all[g])
  {
    TakesEffectIff(start, steps, s, g);
    TakesEffectIff(start, steps, s, h);
  }

  /** No stall of days between the signature check and the duplicate check. */
  predicate Swift(x: Handling)
    requires Looked(x)
  {
    Look(x).time - x.verified <= PROCESSED_EVENT_TTL - 1201 * SECOND
  }

  /** Copies of one signed request are only accepted within 1201 seconds of each other, so a swift
      handling of one never finds another's mark run out. */
  lemma CopiesMarksLast(start: nat, steps: seq<Step>, s: Web, g: nat, h: nat)
    requires s == Run(start, steps) && g in s.all && h in s.all && s.all[g].delivery == s.all[h].delivery
    ensures -1201 * SECOND < s.all[g].verified - s.all[h].verified < 1201 * SECOND
    ensures Looked(s.all[g]) && Swift(s.all[g]) ==> !MarkRanOut(s.all[h], s.all[g])
  {
    RunKeepsInv(start, steps);
    assert Placed(s.all[g], s.now, s.index) && Placed(s.all[h], s.now, s.index);
    SameTimestamp(s.all[g].verified, s.all[h].verified, s.all[g].delivery);
  }

  /** Replays, exactly: as long as an event comes in copies of one signed request and its handlings
      are swift, a copy has no effect if and only if its dispatch fails or some copy had been marked
      before it looked. */
  lemma ReplayHasNoEffectIff(start: nat, steps: seq<Step>, s: Web, g: nat)
    requires s == Run(start, steps) && g in s.all && Finished(s.all[g]) && Swift(s.all[g])
    requires forall h :: h in s.all && s.all[h].delivery.id == s.all[g].delivery.id ==>
               s.all[h].delivery == s.all[g].delivery
    ensures !Succeeded(s.all[g]) <==>
              s.all[g].phase.Failed? ||
              exists h :: h in s.all && s.all[h].delivery == s.all[g].delivery && !Overlooked(s.all[h], s.all[g])
  {
    TakesEffectIff(start, steps, s, g);
    forall h | h in s.all && s.all[h].delivery == s.all[g].delivery ensures !MarkRanOut(s.all[h], s.all[g]) {
      CopiesMarksLast(start, steps, s, g, h);
    }
  }

  /** Whatever else comes for the event: two copies of one signed request both take effect only if
      they overlap, or one dawdles for nearly seven days between its signature check and its
      duplicate check. */
  lemma ReplaysMustOverlap(start: nat, steps: seq<Step>, s: Web, g: nat, h: nat)
    requires s == Run(start, steps) && g != h && g in s.all && h in s.all
    requires Succeeded(s.all[g]) && Succeeded(s.all[h]) && s.all[g].delivery == s.all[h].delivery
    ensures -1201 * SECOND < s.all[g].verified - s.all[h].verified < 1201 * SECOND
    ensures (Overlooked(s.all[g], s.all[h]) && Overlooked(s.all[h], s.all[g])) || !Swift(s.all[g]) || !Swift(s.all[h])
  {
    TwoEffectsNeedAnOverlap(start, steps, s, g, h);
    CopiesMarksLast(start, steps, s, g, h);
    CopiesMarksLast(start, steps, s, h, g);
  }

  lemma SameTimestamp(a: nat, b: nat, d: Delivery)
    requires Accepts(d, a) && Accepts(d, b)
    ensures -1201 * SECOND < a - b < 1201 * SECOND
  {}

  /** The replay window is not harmless to concurrent handlers: two copies of one request, arriving
      together, both take effect. */
  lemma TogetherBothTakeEffect(d: Delivery, now: nat) returns (steps: seq<Step>, s: Web)
    requires Accepts(d, now)
    ensures s == Run(now, steps)
    ensures steps == [Verify(0, d), Verify(1, d), Check(0), Check(1), Dispatch(0, true), Dispatch(1, true)]
    ensures 0 in s.all && 1 in s.all && Succeeded(s.all[0]) && Succeeded(s.all[1]) && s.now == now
    ensures s.all[0].delivery == s.all[1].delivery
  {
    steps, s := Twice(now, [], Start(now), Verify(0, d), Verify(1, d));
    steps, s := Twice(now, steps, s, Check(0), Check(1));
    steps, s := Twice(now, steps, s, Dispatch(0, true), Dispatch(1, true));
  }

  /** ... and so do two in a row when the first handler dies between its dispatch and its mark. */
  lemma CrashBeforeMarkRepeats(d: Delivery, now: nat) returns (steps: seq<Step>, s: Web)
    requires Accepts(d, now)
    ensures s == Run(now, steps)
    ensures steps == [Verify(0, d), Check(0), Dispatch(0, true), Verify(1, d), Check(1), Dispatch(1, true)]
    ensures 0 in s.all && 1 in s.all && Succeeded(s.all[0]) && Succeeded(s.all[1]) && s.now == now
    ensures s.all[0].delivery == s.all[1].delivery
  {
    steps, s := Twice(now, [], Start(now), Verify(0, d), Check(0));
    steps, s := Twice(now, steps, s, Dispatch(0, true), Verify(1, d));
    steps, s := Twice(now, steps, s, Check(1), Dispatch(1, true));
  }

  lemma Twice(start: nat, before: seq<Step>, s: Web, e: Step, f: Step) returns (steps: seq<Step>, t: Web)
    requires s == Run(start, before)
    ensures steps == before + [e, f] && t == Next(Next(s, e), f) == Run(start, steps)
  {
    steps, t := before + [e, f], Next(Next(s, e), f);
    assert steps[..|steps| - 1] == before + [e] && (before + [e])[..|before|] == before;
  }
}
