/** The venue calendar: creating, updating and deleting events, with conflict checks. */
module EventCalendar {
  import opened Basics

  const MINUTE: int := 60 * SECOND
  const HOUR: int := 60 * MINUTE
  const DAY: int := 24 * HOUR

  const VALID_CATEGORIES: set<string> :=
    {"music", "conference", "sports", "theater", "comedy", "food_drink", "networking", "workshop", "charity", "other"}
  /** Teardown and setup time between events at a venue. */
  const VENUE_BUFFER: int := 60 * MINUTE

  datatype Status = Draft | Cancelled | OtherStatus(name: string)

  datatype Event = Event(title: string, description: string, venue: Uuid, organizer: Uuid, category: string,
                         capacity: int, start: int, end: int, status: Status, updatedAt: Option<int>)

  datatype EventCreate = EventCreate(title: string, description: string, venue: Uuid, category: string, capacity: int,
                                     start: int, end: int)

  /** The fields a client sent; None stands for a field left out. */
  datatype EventUpdate = EventUpdate(title: Option<string>, description: Option<string>, venue: Option<Uuid>,
                                     category: Option<string>, capacity: Option<int>, start: Option<int>,
                                     end: Option<int>, status: Option<Status>)

  datatype EventError = ValidationError | NotFoundError | ConflictError

  type Table = map<Uuid, Event>

  /** venues: the capacity of every venue. */
  datatype State = State(now: int, venues: map<Uuid, int>, events: Table)

  function OrElse<T>(o: Option<T>, t: T): T { if o.Some? then o.value else t }

  // ---------------------------------------------------------------- validation

  predicate ValidDates(now: int, start: int, end: int) {
    now + HOUR <= start < end <= start + 14 * DAY
  }

  predicate ValidCapacity(venues: map<Uuid, int>, venue: Uuid, capacity: int) {
    venue in venues && 1 <= capacity <= venues[venue]
  }

  /** The two events leave each other the buffer. */
  predicate Apart(start: int, end: int, other: Event) {
    end + VENUE_BUFFER <= other.start || other.end + VENUE_BUFFER <= start
  }

  predicate Blocks(e: Event, venue: Uuid, start: int, end: int) {
    e.venue == venue && e.status != Cancelled && !Apart(start, end, e)
  }

  /** No event at the venue but the excluded one stands in the way. */
  predicate Free(events: Table, venue: Uuid, start: int, end: int, exclude: Option<Uuid>) {
    forall id :: id in events && exclude != Some(id) ==> !Blocks(events[id], venue, start, end)
  }

  // ---------------------------------------------------------------- operations

  datatype Op =
    | Wait(d: nat)
    | Create(id: Uuid, payload: EventCreate, organizer: Uuid, duplicate: bool)
    | Update(id: Uuid, update: EventUpdate, organizer: Uuid)
    | Delete(id: Uuid, organizer: Uuid)

  function NewEvent(p: EventCreate, organizer: Uuid): Event {
    Event(p.title, p.description, p.venue, organizer, p.category, p.capacity, p.start, p.end, Draft, None)
  }

  predicate Timed(u: EventUpdate) { u.start.Some? || u.end.Some? }

  function Patched(e: Event, u: EventUpdate, now: int): Event {
    Event(OrElse(u.title, e.title), OrElse(u.description, e.description), OrElse(u.venue, e.venue), e.organizer,
          OrElse(u.category, e.category), OrElse(u.capacity, e.capacity),
          OrElse(u.start, e.start), OrElse(u.end, e.end), OrElse(u.status, e.status), Some(now))
  }

  /** The first complaint of create_event, the database's own about duplicates last. */
  function CreateError(s: State, p: EventCreate, duplicate: bool): Option<EventError> {
    if p.category !in VALID_CATEGORIES || !ValidDates(s.now, p.start, p.end) then Some(ValidationError)
    else if p.venue !in s.venues then Some(NotFoundError)
    else if !ValidCapacity(s.venues, p.venue, p.capacity) then Some(ValidationError)
    else if !Free(s.events, p.venue, p.start, p.end, None) || duplicate then Some(ConflictError)
    else None
  }

  /** The first complaint of update_event: an empty category and a capacity of zero count as not sent. */
  function UpdateError(s: State, id: Uuid, u: EventUpdate, organizer: Uuid): Option<EventError> {
    if id !in s.events then Some(NotFoundError)
    else
      var e := s.events[id];
      var start, end, venue := OrElse(u.start, e.start), OrElse(u.end, e.end), OrElse(u.venue, e.venue);
      var capacity := OrElse(u.capacity, 0);
      if e.organizer != organizer then Some(ValidationError)
      else if Timed(u) && !ValidDates(s.now, start, end) then Some(ValidationError)
      else if Timed(u) && !Free(s.events, venue, start, end, Some(id)) then Some(ConflictError)
      else if OrElse(u.category, "") != "" && u.category.value !in VALID_CATEGORIES then Some(ValidationError)
      else if capacity != 0 && venue !in s.venues then Some(NotFoundError)
      else if capacity != 0 && !ValidCapacity(s.venues, venue, capacity) then Some(ValidationError)
      else None
  }

  function DeleteError(s: State, id: Uuid, organizer: Uuid): Option<EventError> {
    if id !in s.events then Some(NotFoundError)
    else if s.events[id].organizer != organizer then Some(ValidationError)
    else None
  }

  function ErrorOf(s: State, op: Op): Option<EventError> {
    match op
    case Wait(_) => None
    case Create(_, p, _, duplicate) => CreateError(s, p, duplicate)
    case Update(id, u, organizer) => UpdateError(s, id, u, organizer)
    case Delete(id, organizer) => DeleteError(s, id, organizer)
  }

  /** An operation that raises changes nothing. */
  function Apply(s: State, op: Op): State {
    if ErrorOf(s, op).Some? then s
    else
      match op
      case Wait(d) => s.(now := s.now + d)
      case Create(id, p, organizer, _) => s.(events := s.events[id := NewEvent(p, organizer)])
      case Update(id, u, _) => s.(events := s.events[id := Patched(s.events[id], u, s.now)])
      case Delete(id, _) => s.(events := s.events[id := s.events[id].(status := Cancelled, updatedAt := Some(s.now))])
  }

  // ---------------------------------------------------------------- what they do, in plain terms

  /** Another event that is not cancelled is at the venue and less than an hour away. */
  predicate Nearby(events: Table, id: Uuid, venue: Uuid, start: int, end: int) {
    && id in events && events[id].venue == venue && events[id].status != Cancelled
    && events[id].start < end + 3600 * SECOND && start < events[id].end + 3600 * SECOND
  }

  /** create_event takes one of ten categories, a start an hour ahead or more, an end at most 14 days
      after it, a capacity the venue has, and an hour's distance from every other event there. */
  lemma CreateMeans(s: State, t: State, id: Uuid, p: EventCreate, organizer: Uuid, duplicate: bool,
                    error: Option<EventError>)
    requires t == Apply(s, Create(id, p, organizer, duplicate)) && error == CreateError(s, p, duplicate)
    ensures error == if p.category !in {"music", "conference", "sports", "theater", "comedy", "food_drink",
                                        "networking", "workshop", "charity", "other"}
                        || p.end <= p.start || p.start < s.now + 3600 * SECOND
                        || p.end - p.start > 14 * 86400 * SECOND then Some(ValidationError)
                     else if p.venue !in s.venues then Some(NotFoundError)
                     else if p.capacity < 1 || p.capacity > s.venues[p.venue] then Some(ValidationError)
                     else if duplicate || exists b :: Nearby(s.events, b, p.venue, p.start, p.end)
                     then Some(ConflictError) else None
    ensures error.Some? ==> t == s
    ensures error.None? ==>
              t == s.(events := s.events[id := Event(p.title, p.description, p.venue, organizer, p.category, p.capacity,
                                                     p.start, p.end, Draft, None)])
  {
    FreeMeans(s.events, p.venue, p.start, p.end, None);
  }

  lemma FreeMeans(events: Table, venue: Uuid, start: int, end: int, exclude: Option<Uuid>)
    ensures Free(events, venue, start, end, exclude) <==>
              !exists b :: exclude != Some(b) && Nearby(events, b, venue, start, end)
  {
    if b :| b in events && exclude != Some(b) && Blocks(events[b], venue, start, end) {
      assert Nearby(events, b, venue, start, end);
    }
    if b :| exclude != Some(b) && Nearby(events, b, venue, start, end) {
      assert Blocks(events[b], venue, start, end);
    }
  }

  /** Field by field: what was sent is there, all else is as it was. */
  predicate Rewritten(e: Event, f: Event, u: EventUpdate, now: int) {
    && (match u.title case Some(title) => f.title == title case None => f.title == e.title)
    && (match u.description
        case Some(description) => f.description == description
        case None => f.description == e.description)
    && (match u.venue case Some(venue) => f.venue == venue case None => f.venue == e.venue)
    && (match u.category case Some(category) => f.category == category case None => f.category == e.category)
    && (match u.capacity case Some(capacity) => f.capacity == capacity case None => f.capacity == e.capacity)
    && (match u.start case Some(start) => f.start == start case None => f.start == e.start)
    && (match u.end case Some(end) => f.end == end case None => f.end == e.end)
    && (match u.status case Some(status) => f.status == status case None => f.status == e.status)
    && f.organizer == e.organizer && f.updatedAt == Some(now)
  }

  lemma PatchedMeans(e: Event, u: EventUpdate, now: int)
    ensures Rewritten(e, Patched(e, u, now), u, now)
  {}

  /** update_event is the organizer's alone.  Dates and distance are looked at when a start or an end
      is sent, the category unless it is empty, the capacity unless it is zero. */
  lemma UpdateMeans(s: State, t: State, id: Uuid, u: EventUpdate, organizer: Uuid, error: Option<EventError>,
                    start: int, end: int, venue: Uuid)
    requires t == Apply(s, Update(id, u, organizer)) && error == UpdateError(s, id, u, organizer)
    requires id in s.events ==>
               && start == (if u.start.Some? then u.start.value else s.events[id].start)
               && end == (if u.end.Some? then u.end.value else s.events[id].end)
               && venue == (if u.venue.Some? then u.venue.value else s.events[id].venue)
    ensures error == if id !in s.events then Some(NotFoundError)
                     else if s.events[id].organizer != organizer then Some(ValidationError)
                     else if (u.start.Some? || u.end.Some?)
                             && (end <= start || start < s.now + 3600 * SECOND || end - start > 14 * 86400 * SECOND)
                     then Some(ValidationError)
                     else if (u.start.Some? || u.end.Some?)
                             && exists b :: b != id && Nearby(s.events, b, venue, start, end) then Some(ConflictError)
                     else if u.category.Some? && u.category.value != "" && u.category.value !in VALID_CATEGORIES
                     then Some(ValidationError)
                     else if u.capacity.Some? && u.capacity.value != 0 && venue !in s.venues then Some(NotFoundError)
                     else if u.capacity.Some? && u.capacity.value != 0
                             && (u.capacity.value < 1 || u.capacity.value > s.venues[venue])
                     then Some(ValidationError) else None
    ensures error.Some? ==> t == s
    ensures error.None? ==> id in t.events && Rewritten(s.events[id], t.events[id], u, s.now)
                            && t == s.(events := s.events[id := t.events[id]])
  {
    if id in s.events {
      FreeMeans(s.events, venue, start, end, Some(id));
      PatchedMeans(s.events[id], u, s.now);
    }
  }

  function Run(s: State, ops: seq<Op>): State {
    if ops == [] then s else Apply(Run(s, ops[..|ops| - 1]), ops[|ops| - 1])
  }

  /** Ids are new. */
  predicate FreshId(s: State, op: Op) { op.Create? ==> op.id !in s.events }

  predicate FreshRun(s: State, ops: seq<Op>) {
    ops == [] || (FreshRun(s, ops[..|ops| - 1]) && FreshId(Run(s, ops[..|ops| - 1]), ops[|ops| - 1]))
  }

  // ---------------------------------------------------------------- the calendar invariant

  /** Distinct live events at one venue leave each other the buffer. */
  ghost predicate Calendar(events: Table) {
    forall a, b :: a in events && b in events && a != b && events[a].status != Cancelled
                   ==> !Blocks(events[b], events[a].venue, events[a].start, events[a].end)
  }

  /** The update puts a live event where it was not checked to fit: at another venue, or back from
      cancellation. */
  predicate Uproots(e: Event, u: EventUpdate) {
    OrElse(u.status, e.status) != Cancelled && (OrElse(u.venue, e.venue) != e.venue || e.status == Cancelled)
  }

  lemma Placement(events: Table, id: Uuid, e: Event)
    requires forall a, b :: a in events && b in events && a != b && a != id && b != id && events[a].status != Cancelled
                            ==> !Blocks(events[b], events[a].venue, events[a].start, events[a].end)
    ensures Calendar(events[id := e]) <==> e.status == Cancelled || Free(events, e.venue, e.start, e.end, Some(id))
  {
    var after := events[id := e];
    if e.status == Cancelled || Free(events, e.venue, e.start, e.end, Some(id)) {
      forall a, b | a in after && b in after && a != b && after[a].status != Cancelled
        ensures !Blocks(after[b], after[a].venue, after[a].start, after[a].end)
      {
        if b == id && e.status != Cancelled {
          assert !Blocks(events[a], e.venue, e.start, e.end);
        }
      }
    } else {
      var b :| b in events && Some(id) != Some(b) && Blocks(events[b], e.venue, e.start, e.end);
      assert Blocks(after[b], after[id].venue, after[id].start, after[id].end);
    }
  }

  /** The update sends a time, or leaves the event's place alone, or the place it takes is free. */
  predicate KeepsCalendar(s: State, id: Uuid, u: EventUpdate)
    requires id in s.events
  {
    var e := s.events[id];
    Timed(u) || !Uproots(e, u) || Free(s.events, OrElse(u.venue, e.venue), e.start, e.end, Some(id))
  }

  /** The venue check only runs when a time is sent.  So this is exactly when an accepted update keeps
      the calendar. */
  lemma UpdateKeepsCalendarIff(s: State, id: Uuid, u: EventUpdate, organizer: Uuid)
    requires Calendar(s.events) && UpdateError(s, id, u, organizer).None?
    ensures Calendar(Apply(s, Update(id, u, organizer)).events) <==> KeepsCalendar(s, id, u)
  {
    var e := s.events[id];
    var after := Patched(e, u, s.now);
    Placement(s.events, id, after);
    if !Uproots(e, u) && !Timed(u) && after.status != Cancelled {
      forall b | b in s.events && Some(id) != Some(b)
        ensures !Blocks(s.events[b], after.venue, after.start, after.end)
      {
        assert !Blocks(s.events[b], e.venue, e.start, e.end);
      }
    }
  }

  /** A client's side of the bargain: whatever update the service accepts keeps the calendar. */
  predicate Careful(s: State, op: Op) {
    op.Update? && ErrorOf(s, op).None? ==> KeepsCalendar(s, op.id, op.update)
  }

  predicate CarefulRun(s: State, ops: seq<Op>) {
    ops == [] || (CarefulRun(s, ops[..|ops| - 1]) && Careful(Run(s, ops[..|ops| - 1]), ops[|ops| - 1]))
  }

  /** No venue is double booked at any point of the run. */
  ghost predicate NeverDoubleBooked(s: State, ops: seq<Op>) {
    Calendar(Run(s, ops).events) && (ops == [] || NeverDoubleBooked(s, ops[..|ops| - 1]))
  }

  lemma ApplyKeepsCalendarIff(s: State, op: Op)
    requires Calendar(s.events) && FreshId(s, op)
    ensures Calendar(Apply(s, op).events) <==> Careful(s, op)
  {
    if ErrorOf(s, op).None? {
      match op
      case Create(id, p, organizer, _) => Placement(s.events, id, NewEvent(p, organizer));
      case Update(id, u, organizer) => UpdateKeepsCalendarIff(s, id, u, organizer);
      case Delete(id, _) => Placement(s.events, id, s.events[id].(status := Cancelled, updatedAt := Some(s.now)));
      case Wait(_) =>
    }
  }

  /** Over every run with new ids: no venue is ever double booked if and only if every accepted
      change of place carries a time, or happens to go to a free place. */
  lemma {:induction false} CalendarKeptIff(s: State, ops: seq<Op>)
    requires Calendar(s.events) && FreshRun(s, ops)
    ensures NeverDoubleBooked(s, ops) <==> CarefulRun(s, ops)
  {
    if ops != [] {
      var before := ops[..|ops| - 1];
      CalendarKeptIff(s, before);
      if NeverDoubleBooked(s, before) {
        ApplyKeepsCalendarIff(Run(s, before), ops[|ops| - 1]);
      }
    }
  }

  // ---------------------------------------------------------------- how many events fit

  /** Live events at a venue that start within a closed interval. */
  function Starting(events: Table, venue: Uuid, lo: int, hi: int): set<Uuid> {
    set id | id in events && events[id].venue == venue && events[id].status != Cancelled && lo <= events[id].start <= hi
  }

  ghost predicate Forward(events: Table) {
    forall id :: id in events ==> events[id].start < events[id].end
  }

  /** One for every full hour of the interval, and one more. */
  function Slots(lo: int, hi: int): nat
    requires lo <= hi
  {
    (hi - lo) / HOUR + 1
  }

  /** A venue never hosts more starts in any stretch of time than one per started hour. */
  lemma {:induction false} VenueCapacityInTime(events: Table, venue: Uuid, lo: int, hi: int)
    requires Calendar(events) && Forward(events) && lo <= hi
    ensures |Starting(events, venue, lo, hi)| <= Slots(lo, hi)
    decreases hi - lo
  {
    if Starting(events, venue, lo, hi) != {} {
      var at := LastOfVenue(events, venue, lo, hi);
      if lo <= at - HOUR {
        VenueCapacityInTime(events, venue, lo, at - HOUR);
        OneHourLess(lo, at, hi);
      }
    }
  }

  /** All but the last start come more than an hour before it. */
  lemma LastOfVenue(events: Table, venue: Uuid, lo: int, hi: int) returns (at: int)
    requires Calendar(events) && Forward(events) && Starting(events, venue, lo, hi) != {}
    ensures lo <= at <= hi
    ensures |Starting(events, venue, lo, hi)| <= if lo <= at - HOUR then |Starting(events, venue, lo, at - HOUR)| + 1
            else 1
  {
    var ids := Starting(events, venue, lo, hi);
    var last := LatestStart(events, ids);
    at := events[last].start;
    var rest := Starting(events, venue, lo, at - HOUR);
    EarlierStarts(events, venue, lo, hi, last);
    OneMore(ids, rest, last);
    if at - HOUR < lo {
      assert rest == {};
    }
  }

  lemma OneMore(ids: set<Uuid>, rest: set<Uuid>, last: Uuid)
    requires ids == rest + {last}
    ensures |ids| <= |rest| + 1
  {}

  lemma EarlierStarts(events: Table, venue: Uuid, lo: int, hi: int, last: Uuid)
    requires Calendar(events) && Forward(events) && last in Starting(events, venue, lo, hi)
    requires forall id :: id in Starting(events, venue, lo, hi) ==> events[id].start <= events[last].start
    ensures Starting(events, venue, lo, hi) == Starting(events, venue, lo, events[last].start - HOUR) + {last}
  {}

  lemma OneHourLess(lo: int, at: int, hi: int)
    requires lo + HOUR <= at <= hi
    ensures Slots(lo, at - HOUR) + 1 <= Slots(lo, hi)
  {}

  lemma {:induction false} LatestStart(events: Table, ids: set<Uuid>) returns (last: Uuid)
    requires ids != {} && ids <= events.Keys
    ensures last in ids && forall id :: id in ids ==> events[id].start <= events[last].start
  {
    last :| last in ids;
    if ids != {last} {
      var other := LatestStart(events, ids - {last});
      if events[last].start < events[other].start {
        last := other;
      }
    }
  }

  // ---------------------------------------------------------------- well-formed rows

  /** What create_event validates, but for the distance to the present. */
  predicate Proper(venues: map<Uuid, int>, e: Event) {
    && e.category in VALID_CATEGORIES && e.start < e.end <= e.start + 14 * DAY
    && ValidCapacity(venues, e.venue, e.capacity)
  }

  /** The update sends no empty category, no zero capacity, and no new venue that is unknown or too
      small without a capacity. */
  predicate KeepsProper(s: State, id: Uuid, u: EventUpdate)
    requires id in s.events
  {
    && u.category != Some("") && u.capacity != Some(0)
    && (u.venue.Some? && u.capacity.None? ==>
          u.venue.value in s.venues && s.events[id].capacity <= s.venues[u.venue.value])
  }

  /** An accepted update keeps a row well formed except where the truth tests of update_event take a
      sent value for an absent one, or a smaller venue is taken without sending a capacity. */
  lemma UpdateKeepsProperIff(s: State, id: Uuid, u: EventUpdate, organizer: Uuid)
    requires UpdateError(s, id, u, organizer).None? && Proper(s.venues, s.events[id])
    ensures Proper(s.venues, Apply(s, Update(id, u, organizer)).events[id]) <==> KeepsProper(s, id, u)
  {}

  ghost predicate AllProper(s: State) {
    forall id :: id in s.events ==> Proper(s.venues, s.events[id])
  }

  predicate Complete(s: State, op: Op) {
    op.Update? && ErrorOf(s, op).None? ==> KeepsProper(s, op.id, op.update)
  }

  predicate CompleteRun(s: State, ops: seq<Op>) {
    ops == [] || (CompleteRun(s, ops[..|ops| - 1]) && Complete(Run(s, ops[..|ops| - 1]), ops[|ops| - 1]))
  }

  ghost predicate AlwaysProper(s: State, ops: seq<Op>) {
    AllProper(Run(s, ops)) && (ops == [] || AlwaysProper(s, ops[..|ops| - 1]))
  }

  lemma ApplyKeepsProperIff(s: State, op: Op)
    requires AllProper(s)
    ensures AllProper(Apply(s, op)) <==> Complete(s, op)
  {
    var t := Apply(s, op);
    if op.Update? && ErrorOf(s, op).None? {
      UpdateKeepsProperIff(s, op.id, op.update, op.organizer);
      assert forall id :: id in t.events && id != op.id ==> t.events[id] == s.events[id];
      assert op.id in t.events;
    }
  }

  /** Over every run, all rows stay well formed if and only if every accepted update is of that kind. */
  lemma {:induction false} ProperKeptIff(s: State, ops: seq<Op>)
    requires AllProper(s)
    ensures AlwaysProper(s, ops) <==> CompleteRun(s, ops)
  {
    if ops != [] {
      var before := ops[..|ops| - 1];
      ProperKeptIff(s, before);
      if AlwaysProper(s, before) {
        ApplyKeepsProperIff(Run(s, before), ops[|ops| - 1]);
      }
    }
  }

  /** Over every run, careful or not, events end after they start: a new start or end never goes
      unvalidated. */
  lemma {:induction false} RunsStayForward(s: State, ops: seq<Op>)
    requires Forward(s.events)
    ensures Forward(Run(s, ops).events)
  {
    if ops != [] {
      RunsStayForward(s, ops[..|ops| - 1]);
    }
  }

  /** The capacity of a venue in time, for all careful runs. */
  lemma VenueIsNeverCrowded(now: int, venues: map<Uuid, int>, ops: seq<Op>, venue: Uuid, lo: int, hi: int)
    requires FreshRun(State(now, venues, map[]), ops) && CarefulRun(State(now, venues, map[]), ops) && lo <= hi
    ensures |Starting(Run(State(now, venues, map[]), ops).events, venue, lo, hi)| <= Slots(lo, hi)
  {
    var s := State(now, venues, map[]);
    CalendarKeptIff(s, ops);
    RunsStayForward(s, ops);
    VenueCapacityInTime(Run(s, ops).events, venue, lo, hi);
  }

  /** Rows are never removed, keep their organizer, and change only in that organizer's own calls. */
  lemma {:induction false} RowsBelongToTheirOrganizer(s: State, ops: seq<Op>, id: Uuid)
    requires id in s.events && FreshRun(s, ops)
    ensures var t := Run(s, ops);
            && id in t.events && t.events[id].organizer == s.events[id].organizer
            && (t.events[id] != s.events[id] ==>
                  exists i :: 0 <= i < |ops| && (ops[i].Update? || ops[i].Delete?) && ops[i].id == id
                              && ops[i].organizer == s.events[id].organizer)
  {
    if ops != [] {
      var before, op := ops[..|ops| - 1], ops[|ops| - 1];
      RowsBelongToTheirOrganizer(s, before, id);
      var t := Run(s, before);
      if t.events[id] != s.events[id] {
        var i :| 0 <= i < |before| && (before[i].Update? || before[i].Delete?) && before[i].id == id
                 && before[i].organizer == s.events[id].organizer;
        assert ops[i] == before[i];
      }
      assert FreshId(t, op);
    }
  }

  // ---------------------------------------------------------------- double bookings

  /** A bare change of venue, of status, or of both, can double book: wherever another live event
      stands in the way at the target, the update is accepted and the calendar is broken. */
  lemma UncheckedUpdateDoubleBooks(s: State, id: Uuid, organizer: Uuid, venue: Option<Uuid>, status: Option<Status>)
    requires Calendar(s.events) && id in s.events && s.events[id].organizer == organizer
    requires OrElse(status, s.events[id].status) != Cancelled
    requires !Free(s.events, OrElse(venue, s.events[id].venue), s.events[id].start, s.events[id].end, Some(id))
    ensures var op := Update(id, EventUpdate(None, None, venue, None, None, None, None, status), organizer);
            ErrorOf(s, op).None? && !Calendar(Apply(s, op).events)
  {
    var u := EventUpdate(None, None, venue, None, None, None, None, status);
    UpdateKeepsCalendarIff(s, id, u, organizer);
    var e := s.events[id];
    var b :| b in s.events && Some(id) != Some(b) && Blocks(s.events[b], OrElse(venue, e.venue), e.start, e.end);
    if e.status != Cancelled {
      assert !Blocks(s.events[b], e.venue, e.start, e.end);
    }
    assert Uproots(e, u);
  }

  // ---------------------------------------------------------------- the service

  class EventService {
    var now: int
    const venues: map<Uuid, int>
    var events: Table

    ghost function Db(): State
      reads this
    {
      State(now, venues, events)
    }

    constructor (now: int, venues: map<Uuid, int>)
      ensures Db() == State(now, venues, map[])
    {
      this.now, this.venues, events := now, venues, map[];
    }

    method Advance(d: nat)
      modifies this`now
      ensures Db() == Apply(old(Db()), Wait(d))
    {
      now := now + d;
    }

    method ValidateDates(start: int, end: int) returns (error: Option<EventError>)
      ensures error == if ValidDates(now, start, end) then None else Some(ValidationError)
      ensures error.None? <==> start >= now + 3600 * SECOND && start < end && end - start <= 14 * 86400 * SECOND
    {
      if end <= start {
        return Some(ValidationError);
      }
      if start < now + HOUR {
        return Some(ValidationError);
      }
      if end - start > 14 * DAY {
        return Some(ValidationError);
      }
      return None;
    }

    method ValidateCapacity(venue: Uuid, requested: int) returns (error: Option<EventError>)
      ensures error == if venue !in venues then Some(NotFoundError)
                       else if ValidCapacity(venues, venue, requested) then None else Some(ValidationError)
    {
      if venue !in venues {
        return Some(NotFoundError);
      }
      if requested > venues[venue] {
        return Some(ValidationError);
      }
      if requested < 1 {
        return Some(ValidationError);
      }
      return None;
    }

    /** The conflict query, in the form the database gets it. */
    method CheckVenueConflict(venue: Uuid, start: int, end: int, exclude: Option<Uuid>)
      returns (error: Option<EventError>)
      ensures error == if Free(events, venue, start, end, exclude) then None else Some(ConflictError)
      ensures error.Some? <==> exists b :: exclude != Some(b) && Nearby(events, b, venue, start, end)
    {
      FreeMeans(events, venue, start, end, exclude);
      var bufferedStart, bufferedEnd := start - VENUE_BUFFER, end + VENUE_BUFFER;
      var conflicts := set id | id in events && events[id].venue == venue && events[id].status != Cancelled
                                && events[id].start < bufferedEnd && events[id].end > bufferedStart
                                   && exclude != Some(id);
      if conflicts != {} {
        ghost var id :| id in conflicts;
        assert Blocks(events[id], venue, start, end);
        return Some(ConflictError);
      }
      forall id | id in events && exclude != Some(id) ensures !Blocks(events[id], venue, start, end) {
        assert id !in conflicts;
      }
      return None;
    }

    method CreateEvent(id: Uuid, p: EventCreate, organizer: Uuid, duplicate: bool) returns (error: Option<EventError>)
      modifies this`events
      ensures error == ErrorOf(old(Db()), Create(id, p, organizer, duplicate))
      ensures Db() == Apply(old(Db()), Create(id, p, organizer, duplicate))
      ensures events == if error.Some? then old(events)
                        else old(events)[id := Event(p.title, p.description, p.venue, organizer, p.category, p.capacity,
                                                     p.start, p.end, Draft, None)]
    {
      if p.category !in VALID_CATEGORIES {
        return Some(ValidationError);
      }
      error := ValidateDates(p.start, p.end);
      if error.Some? {
        return;
      }
      error := ValidateCapacity(p.venue, p.capacity);
      if error.Some? {
        return;
      }
      error := CheckVenueConflict(p.venue, p.start, p.end, None);
      if error.Some? {
        return;
      }
      if duplicate {
        return Some(ConflictError);
      }
      events := events[id := NewEvent(p, organizer)];
    }

    /** The setattr loop over the fields sent. */
    method SetFields(e: Event, u: EventUpdate) returns (event: Event)
      ensures event == Patched(e, u, now).(updatedAt := e.updatedAt)
      ensures Rewritten(e, event.(updatedAt := Some(now)), u, now)
    {
      PatchedMeans(e, u, now);
      event := e;
      if u.title.Some? { event := event.(title := u.title.value); }
      if u.description.Some? { event := event.(description := u.description.value); }
      if u.venue.Some? { event := event.(venue := u.venue.value); }
      if u.category.Some? { event := event.(category := u.category.value); }
      if u.capacity.Some? { event := event.(capacity := u.capacity.value); }
      if u.start.Some? { event := event.(start := u.start.value); }
      if u.end.Some? { event := event.(end := u.end.value); }
      if u.status.Some? { event := event.(status := u.status.value); }
    }

    method UpdateEvent(id: Uuid, u: EventUpdate, organizer: Uuid) returns (error: Option<EventError>)
      modifies this`events
      ensures error == ErrorOf(old(Db()), Update(id, u, organizer))
      ensures Db() == Apply(old(Db()), Update(id, u, organizer))
      ensures error.Some? ==> events == old(events)
      ensures error.None? ==> id in events && Rewritten(old(events)[id], events[id], u, now)
                              && events == old(events)[id := events[id]]
    {
      if id !in events {
        return Some(NotFoundError);
      }
      var event := events[id];
      if event.organizer != organizer {
        return Some(ValidationError);
      }
      var venue := OrElse(u.venue, event.venue);
      if u.start.Some? || u.end.Some? {
        var start, end := OrElse(u.start, event.start), OrElse(u.end, event.end);
        error := ValidateDates(start, end);
        if error.Some? {
          return;
        }
        error := CheckVenueConflict(venue, start, end, Some(id));
        if error.Some? {
          return;
        }
      }
      if u.category.Some? && u.category.value != "" && u.category.value !in VALID_CATEGORIES {
        return Some(ValidationError);
      }
      if u.capacity.Some? && u.capacity.value != 0 {
        error := ValidateCapacity(venue, u.capacity.value);
        if error.Some? {
          return;
        }
      }
      event := SetFields(event, u);
      events := events[id := event.(updatedAt := Some(now))];
      return None;
    }

    method DeleteEvent(id: Uuid, organizer: Uuid) returns (error: Option<EventError>)
      modifies this`events
      ensures error == ErrorOf(old(Db()), Delete(id, organizer))
      ensures Db() == Apply(old(Db()), Delete(id, organizer))
      ensures error == if id !in old(events) then Some(NotFoundError)
                       else if old(events)[id].organizer != organizer then Some(ValidationError) else None
      ensures events == if error.Some? then old(events)
                        else old(events)[id := old(events)[id].(status := Cancelled, updatedAt := Some(now))]
    {
      if id !in events {
        return Some(NotFoundError);
      }
      if events[id].organizer != organizer {
        return Some(ValidationError);
      }
      events := events[id := events[id].(status := Cancelled, updatedAt := Some(now))];
      return None;
    }
  }
}
