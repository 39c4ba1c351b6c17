/** Events created at the same time: the conflict query of create_event and its insert are two calls. */
module CalendarRace {
  import opened Basics
  import opened EventCalendar
  import C = CheckThenInsert

  /** e stands in the way of f. */
  predicate InTheWay(e: Event, f: Event) { Blocks(e, f.venue, f.start, f.end) }

  /** A live event that starts within a given hour at a venue, the full hour included. */
  predicate StartsIn(e: Event, venue: Uuid, lo: int) {
    e.venue == venue && e.status != Cancelled && lo <= e.start <= lo + HOUR && e.start < e.end
  }

  /** Without interruption the two calls are create_event. */
  lemma UndisturbedCreate(s: State, id: Uuid, p: EventCreate, organizer: Uuid)
    requires CreateError(s, p, false).None? || CreateError(s, p, false) == Some(ConflictError)
    requires id !in s.events
    ensures var checked := C.Next(InTheWay, C.State(s.events, map[]), C.Check(0, NewEvent(p, organizer)));
            C.Next(InTheWay, checked, C.Insert(0, id)) ==
              C.State(Apply(s, Create(id, p, organizer, false)).events, map[])
  {
    var event := NewEvent(p, organizer);
    assert C.Blocked(InTheWay, s.events, event) <==> !Free(s.events, p.venue, p.start, p.end, None);
    assert map[0 := event] - {0} == map[];
  }

  /** In every interleaving of creations and removals: if at most r creations for a venue and an hour
      are between query and insert at a time, at most r live events start there within that hour. */
  lemma HourIsNeverCrowded(steps: seq<C.Step<Uuid, Event>>, venue: Uuid, lo: int, racers: nat)
    requires C.AtMost(InTheWay, (e: Event) => StartsIn(e, venue, lo), C.Start(), steps, racers)
    ensures var events := C.Run(InTheWay, C.Start(), steps).rows;
            |set id | id in events && StartsIn(events[id], venue, lo)| <= racers
  {
    var among := (e: Event) => StartsIn(e, venue, lo);
    C.RacersBound(InTheWay, among, steps, racers);
    var events := C.Run(InTheWay, C.Start(), steps).rows;
    assert C.Within(events, among) == set id | id in events && StartsIn(events[id], venue, lo);
  }

  /** ... and r creations that race do double book the venue r times over, numbers serving as ids. */
  lemma RacersDoubleBook(event: Event, title: nat -> string, racers: nat) returns (steps: seq<C.Step<nat, Event>>)
    requires event.status != Cancelled && event.start < event.end
    ensures C.AtMost(InTheWay, (e: Event) => StartsIn(e, event.venue, event.start), C.Start(), steps, racers)
    ensures var events := C.Run(InTheWay, C.Start(), steps).rows;
            |set i | i in events && StartsIn(events[i], event.venue, event.start)| == racers
  {
    var among := (e: Event) => StartsIn(e, event.venue, event.start);
    steps := C.RacersReachTheBound(InTheWay, among, n => event.(title := title(n)), racers);
    var events := C.Run(InTheWay, C.Start(), steps).rows;
    assert C.Within(events, among) == set i | i in events && StartsIn(events[i], event.venue, event.start);
  }
}
