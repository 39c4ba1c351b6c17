/** The idempotency key cache with reading, generating and writing as separate steps of concurrent
    calls for one purchase: when can two calls come back with different keys? */
module KeyRace {
  import opened Basics
  import opened RedisModel
  import opened Payments
  import opened ChargeOnce

  datatype Event = Wait(d: nat) | Read(call: nat) | Generate(call: nat) | Write(call: nat)

  /** When something happened: its place in the run, and the clock. */
  datatype Stamp = Stamp(index: nat, time: nat)

  /** misses: calls that found no key; minutes: the minute of the key a call generated; writes: calls
      that cached theirs; replies: the keys calls came back with. */
  datatype Race = Race(now: nat, index: nat, cache: Store, misses: map<nat, Stamp>, minutes: map<nat, nat>,
                       writes: map<nat, Stamp>, replies: map<nat, string>)

  function Key(digest: string -> string, p: string, minute: nat): string { digest(RawKey(p, minute)) }

  function Step(digest: string -> string, p: string, s: Race, e: Event): Race {
    var s := s.(index := s.index + 1);
    match e
    case Wait(d) => s.(now := s.now + d)
    case Read(c) =>
      if c in s.misses || c in s.replies then s
      else (match Get(s.cache, CacheKey(p), s.now)
            case Some(v) => if v != "" then s.(replies := s.replies[c := v])
                            else s.(misses := s.misses[c := Stamp(s.index, s.now)])
            case None => s.(misses := s.misses[c := Stamp(s.index, s.now)]))
    case Generate(c) =>
      if c in s.misses && c !in s.minutes then s.(minutes := s.minutes[c := MinuteBucket(s.now)]) else s
    case Write(c) =>
      if c in s.minutes && c !in s.writes then
        var key := Key(digest, p, s.minutes[c]);
        s.(cache := s.cache[CacheKey(p) := Lease(key, s.now + IDEMPOTENCY_KEY_TTL)],
           writes := s.writes[c := Stamp(s.index, s.now)], replies := s.replies[c := key])
      else s
  }

  function Start(now: nat): Race { Race(now, 0, map[], map[], map[], map[], map[]) }

  function Run(digest: string -> string, p: string, start: nat, events: seq<Event>): Race {
    if events == [] then Start(start)
    else Step(digest, p, Run(digest, p, start, events[..|events| - 1]), events[|events| - 1])
  }

  /** The three steps of a call in a row are the lookup the payment service makes. */
  lemma UndisturbedCall(digest: string -> string, p: string, s: Race, c: nat)
    requires c !in s.misses && c !in s.minutes && c !in s.writes && c !in s.replies
    ensures var t := Step(digest, p, Step(digest, p, Step(digest, p, s, Read(c)), Generate(c)), Write(c));
            && t.replies == s.replies[c := KeyFor(digest, s.cache, s.now, p)]
            && t.cache == CacheAfter(digest, s.cache, s.now, p) && t.now == s.now
  {
    var s1 := Step(digest, p, s, Read(c));
    var s2 := Step(digest, p, s1, Generate(c));
    if Hit(s.cache, s.now, p) {
      assert c !in s1.misses && c !in s2.minutes;
    } else {
      UndisturbedMiss(digest, p, s, c, s1, s2);
    }
  }

  lemma UndisturbedMiss(digest: string -> string, p: string, s: Race, c: nat, s1: Race, s2: Race)
    requires c !in s.misses && c !in s.minutes && c !in s.writes && c !in s.replies && !Hit(s.cache, s.now, p)
    requires s1 == Step(digest, p, s, Read(c)) && s2 == Step(digest, p, s1, Generate(c))
    ensures c in s2.minutes && s2.minutes[c] == MinuteBucket(s.now) && c !in s2.writes
    ensures s2.replies == s.replies && s2.cache == s.cache && s2.now == s.now
  {
    assert s1 == s.(index := s.index + 1, misses := s.misses[c := Stamp(s.index + 1, s.now)]);
  }

  /** A key in circulation was generated and written by some call. */
  ghost predicate Made(digest: string -> string, p: string, s: Race, key: string) {
    exists c :: c in s.writes && c in s.minutes && key == Key(digest, p, s.minutes[c])
  }

  /** b read only once a's cache entry had run out. */
  predicate ReadAfterLapse(s: Race, a: nat, b: nat)
    requires a in s.writes && b in s.misses
  {
    s.writes[a].index < s.misses[b].index && s.writes[a].time + IDEMPOTENCY_KEY_TTL <= s.misses[b].time
  }

  /** Calls go through read, generation and write in this order, and nothing is dated ahead. */
  ghost predicate Placed(s: Race) {
    && (forall c :: c in s.minutes ==> c in s.misses)
    && (forall c :: c in s.writes ==> c in s.minutes)
    && (forall c :: c in s.misses ==> s.misses[c].index <= s.index && s.misses[c].time <= s.now)
    && (forall c :: c in s.writes ==> s.writes[c].index <= s.index && s.writes[c].time <= s.now)
    && (forall c :: c in s.writes ==> s.misses[c].index < s.writes[c].index)
  }

  /** The cache entry outlives every write by a day, so a later miss is a day later. */
  ghost predicate Lasting(p: string, s: Race) {
    && (forall c :: c in s.writes ==> CacheKey(p) in s.cache
                                      && s.writes[c].time + IDEMPOTENCY_KEY_TTL <= s.cache[CacheKey(p)].deadline)
    && (forall a, b :: a in s.writes && b in s.misses ==>
        s.misses[b].index < s.writes[a].index || ReadAfterLapse(s, a, b))
  }

  ghost predicate Known(digest: string -> string, p: string, s: Race) {
    && (CacheKey(p) in s.cache ==> Made(digest, p, s, s.cache[CacheKey(p)].value))
    && (forall c :: c in s.replies ==> Made(digest, p, s, s.replies[c]))
  }

  ghost predicate Inv(digest: string -> string, p: string, s: Race) {
    Placed(s) && Lasting(p, s) && Known(digest, p, s)
  }

  lemma StepKeepsKnown(digest: string -> string, p: string, s: Race, e: Event)
    requires Known(digest, p, s)
    ensures Known(digest, p, Step(digest, p, s, e))
  {}

  lemma StepKeepsPlaced(digest: string -> string, p: string, s: Race, e: Event, t: Race)
    requires Placed(s) && t == Step(digest, p, s, e)
    ensures Placed(t)
  {
    match e
    case Write(c) => WriteKeepsPlaced(digest, p, s, c, t);
    case Read(c) => ReadKeepsPlaced(digest, p, s, c, t);
    case _ => assert t.writes == s.writes && t.misses == s.misses;
  }

  lemma ReadKeepsPlaced(digest: string -> string, p: string, s: Race, c: nat, t: Race)
    requires Placed(s) && t == Step(digest, p, s, Read(c))
    ensures Placed(t)
  {
    ReadEffect(digest, p, s, c, t);
  }

  lemma ReadEffect(digest: string -> string, p: string, s: Race, c: nat, t: Race)
    requires t == Step(digest, p, s, Read(c))
    ensures t == s.(index := s.index + 1, misses := t.misses, replies := t.replies)
    ensures t.misses == s.misses || (t.misses == s.misses[c := Stamp(t.index, t.now)] && c !in s.misses)
  {}

  lemma WriteKeepsPlaced(digest: string -> string, p: string, s: Race, c: nat, t: Race)
    requires Placed(s) && t == Step(digest, p, s, Write(c))
    ensures Placed(t)
  {}

  lemma StepKeepsLasting(digest: string -> string, p: string, s: Race, e: Event, t: Race)
    requires Hash(digest) && Inv(digest, p, s) && t == Step(digest, p, s, e)
    ensures Lasting(p, t)
  {
    match e
    case Read(c) => ReadKeepsLasting(digest, p, s, c, t);
    case Write(c) => WriteKeepsLasting(digest, p, s, c, t);
    case _ =>
      assert t.writes == s.writes && t.misses == s.misses && t.cache == s.cache;
      forall a, b | a in s.writes && b in s.misses
        ensures t.misses[b].index < t.writes[a].index || ReadAfterLapse(t, a, b)
      {
        assert s.misses[b].index < s.writes[a].index || ReadAfterLapse(s, a, b);
      }
  }

  lemma ReadKeepsLasting(digest: string -> string, p: string, s: Race, c: nat, t: Race)
    requires Hash(digest) && Inv(digest, p, s) && t == Step(digest, p, s, Read(c))
    ensures Lasting(p, t)
  {
    forall a, b | a in t.writes && b in t.misses
      ensures t.misses[b].index < t.writes[a].index || ReadAfterLapse(t, a, b)
    {
      if b in s.misses {
        assert s.misses[b].index < s.writes[a].index || ReadAfterLapse(s, a, b);
      } else {
        assert s.cache[CacheKey(p)].value != "";
      }
    }
  }

  lemma WriteKeepsLasting(digest: string -> string, p: string, s: Race, c: nat, t: Race)
    requires Inv(digest, p, s) && t == Step(digest, p, s, Write(c))
    ensures Lasting(p, t)
  {
    forall a, b | a in t.writes && b in t.misses
      ensures t.misses[b].index < t.writes[a].index || ReadAfterLapse(t, a, b)
    {
      if a in s.writes {
        assert s.misses[b].index < s.writes[a].index || ReadAfterLapse(s, a, b);
      }
    }
  }

  lemma StepKeepsInv(digest: string -> string, p: string, s: Race, e: Event, t: Race)
    requires Hash(digest) && Inv(digest, p, s) && t == Step(digest, p, s, e)
    ensures Inv(digest, p, t)
  {
    StepKeepsPlaced(digest, p, s, e, t);
    StepKeepsLasting(digest, p, s, e, t);
    StepKeepsKnown(digest, p, s, e);
  }

  lemma {:induction false} RunKeepsInv(digest: string -> string, p: string, start: nat, events: seq<Event>)
    requires Hash(digest)
    ensures Inv(digest, p, Run(digest, p, start, events))
  {
    if events != [] {
      RunKeepsInv(digest, p, start, events[..|events| - 1]);
      StepKeepsInv(digest, p, Run(digest, p, start, events[..|events| - 1]), events[|events| - 1],
                   Run(digest, p, start, events));
    }
  }

  /** Each of the two calls read before the other one wrote. */
  predicate Raced(s: Race, a: nat, b: nat)
    requires a in s.writes && a in s.misses && b in s.writes && b in s.misses
  {
    s.misses[a].index < s.writes[b].index && s.misses[b].index < s.writes[a].index
  }

  /** Calls a and b generated the two keys, in different minutes, and either raced each other or one
      read a whole day after the other wrote. */
  ghost predicate Explains(digest: string -> string, p: string, s: Race, x: string, y: string, a: nat, b: nat) {
    && a in s.writes && a in s.misses && a in s.minutes && b in s.writes && b in s.misses && b in s.minutes
    && x == Key(digest, p, s.minutes[a]) && y == Key(digest, p, s.minutes[b]) && s.minutes[a] != s.minutes[b]
    && (Raced(s, a, b) || ReadAfterLapse(s, a, b) || ReadAfterLapse(s, b, a))
  }

  lemma DifferentKeysExplained(digest: string -> string, p: string, s: Race, c: nat, d: nat)
    requires Inv(digest, p, s) && c in s.replies && d in s.replies && s.replies[c] != s.replies[d]
    ensures exists a, b :: Explains(digest, p, s, s.replies[c], s.replies[d], a, b)
  {
    var a := Writer(digest, p, s, s.replies[c]);
    var b := Writer(digest, p, s, s.replies[d]);
    Explained(digest, p, s, a, b);
    assert Explains(digest, p, s, s.replies[c], s.replies[d], a, b);
  }

  /** In every interleaving, two calls come back with different keys only if the keys were generated
      by two misses in different minutes that raced each other or lie a day apart. */
  lemma DifferentKeysNeedARace(digest: string -> string, p: string, start: nat, events: seq<Event>, s: Race, c: nat,
                               d: nat)
    requires Hash(digest) && s == Run(digest, p, start, events)
    requires c in s.replies && d in s.replies && s.replies[c] != s.replies[d]
    ensures exists a, b :: Explains(digest, p, s, s.replies[c], s.replies[d], a, b)
  {
    RunKeepsInv(digest, p, start, events);
    DifferentKeysExplained(digest, p, s, c, d);
  }

  lemma Writer(digest: string -> string, p: string, s: Race, key: string) returns (c: nat)
    requires Made(digest, p, s, key)
    ensures c in s.writes && c in s.minutes && key == Key(digest, p, s.minutes[c])
  {
    c :| c in s.writes && c in s.minutes && key == Key(digest, p, s.minutes[c]);
  }

  lemma Explained(digest: string -> string, p: string, s: Race, a: nat, b: nat)
    requires Inv(digest, p, s) && a in s.writes && b in s.writes
    ensures a in s.misses && b in s.misses && (Raced(s, a, b) || ReadAfterLapse(s, a, b) || ReadAfterLapse(s, b, a))
  {}

  /** The two calls themselves need not have raced: call 2 reads after call 0 has come back, within
      the same day, and still gets another key, because call 1 had read before and wrote in between. */
  lemma BystanderGetsAnotherKey(digest: string -> string, p: string) returns (events: seq<Event>, s: Race)
    requires Hash(digest)
    ensures s == Run(digest, p, 0, events) && |events| == 8 && events[7] == Read(2) && events[3] == Write(0)
    ensures 0 in s.replies && 2 in s.replies && s.replies[0] != s.replies[2] && s.now < IDEMPOTENCY_KEY_TTL
  {
    events, s := FirstComesBack(digest, p);
    events, s := SecondOverwrites(digest, p, events, s);
    events, s := WriteThenRead(digest, p, events, s);
    MinutesDiffer(digest, p);
  }

  lemma MinutesDiffer(digest: string -> string, p: string)
    requires Hash(digest)
    ensures Key(digest, p, 0) != Key(digest, p, 1)
  {
    if Key(digest, p, 0) == Key(digest, p, 1) {
      KeysAreApart(digest, p, 0, p, 1);
    }
  }

  lemma WriteThenRead(digest: string -> string, p: string, before: seq<Event>, s: Race)
    returns (events: seq<Event>, t: Race)
    requires Hash(digest) && s == Run(digest, p, 0, before) && s.minutes == map[0 := 0, 1 := 1] && 1 !in s.writes
    requires 2 !in s.misses && s.replies.Keys == {0}
    ensures t == Run(digest, p, 0, events) && events == before + [Write(1), Read(2)] && t.now == s.now
    ensures t.replies == s.replies[1 := Key(digest, p, 1)][2 := Key(digest, p, 1)]
  {
    var u := Step(digest, p, s, Write(1));
    assert Get(u.cache, CacheKey(p), u.now) == Some(Key(digest, p, 1));
    events, t := Extend(digest, p, before, s, Write(1), Read(2));
  }

  lemma FirstComesBack(digest: string -> string, p: string) returns (events: seq<Event>, s: Race)
    ensures s == Run(digest, p, 0, events) && |events| == 4 && events[3] == Write(0)
    ensures s == Race(0, 4, map[CacheKey(p) := Lease(Key(digest, p, 0), IDEMPOTENCY_KEY_TTL)],
                      map[0 := Stamp(1, 0), 1 := Stamp(2, 0)],
                      map[0 := 0], map[0 := Stamp(4, 0)], map[0 := Key(digest, p, 0)])
  {
    events, s := Extend(digest, p, [], Start(0), Read(0), Read(1));
    assert s == Race(0, 2, map[], map[0 := Stamp(1, 0), 1 := Stamp(2, 0)], map[], map[], map[]);
    events, s := Extend(digest, p, events, s, Generate(0), Write(0));
  }

  lemma SecondOverwrites(digest: string -> string, p: string, before: seq<Event>, s: Race)
    returns (events: seq<Event>, t: Race)
    requires s == Run(digest, p, 0, before) && s.now == 0
    requires s.misses.Keys == {0, 1} && s.minutes == map[0 := 0] && s.writes.Keys == {0}
    requires s.replies == map[0 := Key(digest, p, 0)]
    ensures t == Run(digest, p, 0, events) && events == before + [Wait(MINUTE), Generate(1)]
    ensures t == s.(now := MINUTE, index := s.index + 2, minutes := map[0 := 0, 1 := 1])
  {
    events, t := Extend(digest, p, before, s, Wait(MINUTE), Generate(1));
  }

  lemma Extend(digest: string -> string, p: string, before: seq<Event>, s: Race, e: Event, f: Event)
    returns (both: seq<Event>, t: Race)
    requires s == Run(digest, p, 0, before)
    ensures both == before + [e, f] && t == Step(digest, p, Step(digest, p, s, e), f) == Run(digest, p, 0, both)
  {
    both, t := before + [e, f], Step(digest, p, Step(digest, p, s, e), f);
    assert both[..|both| - 1] == before + [e] && (before + [e])[..|before|] == before;
  }
}
