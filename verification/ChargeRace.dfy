/** Concurrent payment calls as a whole: their key lookups interleave with the attempts they send to
    Stripe, and with attempts for other purchases. */
module ChargeRace {
  import opened Basics
  import opened Payments
  import opened ChargeOnce
  import opened ChargeWindow
  import K = KeyRace

  /** A reply that carried an intent, and the key it was asked for with. */
  datatype Success = Success(key: string, intent: Intent)

  datatype System = System(race: K.Race, server: Server, successes: seq<Success>)

  /** A call that has come back with its key sends any number of attempts with it, at any time. */
  datatype Step =
    | Lookup(event: K.Event)
    | Send(call: nat, request: Request, fault: Fault)
    | Other(purchase: string, minute: nat, request: Request, fault: Fault)

  function Start(now: nat): System { System(K.Start(now), Server(map[], []), []) }

  function Next(digest: string -> string, p: string, s: System, e: Step): System {
    match e
    case Lookup(event) => s.(race := K.Step(digest, p, s.race, event))
    case Send(c, request, fault) =>
      if c !in s.race.replies then s
      else
        var key := s.race.replies[c];
        var (t, reply) := Attempt(s.server, key, request, s.race.now, fault);
        System(s.race, t, if reply.Returned? then s.successes + [Success(key, reply.intent)] else s.successes)
    case Other(q, m, request, fault) =>
      if q == p then s else s.(server := Attempt(s.server, K.Key(digest, q, m), request, s.race.now, fault).0)
  }

  function Run(digest: string -> string, p: string, start: nat, steps: seq<Step>): System {
    if steps == [] then Start(start)
    else Next(digest, p, Run(digest, p, start, steps[..|steps| - 1]), steps[|steps| - 1])
  }

  /** The step is an attempt with the key that Stripe executes. */
  predicate Lands(s: System, e: Step, key: string) {
    e.Send? && e.call in s.race.replies && s.race.replies[e.call] == key && !e.fault.NotExecuted?
  }

  /** When Stripe executed attempts with the key. */
  function LandingsOf(digest: string -> string, p: string, start: nat, steps: seq<Step>, key: string): seq<int> {
    if steps == [] then []
    else
      var front := steps[..|steps| - 1];
      var s := Run(digest, p, start, front);
      LandingsOf(digest, p, start, front, key) + if Lands(s, steps[|steps| - 1], key) then [s.race.now] else []
  }

  // ---------------------------------------------------------------- what one key leads to

  /** All replies for the key carry what Stripe remembers under it. */
  ghost predicate Agreed(s: System, key: string) {
    forall i :: 0 <= i < |s.successes| && s.successes[i].key == key ==> Answers(s.server, key, s.successes[i].intent)
  }

  ghost predicate Charged(s: System, key: string, landings: seq<int>) {
    Filed(s.server, key, landings) && (InTime(landings) ==> Agreed(s, key))
  }

  lemma OwnAttempt(s: System, t: System, key: string, request: Request, fault: Fault, landings: seq<int>, reply: Reply)
    requires Charged(s, key, landings) && Attempt(s.server, key, request, s.race.now, fault) == (t.server, reply)
    requires t.successes == if reply.Returned? then s.successes + [Success(key, reply.intent)] else s.successes
    ensures Charged(t, key, if fault.NotExecuted? then landings else landings + [s.race.now])
  {
    var after := if fault.NotExecuted? then landings else landings + [s.race.now];
    AttemptFiles(s.server, key, request, s.race.now, fault, landings, after, t.server, reply);
    InTimePrefix(landings, [s.race.now]);
    if InTime(after) {
      forall i | 0 <= i < |t.successes| && t.successes[i].key == key
        ensures Answers(t.server, key, t.successes[i].intent)
      {
        if i < |s.successes| {
          assert Answers(s.server, key, s.successes[i].intent);
        }
      }
    }
  }

  lemma OthersAttempt(s: System, t: System, key: string, used: string, landings: seq<int>)
    requires Charged(s, key, landings) && used != key && OnlyUnder(s.server, t.server, used)
    requires s.successes <= t.successes && forall i :: |s.successes| <= i < |t.successes| ==> t.successes[i].key == used
    ensures Charged(t, key, landings)
  {
    OthersFile(s.server, t.server, used, key, landings);
    if InTime(landings) {
      forall i | 0 <= i < |t.successes| && t.successes[i].key == key
        ensures Answers(t.server, key, t.successes[i].intent)
      {
        assert i < |s.successes| && Answers(s.server, key, s.successes[i].intent);
      }
    }
  }

  lemma SendCharges(digest: string -> string, p: string, s: System, e: Step, key: string, landings: seq<int>)
    requires e.Send? && Charged(s, key, landings)
    ensures Charged(Next(digest, p, s, e), key, if Lands(s, e, key) then landings + [s.race.now] else landings)
  {
    if e.call in s.race.replies {
      var used, t := s.race.replies[e.call], Next(digest, p, s, e);
      if used == key {
        OwnAttempt(s, t, key, e.request, e.fault, landings, Attempt(s.server, key, e.request, s.race.now, e.fault).1);
      } else {
        AttemptUnder(s.server, used, e.request, s.race.now, e.fault);
        OthersAttempt(s, t, key, used, landings);
      }
    }
  }

  lemma OtherCharges(digest: string -> string, p: string, s: System, e: Step, minute: nat, landings: seq<int>)
    requires Hash(digest) && e.Other? && Charged(s, K.Key(digest, p, minute), landings)
    ensures Charged(Next(digest, p, s, e), K.Key(digest, p, minute), landings)
  {
    if e.purchase != p {
      var used := K.Key(digest, e.purchase, e.minute);
      if used == K.Key(digest, p, minute) {
        KeysAreApart(digest, e.purchase, e.minute, p, minute);
      }
      AttemptUnder(s.server, used, e.request, s.race.now, e.fault);
      OthersAttempt(s, Next(digest, p, s, e), K.Key(digest, p, minute), used, landings);
    }
  }

  /** In every interleaving: what Stripe has made under a key of the purchase is one intent as long as
      the attempts with that key land in time, and more than one otherwise. */
  lemma {:induction false} RunCharges(digest: string -> string, p: string, start: nat, steps: seq<Step>, minute: nat)
    requires Hash(digest)
    ensures var key := K.Key(digest, p, minute);
            Charged(Run(digest, p, start, steps), key, LandingsOf(digest, p, start, steps, key))
  {
    if steps != [] {
      var front, last, key := steps[..|steps| - 1], steps[|steps| - 1], K.Key(digest, p, minute);
      RunCharges(digest, p, start, front, minute);
      StepCharges(digest, p, Run(digest, p, start, front), last, minute, LandingsOf(digest, p, start, front, key));
    } else {
      assert Charges(Server(map[], []), K.Key(digest, p, minute)) == {};
    }
  }

  lemma StepCharges(digest: string -> string, p: string, s: System, e: Step, minute: nat, landings: seq<int>)
    requires Hash(digest) && Charged(s, K.Key(digest, p, minute), landings)
    ensures var key := K.Key(digest, p, minute);
            Charged(Next(digest, p, s, e), key, landings + if Lands(s, e, key) then [s.race.now] else [])
  {
    assert landings + [] == landings;
    match e
    case Lookup(_) =>
    case Send(_, _, _) => SendCharges(digest, p, s, e, K.Key(digest, p, minute), landings);
    case Other(_, _, _, _) => OtherCharges(digest, p, s, e, minute, landings);
  }

  // ---------------------------------------------------------------- where keys come from

  /** A call that has come back does not come back again with another key. */
  ghost predicate Settled(r: K.Race) {
    && (forall c :: c in r.minutes ==> c in r.misses)
    && (forall c :: c in r.replies && c in r.misses ==> c in r.writes)
  }

  ghost predicate Replied(r: K.Race, key: string) {
    exists c :: c in r.replies && r.replies[c] == key
  }

  lemma LookupKeepsReplies(digest: string -> string, p: string, r: K.Race, e: K.Event)
    requires Settled(r)
    ensures var t := K.Step(digest, p, r, e);
            Settled(t) && forall c :: c in r.replies ==> c in t.replies && t.replies[c] == r.replies[c]
  {}

  /** Every intent for the purchase was asked for with a key some call came back with. */
  ghost predicate Sourced(digest: string -> string, p: string, s: System) {
    forall i: nat, m: nat :: i < |s.server.created| && s.server.created[i].key == K.Key(digest, p, m)
                             ==> Replied(s.race, s.server.created[i].key)
  }

  lemma LookupKeepsSourced(digest: string -> string, p: string, s: System, event: K.Event)
    requires Settled(s.race) && Sourced(digest, p, s)
    ensures Sourced(digest, p, Next(digest, p, s, Lookup(event)))
  {
    var t := Next(digest, p, s, Lookup(event));
    LookupKeepsReplies(digest, p, s.race, event);
    forall i: nat, m: nat | i < |t.server.created| && t.server.created[i].key == K.Key(digest, p, m)
      ensures Replied(t.race, t.server.created[i].key)
    {
      assert Replied(s.race, s.server.created[i].key);
      var c :| c in s.race.replies && s.race.replies[c] == s.server.created[i].key;
      assert c in t.race.replies && t.race.replies[c] == t.server.created[i].key;
    }
  }

  lemma AttemptKeepsSourced(digest: string -> string, p: string, s: System, t: System, used: string)
    requires Sourced(digest, p, s) && OnlyUnder(s.server, t.server, used) && t.race == s.race
    requires Replied(s.race, used) || forall m: nat :: used != K.Key(digest, p, m)
    ensures Sourced(digest, p, t)
  {
    forall i: nat, m: nat | i < |t.server.created| && t.server.created[i].key == K.Key(digest, p, m)
      ensures Replied(t.race, t.server.created[i].key)
    {
      if i < |s.server.created| {
        assert t.server.created[i] == s.server.created[i];
      }
    }
  }

  lemma StepKeepsSourced(digest: string -> string, p: string, s: System, e: Step)
    requires Hash(digest) && Settled(s.race) && Sourced(digest, p, s)
    ensures Settled(Next(digest, p, s, e).race) && Sourced(digest, p, Next(digest, p, s, e))
  {
    match e
    case Lookup(event) =>
      LookupKeepsReplies(digest, p, s.race, event);
      LookupKeepsSourced(digest, p, s, event);
    case Send(c, request, fault) =>
      if c in s.race.replies {
        AttemptUnder(s.server, s.race.replies[c], request, s.race.now, fault);
        assert Replied(s.race, s.race.replies[c]);
        AttemptKeepsSourced(digest, p, s, Next(digest, p, s, e), s.race.replies[c]);
      }
    case Other(q, minute, request, fault) =>
      if q != p {
        AttemptUnder(s.server, K.Key(digest, q, minute), request, s.race.now, fault);
        forall m: nat ensures K.Key(digest, q, minute) != K.Key(digest, p, m) {
          if K.Key(digest, q, minute) == K.Key(digest, p, m) {
            KeysAreApart(digest, q, minute, p, m);
          }
        }
        AttemptKeepsSourced(digest, p, s, Next(digest, p, s, e), K.Key(digest, q, minute));
      }
  }

  lemma {:induction false} RunKeepsSourced(digest: string -> string, p: string, start: nat, steps: seq<Step>)
    requires Hash(digest)
    ensures var s := Run(digest, p, start, steps);
            Settled(s.race) && Sourced(digest, p, s) && K.Inv(digest, p, s.race)
  {
    if steps != [] {
      var s, e := Run(digest, p, start, steps[..|steps| - 1]), steps[|steps| - 1];
      RunKeepsSourced(digest, p, start, steps[..|steps| - 1]);
      StepKeepsSourced(digest, p, s, e);
      if e.Lookup? {
        K.StepKeepsInv(digest, p, s.race, e.event, Next(digest, p, s, e).race);
      }
    }
  }

  // ---------------------------------------------------------------- the promises

  /** Concurrent calls for a purchase that all come back with the same key create at most one intent
      for it if and only if every attempt that Stripe executes lands within 86400 seconds of the
      first; and then every successful reply carries that intent. */
  lemma SameKeyChargesOnceIff(digest: string -> string, p: string, start: nat, steps: seq<Step>, minute: nat)
    requires Hash(digest)
    requires var r := Run(digest, p, start, steps).race;
             forall c :: c in r.replies ==> r.replies[c] == K.Key(digest, p, minute)
    ensures var s, landings := Run(digest, p, start, steps),
                               LandingsOf(digest, p, start, steps, K.Key(digest, p, minute));
            && (ChargedAtMostOnce(digest, Server(map[], []), s.server, p) <==> InTime(landings))
            && (InTime(landings) ==> forall i, j :: 0 <= i < |s.successes| && 0 <= j < |s.successes|
                                       && s.successes[i].key == s.successes[j].key == K.Key(digest, p, minute)
                                       ==> s.successes[i].intent == s.successes[j].intent)
  {
    var s, key := Run(digest, p, start, steps), K.Key(digest, p, minute);
    RunCharges(digest, p, start, steps, minute);
    RunKeepsSourced(digest, p, start, steps);
    OneKeyOnce(digest, p, s, minute, LandingsOf(digest, p, start, steps, key));
  }

  lemma OneKeyOnce(digest: string -> string, p: string, s: System, minute: nat, landings: seq<int>)
    requires Sourced(digest, p, s) && Filed(s.server, K.Key(digest, p, minute), landings)
    requires forall c :: c in s.race.replies ==> s.race.replies[c] == K.Key(digest, p, minute)
    ensures ChargedAtMostOnce(digest, Server(map[], []), s.server, p) <==> InTime(landings)
  {
    var key, created := K.Key(digest, p, minute), s.server.created;
    forall i: nat, m: nat | i < |created| && created[i].key == K.Key(digest, p, m) ensures i in Charges(s.server, key) {
      assert Replied(s.race, created[i].key);
    }
    if InTime(landings) {
      forall i: nat, j: nat, m: nat, n: nat | i < |created| && j < |created| && created[i].key == digest(RawKey(p, m))
        && created[j].key == digest(RawKey(p, n)) ensures i == j
      {
        assert created[i].key == K.Key(digest, p, m) && created[j].key == K.Key(digest, p, n);
      }
    } else {
      var i, j :| i in Charges(s.server, key) && j in Charges(s.server, key) && i != j;
      assert created[i].key == digest(RawKey(p, minute)) && created[j].key == digest(RawKey(p, minute));
    }
  }

  /** In every interleaving of any number of calls: two intents for one purchase have one of two causes.
      Either attempts with one key reached Stripe a day apart, or two misses generated different keys
      in different minutes and raced each other or lie a day apart. */
  lemma TwoIntentsAreExplained(digest: string -> string, p: string, start: nat, steps: seq<Step>, i: nat, j: nat,
                               m: nat, n: nat)
    requires Hash(digest) && i != j
    requires var created := Run(digest, p, start, steps).server.created;
             && i < |created| && j < |created| && created[i].key == K.Key(digest, p, m)
                && created[j].key == K.Key(digest, p, n)
    ensures !InTime(LandingsOf(digest, p, start, steps, K.Key(digest, p, m))) ||
            exists a, b :: K.Explains(digest, p, Run(digest, p, start, steps).race, K.Key(digest, p, m),
                                      K.Key(digest, p, n), a, b)
  {
    var s := Run(digest, p, start, steps);
    RunKeepsSourced(digest, p, start, steps);
    var x, y := s.server.created[i].key, s.server.created[j].key;
    if x == y {
      RunCharges(digest, p, start, steps, m);
      assert i in Charges(s.server, x) && j in Charges(s.server, x);
    } else {
      assert Replied(s.race, x) && Replied(s.race, y);
      var c :| c in s.race.replies && s.race.replies[c] == x;
      var d :| d in s.race.replies && s.race.replies[d] == y;
      K.DifferentKeysExplained(digest, p, s.race, c, d);
    }
  }
}
