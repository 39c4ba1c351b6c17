/** At most one PaymentIntent per purchase and day, and exactly when. */
module ChargeWindow {
  import opened Basics
  import opened RedisModel
  import opened Payments
  import opened ChargeOnce

  // ---------------------------------------------------------------- when attempts reach Stripe

  /** When the executed attempts of a loop reached Stripe, whatever became of the replies. */
  function Landings(trace: seq<Attempted>): seq<int> {
    if trace == [] then []
    else
      var front, last := Landings(trace[..|trace| - 1]), trace[|trace| - 1];
      if last.executed then front + [last.at] else front
  }

  /** When the attempts of all calls for a purchase were executed. */
  function AllLandings(calls: seq<Call>, answers: seq<Answer>, p: string): seq<int>
    requires |calls| == |answers|
  {
    if calls == [] then []
    else (if For(calls[0], p) then Landings(answers[0].trace) else []) + AllLandings(calls[1..], answers[1..], p)
  }

  /** All calls for the purchase were made before a given time. */
  predicate MadeBefore(calls: seq<Call>, answers: seq<Answer>, p: string, limit: int)
    requires |calls| == |answers|
  {
    forall i :: 0 <= i < |calls| && For(calls[i], p) ==> answers[i].at < limit
  }

  /** Everything lands before Stripe forgets the first. */
  predicate InTime(landings: seq<int>) {
    forall l :: l in landings ==> l < landings[0] + 86400 * SECOND
  }

  lemma InTimePrefix(a: seq<int>, b: seq<int>)
    ensures InTime(a + b) ==> InTime(a)
    ensures a == [] ==> a + b == b
  {
    if InTime(a + b) {
      forall l | l in a ensures l < a[0] + STRIPE_RETENTION {
        assert l in a + b && (a + b)[0] == a[0];
      }
    }
  }

  // ---------------------------------------------------------------- one key at the server

  function Charges(sv: Server, key: string): set<nat> {
    set i: nat | i < |sv.created| && sv.created[i].key == key
  }

  ghost predicate ChargedOnce(sv: Server, key: string, at: int) {
    && key in sv.results && sv.results[key].at == at
    && exists i: nat :: i < |sv.created| && Charges(sv, key) == {i}
                        && sv.created[i] == Creation(key, sv.results[key].intent, at)
  }

  ghost predicate ChargedTwice(sv: Server, key: string) {
    exists i, j :: i in Charges(sv, key) && j in Charges(sv, key) && i != j
  }

  /** What Stripe holds under a key that saw its first attempts at the given times. */
  ghost predicate Filed(sv: Server, key: string, landings: seq<int>) {
    if landings == [] then Charges(sv, key) == {} && key !in sv.results
    else if InTime(landings) then ChargedOnce(sv, key, landings[0])
    else ChargedTwice(sv, key)
  }

  /** As long as all is in time, what Stripe remembers under the key does not change. */
  ghost predicate Remembered(before: Server, after: Server, key: string, was: seq<int>, landings: seq<int>) {
    InTime(landings) && was != [] ==>
      key in before.results && key in after.results && after.results[key] == before.results[key]
  }

  ghost predicate Answers(sv: Server, key: string, intent: Intent) {
    key in sv.results && intent == sv.results[key].intent
  }

  lemma FirstLanding(s: Server, key: string, request: Request, now: int, t: Server)
    requires Filed(s, key, []) && t == Serve(s, key, request, now).0
    ensures ChargedOnce(t, key, now)
  {
    var n := |s.created|;
    assert t.created[n] == Creation(key, t.results[key].intent, now);
    assert forall i: nat :: i < n ==> i !in Charges(s, key);
    assert Charges(t, key) == {n};
  }

  lemma LateLanding(s: Server, key: string, request: Request, now: int, at: int, t: Server)
    requires ChargedOnce(s, key, at) && now >= at + STRIPE_RETENTION && t == Serve(s, key, request, now).0
    ensures ChargedTwice(t, key)
  {
    var i: nat :| i < |s.created| && Charges(s, key) == {i} && s.created[i] == Creation(key, s.results[key].intent, at);
    assert i in Charges(s, key);
    assert i in Charges(t, key) && |s.created| in Charges(t, key);
  }

  lemma TwiceStays(s: Server, t: Server, key: string)
    requires ChargedTwice(s, key) && s.created <= t.created
    ensures ChargedTwice(t, key)
  {
    var i, j :| i in Charges(s, key) && j in Charges(s, key) && i != j;
    assert i in Charges(t, key) && j in Charges(t, key);
  }

  lemma InTimeSnoc(landings: seq<int>, now: int)
    ensures InTime(landings + [now]) <==> landings == [] || (InTime(landings) && now < landings[0] + STRIPE_RETENTION)
  {
    InTimePrefix(landings, [now]);
    assert now in landings + [now];
  }

  lemma AttemptFiles(s: Server, key: string, request: Request, now: int, fault: Fault, landings: seq<int>,
                     after: seq<int>, t: Server, reply: Reply)
    requires Filed(s, key, landings) && Attempt(s, key, request, now, fault) == (t, reply)
    requires after == if fault.NotExecuted? then landings else landings + [now]
    ensures Filed(t, key, after) && Remembered(s, t, key, landings, after)
    ensures InTime(after) && reply.Returned? ==> Answers(t, key, reply.intent)
  {
    if !fault.NotExecuted? {
      InTimeSnoc(landings, now);
      if landings == [] {
        FirstLanding(s, key, request, now, t);
      } else if !InTime(landings) {
        TwiceStays(s, t, key);
      } else if now >= landings[0] + STRIPE_RETENTION {
        LateLanding(s, key, request, now, landings[0], t);
      }
    }
  }

  /** One more attempt, after the landings of earlier calls and of the loop so far. */
  lemma OneMoreLanding(before: seq<int>, trace: seq<Attempted>, last: Attempted)
    ensures var was, after := before + Landings(trace), before + Landings(trace + [last]);
            after == (if last.executed then was + [last.at] else was) && was <= after
  {
    assert (trace + [last])[..|trace|] == trace;
  }

  lemma RememberedTwice(s: Server, t: Server, u: Server, key: string, a: seq<int>, b: seq<int>, c: seq<int>)
    requires Remembered(s, t, key, a, b) && Remembered(t, u, key, b, c) && a <= b <= c
    ensures Remembered(s, u, key, a, c)
  {
    InTimePrefix(b, c[|b|..]);
    assert b + c[|b|..] == c;
  }

  /** One turn of the loop: what it files, and whether it is the last. */
  lemma TurnFiles(s: Server, now: int, key: string, request: Request, tries: seq<Try>, attempt: nat, limit: nat,
                  trace: seq<Attempted>, slept: int, before: seq<int>, was: seq<int>, out: Retried)
    returns (t: Server, later: int, longer: seq<Attempted>, rested: int, next: seq<int>, last: bool)
    requires attempt < limit <= |tries| && GoesOn(s, now, key, request, tries, attempt, limit, trace, slept, out)
    requires was == before + Landings(trace) && Filed(s, key, was)
    ensures next == before + Landings(longer) && was <= next && Filed(t, key, next) && Remembered(s, t, key, was, next)
    ensures !last ==> GoesOn(t, later, key, request, tries, attempt + 1, limit, longer, rested, out)
    ensures last ==> out.server == t && out.trace == longer
                     && (InTime(next) && out.result.Ok? ==> Answers(t, key, out.result.value))
  {
    var landed := now + tries[attempt].delay;
    var reply: Reply;
    var served := Attempt(s, key, request, landed, tries[attempt].fault);
    t, reply := served.0, served.1;
    longer := trace + [Sent(tries[attempt], now, reply)];
    next := before + Landings(longer);
    OneMoreLanding(before, trace, Sent(tries[attempt], now, reply));
    AttemptFiles(s, key, request, landed, tries[attempt].fault, was, next, t, reply);
    last := reply.Returned? || !Retryable(reply.error);
    var wait := if last then 0 else Backoff(reply.error, attempt, limit);
    later, rested := landed + wait, slept + wait;
  }

  /** A whole retry loop, whatever happens to its attempts. */
  lemma {:induction false} RetryFiles(s: Server, now: int, key: string, request: Request, tries: seq<Try>, attempt: nat,
                                      limit: nat, trace: seq<Attempted>, slept: int, before: seq<int>, out: Retried)
    requires attempt <= limit <= |tries| && Filed(s, key, before + Landings(trace))
    requires GoesOn(s, now, key, request, tries, attempt, limit, trace, slept, out)
    ensures var was, after := before + Landings(trace), before + Landings(out.trace);
            && Filed(out.server, key, after) && Remembered(s, out.server, key, was, after) && was <= after
            && (InTime(after) && out.result.Ok? ==> Answers(out.server, key, out.result.value))
    decreases limit - attempt
  {
    if attempt < limit {
      var was := before + Landings(trace);
      var t, later, longer, rested, next, last :=
        TurnFiles(s, now, key, request, tries, attempt, limit, trace, slept, before, was, out);
      if !last {
        RetryFiles(t, later, key, request, tries, attempt + 1, limit, longer, rested, before, out);
        RememberedTwice(s, t, out.server, key, was, next, before + Landings(out.trace));
      }
    }
  }

  lemma LoopFiles(s: Server, now: int, key: string, request: Request, tries: seq<Try>, landings: seq<int>, out: Retried)
    requires Filed(s, key, landings) && Retry(s, now, key, request, tries) == out
    ensures var after := landings + Landings(out.trace);
            && Filed(out.server, key, after) && Remembered(s, out.server, key, landings, after)
            && (InTime(after) && out.result.Ok? ==> Answers(out.server, key, out.result.value))
  {
    assert landings + Landings([]) == landings;
    RetryFiles(s, now, key, request, tries, 0, |tries|, [], 0, landings, out);
  }

  // ---------------------------------------------------------------- the day after a cache write

  /** The key has been cached for the purchase at a given time, and Stripe has seen it land since. */
  ghost predicate Window(s: State, p: string, key: string, since: int, landings: seq<int>) {
    && since <= s.now && Filed(s.server, key, landings)
    && CacheKey(p) in s.cache && s.cache[CacheKey(p)] == Lease(key, since + IDEMPOTENCY_KEY_TTL)
  }

  /** A call that finds no key opens a window with a key Stripe has never seen. */
  lemma MissIsUncharged(digest: string -> string, s: State, now: nat, p: string)
    requires Hash(digest) && Inv(digest, s) && s.now <= now && !Hit(s.cache, now, p)
    ensures Filed(s.server, KeyFor(digest, s.cache, now, p), [])
  {
    var key, k := KeyFor(digest, s.cache, now, p), CacheKey(p);
    assert KeysDated(digest, s, p);
    KeyIsDated(digest, s, now, p);
    if k in s.cache {
      MinutesMonotone(s.cache[k].deadline - IDEMPOTENCY_KEY_TTL, now);
    }
    assert forall i: nat :: i < |s.server.created| ==> s.server.created[i].key != digest(RawKey(p, MinuteBucket(now)));
    assert Charges(s.server, key) == {};
  }

  /** Between two server states, intents for the purchase were only made under the key. */
  ghost predicate OnlyCharged(digest: string -> string, before: Server, after: Server, p: string, key: string) {
    && before.created <= after.created
    && forall i, m: nat :: |before.created| <= i < |after.created| && after.created[i].key == digest(RawKey(p, m))
                           ==> after.created[i].key == key
  }

  ghost predicate WindowKept(digest: string -> string, s: State, t: State, p: string, key: string, since: int,
                             was: seq<int>, landings: seq<int>) {
    && Window(t, p, key, since, landings) && OnlyCharged(digest, s.server, t.server, p, key)
    && Remembered(s.server, t.server, key, was, landings)
  }

  /** The key a call for the purchase uses, and what it leaves in the cache, within a window. */
  lemma WindowKey(digest: string -> string, s: State, now: nat, p: string, key: string, since: nat, landings: seq<int>)
    requires Hash(digest) && Inv(digest, s) && key != "" && s.now <= now < since + IDEMPOTENCY_KEY_TTL
    requires Window(s, p, key, since, landings) ||
             (landings == [] && !Hit(s.cache, now, p) && since == now && key == KeyFor(digest, s.cache, since, p))
    ensures KeyFor(digest, s.cache, now, p) == key && Filed(s.server, key, landings) && since <= now
    ensures CacheKey(p) in CacheAfter(digest, s.cache, now, p)
    ensures CacheAfter(digest, s.cache, now, p)[CacheKey(p)] == Lease(key, since + IDEMPOTENCY_KEY_TTL)
  {
    if !Window(s, p, key, since, landings) {
      MissIsUncharged(digest, s, now, p);
    }
  }

  /** A call for the purchase itself, whether it finds the key or opens the window. */
  lemma OwnCallInWindow(digest: string -> string, s: State, c: Call, p: string, key: string, since: nat,
                        landings: seq<int>, t: State, r: Answer)
    requires s.now >= 0 && For(c, p) && KeyFor(digest, s.cache, s.now + c.gap, p) == key
    requires Filed(s.server, key, landings)
    requires since <= s.now + c.gap && CacheKey(p) in CacheAfter(digest, s.cache, s.now + c.gap, p)
    requires CacheAfter(digest, s.cache, s.now + c.gap, p)[CacheKey(p)] == Lease(key, since + IDEMPOTENCY_KEY_TTL)
    requires MakeCall(digest, s, c) == (t, r)
    ensures WindowKept(digest, s, t, p, key, since, landings, landings + Landings(r.trace))
    ensures InTime(landings + Landings(r.trace)) && r.result.Ok? ==> Answers(t.server, key, r.result.value)
  {
    var now := s.now + c.gap;
    var out := PayIsALoop(digest, s, now, p, key, c.request, c.tries, t, r);
    LoopFiles(s.server, now, key, c.request, c.tries, landings, out);
    UnderIsOnlyCharged(digest, s.server, t.server, p, key);
  }

  lemma UnderIsOnlyCharged(digest: string -> string, before: Server, after: Server, p: string, key: string)
    requires OnlyUnder(before, after, key)
    ensures OnlyCharged(digest, before, after, p, key)
  {}

  lemma OtherCallInWindow(digest: string -> string, s: State, c: Call, p: string, key: string, since: nat,
                          landings: seq<int>, t: State, r: Answer)
    requires Hash(digest) && Inv(digest, s) && Window(s, p, key, since, landings) && !For(c, p)
    requires MakeCall(digest, s, c) == (t, r)
    ensures WindowKept(digest, s, t, p, key, since, landings, landings)
  {
    if c.amount > 0 {
      var q, now := Purchase(c.user, c.event, c.amount), s.now + c.gap;
      var out := PayIsALoop(digest, s, now, q, KeyFor(digest, s.cache, now, q), c.request, c.tries, t, r);
      OtherPurchase(digest, s, now, p, key, since, landings, q, t.server);
    }
  }

  lemma OtherPurchase(digest: string -> string, s: State, now: nat, p: string, key: string, since: int,
                      landings: seq<int>, q: string, after: Server)
    requires Hash(digest) && Inv(digest, s) && s.now <= now && Window(s, p, key, since, landings) && q != p
    requires OnlyUnder(s.server, after, KeyFor(digest, s.cache, now, q))
    ensures KeyFor(digest, s.cache, now, q) != key && CacheKey(q) != CacheKey(p)
    ensures Filed(after, key, landings) && OnlyCharged(digest, s.server, after, p, key)
  {
    var used, k := KeyFor(digest, s.cache, now, q), CacheKey(q);
    KeyIsDated(digest, s, now, q);
    var mq := MinuteBucket(CacheAfter(digest, s.cache, now, q)[k].deadline - IDEMPOTENCY_KEY_TTL);
    assert KeysDated(digest, s, p);
    if k == CacheKey(p) {
      CacheKeysApart(p, q);
    }
    forall m: nat | used == digest(RawKey(p, m)) ensures false {
      KeysAreApart(digest, q, mq, p, m);
    }
    assert key == digest(RawKey(p, MinuteBucket(since)));
    OthersFile(s.server, after, used, key, landings);
  }

  lemma OthersFile(before: Server, after: Server, used: string, key: string, landings: seq<int>)
    requires Filed(before, key, landings) && OnlyUnder(before, after, used) && used != key
    ensures Filed(after, key, landings)
  {
    assert Charges(after, key) == Charges(before, key);
    if landings != [] && InTime(landings) {
      var i: nat :| i < |before.created| && Charges(before, key) == {i}
                    && before.created[i] == Creation(key, before.results[key].intent, landings[0]);
      assert after.created[i] == before.created[i];
    }
  }

  lemma KeptTwice(digest: string -> string, s: State, t: State, u: State, p: string, key: string, since: int,
                  a: seq<int>, b: seq<int>, c: seq<int>)
    requires WindowKept(digest, s, t, p, key, since, a, b) && WindowKept(digest, t, u, p, key, since, b, c)
    requires a <= b <= c
    ensures WindowKept(digest, s, u, p, key, since, a, c)
  {
    forall i, m: nat | |s.server.created| <= i < |u.server.created| && u.server.created[i].key == digest(RawKey(p, m))
      ensures u.server.created[i].key == key
    {
      if i < |t.server.created| {
        assert t.server.created[i] == u.server.created[i];
      }
    }
    InTimePrefix(b, c[|b|..]);
    assert b + c[|b|..] == c;
  }

  /** Every successful reply for the purchase carries what Stripe remembers. */
  ghost predicate AllAnswer(sv: Server, key: string, calls: seq<Call>, answers: seq<Answer>, p: string) {
    && |answers| == |calls|
    && forall i :: 0 <= i < |calls| && For(calls[i], p) && answers[i].result.Ok? ==>
         Answers(sv, key, answers[i].result.value)
  }

  function Own(c: Call, r: Answer, p: string): seq<int> { if For(c, p) then Landings(r.trace) else [] }

  /** One call, of either kind. */
  lemma CallInWindow(digest: string -> string, s: State, c: Call, p: string, key: string, since: nat,
                     landings: seq<int>, t: State, r: Answer)
    requires Hash(digest) && Inv(digest, s) && key != "" && Window(s, p, key, since, landings)
    requires For(c, p) ==> r.at < since + IDEMPOTENCY_KEY_TTL
    requires MakeCall(digest, s, c) == (t, r)
    ensures WindowKept(digest, s, t, p, key, since, landings, landings + Own(c, r, p))
    ensures InTime(landings + Own(c, r, p)) && For(c, p) && r.result.Ok? ==> Answers(t.server, key, r.result.value)
  {
    MadeAt(digest, s, c);
    if For(c, p) {
      WindowKey(digest, s, r.at, p, key, since, landings);
      OwnCallInWindow(digest, s, c, p, key, since, landings, t, r);
    } else {
      OtherCallInWindow(digest, s, c, p, key, since, landings, t, r);
      assert landings + Own(c, r, p) == landings;
    }
  }

  lemma MadeAt(digest: string -> string, s: State, c: Call)
    requires s.now >= 0
    ensures MakeCall(digest, s, c).1.at == s.now + c.gap
  {}

  /** The first call of a run, and the rest of it. */
  lemma OneCall(digest: string -> string, s: State, calls: seq<Call>, t: State, answers: seq<Answer>) returns (u: State)
    requires s.now >= 0 && calls != [] && Run(digest, s, calls) == (t, answers)
    ensures answers != [] && MakeCall(digest, s, calls[0]) == (u, answers[0]) && s.now <= u.now
    ensures Run(digest, u, calls[1..]) == (t, answers[1..])
  {
    TimeGoesOn(digest, s, calls[0]);
    u := MakeCall(digest, s, calls[0]).0;
  }

  lemma {:induction false} RunInWindow(digest: string -> string, s: State, calls: seq<Call>, p: string, key: string,
                                       since: nat, landings: seq<int>, t: State, answers: seq<Answer>)
    requires Hash(digest) && Inv(digest, s) && key != "" && Window(s, p, key, since, landings) && |answers| == |calls|
    requires MadeBefore(calls, answers, p, since + IDEMPOTENCY_KEY_TTL) && Run(digest, s, calls) == (t, answers)
    ensures var after := landings + AllLandings(calls, answers, p);
            && WindowKept(digest, s, t, p, key, since, landings, after)
            && (InTime(after) ==> AllAnswer(t.server, key, calls, answers, p))
    decreases |calls|
  {
    if calls == [] {
      assert landings + AllLandings(calls, answers, p) == landings;
    } else {
      var u := OneCall(digest, s, calls, t, answers);
      var mine, theirs := Own(calls[0], answers[0], p), AllLandings(calls[1..], answers[1..], p);
      CallInWindow(digest, s, calls[0], p, key, since, landings, u, answers[0]);
      CallKeepsInv(digest, s, calls[0]);
      RunInWindow(digest, u, calls[1..], p, key, since, landings + mine, t, answers[1..]);
      AnswersAdd(digest, s, u, t, calls, answers, p, key, since, landings, mine, theirs);
    }
  }

  lemma AnswersAdd(digest: string -> string, s: State, u: State, t: State, calls: seq<Call>, answers: seq<Answer>,
                   p: string, key: string, since: nat, landings: seq<int>, mine: seq<int>, theirs: seq<int>)
    requires calls != [] && |answers| == |calls|
    requires WindowKept(digest, s, u, p, key, since, landings, landings + mine)
    requires WindowKept(digest, u, t, p, key, since, landings + mine, landings + mine + theirs)
    requires InTime(landings + mine) && For(calls[0], p) && answers[0].result.Ok? ==>
               Answers(u.server, key, answers[0].result.value)
    requires InTime(landings + mine + theirs) ==> AllAnswer(t.server, key, calls[1..], answers[1..], p)
    ensures WindowKept(digest, s, t, p, key, since, landings, landings + (mine + theirs))
    ensures InTime(landings + (mine + theirs)) ==> AllAnswer(t.server, key, calls, answers, p)
  {
    assert landings + mine + theirs == landings + (mine + theirs);
    KeptTwice(digest, s, u, t, p, key, since, landings, landings + mine, landings + mine + theirs);
    InTimePrefix(landings + mine, theirs);
    if InTime(landings + mine + theirs) {
      forall i | 0 <= i < |calls| && For(calls[i], p) && answers[i].result.Ok?
        ensures Answers(t.server, key, answers[i].result.value)
      {
        if i > 0 {
          assert calls[i] == calls[1..][i - 1] && answers[i] == answers[1..][i - 1];
        }
      }
    }
  }

  // ---------------------------------------------------------------- the promise

  /** No two intents for the purchase were made between the two server states. */
  ghost predicate ChargedAtMostOnce(digest: string -> string, before: Server, after: Server, p: string) {
    forall i: nat, j: nat, m: nat, n: nat ::
      (|before.created| <= i < |after.created| && |before.created| <= j < |after.created| &&
       after.created[i].key == digest(RawKey(p, m)) && after.created[j].key == digest(RawKey(p, n)))
      ==> i == j
  }

  /** All successful replies for the purchase carry one intent. */
  ghost predicate RepliesAgree(calls: seq<Call>, answers: seq<Answer>, p: string)
    requires |calls| == |answers|
  {
    forall i, j :: (0 <= i < |calls| && 0 <= j < |calls| && For(calls[i], p) && For(calls[j], p) &&
                    answers[i].result.Ok? && answers[j].result.Ok?)
                   ==> answers[i].result.value == answers[j].result.value
  }

  lemma FiledMeansOnce(digest: string -> string, s: State, t: State, p: string, minute: nat, key: string, since: int,
                       landings: seq<int>)
    requires key == digest(RawKey(p, minute)) && Filed(s.server, key, [])
    requires WindowKept(digest, s, t, p, key, since, [], landings)
    ensures ChargedAtMostOnce(digest, s.server, t.server, p) <==> InTime(landings)
  {
    var n := |s.server.created|;
    forall i: nat | i < n ensures t.server.created[i].key != key {
      assert i !in Charges(s.server, key);
    }
    if InTime(landings) {
      forall i: nat, j: nat, a: nat, b: nat |
        n <= i < |t.server.created| && n <= j < |t.server.created| &&
        t.server.created[i].key == digest(RawKey(p, a)) && t.server.created[j].key == digest(RawKey(p, b))
        ensures i == j
      {
        assert i in Charges(t.server, key) && j in Charges(t.server, key);
      }
    } else {
      var i, j :| i in Charges(t.server, key) && j in Charges(t.server, key) && i != j;
      assert t.server.created[i].key == digest(RawKey(p, minute))
             && t.server.created[j].key == digest(RawKey(p, minute));
    }
  }

  /** At most one charge, and exactly when: take any run, and in it the calls from one that caches a
      key for a purchase on, with every call for it made within 86400 seconds of that cache write,
      through any losses, retries and other purchases in between.  They create at most one PaymentIntent for it if and
      only if every attempt Stripe executes lands within 86400 seconds of the first one, and then
      every successful reply carries that intent. */
  lemma AtMostOneCharge(digest: string -> string, start: nat, states: seq<State>, calls: seq<Call>,
                        answers: seq<Answer>, n: nat, p: string)
    requires Hash(digest) && Calls(digest, states, calls, answers) && states[0] == Start(start)
    requires n < |calls| && For(calls[n], p) && !Hit(states[n].cache, answers[n].at, p)
    requires MadeBefore(calls[n..], answers[n..], p, answers[n].at + 86400 * SECOND)
    ensures ChargedAtMostOnce(digest, states[n].server, states[|calls|].server, p) <==>
              InTime(AllLandings(calls[n..], answers[n..], p))
    ensures InTime(AllLandings(calls[n..], answers[n..], p)) ==> RepliesAgree(calls[n..], answers[n..], p)
  {
    StartInv(digest, start);
    CallsKeepInv(digest, states, calls, answers, n);
    CallsFrom(digest, states, calls, answers, n);
    WindowOfCalls(digest, states[n], calls[n..], states[|calls|], answers[n..], p);
  }

  /** A run written out: the states it passes through. */
  ghost predicate Calls(digest: string -> string, states: seq<State>, calls: seq<Call>, answers: seq<Answer>) {
    && |states| == |calls| + 1 == |answers| + 1
    && forall i :: 0 <= i < |calls| ==>
         states[i].now >= 0 && MakeCall(digest, states[i], calls[i]) == (states[i + 1], answers[i])
  }

  lemma {:induction false} CallsAreARun(digest: string -> string, states: seq<State>, calls: seq<Call>,
                                        answers: seq<Answer>)
    requires Calls(digest, states, calls, answers) && states[0].now >= 0
    ensures Run(digest, states[0], calls) == (states[|calls|], answers)
    decreases |calls|
  {
    if calls != [] {
      TimeGoesOn(digest, states[0], calls[0]);
      CallsAreARun(digest, states[1..], calls[1..], answers[1..]);
      RunCons(digest, states[0], calls, states[1], answers, states[|calls|]);
    }
  }

  lemma CallsFrom(digest: string -> string, states: seq<State>, calls: seq<Call>, answers: seq<Answer>, n: nat)
    requires Calls(digest, states, calls, answers) && n <= |calls| && states[n].now >= 0
    ensures Run(digest, states[n], calls[n..]) == (states[|calls|], answers[n..])
  {
    CallsAreARun(digest, states[n..], calls[n..], answers[n..]);
  }

  lemma RunCons(digest: string -> string, s: State, calls: seq<Call>, u: State, answers: seq<Answer>, t: State)
    requires s.now >= 0 && u.now >= 0 && calls != [] && answers != []
    requires MakeCall(digest, s, calls[0]) == (u, answers[0])
    requires Run(digest, u, calls[1..]) == (t, answers[1..])
    ensures Run(digest, s, calls) == (t, answers)
  {
    assert answers == [answers[0]] + answers[1..];
  }

  lemma {:induction false} CallsKeepInv(digest: string -> string, states: seq<State>, calls: seq<Call>,
                                        answers: seq<Answer>, n: nat)
    requires Hash(digest) && Calls(digest, states, calls, answers) && Inv(digest, states[0]) && n <= |calls|
    ensures Inv(digest, states[n])
  {
    if n > 0 {
      CallsKeepInv(digest, states, calls, answers, n - 1);
      CallKeepsInvAt(digest, states[n - 1], calls[n - 1], states[n], answers[n - 1]);
    }
  }

  lemma CallKeepsInvAt(digest: string -> string, s: State, c: Call, t: State, r: Answer)
    requires Hash(digest) && Inv(digest, s) && MakeCall(digest, s, c) == (t, r)
    ensures Inv(digest, t)
  {
    CallKeepsInv(digest, s, c);
  }

  lemma WindowOfCalls(digest: string -> string, s: State, calls: seq<Call>, t: State, answers: seq<Answer>, p: string)
    requires Hash(digest) && Inv(digest, s) && Run(digest, s, calls) == (t, answers)
    requires |answers| == |calls| && calls != [] && For(calls[0], p) && !Hit(s.cache, answers[0].at, p)
    requires MadeBefore(calls, answers, p, answers[0].at + IDEMPOTENCY_KEY_TTL)
    ensures ChargedAtMostOnce(digest, s.server, t.server, p) <==> InTime(AllLandings(calls, answers, p))
    ensures InTime(AllLandings(calls, answers, p)) ==> RepliesAgree(calls, answers, p)
  {
    var u := OneCall(digest, s, calls, t, answers);
    MadeAt(digest, s, calls[0]);
    var since := answers[0].at;
    var key := KeyFor(digest, s.cache, since, p);
    FirstCallInWindow(digest, s, calls[0], p, key, since, u, answers[0]);
    CallKeepsInv(digest, s, calls[0]);
    var mine := Landings(answers[0].trace);
    RunInWindow(digest, u, calls[1..], p, key, since, mine, t, answers[1..]);
    AllOfCalls(digest, s, u, calls, t, answers, p, since, key, mine, AllLandings(calls[1..], answers[1..], p));
  }

  lemma FirstCallInWindow(digest: string -> string, s: State, c: Call, p: string, key: string, since: nat, t: State,
                          r: Answer)
    requires Hash(digest) && Inv(digest, s) && For(c, p) && !Hit(s.cache, since, p) && since == s.now + c.gap
    requires key == KeyFor(digest, s.cache, since, p) && MakeCall(digest, s, c) == (t, r)
    ensures key == digest(RawKey(p, MinuteBucket(since))) && Filed(s.server, key, [])
    ensures WindowKept(digest, s, t, p, key, since, [], Landings(r.trace))
    ensures InTime(Landings(r.trace)) && r.result.Ok? ==> Answers(t.server, key, r.result.value)
  {
    WindowKey(digest, s, since, p, key, since, []);
    OwnCallInWindow(digest, s, c, p, key, since, [], t, r);
    assert [] + Landings(r.trace) == Landings(r.trace);
  }

  lemma AllOfCalls(digest: string -> string, s: State, u: State, calls: seq<Call>, t: State, answers: seq<Answer>,
                   p: string, since: nat, key: string, mine: seq<int>, theirs: seq<int>)
    requires calls != [] && |answers| == |calls| && key == digest(RawKey(p, MinuteBucket(since)))
    requires Filed(s.server, key, [])
    requires WindowKept(digest, s, u, p, key, since, [], mine)
    requires WindowKept(digest, u, t, p, key, since, mine, mine + theirs)
    requires InTime(mine) && For(calls[0], p) && answers[0].result.Ok? ==>
               Answers(u.server, key, answers[0].result.value)
    requires InTime(mine + theirs) ==> AllAnswer(t.server, key, calls[1..], answers[1..], p)
    ensures ChargedAtMostOnce(digest, s.server, t.server, p) <==> InTime(mine + theirs)
    ensures InTime(mine + theirs) ==> RepliesAgree(calls, answers, p)
  {
    assert [] + mine == mine && [] + (mine + theirs) == mine + theirs;
    AnswersAdd(digest, s, u, t, calls, answers, p, key, since, [], mine, theirs);
    FiledMeansOnce(digest, s, t, p, MinuteBucket(since), key, since, mine + theirs);
  }

  // ---------------------------------------------------------------- calls made in time

  /** How long the network holds up a loop at most. */
  function Delays(tries: seq<Try>): nat {
    if tries == [] then 0 else Delays(tries[..|tries| - 1]) + tries[|tries| - 1].delay
  }

  /** What a loop has slept before a given attempt, at most. */
  function MostSlept(attempt: nat): int { SECOND * (Pow2(attempt) - 1) }

  lemma {:induction false} DelaysGrow(tries: seq<Try>, n: nat)
    requires n <= |tries|
    ensures Delays(tries[..n]) <= Delays(tries)
  {
    if n < |tries| {
      DelaysGrow(tries[..|tries| - 1], n);
      assert tries[..|tries| - 1][..n] == tries[..n];
    } else {
      assert tries[..n] == tries;
    }
  }

  lemma OneMoreDelay(tries: seq<Try>, n: nat)
    requires n < |tries|
    ensures Delays(tries[..n + 1]) == Delays(tries[..n]) + tries[n].delay
  {
    assert tries[..n + 1][..n] == tries[..n];
  }

  ghost predicate AllWithin(landings: seq<int>, least: int, most: int) {
    forall l :: l in landings ==> least <= l <= most
  }

  /** The latest a loop can land an attempt: it may sleep before all but the first. */
  function Latest(tries: seq<Try>): int {
    Delays(tries) + MostSlept(if tries == [] then 0 else |tries| - 1)
  }

  lemma OneMoreWithin(trace: seq<Attempted>, last: Attempted, least: int, most: int)
    requires AllWithin(Landings(trace), least, most) && least <= last.at <= most
    ensures AllWithin(Landings(trace + [last]), least, most)
  {
    assert (trace + [last])[..|trace|] == trace;
  }

  /** When attempt i of a loop begins at the latest. */
  function LatestBegin(tries: seq<Try>, i: nat): int
    requires i <= |tries|
  {
    Delays(tries[..i]) + MostSlept(i)
  }

  /** Latest times for the attempts of a loop to begin, such that all land by the most. */
  ghost predicate Schedule(tries: seq<Try>, begins: seq<int>, most: int) {
    && |begins| == |tries| + 1
    && forall i :: 0 <= i < |tries| ==> begins[i] + tries[i].delay <= most
                                        && begins[i] + tries[i].delay + SECOND * Pow2(i) <= begins[i + 1]
  }

  lemma LatestIsASchedule(tries: seq<Try>, begun: int)
    ensures Schedule(tries, seq(|tries| + 1, i requires 0 <= i <= |tries| => begun + LatestBegin(tries, i)),
                     begun + Latest(tries))
  {
    forall i | 0 <= i < |tries|
      ensures LatestBegin(tries, i) + tries[i].delay <= Latest(tries)
      ensures LatestBegin(tries, i) + tries[i].delay + SECOND * Pow2(i) <= LatestBegin(tries, i + 1)
    {
      OneMoreDelay(tries, i);
      DelaysGrow(tries, i + 1);
      PowGrows(i, |tries| - 1);
    }
  }

  lemma BackoffBound(e: StripeError, attempt: nat, limit: nat)
    ensures 0 <= Backoff(e, attempt, limit) <= SECOND * Pow2(attempt)
  {
    PowGrows(0, attempt);
  }

  /** One turn of the loop, and whether it is the last. */
  lemma TurnKeepsSchedule(s: Server, now: int, key: string, request: Request, tries: seq<Try>, attempt: nat,
                          trace: seq<Attempted>, slept: int, begun: int, begins: seq<int>, most: int, out: Retried)
    returns (t: Server, later: int, longer: seq<Attempted>, rested: int, last: bool)
    requires attempt < |tries| && Schedule(tries, begins, most) && begun <= now <= begins[attempt]
    requires AllWithin(Landings(trace), begun, most)
    requires GoesOn(s, now, key, request, tries, attempt, |tries|, trace, slept, out)
    ensures AllWithin(Landings(longer), begun, most) && (last ==> out.trace == longer)
    ensures !last ==> begun <= later <= begins[attempt + 1]
    ensures !last ==> GoesOn(t, later, key, request, tries, attempt + 1, |tries|, longer, rested, out)
  {
    var landed := now + tries[attempt].delay;
    var served := Attempt(s, key, request, landed, tries[attempt].fault);
    var reply := served.1;
    t, longer := served.0, trace + [Sent(tries[attempt], now, reply)];
    OneMoreWithin(trace, Sent(tries[attempt], now, reply), begun, most);
    last := reply.Returned? || !Retryable(reply.error);
    var wait := if last then 0 else Backoff(reply.error, attempt, |tries|);
    if !last {
      BackoffBound(reply.error, attempt, |tries|);
    }
    later, rested := landed + wait, slept + wait;
  }

  /** No attempt of a loop lands later than the schedule says. */
  lemma {:induction false} RetryKeepsSchedule(s: Server, now: int, key: string, request: Request, tries: seq<Try>,
                                              attempt: nat, trace: seq<Attempted>, slept: int,
                                              begun: int, begins: seq<int>, most: int, out: Retried)
    requires attempt <= |tries| && Schedule(tries, begins, most) && begun <= now <= begins[attempt]
    requires AllWithin(Landings(trace), begun, most)
    requires GoesOn(s, now, key, request, tries, attempt, |tries|, trace, slept, out)
    ensures AllWithin(Landings(out.trace), begun, most)
    decreases |tries| - attempt
  {
    if attempt < |tries| {
      var t, later, longer, rested, last :=
        TurnKeepsSchedule(s, now, key, request, tries, attempt, trace, slept, begun, begins, most, out);
      if !last {
        RetryKeepsSchedule(t, later, key, request, tries, attempt + 1, longer, rested, begun, begins, most, out);
      }
    }
  }

  /** No attempt of a loop lands later than its delays and sleeps make it. */
  lemma RetryLandsSoon(s: Server, now: int, key: string, request: Request, tries: seq<Try>, out: Retried)
    requires Retry(s, now, key, request, tries) == out
    ensures AllWithin(Landings(out.trace), now, now + Latest(tries))
  {
    var begins := seq(|tries| + 1, i requires 0 <= i <= |tries| => now + LatestBegin(tries, i));
    LatestIsASchedule(tries, now);
    RetryKeepsSchedule(s, now, key, request, tries, 0, [], 0, now, begins, now + Latest(tries), out);
  }

  /** The call is made early enough for all its attempts to land before the limit, held up by the
      network for as long as they are and after sleeps of one and two seconds. */
  predicate InGoodTime(c: Call, r: Answer, limit: int) {
    r.at + Delays(c.tries) + 3 * SECOND < limit
  }

  predicate MadeEarly(calls: seq<Call>, answers: seq<Answer>, p: string, limit: int)
    requires |calls| == |answers|
  {
    forall i :: 0 <= i < |calls| && For(calls[i], p) ==> InGoodTime(calls[i], answers[i], limit)
  }

  lemma CallLandsSoon(digest: string -> string, s: State, c: Call, p: string, t: State, r: Answer)
    requires s.now >= 0 && MakeCall(digest, s, c) == (t, r) && For(c, p)
    ensures AllWithin(Landings(r.trace), r.at, r.at + Delays(c.tries) + 3 * SECOND)
  {
    var now := s.now + c.gap;
    var key := KeyFor(digest, s.cache, now, p);
    var out := PayIsALoop(digest, s, now, p, key, c.request, c.tries, t, r);
    RetryLandsSoon(s.server, now, key, c.request, c.tries, out);
    assert MostSlept(2) == 3 * SECOND;
    MadeAt(digest, s, c);
  }

  lemma {:induction false} RunLandsSoon(digest: string -> string, s: State, calls: seq<Call>, t: State,
                                        answers: seq<Answer>, p: string, since: int, limit: int)
    requires s.now >= 0 && |answers| == |calls| && Run(digest, s, calls) == (t, answers)
    requires MadeEarly(calls, answers, p, limit)
    requires if calls == [] then since <= s.now else since <= answers[0].at
    ensures AllWithin(AllLandings(calls, answers, p), since, limit - 1)
    decreases |calls|
  {
    if calls != [] {
      var u := OneCall(digest, s, calls, t, answers);
      MadeAt(digest, s, calls[0]);
      TimeGoesOn(digest, s, calls[0]);
      if For(calls[0], p) {
        CallLandsSoon(digest, s, calls[0], p, u, answers[0]);
      }
      if calls[1..] != [] {
        var v := OneCall(digest, u, calls[1..], t, answers[1..]);
        MadeAt(digest, u, calls[1]);
      }
      RunLandsSoon(digest, u, calls[1..], t, answers[1..], p, since, limit);
    }
  }

  lemma WithinIsInTime(landings: seq<int>, since: int)
    requires AllWithin(landings, since, since + STRIPE_RETENTION - 1)
    ensures InTime(landings)
  {
    assert landings != [] ==> landings[0] in landings;
  }

  lemma LandsInTime(digest: string -> string, s: State, calls: seq<Call>, t: State, answers: seq<Answer>, p: string,
                    since: int)
    requires s.now >= 0 && |answers| == |calls| && calls != [] && Run(digest, s, calls) == (t, answers)
    requires since == answers[0].at && MadeEarly(calls, answers, p, since + STRIPE_RETENTION)
    ensures InTime(AllLandings(calls, answers, p))
  {
    RunLandsSoon(digest, s, calls, t, answers, p, since, since + STRIPE_RETENTION);
    WithinIsInTime(AllLandings(calls, answers, p), since);
  }

  lemma EarlyIsBefore(calls: seq<Call>, answers: seq<Answer>, p: string, limit: int)
    requires |calls| == |answers| && MadeEarly(calls, answers, p, limit)
    ensures MadeBefore(calls, answers, p, limit)
  {}

  lemma EarlyWindow(digest: string -> string, s: State, calls: seq<Call>, t: State, answers: seq<Answer>, p: string)
    requires Hash(digest) && Inv(digest, s) && Run(digest, s, calls) == (t, answers)
    requires |answers| == |calls| && calls != [] && For(calls[0], p) && !Hit(s.cache, answers[0].at, p)
    requires MadeEarly(calls, answers, p, answers[0].at + STRIPE_RETENTION)
    ensures ChargedAtMostOnce(digest, s.server, t.server, p) && RepliesAgree(calls, answers, p)
  {
    LandsInTime(digest, s, calls, t, answers, p, answers[0].at);
    EarlyIsBefore(calls, answers, p, answers[0].at + STRIPE_RETENTION);
    WindowOfCalls(digest, s, calls, t, answers, p);
  }

  /** So a caller that stops early enough, 86400 s after the cache write less the time its attempts
      may take, is charged at most once, and all its successful replies agree. */
  lemma EarlyCallsChargeOnce(digest: string -> string, start: nat, states: seq<State>, calls: seq<Call>,
                             answers: seq<Answer>, n: nat, p: string)
    requires Hash(digest) && Calls(digest, states, calls, answers) && states[0] == Start(start)
    requires n < |calls| && For(calls[n], p) && !Hit(states[n].cache, answers[n].at, p)
    requires MadeEarly(calls[n..], answers[n..], p, answers[n].at + 86400 * SECOND)
    ensures ChargedAtMostOnce(digest, states[n].server, states[|calls|].server, p)
    ensures RepliesAgree(calls[n..], answers[n..], p)
  {
    StartInv(digest, start);
    CallsKeepInv(digest, states, calls, answers, n);
    CallsFrom(digest, states, calls, answers, n);
    EarlyWindow(digest, states[n], calls[n..], states[|calls|], answers[n..], p);
  }

  /** The bound must be on where attempts land, not on when calls are made: a call made within the
      day finds the cached key, but if its attempt reaches Stripe once the day is over the key is
      forgotten there and the purchase is charged again. */
  lemma LateAttemptChargesTwice(digest: string -> string, user: string, event: string, amount: nat, request: Request)
    requires Hash(digest) && amount > 0
    ensures var p, on := Purchase(user, event, amount), Try(Clean, 0);
            var first := Call(0, user, event, amount, request, [on, on, on]);
            var second := Call(86399 * SECOND, user, event, amount, request, [Try(Clean, SECOND), on, on]);
            var (t, rs) := Run(digest, Start(0), [first, second]);
            && |rs| == 2 && rs[0].result.Ok? && rs[1].result.Ok? && rs[0].result.value.id != rs[1].result.value.id
            && !ChargedAtMostOnce(digest, Start(0).server, t.server, p) && !RepliesAgree([first, second], rs, p)
  {
    var p, on := Purchase(user, event, amount), Try(Clean, 0);
    var first := Call(0, user, event, amount, request, [on, on, on]);
    var second := Call(86399 * SECOND, user, event, amount, request, [Try(Clean, SECOND), on, on]);
    var key := digest(RawKey(p, 0));
    var s := FirstCharge(digest, p, first, key);
    var t := SecondCharge(digest, p, second, key, s);
    RunOne(digest, s, second);
    assert [first, second][1..] == [second];
    TwoCharges(digest, p, key, t.server);
  }

  lemma RunOne(digest: string -> string, s: State, c: Call)
    requires s.now >= 0
    ensures var (t, r) := MakeCall(digest, s, c); Run(digest, s, [c]) == (t, [r])
  {
    var (t, r) := MakeCall(digest, s, c);
    var rest := [c][1..];
    assert rest == [] && Run(digest, t, rest) == (t, []) && [r] + [] == [r];
  }

  lemma TwoCharges(digest: string -> string, p: string, key: string, sv: Server)
    requires key == digest(RawKey(p, 0)) && |sv.created| == 2 && sv.created[0].key == key == sv.created[1].key
    ensures !ChargedAtMostOnce(digest, Server(map[], []), sv, p)
  {}

  lemma FirstCharge(digest: string -> string, p: string, c: Call, key: string) returns (s: State)
    requires Hash(digest) && For(c, p) && c.gap == 0 && c.tries[0] == Try(Clean, 0) && key == digest(RawKey(p, 0))
    ensures s == MakeCall(digest, Start(0), c).0 && MakeCall(digest, Start(0), c).1.result == Ok(Intent(0, c.request))
    ensures s.now == 0 && s.cache == map[CacheKey(p) := Lease(key, IDEMPOTENCY_KEY_TTL)]
    ensures s.server == Server(map[key := Stored(Intent(0, c.request), 0)], [Creation(key, Intent(0, c.request), 0)])
  {
    s := MakeCall(digest, Start(0), c).0;
    assert KeyFor(digest, map[], 0, p) == key;
    FirstTry(Server(map[], []), 0, key, c.request, c.tries);
  }

  lemma SecondCharge(digest: string -> string, p: string, c: Call, key: string, s: State) returns (t: State)
    requires For(c, p) && c.gap == 86399 * SECOND && c.tries[0] == Try(Clean, SECOND) && key != ""
    requires s.now == 0 && s.cache == map[CacheKey(p) := Lease(key, IDEMPOTENCY_KEY_TTL)]
    requires s.server == Server(map[key := Stored(Intent(0, c.request), 0)], [Creation(key, Intent(0, c.request), 0)])
    ensures t == MakeCall(digest, s, c).0 && MakeCall(digest, s, c).1.result == Ok(Intent(1, c.request))
    ensures |t.server.created| == 2 && t.server.created[0].key == key == t.server.created[1].key
  {
    t := MakeCall(digest, s, c).0;
    assert KeyFor(digest, s.cache, 86399 * SECOND, p) == key;
    FirstTry(s.server, 86399 * SECOND, key, c.request, c.tries);
  }

  /** A first attempt that meets no fault and no stored result. */
  lemma FirstTry(s: Server, now: int, key: string, request: Request, tries: Tries)
    requires tries[0].fault == Clean && !Remembers(s, key, now + tries[0].delay)
    ensures var out, landed, intent := Retry(s, now, key, request, tries), now + tries[0].delay,
                                       Intent(|s.created|, request);
            && out.result == Ok(intent) && out.now == landed
            && out.server == Server(s.results[key := Stored(intent, landed)],
                                    s.created + [Creation(key, intent, landed)])
  {}
}
