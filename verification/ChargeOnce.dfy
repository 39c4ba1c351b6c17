/** Sequential runs of payment calls, each of which may lose replies, fail at any attempt and be for
    any purchase, and what they keep: which idempotency keys have been used, and from which minute. */
module ChargeOnce {
  import opened Basics
  import opened RedisModel
  import opened Payments

  const MAX_RETRIES: nat := 3

  type Tries = t: seq<Try> | |t| == MAX_RETRIES witness [Try(Clean, 0), Try(Clean, 0), Try(Clean, 0)]

  datatype State = State(now: int, cache: Store, server: Server)

  /** A call made some time after the previous one ended. */
  datatype Call = Call(gap: nat, user: string, event: string, amount: int, request: Request, tries: Tries)

  predicate For(c: Call, purchase: string) {
    c.amount > 0 && Purchase(c.user, c.event, c.amount) == purchase
  }

  /** An injective hash whose digests are not empty. */
  ghost predicate Hash(digest: string -> string) {
    Injective(digest) && forall x :: digest(x) != ""
  }

  /** _get_or_set_idempotency_key: an empty cached value counts as none. */
  function KeyFor(digest: string -> string, cache: Store, now: nat, purchase: string): string {
    match Get(cache, CacheKey(purchase), now)
    case Some(v) => if v != "" then v else digest(RawKey(purchase, MinuteBucket(now)))
    case None => digest(RawKey(purchase, MinuteBucket(now)))
  }

  predicate Hit(cache: Store, now: int, purchase: string) {
    Live(cache, CacheKey(purchase), now) && cache[CacheKey(purchase)].value != ""
  }

  function CacheAfter(digest: string -> string, cache: Store, now: nat, purchase: string): Store {
    if Hit(cache, now, purchase) then cache
    else cache[CacheKey(purchase) := Lease(KeyFor(digest, cache, now, purchase), now + IDEMPOTENCY_KEY_TTL)]
  }

  /** What became of a call: when it was made, its result, and what it sent. */
  datatype Answer = Answer(at: int, result: Result<Intent, PaymentError>, trace: seq<Attempted>)

  /** The body of create_payment_intent for a valid amount. */
  function Pay(digest: string -> string, s: State, now: nat, purchase: string, request: Request, tries: Tries):
    (State, Answer)
  {
    var out := Retry(s.server, now, KeyFor(digest, s.cache, now, purchase), request, tries);
    (State(out.now, CacheAfter(digest, s.cache, now, purchase), out.server), Answer(now, out.result, out.trace))
  }

  /** create_payment_intent */
  function MakeCall(digest: string -> string, s: State, c: Call): (State, Answer)
    requires s.now >= 0
  {
    var now := s.now + c.gap;
    if c.amount <= 0 then (s.(now := now), Answer(now, Err(ValueError), []))
    else Pay(digest, s, now, Purchase(c.user, c.event, c.amount), c.request, c.tries)
  }

  lemma TimeGoesOn(digest: string -> string, s: State, c: Call)
    requires s.now >= 0
    ensures s.now + c.gap <= MakeCall(digest, s, c).0.now
  {}

  /** A retry loop files what it makes under its key. */
  lemma LoopEffect(s: Server, now: int, key: string, request: Request, tries: Tries, out: Retried)
    requires out == Retry(s, now, key, request, tries)
    ensures OnlyUnder(s, out.server, key)
  {
    RetryUnder(s, now, key, request, tries, 0, |tries|, [], 0);
  }

  /** Calls one after another, with their answers. */
  function Run(digest: string -> string, s: State, calls: seq<Call>): (State, seq<Answer>)
    requires s.now >= 0
    decreases |calls|
  {
    if calls == [] then (s, [])
    else
      TimeGoesOn(digest, s, calls[0]);
      var (s', r) := MakeCall(digest, s, calls[0]);
      var (t, rs) := Run(digest, s', calls[1..]);
      (t, [r] + rs)
  }

  // ---------------------------------------------------------------- one key at the server

  /** Everything Stripe adds is filed under the one key of the call. */
  ghost predicate OnlyUnder(before: Server, after: Server, key: string) {
    && before.created <= after.created
    && (forall i :: |before.created| <= i < |after.created| ==> after.created[i].key == key)
    && (forall k :: k != key ==> (k in before.results <==> k in after.results)
                                 && (k in before.results ==> before.results[k] == after.results[k]))
    && (key in before.results ==> key in after.results)
    && (key in after.results && key !in before.results ==> |before.created| < |after.created|)
  }

  lemma AttemptUnder(s: Server, key: string, request: Request, now: int, fault: Fault)
    ensures OnlyUnder(s, Attempt(s, key, request, now, fault).0, key)
  {}

  lemma {:induction false} RetryUnder(s: Server, now: int, key: string, request: Request, tries: seq<Try>,
                                      attempt: nat, limit: nat, trace: seq<Attempted>, slept: int)
    requires attempt <= limit <= |tries|
    ensures OnlyUnder(s, RetryFrom(s, now, key, request, tries, attempt, limit, trace, slept).server, key)
    decreases limit - attempt
  {
    if attempt < limit {
      var landed := now + tries[attempt].delay;
      var (s', reply) := Attempt(s, key, request, landed, tries[attempt].fault);
      AttemptUnder(s, key, request, landed, tries[attempt].fault);
      if reply.Failed? && Retryable(reply.error) {
        var wait := Backoff(reply.error, attempt, limit);
        RetryUnder(s', landed + wait, key, request, tries, attempt + 1, limit,
                   trace + [Sent(tries[attempt], now, reply)], slept + wait);
      }
    }
  }

  // ---------------------------------------------------------------- what the cache knows about keys

  /** Every key filed for a purchase is from the minute of the last cache write for it, or earlier. */
  ghost predicate KeysDated(digest: string -> string, s: State, p: string) {
    var k := CacheKey(p);
    && (k in s.cache ==>
          && 0 <= s.cache[k].deadline - IDEMPOTENCY_KEY_TTL <= s.now
          && s.cache[k].value == digest(RawKey(p, MinuteBucket(s.cache[k].deadline - IDEMPOTENCY_KEY_TTL))))
    && (forall i: nat, m: nat :: i < |s.server.created| && s.server.created[i].key == digest(RawKey(p, m))
          ==> k in s.cache && m <= MinuteBucket(s.cache[k].deadline - IDEMPOTENCY_KEY_TTL))
  }

  ghost predicate ResultsMade(sv: Server) {
    forall key :: key in sv.results ==> exists i: nat :: i < |sv.created| && sv.created[i].key == key
  }

  ghost predicate Inv(digest: string -> string, s: State) {
    && s.now >= 0 && ResultsMade(s.server)
    && forall p :: KeysDated(digest, s, p)
  }

  function Start(now: nat): State { State(now, map[], Server(map[], [])) }

  lemma CacheKeysApart(p: string, q: string)
    requires CacheKey(p) == CacheKey(q)
    ensures p == q
  {
    assert CacheKey(p)[5..] == p && CacheKey(q)[5..] == q;
  }

  /** Under the invariant a call uses the key of its purchase and of the last cache write. */
  lemma KeyIsDated(digest: string -> string, s: State, now: nat, p: string)
    requires Hash(digest) && Inv(digest, s) && s.now <= now
    ensures var k, after := CacheKey(p), CacheAfter(digest, s.cache, now, p);
            && k in after && 0 <= after[k].deadline - IDEMPOTENCY_KEY_TTL <= now
            && KeyFor(digest, s.cache, now, p) == after[k].value
            && after[k].value == digest(RawKey(p, MinuteBucket(after[k].deadline - IDEMPOTENCY_KEY_TTL)))
            && (k in s.cache ==> s.cache[k].deadline <= after[k].deadline)
            && (!Hit(s.cache, now, p) ==> after[k].deadline == now + IDEMPOTENCY_KEY_TTL
                                          && (k in s.cache ==> s.cache[k].deadline <= now))
  {
    assert KeysDated(digest, s, p);
  }

  lemma MinutesMonotone(a: nat, b: nat)
    requires a <= b
    ensures MinuteBucket(a) <= MinuteBucket(b)
    ensures a + MINUTE <= b ==> MinuteBucket(a) < MinuteBucket(b)
  {}

  /** What a payment comes down to: one retry loop. */
  lemma PayIsALoop(digest: string -> string, s: State, now: nat, p: string, key: string, request: Request, tries: Tries,
                   t: State, r: Answer) returns (out: Retried)
    requires Pay(digest, s, now, p, request, tries) == (t, r) && key == KeyFor(digest, s.cache, now, p)
    ensures out == Retry(s.server, now, key, request, tries)
    ensures now <= t.now == out.now && t.server == out.server && r == Answer(now, out.result, out.trace)
    ensures t.cache == CacheAfter(digest, s.cache, now, p) && OnlyUnder(s.server, t.server, key)
  {
    out := Retry(s.server, now, key, request, tries);
    LoopEffect(s.server, now, key, request, tries, out);
  }

  lemma CallKeepsInv(digest: string -> string, s: State, c: Call)
    requires Hash(digest) && Inv(digest, s)
    ensures Inv(digest, MakeCall(digest, s, c).0)
  {
    if c.amount > 0 {
      var p := Purchase(c.user, c.event, c.amount);
      var now := s.now + c.gap;
      var (t, r) := MakeCall(digest, s, c);
      var out := PayIsALoop(digest, s, now, p, KeyFor(digest, s.cache, now, p), c.request, c.tries, t, r);
      AllStayDated(digest, s, t, p, now);
    } else {
      LaterIsDated(digest, s, c.gap);
    }
  }

  lemma LaterIsDated(digest: string -> string, s: State, gap: nat)
    requires Inv(digest, s)
    ensures Inv(digest, s.(now := s.now + gap))
  {
    var t := s.(now := s.now + gap);
    forall q ensures KeysDated(digest, t, q) {
      assert KeysDated(digest, s, q);
    }
  }

  lemma AllStayDated(digest: string -> string, s: State, t: State, p: string, now: nat)
    requires Hash(digest) && Inv(digest, s) && s.now <= now <= t.now && t.cache == CacheAfter(digest, s.cache, now, p)
    requires OnlyUnder(s.server, t.server, KeyFor(digest, s.cache, now, p))
    ensures Inv(digest, t)
  {
    UnderKeepsMade(s.server, t.server, KeyFor(digest, s.cache, now, p));
    forall q ensures KeysDated(digest, t, q) {
      assert KeysDated(digest, s, q);
      CallKeepsDated(digest, s, t, p, now, q);
    }
  }

  lemma UnderKeepsMade(before: Server, after: Server, key: string)
    requires ResultsMade(before) && OnlyUnder(before, after, key)
    ensures ResultsMade(after)
  {
    forall k | k in after.results ensures exists i: nat :: i < |after.created| && after.created[i].key == k {
      if k in before.results {
        var i: nat :| i < |before.created| && before.created[i].key == k;
        assert after.created[i].key == k;
      } else {
        assert after.created[|before.created|].key == k;
      }
    }
  }

  lemma CallKeepsDated(digest: string -> string, s: State, t: State, p: string, now: nat, q: string)
    requires Hash(digest) && Inv(digest, s) && KeysDated(digest, s, q) && s.now <= now <= t.now
    requires t.cache == CacheAfter(digest, s.cache, now, p)
    requires OnlyUnder(s.server, t.server, KeyFor(digest, s.cache, now, p))
    ensures KeysDated(digest, t, q)
  {
    var k, key := CacheKey(q), KeyFor(digest, s.cache, now, p);
    KeyIsDated(digest, s, now, p);
    if q != p && k == CacheKey(p) {
      CacheKeysApart(p, q);
    }
    if k in s.cache {
      MinutesMonotone(s.cache[k].deadline - IDEMPOTENCY_KEY_TTL, t.cache[k].deadline - IDEMPOTENCY_KEY_TTL);
    }
    forall i: nat, m: nat | i < |t.server.created| && t.server.created[i].key == digest(RawKey(q, m))
      ensures k in t.cache && m <= MinuteBucket(t.cache[k].deadline - IDEMPOTENCY_KEY_TTL)
    {
      if i < |s.server.created| {
        assert s.server.created[i].key == digest(RawKey(q, m));
      } else {
        NewKeyIsDated(digest, s, p, now, q, m);
      }
    }
  }

  lemma NewKeyIsDated(digest: string -> string, s: State, p: string, now: nat, q: string, m: nat)
    requires Hash(digest) && Inv(digest, s) && s.now <= now && KeyFor(digest, s.cache, now, p) == digest(RawKey(q, m))
    ensures var after, k := CacheAfter(digest, s.cache, now, p), CacheKey(q);
            q == p && k in after && 0 <= after[k].deadline - IDEMPOTENCY_KEY_TTL
            && m == MinuteBucket(after[k].deadline - IDEMPOTENCY_KEY_TTL)
  {
    KeyIsDated(digest, s, now, p);
    var after := CacheAfter(digest, s.cache, now, p);
    KeysAreApart(digest, q, m, p, MinuteBucket(after[CacheKey(p)].deadline - IDEMPOTENCY_KEY_TTL));
  }

  lemma {:induction false} RunKeepsInv(digest: string -> string, s: State, calls: seq<Call>)
    requires Hash(digest) && Inv(digest, s)
    ensures Inv(digest, Run(digest, s, calls).0) && s.now <= Run(digest, s, calls).0.now
    decreases |calls|
  {
    if calls != [] {
      TimeGoesOn(digest, s, calls[0]);
      CallKeepsInv(digest, s, calls[0]);
      RunKeepsInv(digest, MakeCall(digest, s, calls[0]).0, calls[1..]);
    }
  }

  lemma StartInv(digest: string -> string, start: nat)
    ensures Inv(digest, Start(start))
  {}
}
