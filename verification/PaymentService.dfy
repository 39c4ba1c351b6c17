/** The payment service as the program runs it, proved against the call function of ChargeOnce. */
module PaymentServices {
  import opened Basics
  import opened RedisModel
  import opened Payments
  import opened ChargeOnce
  import opened Text

  /** Stripe metadata values are cut to 500 characters. */
  const MAX_METADATA_LENGTH: nat := 500

  type Metadata = map<string, string>

  function Cut(v: string): string { if |v| <= MAX_METADATA_LENGTH then v else v[..MAX_METADATA_LENGTH] }

  /** Caller entries are cut and win over the service's own. */
  predicate Merged(user: string, event: string, extra: Metadata, m: Metadata) {
    && m.Keys == extra.Keys + {"user_id", "event_id", "source"}
    && forall k :: k in m ==> m[k] == if k in extra then Cut(extra[k]) else
                                      if k == "user_id" then user else if k == "event_id" then event else "eventpulse"
  }

  function Without(extra: Metadata, left: set<string>): Metadata {
    map k | k in extra && k !in left :: extra[k]
  }

  lemma OneMoreEntry(user: string, event: string, extra: Metadata, left: set<string>, k: string, m: Metadata)
    requires k in left && left <= extra.Keys && Merged(user, event, Without(extra, left), m)
    ensures Merged(user, event, Without(extra, left - {k}), m[k := Cut(extra[k])])
  {
    assert Without(extra, left - {k}).Keys == Without(extra, left).Keys + {k};
  }

  /** Stripe behind the network: each attempt meets one fault. */
  class Stripe {
    var state: Server

    constructor ()
      ensures state == Server(map[], [])
    {
      state := Server(map[], []);
    }

    method Create(key: string, request: Request, now: int, fault: Fault) returns (reply: Reply)
      modifies this
      ensures (state, reply) == Attempt(old(state), key, request, now, fault)
    {
      var served := Attempt(state, key, request, now, fault);
      state, reply := served.0, served.1;
    }
  }

  class PaymentService {
    const redis: Redis
    const stripe: Stripe
    const digest: string -> string

    ghost function Now(): State
      reads redis, stripe
    {
      State(redis.now, redis.strings, stripe.state)
    }

    ghost predicate Valid()
      reads redis, stripe
    {
      Hash(digest) && Inv(digest, Now())
    }

    constructor (start: nat, digest: string -> string)
      requires Hash(digest)
      ensures Valid() && Now() == Start(start) && this.digest == digest
      ensures fresh(redis) && fresh(stripe)
    {
      this.digest := digest;
      redis := new Redis(start);
      stripe := new Stripe();
      new;
      StartInv(digest, start);
    }

    method Wait(d: nat)
      requires Valid()
      modifies redis
      ensures Valid() && Now() == old(Now()).(now := old(redis.now) + d)
    {
      redis.Advance(d);
      LaterIsDated(digest, old(Now()), d);
    }

    /** _generate_idempotency_key: a key that belongs to this purchase and this minute alone. */
    method GenerateIdempotencyKey(user: string, event: string, amount: nat) returns (key: string)
      requires redis.now >= 0 && Hash(digest)
      ensures key != ""
      ensures forall p: string, m: nat :: digest(RawKey(p, m)) == key <==>
                p == Purchase(user, event, amount) && m == MinuteBucket(redis.now)
      ensures var minute := redis.now / (60 * SECOND);
              key == digest(user + ":" + event + ":" + Decimals.Decimal(amount) + ":" + Decimals.Decimal(minute))
    {
      var purchase, minute := Purchase(user, event, amount), redis.now / MINUTE;
      key := digest(purchase + ":" + Decimals.Decimal(minute));
      assert key == digest(RawKey(purchase, minute));
      forall p: string, m: nat | digest(RawKey(p, m)) == key ensures p == purchase && m == minute {
        KeysAreApart(digest, p, m, purchase, minute);
      }
    }

    /** _get_or_set_idempotency_key */
    method GetOrSetIdempotencyKey(user: string, event: string, amount: nat) returns (key: string)
      requires redis.now >= 0 && Hash(digest)
      modifies redis`strings
      ensures var p := Purchase(user, event, amount);
              && key == KeyFor(digest, old(redis.strings), redis.now, p)
              && redis.strings == CacheAfter(digest, old(redis.strings), redis.now, p)
      ensures var entry := "idem:" + (user + ":" + event + ":" + Decimals.Decimal(amount));
              if entry in old(redis.strings) && redis.now < old(redis.strings)[entry].deadline
                 && old(redis.strings)[entry].value != ""
              then key == old(redis.strings)[entry].value && redis.strings == old(redis.strings)
              else redis.strings == old(redis.strings)[entry := Lease(key, redis.now + 86400 * SECOND)]
    {
      var cacheKey := CacheKey(Purchase(user, event, amount));
      var existing := redis.Lookup(cacheKey);
      if existing.Some? && existing.value != "" {
        return existing.value;
      }
      key := GenerateIdempotencyKey(user, event, amount);
      assert digest(RawKey(Purchase(user, event, amount), MinuteBucket(redis.now))) == key;
      redis.SetEx(cacheKey, IDEMPOTENCY_KEY_TTL, key);
    }

    /** time.sleep in the two retrying except branches */
    method Sleep(e: StripeError, attempt: nat, limit: nat) returns (wait: nat)
      modifies redis`now
      ensures wait == Backoff(e, attempt, limit) && redis.now == old(redis.now) + wait
    {
      wait := 0;
      if e == RateLimitError || attempt < limit - 1 {
        wait := SECOND * Pow2(attempt);
        redis.Advance(wait);
      }
    }

    /** One turn of the loop: over when it returns or raises. */
    method TryOnce(key: string, request: Request, tries: seq<Try>, attempt: nat, ghost trace: seq<Attempted>,
                   ghost slept: int, ghost whole: Retried)
      returns (over: bool, r: Result<Intent, PaymentError>, ghost longer: seq<Attempted>, ghost rested: int)
      requires attempt < |tries|
      requires GoesOn(stripe.state, redis.now, key, request, tries, attempt, |tries|, trace, slept, whole)
      modifies redis`now, stripe
      ensures over ==> redis.now == whole.now && stripe.state == whole.server && r == whole.result
      ensures !over ==> GoesOn(stripe.state, redis.now, key, request, tries, attempt + 1, |tries|, longer, rested,
                               whole)
    {
      ghost var s, now := stripe.state, redis.now;
      longer, rested := trace, slept;
      redis.Advance(tries[attempt].delay);
      var reply := stripe.Create(key, request, redis.now, tries[attempt].fault);
      OneAttempt(s, now, key, request, tries, attempt, |tries|, trace, slept, stripe.state, reply, whole);
      match reply {
        case Returned(intent) => over, r := true, Ok(intent);
        case Failed(e) =>
          r := Err(StripeRaised(e));
          over := e == IdempotencyError || e == CardError;
          if !over {
            var wait := Sleep(e, attempt, |tries|);
            longer, rested := trace + [Sent(tries[attempt], now, reply)], slept + wait;
          }
      }
    }

    /** _call_stripe_with_retry around PaymentIntent.create; MAX_RETRIES is the number of tries, which
        CreatePaymentIntent fixes at three. */
    method CallStripeWithRetry(key: string, request: Request, tries: seq<Try>) returns (r: Result<Intent, PaymentError>)
      modifies redis`now, stripe
      ensures var out := Retry(old(stripe.state), old(redis.now), key, request, tries);
              redis.now == out.now && stripe.state == out.server && r == out.result
      ensures r == Err(PaymentProcessingError) <==> forall i :: 0 <= i < |tries| ==> Transient(tries[i].fault)
      ensures forall i: nat :: FirstFinal(tries, 0, i) ==> Outcome(r, tries[i].fault, request)
      ensures r.Ok? ==> r.value.request == request
    {
      RetryOutcome(stripe.state, redis.now, key, request, tries, Retry(stripe.state, redis.now, key, request, tries));
      ghost var trace, slept := [], 0;
      ghost var whole := Retry(stripe.state, redis.now, key, request, tries);
      for attempt := 0 to |tries|
        invariant GoesOn(stripe.state, redis.now, key, request, tries, attempt, |tries|, trace, slept, whole)
      {
        var over;
        over, r, trace, slept := TryOnce(key, request, tries, attempt, trace, slept, whole);
        if over {
          return;
        }
      }
      return Err(PaymentProcessingError);
    }

    /** The loop that fills payment_metadata. */
    method BuildMetadata(user: string, event: string, extra: Metadata) returns (m: Metadata)
      ensures Merged(user, event, extra, m)
      ensures forall k :: k in extra ==> m[k] <= extra[k] && |m[k]| == if |extra[k]| <= 500 then |extra[k]| else 500
    {
      m := map["user_id" := user, "event_id" := event, "source" := "eventpulse"];
      var left := extra.Keys;
      while left != {}
        invariant left <= extra.Keys
        invariant Merged(user, event, Without(extra, left), m)
      {
        var k :| k in left;
        OneMoreEntry(user, event, extra, left, k, m);
        m := m[k := Cut(extra[k])];
        left := left - {k};
      }
      assert Without(extra, {}) == extra;
    }

    /** create_payment_intent */
    method CreatePaymentIntent(user: string, event: string, amount: int, currency: string, metadata: Metadata,
                               tries: Tries)
      returns (r: Result<Intent, PaymentError>)
      requires Valid()
      modifies redis, stripe
      ensures Valid()
      ensures exists m :: Merged(user, event, metadata, m) &&
                          var call := Call(0, user, event, amount, Request(amount, Lower(currency), m), tries);
                          Now() == MakeCall(digest, old(Now()), call).0
                          && r == MakeCall(digest, old(Now()), call).1.result
      ensures amount <= 0 ==> r == Err(ValueError) && Now() == old(Now())
      ensures r.Ok? ==> r.value.request.amount == amount && r.value.request.currency == Lower(currency)
                        && Merged(user, event, metadata, r.value.request.metadata)
    {
      var m := BuildMetadata(user, event, metadata);
      var request := Request(amount, Lower(currency), m);
      ghost var s, c := Now(), Call(0, user, event, amount, request, tries);
      CallKeepsInv(digest, s, c);
      if amount <= 0 {
        return Err(ValueError);
      }
      var key := GetOrSetIdempotencyKey(user, event, amount);
      r := CallStripeWithRetry(key, request, tries);
      assert Now() == MakeCall(digest, s, c).0 && r == MakeCall(digest, s, c).1.result;
    }
  }

  /** Waiting and then calling is the call with that gap. */
  lemma WaitThenCall(digest: string -> string, s: State, c: Call)
    requires s.now >= 0
    ensures MakeCall(digest, s.(now := s.now + c.gap), c.(gap := 0)) == MakeCall(digest, s, c)
  {
    if c.amount > 0 {
      PayIgnoresTheClock(digest, s.(now := s.now + c.gap), s, s.now + c.gap, Purchase(c.user, c.event, c.amount),
                         c.request, c.tries);
    }
  }

  lemma PayIgnoresTheClock(digest: string -> string, w: State, s: State, now: nat, p: string, request: Request,
                           tries: Tries)
    requires w.cache == s.cache && w.server == s.server
    ensures Pay(digest, w, now, p, request, tries) == Pay(digest, s, now, p, request, tries)
  {}
}
