/** Payment creation as a state machine: the 24 hour key cache, the retry loop, and a Stripe server
    that deduplicates by key while replies may be lost. */
module Payments {
  import opened Basics
  import opened RedisModel
  import opened Decimals
  import opened Text

  const IDEMPOTENCY_KEY_TTL: int := 86400 * SECOND
  /** config/stripe_config.py: Stripe retains idempotency results for 24 hours. */
  const STRIPE_RETENTION: int := 86400 * SECOND
  const MINUTE: int := 60 * SECOND

  // ---------------------------------------------------------------- keys

  function Purchase(user: string, event: string, amount: nat): string {
    user + ":" + event + ":" + Decimal(amount)
  }

  function CacheKey(purchase: string): string { "idem:" + purchase }

  /** Minutes since the epoch; the clock never runs before it. */
  function MinuteBucket(now: nat): nat { now / MINUTE }

  /** The text that is hashed: the purchase and the minute. */
  function RawKey(purchase: string, minute: nat): string {
    purchase + ":" + Decimal(minute)
  }

  ghost predicate Injective(digest: string -> string) {
    forall x, y :: digest(x) == digest(y) ==> x == y
  }

  /** Different purchases, or different minutes, never share an idempotency key. */
  lemma KeysAreApart(digest: string -> string, p: string, m: nat, q: string, n: nat)
    requires Injective(digest) && digest(RawKey(p, m)) == digest(RawKey(q, n))
    ensures p == q && m == n
  {
    LastColon(p, Decimal(m), q, Decimal(n));
    DecimalInjective(m, n);
  }

  /** Ids without colons (UUIDs, "user_42") make purchases distinct for distinct triples. */
  lemma PurchasesAreApart(u: Uuid, e: Uuid, a: nat, v: Uuid, f: Uuid, b: nat)
    requires Purchase(u, e, a) == Purchase(v, f, b)
    ensures u == v && e == f && a == b
  {
    assert u + ":" + e + ":" + Decimal(a) == (u + ":" + e) + ":" + Decimal(a);
    LastColon(u + ":" + e, Decimal(a), v + ":" + f, Decimal(b));
    LastColon(u, e, v, f);
    DecimalInjective(a, b);
  }

  /** ... but with colons in the ids two different triples share one cache entry. */
  lemma ColonsMixTriples()
    ensures Purchase("a:b", "c", 1) == Purchase("a", "b:c", 1)
  {}

  // ---------------------------------------------------------------- Stripe

  datatype Request = Request(amount: int, currency: string, metadata: map<string, string>)

  datatype Intent = Intent(id: nat, request: Request)

  datatype Stored = Stored(intent: Intent, at: int)

  datatype Creation = Creation(key: string, intent: Intent, at: int)

  /** results: what Stripe remembers per key; created: every PaymentIntent it ever made. */
  datatype Server = Server(results: map<string, Stored>, created: seq<Creation>)

  datatype StripeError = RateLimitError | CardError | IdempotencyError | OtherStripeError

  datatype Reply = Returned(intent: Intent) | Failed(error: StripeError)

  /** What the network does to one attempt, which reaches Stripe after a delay or never. */
  datatype Fault = Clean | ReplyLost(error: StripeError) | NotExecuted(error: StripeError)

  datatype Try = Try(fault: Fault, delay: nat)

  predicate Remembers(s: Server, key: string, now: int) {
    key in s.results && now < s.results[key].at + STRIPE_RETENTION
  }

  function Serve(s: Server, key: string, request: Request, now: int): (Server, Reply) {
    if Remembers(s, key, now) then
      (s, if s.results[key].intent.request == request then Returned(s.results[key].intent)
       else Failed(IdempotencyError))
    else
      var intent := Intent(|s.created|, request);
      (Server(s.results[key := Stored(intent, now)], s.created + [Creation(key, intent, now)]), Returned(intent))
  }

  function Attempt(s: Server, key: string, request: Request, now: int, fault: Fault): (Server, Reply) {
    match fault
    case Clean => Serve(s, key, request, now)
    case ReplyLost(e) => (Serve(s, key, request, now).0, Failed(e))
    case NotExecuted(e) => (s, Failed(e))
  }

  // ---------------------------------------------------------------- the retry loop

  datatype PaymentError = ValueError | StripeRaised(error: StripeError) | PaymentProcessingError

  /** One attempt of a loop: whether and when Stripe executed it, and the reply that came back. */
  datatype Attempted = Attempted(at: int, executed: bool, reply: Reply)

  function Sent(t: Try, now: int, reply: Reply): Attempted {
    Attempted(now + t.delay, !t.fault.NotExecuted?, reply)
  }

  datatype Retried = Retried(server: Server, now: int, result: Result<Intent, PaymentError>, trace: seq<Attempted>,
                             slept: int)

  function Pow2(n: nat): nat { if n == 0 then 1 else 2 * Pow2(n - 1) }

  predicate Retryable(e: StripeError) { e == RateLimitError || e == OtherStripeError }

  /** Rate limiting backs off after every attempt, other errors not after the last one. */
  function Backoff(e: StripeError, attempt: nat, limit: nat): nat {
    if e == RateLimitError || attempt + 1 < limit then SECOND * Pow2(attempt) else 0
  }

  /** The loop from a given attempt on, with the attempts and the sleep so far. */
  function RetryFrom(s: Server, now: int, key: string, request: Request, tries: seq<Try>, attempt: nat, limit: nat,
                     trace: seq<Attempted>, slept: int): (out: Retried)
    requires attempt <= limit <= |tries|
    ensures now <= out.now
    decreases limit - attempt
  {
    if attempt == limit then Retried(s, now, Err(PaymentProcessingError), trace, slept)
    else
      var landed := now + tries[attempt].delay;
      var (s', reply) := Attempt(s, key, request, landed, tries[attempt].fault);
      var trace := trace + [Sent(tries[attempt], now, reply)];
      match reply
      case Returned(intent) => Retried(s', landed, Ok(intent), trace, slept)
      case Failed(e) =>
        if !Retryable(e) then Retried(s', landed, Err(StripeRaised(e)), trace, slept)
        else
          var wait := Backoff(e, attempt, limit);
          RetryFrom(s', landed + wait, key, request, tries, attempt + 1, limit, trace, slept + wait)
  }

  /** The whole loop, allowed as many attempts as there are tries. */
  function Retry(s: Server, now: int, key: string, request: Request, tries: seq<Try>): (out: Retried)
    ensures now <= out.now
  {
    RetryFrom(s, now, key, request, tries, 0, |tries|, [], 0)
  }

  /** The loop goes on from here, or has come to its end. */
  ghost predicate GoesOn(s: Server, now: int, key: string, request: Request, tries: seq<Try>, attempt: nat, limit: nat,
                         trace: seq<Attempted>, slept: int, out: Retried)
    requires attempt <= limit <= |tries|
  {
    RetryFrom(s, now, key, request, tries, attempt, limit, trace, slept) == out
  }

  /** One turn of the loop, after Stripe's reply. */
  lemma OneAttempt(s: Server, now: int, key: string, request: Request, tries: seq<Try>, attempt: nat, limit: nat,
                   trace: seq<Attempted>, slept: int, t: Server, reply: Reply, whole: Retried)
    requires attempt < limit <= |tries| && GoesOn(s, now, key, request, tries, attempt, limit, trace, slept, whole)
    requires Attempt(s, key, request, now + tries[attempt].delay, tries[attempt].fault) == (t, reply)
    ensures var landed := now + tries[attempt].delay;
            var longer := trace + [Sent(tries[attempt], now, reply)];
            match reply
            case Returned(intent) => whole == Retried(t, landed, Ok(intent), longer, slept)
            case Failed(e) =>
              if !Retryable(e) then whole == Retried(t, landed, Err(StripeRaised(e)), longer, slept)
              else var wait := Backoff(e, attempt, limit);
                   GoesOn(t, landed + wait, key, request, tries, attempt + 1, limit, longer, slept + wait, whole)
  {}

  lemma AllAttempts(s: Server, now: int, key: string, request: Request, tries: seq<Try>, limit: nat,
                    trace: seq<Attempted>, slept: int, whole: Retried)
    requires limit <= |tries| && GoesOn(s, now, key, request, tries, limit, limit, trace, slept, whole)
    ensures whole == Retried(s, now, Err(PaymentProcessingError), trace, slept)
  {}

  /** All these attempts failed in a way the loop retries. */
  predicate AllRetried(trace: seq<Attempted>) {
    forall i :: 0 <= i < |trace| ==> trace[i].reply.Failed? && Retryable(trace[i].reply.error)
  }

  /** The loop has ended as its last attempt says, and gave up only after all of them. */
  predicate EndsWell(out: Retried, limit: nat)
    requires out.trace != []
  {
    match out.trace[|out.trace| - 1].reply
    case Returned(intent) => out.result == Ok(intent)
    case Failed(e) => if Retryable(e) then |out.trace| == limit && out.result == Err(PaymentProcessingError)
                      else out.result == Err(StripeRaised(e))
  }

  ghost predicate Shaped(out: Retried, limit: nat) {
    out.trace != [] && |out.trace| <= limit && AllRetried(out.trace[..|out.trace| - 1]) && EndsWell(out, limit)
  }

  lemma {:induction false} RetryShapeFrom(s: Server, now: int, key: string, request: Request, tries: seq<Try>,
                                          attempt: nat, limit: nat, trace: seq<Attempted>, slept: int)
    requires attempt < limit <= |tries| && |trace| == attempt && AllRetried(trace)
    ensures Shaped(RetryFrom(s, now, key, request, tries, attempt, limit, trace, slept), limit)
    decreases limit - attempt
  {
    var landed := now + tries[attempt].delay;
    var (s', reply) := Attempt(s, key, request, landed, tries[attempt].fault);
    var sent := Sent(tries[attempt], now, reply);
    assert (trace + [sent])[..attempt] == trace;
    if reply.Failed? && Retryable(reply.error) && attempt + 1 < limit {
      var wait := Backoff(reply.error, attempt, limit);
      RetryShapeFrom(s', landed + wait, key, request, tries, attempt + 1, limit, trace + [sent], slept + wait);
    }
  }

  lemma {:induction false} RetrySleepsFrom(s: Server, now: int, key: string, request: Request, tries: seq<Try>,
                                           attempt: nat, limit: nat, trace: seq<Attempted>, slept: int)
    requires attempt <= limit <= |tries| && 0 <= slept <= SECOND * (Pow2(attempt) - 1)
    ensures 0 <= RetryFrom(s, now, key, request, tries, attempt, limit, trace, slept).slept <=
              SECOND * (Pow2(limit) - 1)
    decreases limit - attempt
  {
    PowGrows(attempt, limit);
    if attempt < limit {
      var landed := now + tries[attempt].delay;
      var (s', reply) := Attempt(s, key, request, landed, tries[attempt].fault);
      if reply.Failed? && Retryable(reply.error) {
        var wait := Backoff(reply.error, attempt, limit);
        RetrySleepsFrom(s', landed + wait, key, request, tries, attempt + 1, limit,
                        trace + [Sent(tries[attempt], now, reply)], slept + wait);
      }
    }
  }

  lemma {:induction false} PowGrows(m: nat, n: nat)
    requires m <= n
    ensures 1 <= Pow2(m) <= Pow2(n)
  {
    if m < n {
      PowGrows(m, n - 1);
    } else if m > 0 {
      PowGrows(m - 1, m - 1);
    }
  }

  /** What the loop sleeps after an attempt, error by error: a rate limit always, another transient
      error except after the last attempt, a success, a declined card or a reused key never. */
  function Nap(reply: Reply, attempt: nat, limit: nat): int {
    match reply
    case Returned(_) => 0
    case Failed(RateLimitError) => SECOND * Pow2(attempt)
    case Failed(OtherStripeError) => if attempt == limit - 1 then 0 else SECOND * Pow2(attempt)
    case Failed(CardError) => 0
    case Failed(IdempotencyError) => 0
  }

  function Naps(trace: seq<Attempted>, limit: nat): int {
    if trace == [] then 0
    else Naps(trace[..|trace| - 1], limit) + Nap(trace[|trace| - 1].reply, |trace| - 1, limit)
  }

  lemma NapsSnoc(trace: seq<Attempted>, last: Attempted, limit: nat)
    ensures Naps(trace + [last], limit) == Naps(trace, limit) + Nap(last.reply, |trace|, limit)
  {
    assert (trace + [last])[..|trace|] == trace;
  }

  lemma BackoffIsNap(reply: Reply, attempt: nat, limit: nat)
    requires attempt < limit
    ensures Nap(reply, attempt, limit)
            == if reply.Failed? && Retryable(reply.error) then Backoff(reply.error, attempt, limit) else 0
  {}

  lemma {:induction false} RetryNapsFrom(s: Server, now: int, key: string, request: Request, tries: seq<Try>,
                                         attempt: nat, limit: nat, trace: seq<Attempted>, slept: int, whole: Retried)
    requires attempt <= limit <= |tries| && |trace| == attempt && slept == Naps(trace, limit)
    requires GoesOn(s, now, key, request, tries, attempt, limit, trace, slept, whole)
    ensures whole.slept == Naps(whole.trace, limit)
    decreases limit - attempt
  {
    if attempt == limit {
      AllAttempts(s, now, key, request, tries, limit, trace, slept, whole);
    } else {
      var landed := now + tries[attempt].delay;
      var (t, reply) := Attempt(s, key, request, landed, tries[attempt].fault);
      OneAttempt(s, now, key, request, tries, attempt, limit, trace, slept, t, reply, whole);
      var sent := Sent(tries[attempt], now, reply);
      NapsSnoc(trace, sent, limit);
      BackoffIsNap(reply, attempt, limit);
      if reply.Failed? && Retryable(reply.error) {
        var wait := Backoff(reply.error, attempt, limit);
        RetryNapsFrom(t, landed + wait, key, request, tries, attempt + 1, limit, trace + [sent], slept + wait, whole);
      }
    }
  }

  /** For any number of attempts and any faults: a success, a declined card or a reused key ends the
      loop at once and is its result; a rate limit or another transient error is tried again, and
      ends it only after exactly the allowed attempts, as a failure of the whole call. */
  lemma RetryContract(s: Server, now: int, key: string, request: Request, tries: seq<Try>)
    requires tries != []
    ensures var out, limit := Retry(s, now, key, request, tries), |tries|;
            var n := |out.trace|;
            && 1 <= n <= limit
            && (forall i :: 0 <= i < n - 1 ==>
                  out.trace[i].reply == Failed(RateLimitError) || out.trace[i].reply == Failed(OtherStripeError))
            && match out.trace[n - 1].reply
               case Returned(intent) => out.result == Ok(intent)
               case Failed(CardError) => out.result == Err(StripeRaised(CardError))
               case Failed(IdempotencyError) => out.result == Err(StripeRaised(IdempotencyError))
               case Failed(RateLimitError) => n == limit && out.result == Err(PaymentProcessingError)
               case Failed(OtherStripeError) => n == limit && out.result == Err(PaymentProcessingError)
    ensures var out := Retry(s, now, key, request, tries);
            out.slept == Naps(out.trace, |tries|) && 0 <= out.slept <= SECOND * (Pow2(|tries|) - 1)
  {
    RetryShapeFrom(s, now, key, request, tries, 0, |tries|, [], 0);
    RetrySleepsFrom(s, now, key, request, tries, 0, |tries|, [], 0);
    RetryNapsFrom(s, now, key, request, tries, 0, |tries|, [], 0, Retry(s, now, key, request, tries));
    RetriedOnlyTransient(Retry(s, now, key, request, tries));
  }

  lemma RetriedOnlyTransient(out: Retried)
    requires out.trace != [] && AllRetried(out.trace[..|out.trace| - 1])
    ensures forall i :: 0 <= i < |out.trace| - 1 ==>
              out.trace[i].reply == Failed(RateLimitError) || out.trace[i].reply == Failed(OtherStripeError)
  {
    forall i | 0 <= i < |out.trace| - 1
      ensures out.trace[i].reply == Failed(RateLimitError) || out.trace[i].reply == Failed(OtherStripeError)
    {
      assert out.trace[i] == out.trace[..|out.trace| - 1][i];
    }
  }

  /** Faults after which the caller sees a rate limit or another transient error. */
  predicate Transient(f: Fault) {
    || f == NotExecuted(RateLimitError) || f == ReplyLost(RateLimitError)
    || f == NotExecuted(OtherStripeError) || f == ReplyLost(OtherStripeError)
  }

  /** Try i is the first from a given one on that meets none of these. */
  predicate FirstFinal(tries: seq<Try>, from: nat, i: nat) {
    && from <= i < |tries| && !Transient(tries[i].fault)
    && forall j :: from <= j < i ==> Transient(tries[j].fault)
  }

  /** What the caller gets from a last try with this fault: an intent for just what was asked, or the
      error. */
  predicate Outcome(result: Result<Intent, PaymentError>, fault: Fault, request: Request) {
    match fault
    case Clean => if result.Ok? then result.value.request == request else result == Err(StripeRaised(IdempotencyError))
    case NotExecuted(e) => result == Err(StripeRaised(e))
    case ReplyLost(e) => result == Err(StripeRaised(e))
  }

  /** How one try ends the loop or lets it go on. */
  lemma FaultDecides(s: Server, key: string, request: Request, now: int, fault: Fault, t: Server, reply: Reply)
    requires Attempt(s, key, request, now, fault) == (t, reply)
    ensures Transient(fault) <==> reply.Failed? && Retryable(reply.error)
    ensures reply.Returned? ==> Outcome(Ok(reply.intent), fault, request)
    ensures reply.Failed? && !Transient(fault) ==> Outcome(Err(StripeRaised(reply.error)), fault, request)
  {}

  lemma {:induction false} RetryFromOutcome(s: Server, now: int, key: string, request: Request, tries: seq<Try>,
                                            attempt: nat, trace: seq<Attempted>, slept: int, whole: Retried)
    requires attempt <= |tries| && GoesOn(s, now, key, request, tries, attempt, |tries|, trace, slept, whole)
    ensures (forall i :: attempt <= i < |tries| ==> Transient(tries[i].fault)) ==>
              whole.result == Err(PaymentProcessingError)
    ensures forall i: nat :: FirstFinal(tries, attempt, i) ==> Outcome(whole.result, tries[i].fault, request)
    decreases |tries| - attempt
  {
    if attempt == |tries| {
      AllAttempts(s, now, key, request, tries, |tries|, trace, slept, whole);
    } else {
      var landed := now + tries[attempt].delay;
      var (t, reply) := Attempt(s, key, request, landed, tries[attempt].fault);
      OneAttempt(s, now, key, request, tries, attempt, |tries|, trace, slept, t, reply, whole);
      FaultDecides(s, key, request, landed, tries[attempt].fault, t, reply);
      if Transient(tries[attempt].fault) {
        var wait := Backoff(reply.error, attempt, |tries|);
        RetryFromOutcome(t, landed + wait, key, request, tries, attempt + 1,
                         trace + [Sent(tries[attempt], now, reply)], slept + wait, whole);
        assert forall i: nat :: FirstFinal(tries, attempt, i) ==> FirstFinal(tries, attempt + 1, i);
      } else {
        assert forall i: nat :: FirstFinal(tries, attempt, i) ==> i == attempt;
      }
    }
  }

  lemma FindFinal(tries: seq<Try>) returns (i: nat)
    requires exists j :: 0 <= j < |tries| && !Transient(tries[j].fault)
    ensures FirstFinal(tries, 0, i)
  {
    i := 0;
    while Transient(tries[i].fault)
      invariant i < |tries| && forall j :: 0 <= j < i ==> Transient(tries[j].fault)
      decreases |tries| - i
    {
      i := i + 1;
    }
  }

  /** What becomes of a call by the faults its tries meet alone: it gives up exactly when all of them
      are transient, and otherwise the first that is not decides, whatever is left. */
  lemma RetryOutcome(s: Server, now: int, key: string, request: Request, tries: seq<Try>, out: Retried)
    requires out == Retry(s, now, key, request, tries)
    ensures out.result == Err(PaymentProcessingError) <==> forall i :: 0 <= i < |tries| ==> Transient(tries[i].fault)
    ensures forall i: nat :: FirstFinal(tries, 0, i) ==> Outcome(out.result, tries[i].fault, request)
    ensures out.result.Ok? ==> out.result.value.request == request
  {
    RetryFromOutcome(s, now, key, request, tries, 0, [], 0, out);
    if exists i :: 0 <= i < |tries| && !Transient(tries[i].fault) {
      var i := FindFinal(tries);
      assert Outcome(out.result, tries[i].fault, request);
    }
  }

  predicate Rested(reply: Reply, last: bool) {
    reply == Failed(RateLimitError) || (reply == Failed(OtherStripeError) && !last)
  }

  lemma NapIs(reply: Reply, attempt: nat, limit: nat)
    requires attempt < limit
    ensures Nap(reply, attempt, limit) == if Rested(reply, attempt == limit - 1) then SECOND * Pow2(attempt) else 0
  {}

  /** The three attempts of the service sleep one, two and, on a rate limit, four seconds. */
  lemma ThreeAttemptsSleep(a: Attempted, b: Attempted, c: Attempted)
    ensures Naps([a], 3) == if Rested(a.reply, false) then 1 * SECOND else 0
    ensures Naps([a, b], 3) == Naps([a], 3) + if Rested(b.reply, false) then 2 * SECOND else 0
    ensures Naps([a, b, c], 3) == Naps([a, b], 3) + if Rested(c.reply, true) then 4 * SECOND else 0
  {
    assert Pow2(0) == 1 && Pow2(1) == 2 && Pow2(2) == 4;
    NapsSnoc([], a, 3);
    NapsSnoc([a], b, 3);
    NapsSnoc([a, b], c, 3);
    NapIs(a.reply, 0, 3);
    NapIs(b.reply, 1, 3);
    NapIs(c.reply, 2, 3);
    assert [] + [a] == [a] && [a] + [b] == [a, b] && [a, b] + [c] == [a, b, c];
  }
}
