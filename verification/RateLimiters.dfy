/** The API limiter (utils/rate_limiter.py) and the SMS limiter, each a user of the sliding window. */
module RateLimiting {
  import opened Basics
  import opened RedisModel
  import opened SlidingWindow
  import Text

  datatype Limit = Limit(requests: nat, seconds: nat)

  /** ENDPOINT_LIMITS without its default entry, in dictionary order. */
  const ENDPOINT_LIMITS: seq<(string, Limit)> := [
    ("/api/v1/payments", Limit(30, 60)),
    ("/api/v1/auth/login", Limit(10, 60)),
    ("/api/v1/auth/register", Limit(5, 300)),
    ("/api/v1/events", Limit(60, 60)),
    ("/api/v1/search", Limit(40, 60))]

  const DEFAULT_LIMIT: Limit := Limit(100, 60)

  function FirstMatch(table: seq<(string, Limit)>, endpoint: string): Option<(string, Limit)> {
    if table == [] then None
    else if table[0].0 <= endpoint then Some(table[0])
    else FirstMatch(table[1..], endpoint)
  }

  function ResolveLimit(endpoint: string): Limit {
    match FirstMatch(ENDPOINT_LIMITS, endpoint)
    case Some(entry) => entry.1
    case None => DEFAULT_LIMIT
  }

  function ResolveEndpointPrefix(endpoint: string): string {
    match FirstMatch(ENDPOINT_LIMITS, endpoint)
    case Some(entry) => entry.0
    case None => "default"
  }

  function MakeKey(identifier: string, endpoint: string): string {
    "rl:" + identifier + ":" + ResolveEndpointPrefix(endpoint)
  }

  lemma {:induction false} FirstMatchFinds(table: seq<(string, Limit)>, endpoint: string)
    ensures match FirstMatch(table, endpoint)
            case Some(entry) => entry in table && entry.0 <= endpoint
            case None => forall entry :: entry in table ==> !(entry.0 <= endpoint)
  {
    if table != [] {
      FirstMatchFinds(table[1..], endpoint);
    }
  }

  /** No prefix in the table begins another one, so the order of the table decides nothing. */
  lemma PrefixesAreUnrelated(p: string, q: string, endpoint: string)
    requires (exists l :: (p, l) in ENDPOINT_LIMITS) && (exists l :: (q, l) in ENDPOINT_LIMITS)
    requires p <= endpoint && q <= endpoint
    ensures p == q
  {
    assert forall n :: 0 <= n < |p| && n < |q| ==> p[n] == endpoint[n] == q[n];
    TableTails(p);
    TableTails(q);
  }

  /** Where two entries of the table differ: within their first 15 characters. */
  lemma TableTails(p: string)
    requires exists l :: (p, l) in ENDPOINT_LIMITS
    ensures |p| >= 14 && p[..8] == "/api/v1/"
    ensures (p[8] == 'p' && p == "/api/v1/payments") || (p[8] == 'e' && p == "/api/v1/events")
         || (p[8] == 's' && p == "/api/v1/search")
         || (p[8] == 'a' && |p| > 14 && ((p[13] == 'l' && p == "/api/v1/auth/login")
                                         || (p[13] == 'r' && p == "/api/v1/auth/register")))
  {}

  /** Both lookups answer for the one table entry whose prefix the path has, or for the default:
      a path gets a limit exactly when it gets that entry's bucket. */
  lemma LimitFollowsBucket(endpoint: string, p: string, l: Limit)
    requires (p, l) in ENDPOINT_LIMITS
    ensures p <= endpoint <==> ResolveEndpointPrefix(endpoint) == p
    ensures p <= endpoint ==> ResolveLimit(endpoint) == l
  {
    FirstMatchFinds(ENDPOINT_LIMITS, endpoint);
    if p <= endpoint {
      var entry := FirstMatch(ENDPOINT_LIMITS, endpoint).value;
      PrefixesAreUnrelated(p, entry.0, endpoint);
      OneLimitPerPrefix(entry, (p, l));
    } else {
      TableTails(p);
    }
  }

  lemma OneLimitPerPrefix(a: (string, Limit), b: (string, Limit))
    requires a in ENDPOINT_LIMITS && b in ENDPOINT_LIMITS && a.0 == b.0
    ensures a == b
  {}

  /** Every limit, requests per seconds. */
  lemma LimitTable(endpoint: string)
    ensures "/api/v1/payments" <= endpoint ==> ResolveLimit(endpoint) == Limit(30, 60)
    ensures "/api/v1/auth/login" <= endpoint ==> ResolveLimit(endpoint) == Limit(10, 60)
    ensures "/api/v1/auth/register" <= endpoint ==> ResolveLimit(endpoint) == Limit(5, 300)
    ensures "/api/v1/events" <= endpoint ==> ResolveLimit(endpoint) == Limit(60, 60)
    ensures "/api/v1/search" <= endpoint ==> ResolveLimit(endpoint) == Limit(40, 60)
    ensures !("/api/v1/payments" <= endpoint) && !("/api/v1/auth/login" <= endpoint)
            && !("/api/v1/auth/register" <= endpoint) && !("/api/v1/events" <= endpoint)
            && !("/api/v1/search" <= endpoint)
            ==> ResolveLimit(endpoint) == Limit(100, 60) && ResolveEndpointPrefix(endpoint) == "default"
  {
    LimitFollowsBucket(endpoint, "/api/v1/payments", Limit(30, 60));
    LimitFollowsBucket(endpoint, "/api/v1/auth/login", Limit(10, 60));
    LimitFollowsBucket(endpoint, "/api/v1/auth/register", Limit(5, 300));
    LimitFollowsBucket(endpoint, "/api/v1/events", Limit(60, 60));
    LimitFollowsBucket(endpoint, "/api/v1/search", Limit(40, 60));
    FirstMatchFinds(ENDPOINT_LIMITS, endpoint);
    var first := FirstMatch(ENDPOINT_LIMITS, endpoint);
    if first.Some? {
      TableTails(first.value.0);
    }
  }

  // ---------------------------------------------------------------- buckets

  function Prefixes(): set<string> {
    {"/api/v1/payments", "/api/v1/auth/login", "/api/v1/auth/register", "/api/v1/events", "/api/v1/search", "default"}
  }

  function BucketKey(identifier: string, prefix: string): string {
    "rl:" + identifier + ":" + prefix
  }

  lemma EndpointHasBucket(endpoint: string)
    ensures ResolveEndpointPrefix(endpoint) in Prefixes()
    ensures ResolveLimit(endpoint) == ResolveLimit(ResolveEndpointPrefix(endpoint))
  {
    FirstMatchFinds(ENDPOINT_LIMITS, endpoint);
    match FirstMatch(ENDPOINT_LIMITS, endpoint)
    case None =>
      forall entry | entry in ENDPOINT_LIMITS ensures !(entry.0 <= "default") {
        TableTails(entry.0);
      }
      FirstMatchFinds(ENDPOINT_LIMITS, "default");
    case Some(entry) =>
      TableTails(entry.0);
      LimitFollowsBucket(entry.0, entry.0, entry.1);
  }

  /** Identifiers may contain colons ("ip:...", "user:..."), prefixes do not: buckets never meet. */
  lemma BucketsAreApart(i: string, p: string, j: string, q: string)
    requires p in Prefixes() && q in Prefixes() && BucketKey(i, p) == BucketKey(j, q)
    ensures i == j && p == q
  {
    assert ':' !in p && ':' !in q;
    Text.LastColon("rl:" + i, p, "rl:" + j, q);
    assert ("rl:" + i)[3..] == i && ("rl:" + j)[3..] == j;
  }

  datatype Info = Info(limit: int, remaining: int, windowSeconds: int, resetAt: int, error: bool)

  class RateLimiter {
    const redis: Redis
    ghost var logs: map<(string, string), Log>   // bucket -> attempts since its last reset

    ghost function LogOf(identifier: string, prefix: string): Log
      reads this
    {
      if (identifier, prefix) in logs then logs[(identifier, prefix)] else []
    }

    ghost predicate BucketTracked(identifier: string, prefix: string)
      reads this, redis
    {
      && Past(LogOf(identifier, prefix), redis.now)
      && Tracks(redis.zsets, BucketKey(identifier, prefix), LogOf(identifier, prefix),
                ResolveLimit(prefix).seconds * SECOND)
    }

    ghost predicate Valid()
      reads this, redis
    {
      forall i, p :: p in Prefixes() ==> BucketTracked(i, p)
    }

    constructor (redis: Redis)
      requires redis.zsets == map[]
      ensures Valid() && this.redis == redis && logs == map[]
    {
      this.redis := redis;
      logs := map[];
    }

    method Wait(d: nat)
      requires Valid()
      modifies redis`now
      ensures Valid() && redis.now == old(redis.now) + d
    {
      redis.Advance(d);
      forall i, p | p in Prefixes() ensures BucketTracked(i, p) {
        assert old(BucketTracked(i, p));
      }
    }

    /** A request is allowed exactly when fewer than the limit's number of attempts, admitted or not,
        were made on its bucket in the window before it; no other bucket is affected. */
    method Check(identifier: string, endpoint: string) returns (allowed: bool, info: Info)
      requires Valid()
      modifies this`logs, redis`zsets
      ensures Valid()
      ensures var p, l := ResolveEndpointPrefix(endpoint), ResolveLimit(endpoint);
              && logs == old(logs)[(identifier, p) := old(LogOf(identifier, p)) + [redis.now]]
              && allowed == Admitted(LogOf(identifier, p), |LogOf(identifier, p)| - 1, l.requests, l.seconds * SECOND)
              && info.limit == l.requests && info.error == !allowed
              && (var used := |Recent(old(LogOf(identifier, p)), redis.now, l.seconds * SECOND)|;
                  allowed <==> info.remaining + used + 1 == l.requests)
              && info.remaining >= 0 && (!allowed ==> info.remaining == 0)
              && info.windowSeconds == l.seconds && info.resetAt == redis.now / SECOND + l.seconds
      ensures var p, l := ResolveEndpointPrefix(endpoint), ResolveLimit(endpoint);
              exists recent :: AreRecent(recent, old(LogOf(identifier, p)), redis.now, l.seconds * SECOND)
                               && (allowed <==> |recent| < l.requests)
      ensures "rl:" + identifier + ":" + ResolveEndpointPrefix(endpoint) in redis.zsets
    {
      var limit := ResolveLimit(endpoint);
      var key := MakeKey(identifier, endpoint);
      ghost var p := ResolveEndpointPrefix(endpoint);
      ghost var log := LogOf(identifier, p);
      EndpointHasBucket(endpoint);
      WindowsArePositive(p);
      assert BucketTracked(identifier, p);
      var count := Slide(redis, key, limit.seconds * SECOND, log);
      logs := logs[(identifier, p) := log + [redis.now]];
      assert (log + [redis.now])[..|log|] == log;
      allowed := count < limit.requests;
      RecentMeans(log, redis.now, limit.seconds * SECOND);
      var rest := limit.requests - count - 1;
      info := Info(limit.requests, if rest > 0 then rest else 0, limit.seconds,
                   (redis.now + limit.seconds * SECOND) / SECOND, !allowed);
      forall i, q | q in Prefixes() ensures BucketTracked(i, q) {
        OthersKept(identifier, p, i, q, old(redis.zsets), redis.zsets, old(LogOf(i, q)));
        assert (i, q) != (identifier, p) ==> old(BucketTracked(i, q));
      }
    }

    /** Forgets the bucket's attempts and nothing else. */
    method Reset(identifier: string, endpoint: string)
      requires Valid()
      modifies this`logs, redis`zsets
      ensures Valid() && logs == old(logs) - {(identifier, ResolveEndpointPrefix(endpoint))}
    {
      ghost var p := ResolveEndpointPrefix(endpoint);
      EndpointHasBucket(endpoint);
      redis.DeleteSorted(MakeKey(identifier, endpoint));
      logs := logs - {(identifier, p)};
      forall i, q | q in Prefixes() ensures BucketTracked(i, q) {
        OthersKept(identifier, p, i, q, old(redis.zsets), redis.zsets, old(LogOf(i, q)));
        assert (i, q) != (identifier, p) ==> old(BucketTracked(i, q));
      }
    }
  }

  lemma WindowsArePositive(p: string)
    requires p in Prefixes()
    ensures ResolveLimit(p).seconds > 0
  {}

  lemma OthersKept(i: string, p: string, j: string, q: string,
                   before: map<string, Cell<set<int>>>, after: map<string, Cell<set<int>>>, log: Log)
    requires p in Prefixes() && q in Prefixes()
    requires after - {BucketKey(i, p)} == before - {BucketKey(i, p)}
    ensures (i, p) != (j, q) ==>
              (Tracks(after, BucketKey(j, q), log, ResolveLimit(q).seconds * SECOND) <==>
               Tracks(before, BucketKey(j, q), log, ResolveLimit(q).seconds * SECOND))
  {
    if (i, p) != (j, q) {
      var k := BucketKey(j, q);
      if BucketKey(i, p) == k {
        BucketsAreApart(i, p, j, q);
      }
      assert k in after <==> k in after - {BucketKey(i, p)};
      assert k in before <==> k in before - {BucketKey(i, p)};
      assert k in after ==> (after - {BucketKey(i, p)})[k] == after[k];
    }
  }

  // ---------------------------------------------------------------- SMS

  const SMS_LIMIT: nat := 5
  const SMS_WINDOW: int := 3600 * SECOND

  function SmsKey(user: string): string { "sms_rl:" + user }

  class SmsService {
    const redis: Redis
    ghost var logs: map<string, Log>

    ghost function LogOf(user: string): Log
      reads this
    {
      if user in logs then logs[user] else []
    }

    ghost predicate Tracked(user: string)
      reads this, redis
    {
      Past(LogOf(user), redis.now) && Tracks(redis.zsets, SmsKey(user), LogOf(user), SMS_WINDOW)
    }

    ghost predicate Valid()
      reads this, redis
    {
      forall u :: Tracked(u)
    }

    constructor (redis: Redis)
      requires redis.zsets == map[]
      ensures Valid() && this.redis == redis && logs == map[]
    {
      this.redis := redis;
      logs := map[];
    }

    method Wait(d: nat)
      requires Valid()
      modifies redis`now
      ensures Valid() && redis.now == old(redis.now) + d
    {
      redis.Advance(d);
      forall u ensures Tracked(u) {
        assert old(Tracked(u));
      }
    }

    method CheckRateLimit(user: string) returns (allowed: bool)
      requires Valid()
      modifies this`logs, redis`zsets
      ensures Valid() && logs == old(logs)[user := old(LogOf(user)) + [redis.now]]
      ensures allowed == Admitted(LogOf(user), |LogOf(user)| - 1, 5, 3600 * SECOND)
      ensures exists recent :: AreRecent(recent, old(LogOf(user)), redis.now, 3600 * SECOND)
                               && (allowed <==> |recent| < 5)
      ensures "sms_rl:" + user in redis.zsets
    {
      ghost var log := LogOf(user);
      assert Tracked(user);
      var count := Slide(redis, SmsKey(user), SMS_WINDOW, log);
      logs := logs[user := log + [redis.now]];
      assert (log + [redis.now])[..|log|] == log;
      forall u ensures Tracked(u) {
        if u != user {
          assert old(Tracked(u)) && LogOf(u) == old(LogOf(u));
          OtherUsersKept(old(redis.zsets), redis.zsets, user, u, LogOf(u));
        }
      }
      allowed := !(count >= SMS_LIMIT);
      RecentMeans(log, redis.now, SMS_WINDOW);
    }
  }

  lemma OtherUsersKept(before: map<string, Cell<set<int>>>, after: map<string, Cell<set<int>>>, user: string,
                       other: string, log: Log)
    requires other != user && after - {SmsKey(user)} == before - {SmsKey(user)}
    ensures Tracks(after, SmsKey(other), log, SMS_WINDOW) <==> Tracks(before, SmsKey(other), log, SMS_WINDOW)
  {
    var k := SmsKey(other);
    assert k[7..] == other && SmsKey(user)[7..] == user;
    assert k in after <==> k in after - {SmsKey(user)};
    assert k in before <==> k in before - {SmsKey(user)};
    assert k in after ==> (after - {SmsKey(user)})[k] == after[k];
  }
}
