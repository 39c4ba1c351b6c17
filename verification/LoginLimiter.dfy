/** The login limiter: an INCR counter whose expiry is renewed by every admitted attempt. */
module LoginLimiting {
  import opened Basics
  import opened RedisModel
  import Sets
  import opened SlidingWindow

  const LOGIN_RATE_LIMIT: nat := 5
  const LOGIN_RATE_WINDOW: int := 900 * SECOND

  // A log here holds the times of the admitted attempts for one identifier, oldest first.

  /** How many attempts at the end of the log follow each other within the window. */
  function Chain(log: Log): nat {
    var n := |log|;
    if n == 0 then 0
    else if n == 1 || log[n - 1] - log[n - 2] >= LOGIN_RATE_WINDOW then 1
    else Chain(log[..n - 1]) + 1
  }

  /** An attempt is turned away exactly when five admitted attempts have followed each other within
      the window, the last of them less than a window ago. */
  predicate TurnedAway(log: Log, now: int) {
    log != [] && now < log[|log| - 1] + LOGIN_RATE_WINDOW && Chain(log) >= LOGIN_RATE_LIMIT
  }

  lemma ChainAtLeast(log: Log, n: nat)
    requires n > 0
    ensures Chain(log) >= n + 1 <==>
              |log| > 1 && log[|log| - 1] - log[|log| - 2] < 900 * SECOND && Chain(log[..|log| - 1]) >= n
  {}

  /** The last five attempts, written out: each follows the one before it within 900 seconds, and
      the last of them is less than 900 seconds ago. */
  lemma TurnedAwayMeans(log: Log, now: int)
    ensures TurnedAway(log, now) <==>
              var n := |log|;
              && n >= 5 && now - log[n - 1] < 900 * SECOND
              && log[n - 1] - log[n - 2] < 900 * SECOND && log[n - 2] - log[n - 3] < 900 * SECOND
              && log[n - 3] - log[n - 4] < 900 * SECOND && log[n - 4] - log[n - 5] < 900 * SECOND
  {
    var n := |log|;
    ChainAtLeast(log, 4);
    if n > 1 { ChainAtLeast(log[..n - 1], 3); }
    if n > 2 {
      assert log[..n - 1][..n - 2] == log[..n - 2];
      ChainAtLeast(log[..n - 2], 2);
    }
    if n > 3 {
      assert log[..n - 2][..n - 3] == log[..n - 3];
      ChainAtLeast(log[..n - 3], 1);
    }
  }

  /** A log as the limiter can produce it. */
  ghost predicate Fair(log: Log) {
    && Ordered(log)
    && (forall i {:trigger log[..i]} :: 0 <= i < |log| ==> !TurnedAway(log[..i], log[i]))
  }

  predicate Counts(m: map<string, Cell<int>>, k: string, log: Log) {
    if log == [] then k !in m
    else k in m && m[k] == Cell(Chain(log), Some(log[|log| - 1] + LOGIN_RATE_WINDOW))
  }

  // ---------------------------------------------------------------- the service

  function LoginKey(identifier: string): string { "rate:login:" + identifier }

  datatype RateLimitExceeded = RateLimitExceeded(ttl: int)

  /** The counter under a key agrees with the log of its admitted attempts. */
  ghost predicate CounterTracks(m: map<string, Cell<int>>, k: string, now: int, log: Log) {
    Counts(m, k, log) && (log != [] ==> log[|log| - 1] <= now)
  }

  /** The guard of the check, read off the counter, is the rule on the log. */
  lemma GuardIsRule(m: map<string, Cell<int>>, k: string, now: int, log: Log)
    requires CounterTracks(m, k, now, log)
    ensures TurnedAway(log, now) <==> Alive(m, k, now) && m[k].value >= LOGIN_RATE_LIMIT
    ensures TurnedAway(log, now) ==> m[k].deadline == Some(log[|log| - 1] + LOGIN_RATE_WINDOW)
  {}

  /** What INCR and EXPIRE do to the counter, an attempt does to the log. */
  lemma AttemptTracked(m: map<string, Cell<int>>, k: string, now: int, log: Log)
    requires CounterTracks(m, k, now, log)
    ensures CounterTracks(m[k := Cell(Count(m, k, now) + 1, Some(now + LOGIN_RATE_WINDOW))], k, now, log + [now])
  {
    ChainGrows(log, now);
  }

  lemma KeysApart(i: string, j: string)
    requires LoginKey(i) == LoginKey(j)
    ensures i == j
  {
    assert LoginKey(i)[11..] == i && LoginKey(j)[11..] == j;
  }

  class LoginLimiter {
    const redis: Redis
    ghost var logs: map<string, Log>

    ghost function LogOf(identifier: string): Log
      reads this
    {
      if identifier in logs then logs[identifier] else []
    }

    ghost predicate Tracked(identifier: string)
      reads this, redis
    {
      CounterTracks(redis.counters, LoginKey(identifier), redis.now, LogOf(identifier))
    }

    ghost predicate Valid()
      reads this, redis
    {
      forall i :: Tracked(i)
    }

    constructor (redis: Redis)
      requires redis.counters == map[]
      ensures Valid() && this.redis == redis && logs == map[]
    {
      this.redis := redis;
      logs := map[];
    }

    method Wait(d: nat)
      requires Valid()
      modifies redis`now
      ensures Valid() && redis.now == old(redis.now) + d
    {
      redis.Advance(d);
      forall i ensures Tracked(i) {
        assert old(Tracked(i));
      }
    }

    /** The first call of _check_rate_limit: GET, and TTL for the message. */
    method Read(identifier: string) returns (r: Result<(), RateLimitExceeded>)
      requires Valid()
      ensures r.Err? <==> TurnedAway(LogOf(identifier), redis.now)
      ensures r.Err? ==> redis.now + r.error.ttl == LogOf(identifier)[|LogOf(identifier)| - 1] + LOGIN_RATE_WINDOW
      ensures var key := "rate:login:" + identifier;
              r.Err? <==> Alive(redis.counters, key, redis.now) && redis.counters[key].value >= 5
    {
      var key := LoginKey(identifier);
      assert Tracked(identifier);
      GuardIsRule(redis.counters, key, redis.now, LogOf(identifier));
      if Alive(redis.counters, key, redis.now) && redis.counters[key].value >= LOGIN_RATE_LIMIT {
        return Err(RateLimitExceeded(redis.counters[key].deadline.value - redis.now));
      }
      return Ok(());
    }

    /** Its second call, whatever others have done to the counter in between. */
    method Increment(identifier: string)
      requires Valid()
      modifies this`logs, redis`counters
      ensures Valid() && logs == old(logs)[identifier := old(LogOf(identifier)) + [redis.now]]
      ensures var key := "rate:login:" + identifier;
              redis.counters == old(redis.counters)[key := Cell(Count(old(redis.counters), key, redis.now) + 1,
                                                                Some(redis.now + 900 * SECOND))]
    {
      var key := LoginKey(identifier);
      assert Tracked(identifier);
      ghost var log := LogOf(identifier);
      AttemptTracked(redis.counters, key, redis.now, log);
      Bump(redis, key);
      logs := logs[identifier := log + [redis.now]];
      forall i | i != identifier ensures Tracked(i) {
        assert old(Tracked(i)) && LogOf(i) == old(LogOf(i));
        OtherCounter(old(redis.counters), redis.counters, identifier, i);
      }
    }

    /** Both calls without interruption.  A login that comes alone leaves a fair log fair. */
    method CheckRateLimit(identifier: string) returns (r: Result<(), RateLimitExceeded>)
      requires Valid()
      modifies this`logs, redis`counters
      ensures Valid()
      ensures r.Err? <==> TurnedAway(old(LogOf(identifier)), redis.now)
      ensures r.Err? ==> logs == old(logs) && redis.counters == old(redis.counters)
                         && redis.now + r.error.ttl == LogOf(identifier)[|LogOf(identifier)| - 1] + LOGIN_RATE_WINDOW
      ensures r.Ok? ==> logs == old(logs)[identifier := old(LogOf(identifier)) + [redis.now]]
      ensures old(Fair(LogOf(identifier))) ==> Fair(LogOf(identifier))
    {
      r := Read(identifier);
      if r.Ok? {
        assert Tracked(identifier);
        if Fair(LogOf(identifier)) {
          FairGrows(LogOf(identifier), redis.now);
        }
        Increment(identifier);
      }
    }
  }

  lemma OtherCounter(before: map<string, Cell<int>>, after: map<string, Cell<int>>, identifier: string, other: string)
    requires other != identifier && LoginKey(identifier) in after
    requires after == before[LoginKey(identifier) := after[LoginKey(identifier)]]
    ensures LoginKey(other) in after <==> LoginKey(other) in before
    ensures LoginKey(other) in after ==> after[LoginKey(other)] == before[LoginKey(other)]
  {
    if LoginKey(other) == LoginKey(identifier) {
      KeysApart(other, identifier);
    }
  }

  /** The pipeline INCR, EXPIRE. */
  method Bump(redis: Redis, key: string)
    modifies redis`counters
    ensures redis.counters ==
              old(redis.counters)[key := Cell(Count(old(redis.counters), key, redis.now) + 1,
                                              Some(redis.now + LOGIN_RATE_WINDOW))]
  {
    redis.Incr(key);
    redis.ExpireCounter(key, LOGIN_RATE_WINDOW);
  }

  lemma ChainGrows(log: Log, now: int)
    ensures Chain(log + [now]) == if log != [] && now < log[|log| - 1] + LOGIN_RATE_WINDOW then Chain(log) + 1 else 1
  {}

  lemma FairGrows(log: Log, now: int)
    requires Fair(log) && !TurnedAway(log, now) && (log != [] ==> log[|log| - 1] <= now)
    ensures Fair(log + [now])
  {
    var l := log + [now];
    assert l[..|log|] == log;
    forall i {:trigger l[..i]} | 0 <= i < |l| ensures !TurnedAway(l[..i], l[i]) {
      if i < |log| {
        assert l[..i] == log[..i];
      }
    }
  }

  // ---------------------------------------------------------------- what the rule guarantees

  /** Attempts i to i + n follow each other within the window. */
  ghost predicate Linked(log: Log, i: nat, n: nat)
    requires i + n < |log|
  {
    forall j :: i <= j < i + n ==> log[j + 1] - log[j] < LOGIN_RATE_WINDOW
  }

  lemma {:induction false} ChainCoversLinked(log: Log, i: nat, n: nat)
    requires i + n < |log| && Linked(log, i, n)
    ensures Chain(log[..i + n + 1]) >= n + 1
  {
    if n > 0 {
      ChainCoversLinked(log, i, n - 1);
      assert log[i + n] - log[i + n - 1] < LOGIN_RATE_WINDOW;
      assert log[..i + n + 1][..i + n] == log[..i + n];
    }
  }

  /** No chain in the log was ever longer than most. */
  ghost predicate Bounded(log: Log, most: nat) {
    Chain(log) <= most && (log == [] || Bounded(log[..|log| - 1], most))
  }

  lemma {:induction false} PrefixBounded(log: Log, most: nat, n: nat)
    requires Bounded(log, most) && n <= |log|
    ensures Chain(log[..n]) <= most
  {
    if n == |log| {
      assert log[..n] == log;
    } else {
      PrefixBounded(log[..|log| - 1], most, n);
      assert log[..|log| - 1][..n] == log[..n];
    }
  }

  lemma {:induction false} FairIsBounded(log: Log)
    requires Fair(log)
    ensures Bounded(log, LOGIN_RATE_LIMIT)
  {
    if log != [] {
      var front, last := log[..|log| - 1], log[|log| - 1];
      assert !TurnedAway(front, last);
      FairPrefix(log, |log| - 1);
      FairIsBounded(front);
      assert log == front + [last];
      ChainGrows(front, last);
    }
  }

  lemma FairPrefix(log: Log, n: nat)
    requires Fair(log) && n <= |log|
    ensures Fair(log[..n])
  {
    var front := log[..n];
    forall i {:trigger front[..i]} | 0 <= i < n ensures !TurnedAway(front[..i], front[i]) {
      assert front[..i] == log[..i];
    }
  }

  /** Admitted attempts with gaps under 900 seconds number no more than the longest chain. */
  lemma ChainsAreShort(log: Log, most: nat, i: nat, n: nat)
    requires Bounded(log, most) && i + n < |log| && Linked(log, i, n)
    ensures n < most
  {
    ChainCoversLinked(log, i, n);
    PrefixBounded(log, most, i + n + 1);
  }

  /** So as many steps forward in the log take at least a window. */
  lemma {:induction false} StepsTakeAWindow(log: Log, most: nat, i: nat, m: nat)
    requires Ordered(log) && Bounded(log, most) && i + most * m < |log|
    decreases m
    ensures log[i + most * m] >= log[i] + m * LOGIN_RATE_WINDOW
  {
    if m > 0 {
      var next := i + most;
      assert i + most * m == next + most * (m - 1);
      StepsTakeAWindow(log, most, next, m - 1);
      GapOfAWindow(log, most, i);
    }
  }

  lemma FindGap(log: Log, most: nat, i: nat) returns (j: nat)
    requires Bounded(log, most) && i + most < |log|
    ensures i <= j < i + most && log[j + 1] - log[j] >= LOGIN_RATE_WINDOW
  {
    if Linked(log, i, most) {
      ChainsAreShort(log, most, i, most);
    }
    j :| i <= j < i + most && log[j + 1] - log[j] >= LOGIN_RATE_WINDOW;
  }

  lemma GapOfAWindow(log: Log, most: nat, i: nat)
    requires Ordered(log) && Bounded(log, most) && i + most < |log|
    ensures log[i + most] >= log[i] + LOGIN_RATE_WINDOW
  {
    var j := FindGap(log, most, i);
    assert log[i] <= log[j] && log[j + 1] <= log[i + most];
  }

  /** A closed interval of l microseconds never holds more than most * (l / 900 s + 1) admitted
      attempts, where most is the length of the longest chain: five for a limiter whose attempts
      come one after another. */
  lemma IntervalBound(log: Log, most: nat, a: int, l: nat)
    requires Ordered(log) && Bounded(log, most)
    ensures |set i: nat | i < |log| && a <= log[i] <= a + l| <= most * (l / (900 * SECOND) + 1)
  {
    var inside := set i: nat | i < |log| && a <= log[i] <= a + l;
    if inside != {} {
      var last := Sets.Latest(inside);
      var first := Sets.Earliest(inside, last);
      FewBetween(log, most, first, last, l);
      Sets.SubsetSize(inside, Sets.Range(first, last + 1));
    } else {
      assert 0 <= most * (l / LOGIN_RATE_WINDOW + 1);
    }
  }

  lemma FewBetween(log: Log, most: nat, first: nat, last: nat, l: nat)
    requires Ordered(log) && Bounded(log, most) && first <= last < |log| && log[last] <= log[first] + l
    ensures last - first < most * (l / LOGIN_RATE_WINDOW + 1)
  {
    var m := l / LOGIN_RATE_WINDOW + 1;
    var steps := most * m;
    if last - first >= steps {
      StepsTakeAWindow(log, most, first, m);
      WindowsPass(l);
    }
  }

  lemma WindowsPass(l: nat)
    ensures (l / LOGIN_RATE_WINDOW + 1) * LOGIN_RATE_WINDOW > l
  {}

  /** Someone whose last admitted attempt is a whole window ago is never turned away. */
  lemma WaitingAlwaysHelps(log: Log, now: int)
    requires log != [] ==> now >= log[|log| - 1] + 900 * SECOND
    ensures !TurnedAway(log, now) && Chain(log + [now]) == 1
  {}

  function Steady(start: int, n: nat): Log {
    seq(n, i => start + i * (LOGIN_RATE_WINDOW - 1))
  }

  lemma {:induction false} SteadyIsFair(start: int, n: nat)
    requires n <= LOGIN_RATE_LIMIT
    ensures Fair(Steady(start, n)) && Chain(Steady(start, n)) == n
  {
    if n > 0 {
      SteadyIsFair(start, n - 1);
      SteadyGrows(start, n);
      OneMoreAttempt(Steady(start, n - 1), Steady(start, n)[n - 1], n);
    }
  }

  lemma SteadyGrows(start: int, n: nat)
    requires n > 0
    ensures |Steady(start, n)| == n && Steady(start, n) == Steady(start, n - 1) + [Steady(start, n)[n - 1]]
    ensures n > 1 ==> Steady(start, n)[n - 1] - Steady(start, n)[n - 2] == LOGIN_RATE_WINDOW - 1
  {}

  lemma OneMoreAttempt(log: Log, now: int, n: nat)
    requires Fair(log) && Chain(log) == |log| == n - 1 && n <= LOGIN_RATE_LIMIT
    requires log != [] ==> now - log[n - 2] == LOGIN_RATE_WINDOW - 1
    ensures Fair(log + [now]) && Chain(log + [now]) == n
  {
    ChainGrows(log, now);
    FairGrows(log, now);
  }

  /** The attempts of the last window are the last ones in the log. */
  lemma RecentAreLast(log: Log, now: int, n: nat)
    requires Past(log, now) && n > 0
    ensures |Attempts(log, now, LOGIN_RATE_WINDOW)| >= n <==> |log| >= n && now - LOGIN_RATE_WINDOW < log[|log| - n]
  {
    var recent := Attempts(log, now, LOGIN_RATE_WINDOW);
    if |log| >= n && now - LOGIN_RATE_WINDOW < log[|log| - n] {
      Sets.SubsetSize(Sets.Range(|log| - n, |log|), recent);
    } else {
      var from := if |log| >= n then |log| - n + 1 else 0;
      Sets.SubsetSize(recent, Sets.Range(from, |log|));
    }
  }

  /** Five attempts within the window make a chain of five that has not lapsed. */
  lemma FiveRecentAreRefused(log: Log, now: int)
    requires Past(log, now) && |log| >= LOGIN_RATE_LIMIT && now - LOGIN_RATE_WINDOW < log[|log| - LOGIN_RATE_LIMIT]
    ensures TurnedAway(log, now)
  {
    var n := |log| - LOGIN_RATE_LIMIT;
    assert Linked(log, n, LOGIN_RATE_LIMIT - 1);
    ChainCoversLinked(log, n, LOGIN_RATE_LIMIT - 1);
    assert log[..n + LOGIN_RATE_LIMIT] == log;
  }

  /** Six within the window would be a chain of six. */
  lemma NeverSixRecent(log: Log, now: int)
    requires Fair(log) && Past(log, now) && |log| > LOGIN_RATE_LIMIT
    ensures log[|log| - LOGIN_RATE_LIMIT - 1] <= now - LOGIN_RATE_WINDOW
  {
    var n := |log| - LOGIN_RATE_LIMIT - 1;
    FairIsBounded(log);
    if now - LOGIN_RATE_WINDOW < log[n] {
      assert Linked(log, n, LOGIN_RATE_LIMIT);
      ChainsAreShort(log, LOGIN_RATE_LIMIT, n, LOGIN_RATE_LIMIT);
    }
  }

  /** The configured "5 attempts per 15 minutes".  Five attempts in the last 15 minutes are always
      refused a sixth, and they are never more than five.  What goes wrong is the other way round,
      because every attempt renews the expiry: a refusal without five attempts in the last 15 minutes
      happens exactly when the chain of attempts is five long, the first of these five is out of the
      window and the last one is not. */
  lemma FivePerWindowIff(log: Log, now: int)
    requires Fair(log) && Past(log, now)
    ensures var n, recent := |log|, |Attempts(log, now, 900 * SECOND)|;
            && recent <= 5 && (recent == 5 ==> TurnedAway(log, now))
            && (TurnedAway(log, now) && recent < 5 <==>
                Chain(log) == 5 && n >= 5
                && log[n - 5] + 900 * SECOND <= now < log[n - 1] + 900 * SECOND)
  {
    var n := |log|;
    RecentAreLast(log, now, LOGIN_RATE_LIMIT);
    RecentAreLast(log, now, LOGIN_RATE_LIMIT + 1);
    if n > LOGIN_RATE_LIMIT {
      NeverSixRecent(log, now);
    }
    if n >= LOGIN_RATE_LIMIT && now - LOGIN_RATE_WINDOW < log[n - LOGIN_RATE_LIMIT] {
      FiveRecentAreRefused(log, now);
    }
    LongestChain(log);
  }

  lemma LongestChain(log: Log)
    requires Fair(log)
    ensures Chain(log) <= LOGIN_RATE_LIMIT && Chain(log) <= |log|
  {
    FairIsBounded(log);
    ChainIsInLog(log);
  }

  lemma {:induction false} ChainIsInLog(log: Log)
    ensures Chain(log) <= |log|
  {
    if |log| > 1 {
      ChainIsInLog(log[..|log| - 1]);
    }
  }

  /** So somebody can be turned away with a single attempt in the last 15 minutes. */
  lemma SlowUserIsTurnedAway(start: int)
    ensures var log, now := Steady(start, 5), start + 5 * (LOGIN_RATE_WINDOW - 1);
            && Fair(log) && TurnedAway(log, now)
            && (set i: nat | i < |log| && now - LOGIN_RATE_WINDOW < log[i] <= now) == {4}
  {
    SteadyIsFair(start, 5);
  }
}
