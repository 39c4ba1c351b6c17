/** The sorted-set sliding window, as the API limiter and the SMS limiter both use it, against the
    history of all attempts. */
module SlidingWindow {
  import Basics
  import opened RedisModel
  import Sets

  /** Times of attempts on one key, admitted or rejected, oldest first. */
  type Log = seq<int>

  ghost predicate Ordered(log: Log) {
    forall i, j :: 0 <= i < j < |log| ==> log[i] <= log[j]
  }

  ghost predicate Past(log: Log, now: int) {
    Ordered(log) && forall i :: 0 <= i < |log| ==> log[i] <= now
  }

  /** The instants in (now - window, now] at which an attempt was made. */
  function Recent(log: Log, now: int, window: int): set<int> {
    set i | 0 <= i < |log| && now - window < log[i] :: log[i]
  }

  /** The logged instants after now - window. */
  predicate AreRecent(instants: set<int>, log: Log, now: int, window: int) {
    (forall t :: t in instants ==> t in log && now - window < t)
    && forall t :: t in log && now - window < t ==> t in instants
  }

  lemma RecentMeans(log: Log, now: int, window: int)
    ensures AreRecent(Recent(log, now, window), log, now, window)
  {}

  /** The attempts, by position, made in (now - window, now]. */
  function Attempts(log: Log, now: int, window: int): set<nat> {
    set i: nat | i < |log| && now - window < log[i] <= now
  }

  /** The limiter's rule for attempt i. */
  predicate Admitted(log: Log, i: nat, limit: int, window: int)
    requires i < |log|
  {
    |Recent(log[..i], log[i], window)| < limit
  }

  function AdmittedIn(log: Log, limit: int, window: int, t: int): set<nat> {
    set i: nat | i < |log| && t - window < log[i] <= t && Admitted(log, i, limit, window)
  }

  /** The stored sorted set stands for the log: it forgets nothing a later call could count, and
      its key expires only once everything in it is out of the window. */
  ghost predicate Tracks(m: map<string, Cell<set<int>>>, k: string, log: Log, window: int) {
    if log == [] then k !in m
    else
      var last := log[|log| - 1];
      && k in m && m[k].deadline == Basics.Some(last + window)
      && (forall x :: x in m[k].value ==> x in log)
      && (forall x :: x in log && last - window < x ==> x in m[k].value)
  }

  /** What the trim leaves in the sorted set. */
  function Kept(m: map<string, Cell<set<int>>>, k: string, now: int, window: int): set<int> {
    set x | x in Members(m, k, now) && x > now - window
  }

  lemma StoreAgrees(m: map<string, Cell<set<int>>>, k: string, log: Log, now: int, window: int)
    requires window > 0 && Past(log, now) && Tracks(m, k, log, window)
    ensures Kept(m, k, now, window) == Recent(log, now, window)
  {}

  lemma StoreFollows(m: map<string, Cell<set<int>>>, k: string, log: Log, now: int, window: int)
    requires Past(log, now) && k in m
    requires m[k] == Cell(Recent(log, now, window) + {now}, Basics.Some(now + window))
    ensures Past(log + [now], now) && Tracks(m, k, log + [now], window)
  {}

  /** The pipeline ZREMRANGEBYSCORE, ZCARD, ZADD, EXPIRE, sent as one transaction. */
  method Pipeline(redis: Redis, key: string, window: int) returns (count: nat)
    requires window > 0
    modifies redis`zsets
    ensures var kept := Kept(old(redis.zsets), key, redis.now, window);
            && count == |kept| && key in redis.zsets
            && redis.zsets[key] == Cell(kept + {redis.now}, Basics.Some(redis.now + window))
    ensures redis.zsets - {key} == old(redis.zsets) - {key}
  {
    redis.ZRemUpTo(key, redis.now - window);
    count := |Members(redis.zsets, key, redis.now)|;
    redis.ZAdd(key, redis.now);
    redis.ExpireSorted(key, window);
  }

  /** Its count is the number of recent attempts, and the stored set keeps standing for the log. */
  method Slide(redis: Redis, key: string, window: int, ghost log: Log) returns (count: nat)
    requires window > 0 && Past(log, redis.now) && Tracks(redis.zsets, key, log, window)
    modifies redis`zsets
    ensures count == |Recent(log, redis.now, window)|
    ensures Past(log + [redis.now], redis.now) && Tracks(redis.zsets, key, log + [redis.now], window)
    ensures redis.zsets - {key} == old(redis.zsets) - {key}
  {
    StoreAgrees(redis.zsets, key, log, redis.now, window);
    count := Pipeline(redis, key, window);
    StoreFollows(redis.zsets, key, log, redis.now, window);
  }

  // ---------------------------------------------------------------- what the rule guarantees

  /** What the limiter counts is the number of attempts exactly when no two of them share an instant;
      otherwise it is less. */
  lemma CountsAgreeIff(log: Log, now: int, window: int)
    requires Past(log, now)
    ensures |Recent(log, now, window)| <= |Attempts(log, now, window)|
    ensures |Recent(log, now, window)| == |Attempts(log, now, window)| <==> Sets.Apart(log, Attempts(log, now, window))
  {
    Sets.ImageSize(log, Attempts(log, now, window), Recent(log, now, window));
  }

  /** Where the attempts in the window before it have distinct timestamps, the rule counts attempts,
      rejected ones included. */
  lemma RuleCountsAttempts(log: Log, i: nat, limit: int, window: int)
    requires Ordered(log) && i < |log| && Sets.Apart(log[..i], Attempts(log[..i], log[i], window))
    ensures Admitted(log, i, limit, window) <==> |Attempts(log[..i], log[i], window)| < limit
  {
    CountsAgreeIff(log[..i], log[i], window);
  }

  /** The instants of the given attempts. */
  function Instants(log: Log, at: set<nat>): set<int> {
    set i | i in at && i < |log| :: log[i]
  }

  /** The last admitted attempt of a window has counted the instants of the others. */
  lemma LastCountsOthers(log: Log, limit: int, window: int, t: int, u: nat)
    requires Ordered(log) && u in AdmittedIn(log, limit, window, t)
    requires forall i :: i in AdmittedIn(log, limit, window, t) ==> i <= u
    ensures Instants(log, AdmittedIn(log, limit, window, t)) - {log[u]} <= Recent(log[..u], log[u], window)
  {
    var all := AdmittedIn(log, limit, window, t);
    forall x | x in Instants(log, all) - {log[u]} ensures x in Recent(log[..u], log[u], window) {
      var i :| i in all && i < |log| && log[i] == x;
      assert i < u && log[..u][i] == x;
    }
  }

  /** In any window (t - window, t], wherever it lies, attempts are admitted at no more than limit
      instants; so it holds no more than limit admitted attempts, unless two of them share an instant. */
  lemma WindowNeverOverfull(log: Log, limit: int, window: int, t: int)
    requires Ordered(log) && limit >= 0
    ensures var all := AdmittedIn(log, limit, window, t);
            |Instants(log, all)| <= limit && (Sets.Apart(log, all) ==> |all| <= limit)
  {
    var all := AdmittedIn(log, limit, window, t);
    if all != {} {
      var u := Sets.Latest(all);
      LastCountsOthers(log, limit, window, t, u);
      Sets.SubsetSize(Instants(log, all) - {log[u]}, Recent(log[..u], log[u], window));
    }
    Sets.ImageSize(log, all, Instants(log, all));
  }

  /** The member of the sorted set is the timestamp itself, so distinctness matters: at one instant
      any number of attempts is admitted as soon as the limit is two. */
  lemma OneInstantIsUnlimited(log: Log, t: int, i: nat, limit: int, window: int)
    requires window > 0 && i < |log| && (forall j :: 0 <= j < |log| ==> log[j] == t)
    ensures Admitted(log, i, limit, window) <==> (if i == 0 then limit >= 1 else limit >= 2)
  {
    assert Recent(log[..i], t, window) == if i == 0 then {} else {t} by {
      if i > 0 {
        assert log[..i][0] == t;
      }
    }
  }

  /** A key left alone for a whole window admits again. */
  lemma IdleKeyAdmits(log: Log, i: nat, limit: int, window: int)
    requires Ordered(log) && i < |log| && limit >= 1
    requires i > 0 ==> log[i - 1] + window <= log[i]
    ensures Admitted(log, i, limit, window)
  {}
}
