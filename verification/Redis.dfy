/** The part of Redis the services use: string keys set with a time to live, counters and
    sorted sets, all on one clock.  A key is dead from its deadline on.  The three kinds live in
    three maps, because the services' key prefixes never meet. */
module RedisModel {
  import opened Basics

  /** A string key written with an expiry (SET NX EX, SETEX). */
  datatype Lease = Lease(value: string, deadline: int)

  type Store = map<string, Lease>

  predicate Live(m: Store, k: string, now: int) {
    k in m && now < m[k].deadline
  }

  function Get(m: Store, k: string, now: int): Option<string> {
    if Live(m, k, now) then Some(m[k].value) else None
  }

  /** What a client can observe of a store at one instant. */
  function LiveView(m: Store, now: int): Store {
    map k | k in m && now < m[k].deadline :: m[k]
  }

  /** A counter or sorted set; it has no deadline until EXPIRE gives it one. */
  datatype Cell<+V> = Cell(value: V, deadline: Option<int>)

  predicate Alive<V>(m: map<string, Cell<V>>, k: string, now: int) {
    k in m && (m[k].deadline.Some? ==> now < m[k].deadline.value)
  }

  function Count(m: map<string, Cell<int>>, k: string, now: int): int {
    if Alive(m, k, now) then m[k].value else 0
  }

  /** The members of a sorted set.  The limiters use the timestamp as member and as score. */
  function Members(m: map<string, Cell<set<int>>>, k: string, now: int): set<int> {
    if Alive(m, k, now) then m[k].value else {}
  }

  class Redis {
    var now: int
    var strings: Store
    var counters: map<string, Cell<int>>
    var zsets: map<string, Cell<set<int>>>

    constructor (start: int)
      ensures now == start && strings == map[] && counters == map[] && zsets == map[]
    {
      now := start;
      strings, counters, zsets := map[], map[], map[];
    }

    method Advance(d: nat)
      modifies this`now
      ensures now == old(now) + d
    {
      now := now + d;
    }

    method Lookup(k: string) returns (v: Option<string>)
      ensures v == Get(strings, k, now)
    {
      v := if k in strings && now < strings[k].deadline then Some(strings[k].value) else None;
    }

    method SetNx(k: string, v: string, ttl: int) returns (ok: bool)
      modifies this`strings
      ensures ok == !Live(old(strings), k, now)
      ensures strings == if ok then old(strings)[k := Lease(v, now + ttl)] else old(strings)
    {
      ok := !Live(strings, k, now);
      if ok {
        strings := strings[k := Lease(v, now + ttl)];
      }
    }

    method SetEx(k: string, ttl: int, v: string)
      modifies this`strings
      ensures strings == old(strings)[k := Lease(v, now + ttl)]
    {
      strings := strings[k := Lease(v, now + ttl)];
    }

    method Delete(ks: set<string>)
      modifies this`strings
      ensures strings == old(strings) - ks
    {
      strings := strings - ks;
    }

    method DeleteSorted(k: string)
      modifies this`zsets
      ensures zsets == old(zsets) - {k}
    {
      zsets := zsets - {k};
    }

    method Incr(k: string)
      modifies this`counters
      ensures counters == old(counters)[k := Cell(Count(old(counters), k, now) + 1,
                                                  if Alive(old(counters), k, now) then old(counters)[k].deadline
                                                  else None)]
    {
      counters := counters[k := Cell(Count(counters, k, now) + 1,
                                     if Alive(counters, k, now) then counters[k].deadline else None)];
    }

    method ExpireCounter(k: string, ttl: int)
      modifies this`counters
      ensures counters == if Alive(old(counters), k, now)
                          then old(counters)[k := Cell(old(counters)[k].value, Some(now + ttl))] else old(counters)
    {
      if Alive(counters, k, now) {
        counters := counters[k := Cell(counters[k].value, Some(now + ttl))];
      }
    }

    /** ZREMRANGEBYSCORE k -inf bound: drops every member with score at most bound; a sorted set
        left without members stops existing. */
    method ZRemUpTo(k: string, bound: int)
      modifies this`zsets
      ensures Members(zsets, k, now) == set x | x in Members(old(zsets), k, now) && x > bound
      ensures zsets - {k} == old(zsets) - {k}
    {
      if Alive(zsets, k, now) {
        var kept := set x | x in zsets[k].value && x > bound;
        zsets := if kept == {} then zsets - {k} else zsets[k := Cell(kept, zsets[k].deadline)];
      }
    }

    method ZAdd(k: string, score: int)
      modifies this`zsets
      ensures Alive(zsets, k, now) && Members(zsets, k, now) == Members(old(zsets), k, now) + {score}
      ensures zsets - {k} == old(zsets) - {k}
    {
      zsets := zsets[k := Cell(Members(zsets, k, now) + {score},
                               if Alive(zsets, k, now) then zsets[k].deadline else None)];
    }

    method ExpireSorted(k: string, ttl: int)
      modifies this`zsets
      ensures zsets == if Alive(old(zsets), k, now)
                       then old(zsets)[k := Cell(old(zsets)[k].value, Some(now + ttl))] else old(zsets)
    {
      if Alive(zsets, k, now) {
        zsets := zsets[k := Cell(zsets[k].value, Some(now + ttl))];
      }
    }
  }
}
