/** Logins for one identifier whose checks run at the same time: the read of the counter and the
    increment behind it are two Redis calls, between which others may read the same value. */
module LoginRace {
  import opened Basics
  import opened LoginLimiting
  import Sets
  import opened SlidingWindow

  /** racing: the logins that have read the counter, were let through and have yet to increment it. */
  datatype State = State(now: int, log: Log, racing: set<nat>)

  datatype Step = Wait(d: nat) | Read(login: nat) | Increment(login: nat)

  function Start(now: int): State { State(now, [], {}) }

  /** Read and Increment are the methods of the limiter, which state the same effect on the log. */
  function Next(s: State, e: Step): State {
    match e
    case Wait(d) => s.(now := s.now + d)
    case Read(c) => if TurnedAway(s.log, s.now) then s else s.(racing := s.racing + {c})
    case Increment(c) => if c in s.racing then s.(log := s.log + [s.now], racing := s.racing - {c}) else s
  }

  function Run(s: State, steps: seq<Step>): State {
    if steps == [] then s else Next(Run(s, steps[..|steps| - 1]), steps[|steps| - 1])
  }

  /** At no time are more than so many logins between their read and their increment. */
  ghost predicate AtMost(s: State, steps: seq<Step>, racers: nat) {
    |Run(s, steps).racing| <= racers && (steps == [] || AtMost(s, steps[..|steps| - 1], racers))
  }

  /** What the counter reads. */
  function Current(s: State): nat {
    if s.log != [] && s.now < s.log[|s.log| - 1] + LOGIN_RATE_WINDOW then Chain(s.log) else 0
  }

  ghost predicate Inv(s: State, racers: nat) {
    && Past(s.log, s.now) && Bounded(s.log, LOGIN_RATE_LIMIT - 1 + racers)
    && Current(s) + |s.racing| <= LOGIN_RATE_LIMIT - 1 + racers
  }

  lemma NextKeepsInv(s: State, e: Step, racers: nat)
    requires Inv(s, racers) && |Next(s, e).racing| <= racers
    ensures Inv(Next(s, e), racers)
  {
    if e.Increment? && e.login in s.racing {
      ChainGrows(s.log, s.now);
      assert (s.log + [s.now])[..|s.log|] == s.log;
    }
  }

  lemma {:induction false} RunKeepsInv(now: int, steps: seq<Step>, racers: nat)
    requires AtMost(Start(now), steps, racers)
    ensures Inv(Run(Start(now), steps), racers)
  {
    if steps != [] {
      var front := steps[..|steps| - 1];
      RunKeepsInv(now, front, racers);
      NextKeepsInv(Run(Start(now), front), steps[|steps| - 1], racers);
    }
  }

  /** With at most r logins at a time between read and increment, no chain of admitted attempts is
      longer than 4 + r: five when they come one by one, and every further racer adds one.  So a
      closed interval of l microseconds holds at most (4 + r) * (l / 900 s + 1) of them. */
  lemma RacersBound(now: int, steps: seq<Step>, racers: nat, a: int, l: nat)
    requires AtMost(Start(now), steps, racers)
    ensures var log := Run(Start(now), steps).log;
            && Bounded(log, 4 + racers)
            && |set i: nat | i < |log| && a <= log[i] <= a + l| <= (4 + racers) * (l / (900 * SECOND) + 1)
  {
    RunKeepsInv(now, steps, racers);
    IntervalBound(Run(Start(now), steps).log, 4 + racers, a, l);
  }

  // ---------------------------------------------------------------- the bound is reached

  /** n attempts at one instant. */
  function Same(now: int, n: nat): Log { seq(n, i => now) }

  lemma {:induction false} SameChain(now: int, n: nat)
    ensures Chain(Same(now, n)) == n
  {
    if n > 0 {
      SameChain(now, n - 1);
      assert Same(now, n) == Same(now, n - 1) + [now];
      ChainGrows(Same(now, n - 1), now);
    }
  }

  lemma OneMore(s: State, xs: seq<Step>, t: State, x: Step, racers: nat) returns (steps: seq<Step>, u: State)
    requires t == Run(s, xs) && AtMost(s, xs, racers) && |Next(t, x).racing| <= racers
    ensures steps == xs + [x] && u == Next(t, x) == Run(s, steps) && AtMost(s, steps, racers)
  {
    steps, u := xs + [x], Next(t, x);
    assert steps[..|steps| - 1] == xs;
  }

  /** Logins one by one, each of them let through. */
  lemma {:induction false} OneByOne(now: int, n: nat, racers: nat) returns (steps: seq<Step>, s: State)
    requires n < LOGIN_RATE_LIMIT && racers >= 1
    ensures s == State(now, Same(now, n), {}) == Run(Start(now), steps) && AtMost(Start(now), steps, racers)
  {
    if n == 0 {
      steps, s := [], Start(now);
    } else {
      steps, s := OneByOne(now, n - 1, racers);
      SameChain(now, n - 1);
      steps, s := OneMore(Start(now), steps, s, Read(0), racers);
      assert s.racing == {0};
      steps, s := OneMore(Start(now), steps, s, Increment(0), racers);
      assert Same(now, n) == Same(now, n - 1) + [now];
    }
  }

  /** ... then many reads, while the counter still reads four. */
  lemma {:induction false} AllRead(now: int, n: nat, racers: nat) returns (steps: seq<Step>, s: State)
    requires n <= racers && racers >= 1
    ensures s == State(now, Same(now, LOGIN_RATE_LIMIT - 1), Sets.Range(0, n)) == Run(Start(now), steps)
    ensures AtMost(Start(now), steps, racers)
  {
    if n == 0 {
      steps, s := OneByOne(now, LOGIN_RATE_LIMIT - 1, racers);
    } else {
      steps, s := AllRead(now, n - 1, racers);
      SameChain(now, LOGIN_RATE_LIMIT - 1);
      assert s.racing + {n - 1} == Sets.Range(0, n);
      steps, s := OneMore(Start(now), steps, s, Read(n - 1), racers);
    }
  }

  /** All have read, and the first so many have incremented. */
  function Incremented(now: int, n: nat, racers: nat): State
    requires n <= racers
  {
    State(now, Same(now, LOGIN_RATE_LIMIT - 1 + n), Sets.Range(n, racers))
  }

  lemma OneMoreIncrement(now: int, n: nat, racers: nat)
    requires n < racers
    ensures Next(Incremented(now, n, racers), Increment(n)) == Incremented(now, n + 1, racers)
  {
    assert Sets.Range(n, racers) - {n} == Sets.Range(n + 1, racers);
    SameGrows(now, LOGIN_RATE_LIMIT - 1 + n);
  }

  lemma SameGrows(now: int, n: nat)
    ensures Same(now, n + 1) == Same(now, n) + [now]
  {}

  /** ... then all their increments. */
  lemma {:induction false} AllIncrement(now: int, n: nat, racers: nat) returns (steps: seq<Step>)
    requires n <= racers && racers >= 1
    ensures Incremented(now, n, racers) == Run(Start(now), steps) && AtMost(Start(now), steps, racers)
  {
    var s;
    if n == 0 {
      steps, s := AllRead(now, racers, racers);
    } else {
      steps := AllIncrement(now, n - 1, racers);
      OneMoreIncrement(now, n - 1, racers);
      steps, s := OneMore(Start(now), steps, Incremented(now, n - 1, racers), Increment(n - 1), racers);
    }
  }

  /** r racing logins do get 4 + r attempts through, all at one instant. */
  lemma RacersReachTheBound(now: int, racers: nat) returns (steps: seq<Step>)
    requires racers >= 1
    ensures AtMost(Start(now), steps, racers)
    ensures var log := Run(Start(now), steps).log;
            Chain(log) == |log| == 4 + racers && forall i :: 0 <= i < |log| ==> log[i] == now
  {
    steps := AllIncrement(now, racers, racers);
    SameChain(now, LOGIN_RATE_LIMIT - 1 + racers);
  }
}
