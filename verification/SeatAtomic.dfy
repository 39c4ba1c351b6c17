/** Runs in which every allocator method is carried out without interruption: of all the assumptions
    only the one about taken seats is left. */
module SeatAtomic {
  import opened Basics
  import opened RedisModel
  import opened SeatProtocol
  import opened SeatSafety
  import opened SeatAges
  import opened SeatLimits
  import SeatHistory
  import SeatLedger

  /** Checks, commits, rollbacks and flushes come in time. */
  predicate Prompt(s: State, step: Step) {
    && SeatHistory.OwnRollback(s, step)
    && (step.Check? || step.Commit? || step.Rollback? || step.Flush? ==> Guard(s, step))
    && (step.Flush? ==> step.call in s.updates)
  }

  /** ... and every DELETE follows its flush at once. */
  predicate FollowsFlush(steps: seq<Step>, i: nat)
    requires i < |steps|
  {
    steps[i].Drop? ==> i > 0 && steps[i - 1] == Flush(steps[i].call)
  }

  ghost predicate PromptRun(states: seq<State>, steps: seq<Step>) {
    && Passes(states, steps) && states[0] == Init(states[0].now)
    && (forall i :: 0 <= i < |steps| ==> Prompt(states[i], steps[i]))
    && (forall i :: 0 <= i < |steps| ==> FollowsFlush(steps, i))
  }

  lemma PromptSnoc(states: seq<State>, steps: seq<Step>, step: Step)
    requires PromptRun(states, steps) && Prompt(states[|steps|], step)
    requires step.Drop? ==> steps != [] && steps[|steps| - 1] == Flush(step.call)
    ensures PromptRun(states + [Next(states[|steps|], step)], steps + [step])
  {
    var after := steps + [step];
    forall i | 0 <= i < |after| ensures FollowsFlush(after, i) {
      if i < |steps| {
        assert FollowsFlush(steps, i);
      }
    }
  }

  lemma PromptPrefix(states: seq<State>, steps: seq<Step>, n: nat)
    requires PromptRun(states, steps) && n <= |steps|
    ensures PromptRun(states[..n + 1], steps[..n]) && Run(states[0], steps[..n]) == states[n]
  {
    forall i | 0 <= i < n ensures FollowsFlush(steps[..n], i) {
      assert FollowsFlush(steps, i);
    }
    PassesIsRun(states[..n + 1], steps[..n]);
  }

  /** What the class needs to know of its state between two calls. */
  lemma {:induction false} NamedAlong(states: seq<State>, steps: seq<Step>)
    requires Passes(states, steps) && Named(states[0])
    ensures Named(states[|steps|])
  {
    if steps != [] {
      var n := |steps| - 1;
      NamedAlong(states[..n + 1], steps[..n]);
      NamedKept(states[n], steps[n]);
    }
  }

  lemma {:induction false} PromptIsTame(states: seq<State>, steps: seq<Step>)
    requires PromptRun(states, steps)
    ensures SeatHistory.TameRun(states[0], steps) && SeatLedger.FlushesInTime(states[0], steps)
  {
    if steps != [] {
      var n := |steps| - 1;
      PromptPrefix(states, steps, n);
      PromptIsTame(states[..n + 1], steps[..n]);
    }
  }

  /** Every lock was taken on a seat without an active ticket. */
  ghost predicate LocksFreeSeats(states: seq<State>, steps: seq<Step>)
    requires |states| == |steps| + 1
  {
    forall i :: 0 <= i < |steps| && steps[i].Acquire? ==> Guard(states[i], steps[i])
  }

  lemma {:induction false} PromptIsGuarded(states: seq<State>, steps: seq<Step>)
    requires PromptRun(states, steps) && LocksFreeSeats(states, steps)
    ensures Guarded(states[0], steps)
  {
    if steps != [] {
      var n := |steps| - 1;
      PromptPrefix(states, steps, n);
      PromptIsGuarded(states[..n + 1], steps[..n]);
      if steps[n].Drop? {
        DropAtOnce(states, steps, n);
      }
    }
  }

  lemma DropAtOnce(states: seq<State>, steps: seq<Step>, n: nat)
    requires PromptRun(states, steps) && n < |steps| && steps[n].Drop? && Guarded(states[0], steps[..n])
    ensures Guard(states[n], steps[n])
  {
    assert FollowsFlush(steps, n) && Prompt(states[n - 1], steps[n - 1]);
    InvBefore(states, steps, n - 1, n);
    FlushThenDrop(states[n - 1], steps[n].call);
  }

  lemma InvBefore(states: seq<State>, steps: seq<Step>, m: nat, n: nat)
    requires PromptRun(states, steps) && m <= n <= |steps| && Guarded(states[0], steps[..n])
    ensures Inv(states[m])
  {
    GuardedPrefix(states[0], steps[..n], m);
    assert steps[..n][..m] == steps[..m];
    PromptPrefix(states, steps, m);
    InvHolds(states[0].now, steps[..m]);
  }

  lemma {:induction false} GuardedPrefix(s: State, steps: seq<Step>, m: nat)
    requires Guarded(s, steps) && m <= |steps|
    ensures Guarded(s, steps[..m])
  {
    if m < |steps| {
      GuardedPrefix(s, steps[..|steps| - 1], m);
      assert steps[..|steps| - 1][..m] == steps[..m];
    } else {
      assert steps[..m] == steps;
    }
  }

  /** A DELETE sent at once after a punctual flush is harmless. */
  lemma FlushThenDrop(s: State, c: nat)
    requires Inv(s) && c in s.updates && Guard(s, Flush(c))
    ensures Guard(Next(s, Flush(c)), Drop(c))
  {
    if s.updates[c].cause == ByCleanup {
      CleanupMeetsNoLiveLock(s, c);
    }
  }
}
