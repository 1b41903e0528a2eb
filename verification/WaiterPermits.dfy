/** Admission of reply waiters by one atomic counter: add, compare, and on rejection subtract again,
    interleaved over any number of threads. */
module WaiterPermits {
  /** `held` have been admitted and not released; `over` have added and are about to subtract. */
  datatype Counter = Counter(active: nat, held: set<nat>, over: set<nat>, rejected: set<nat>)

  datatype Step = Add(thread: nat) | Undo(thread: nat) | Release(thread: nat)

  const Initial := Counter(0, {}, {}, {})

  predicate Enabled(c: Counter, step: Step) {
    match step
    case Add(t) => t !in c.held && t !in c.over
    case Undo(t) => t in c.over && 0 < c.active
    case Release(t) => t in c.held && 0 < c.active
  }

  function Apply(c: Counter, step: Step, max: nat): Counter
    requires Enabled(c, step)
  {
    match step
    case Add(t) =>
      if c.active < max then c.(active := c.active + 1, held := c.held + {t})
      else c.(active := c.active + 1, over := c.over + {t}, rejected := c.rejected + {t})
    case Undo(t) => c.(active := c.active - 1, over := c.over - {t})
    case Release(t) => c.(active := c.active - 1, held := c.held - {t})
  }

  predicate RunEnabled(c: Counter, steps: seq<Step>, max: nat)
    decreases |steps|
  {
    steps == [] || (Enabled(c, steps[0]) && RunEnabled(Apply(c, steps[0], max), steps[1..], max))
  }

  function Run(c: Counter, steps: seq<Step>, max: nat): Counter
    requires RunEnabled(c, steps, max)
    decreases |steps|
  {
    if steps == [] then c else Run(Apply(c, steps[0], max), steps[1..], max)
  }

  ghost predicate Inv(c: Counter, max: nat) {
    c.held !! c.over && c.active == |c.held| + |c.over| && |c.held| <= max
  }

  lemma {:induction false} RunKeeps(c: Counter, steps: seq<Step>, max: nat)
    requires Inv(c, max) && RunEnabled(c, steps, max)
    ensures Inv(Run(c, steps, max), max)
    decreases |steps|
  {
    if steps == [] {
    } else {
      RunKeeps(Apply(c, steps[0], max), steps[1..], max);
    }
  }

  /** However the counter overshoots in between, admitted waiters never exceed the limit, and the
      counter returns to the number admitted once no rejection is in flight. */
  lemma AdmittedWithinLimit(steps: seq<Step>, max: nat)
    requires RunEnabled(Initial, steps, max)
    ensures var c := Run(Initial, steps, max);
      |c.held| <= max && c.active == |c.held| + |c.over|
  {
    RunKeeps(Initial, steps, max);
  }

  /** Exactly when a thread is turned away, in every state of every run: when those admitted and those
      still to subtract reach the limit together.  With none still to subtract, that is when all permits
      are held. */
  lemma RefusedIff(steps: seq<Step>, max: nat, t: nat)
    requires RunEnabled(Initial, steps, max) && Enabled(Run(Initial, steps, max), Add(t))
    ensures var c := Run(Initial, steps, max);
      var refused := t in Apply(c, Add(t), max).over;
      && (refused <==> max <= |c.held| + |c.over|)
      && (c.over == {} ==> (refused <==> |c.held| == max))
  {
    RunKeeps(Initial, steps, max);
  }

  ghost predicate Reachable(c: Counter, max: nat) {
    exists steps :: RunEnabled(Initial, steps, max) && Run(Initial, steps, max) == c
  }

  lemma {:induction false} RunSnoc(c: Counter, steps: seq<Step>, step: Step, max: nat)
    requires RunEnabled(c, steps, max) && Enabled(Run(c, steps, max), step)
    ensures RunEnabled(c, steps + [step], max)
    ensures Run(c, steps + [step], max) == Apply(Run(c, steps, max), step, max)
    decreases |steps|
  {
    if steps == [] {
    } else {
      assert (steps + [step])[1..] == steps[1..] + [step];
      RunSnoc(Apply(c, steps[0], max), steps[1..], step, max);
    }
  }

  lemma Reach(c: Counter, step: Step, max: nat)
    requires Reachable(c, max) && Enabled(c, step)
    ensures Reachable(Apply(c, step, max), max)
  {
    var steps :| RunEnabled(Initial, steps, max) && Run(Initial, steps, max) == c;
    RunSnoc(Initial, steps, step, max);
  }

  /** The threads from `a` up to `b`. */
  function Range(a: nat, b: nat): (r: set<nat>)
    requires a <= b
    ensures forall t: nat :: t in r <==> a <= t < b
  {
    if a == b then {} else Range(a, b - 1) + {b - 1}
  }

  lemma {:induction false} ReachFull(n: nat, max: nat)
    requires n <= max
    ensures Reachable(Counter(n, Range(0, n), {}, {}), max)
    decreases n
  {
    if n == 0 {
      assert RunEnabled(Initial, [], max) && Run(Initial, [], max) == Initial;
    } else {
      ReachFull(n - 1, max);
      Reach(Counter(n - 1, Range(0, n - 1), {}, {}), Add(n - 1), max);
    }
  }

  lemma {:induction false} ReachOvershoot(n: nat, max: nat)
    ensures Reachable(Counter(max + n, Range(0, max), Range(max, max + n), Range(max, max + n)), max)
    decreases n
  {
    if n == 0 {
      ReachFull(max, max);
    } else {
      ReachOvershoot(n - 1, max);
      var m := max + n - 1;
      Reach(Counter(m, Range(0, max), Range(max, m), Range(max, m)), Add(m), max);
    }
  }

  lemma {:induction false} ReachReleased(n: nat, max: nat)
    requires n <= max
    ensures Reachable(Counter(2 * max - n, Range(n, max), Range(max, 2 * max), Range(max, 2 * max)), max)
    decreases n
  {
    if n == 0 {
      ReachOvershoot(max, max);
    } else {
      ReachReleased(n - 1, max);
      var c := Counter(2 * max - n + 1, Range(n - 1, max), Range(max, 2 * max), Range(max, 2 * max));
      Reach(c, Release(n - 1), max);
      assert Range(n - 1, max) - {n - 1} == Range(n, max);
    }
  }

  /** It does happen, at every limit: a run exists after which nobody holds a permit, and the next
      thread is turned away. */
  lemma SpuriousRejection(max: nat) returns (c: Counter)
    ensures Reachable(c, max) && c.held == {}
    ensures Enabled(c, Add(2 * max)) && 2 * max in Apply(c, Add(2 * max), max).over
  {
    ReachReleased(max, max);
    c := Counter(max, Range(max, max), Range(max, 2 * max), Range(max, 2 * max));
  }

  function Adds(steps: seq<Step>): nat {
    if steps == [] then 0 else (if steps[0].Add? then 1 else 0) + Adds(steps[1..])
  }

  function Subtractions(steps: seq<Step>): nat {
    if steps == [] then 0 else (if steps[0].Add? then 0 else 1) + Subtractions(steps[1..])
  }

  /** The counter is what was added less what was subtracted, over every run; each rejected thread subtracts
      once and each admitted one once, so when all have it is back at zero. */
  lemma {:induction false} CounterIsBalance(c: Counter, steps: seq<Step>, max: nat)
    requires Inv(c, max) && RunEnabled(c, steps, max)
    ensures var t := Run(c, steps, max);
      t.active + Subtractions(steps) == c.active + Adds(steps) && (t.held == {} && t.over == {} ==> t.active == 0)
    decreases |steps|
  {
    if steps == [] {
    } else {
      CounterIsBalance(Apply(c, steps[0], max), steps[1..], max);
    }
  }
}
