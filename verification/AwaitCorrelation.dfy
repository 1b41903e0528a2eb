/** When the await machine pairs a completion with its own firing: in one step, and over whole runs. */
module AwaitCorrelation {
  import opened ConditionSyntax
  import opened Events
  import opened EventPattern
  import opened AwaitMachine

  // ---- First-in first-out correlation of one action --------------------------------------------

  /** Numbers of the entries for action `x`, in order. */
  function OfAction(entries: seq<Preflight>, x: Text): seq<nat> {
    if entries == [] then []
    else
      var last := entries[|entries| - 1];
      OfAction(entries[..|entries| - 1], x) + (if last.action == x then [last.firing] else [])
  }

  predicate CompletesAction(step: Step, x: Text) {
    step.DoPromote? && Completes(step.event).Completion? && Completes(step.event).action == x
  }

  function Completions(steps: seq<Step>, x: Text): nat {
    if steps == [] then 0
    else Completions(steps[..|steps| - 1], x) + if CompletesAction(steps[|steps| - 1], x) then 1 else 0
  }

  /** The discipline for `x` at one step: its completions arrive in firing order carrying what the
      invocation returned, and no entry of `x` is swept or cleared while it is a preflight. */
  ghost predicate FifoStep(s: System, done: nat, step: Step, x: Text, resultOf: nat -> Json) {
    var fired := OfAction(s.history, x);
    match step
    case DoPromote(e) =>
      CompletesAction(step, x) ==>
        done < |fired| && (Completes(e).success ==> e.payload == resultOf(fired[done]))
    case DoSweepPreflight(now) => forall p :: p in s.preflight && p.action == x ==> now < p.deadline
    case DoClearPreflight => forall p :: p in s.preflight ==> p.action != x
    case _ => true
  }

  ghost predicate FifoRun(steps: seq<Step>, x: Text, resultOf: nat -> Json, show: Json -> Text)
    decreases |steps|
  {
    steps == [] ||
    (var front := steps[..|steps| - 1];
     && FifoRun(front, x, resultOf, show)
     && FifoStep(Run(Idle, front, show), Completions(front, x), steps[|steps| - 1], x, resultOf))
  }

  /** The preflights of `x` are the firings of `x` not yet completed; every promoted entry of `x`,
      and every event published for one, carries the result of its own invocation. */
  ghost predicate Paired(s: System, done: nat, x: Text, resultOf: nat -> Json) {
    && done <= |OfAction(s.history, x)|
    && OfAction(s.preflight, x) == OfAction(s.history, x)[done..]
    && PendingPaired(s, x, resultOf)
    && EmittedPaired(s, x, resultOf)
  }

  ghost predicate PendingPaired(s: System, x: Text, resultOf: nat -> Json) {
    forall i :: 0 <= i < |s.pending| && s.pending[i].firing < |s.history| && s.history[s.pending[i].firing].action == x
      ==> s.pending[i].actionResult == Some(resultOf(s.pending[i].firing))
  }

  ghost predicate EmittedPaired(s: System, x: Text, resultOf: nat -> Json) {
    forall i :: 0 <= i < |s.emitted| && s.emitted[i].firing < |s.history| && s.history[s.emitted[i].firing].action == x
      ==> Member(s.emitted[i].payload, ACTION_RESULT_KEY) == Some(resultOf(s.emitted[i].firing))
  }

  lemma {:induction false} OfActionConcat(a: seq<Preflight>, b: seq<Preflight>, x: Text)
    ensures OfAction(a + b, x) == OfAction(a, x) + OfAction(b, x)
    decreases |b|
  {
    if b == [] {
      assert a + b == a;
    } else {
      var front, last := b[..|b| - 1], b[|b| - 1];
      assert b == front + [last] && a + b == (a + front) + [last];
      OfActionConcat(a, front, x);
      OfActionSnoc(a + front, last, x);
      OfActionSnoc(front, last, x);
    }
  }

  lemma {:induction false} OfActionNone(entries: seq<Preflight>, x: Text)
    requires forall k :: 0 <= k < |entries| ==> entries[k].action != x
    ensures OfAction(entries, x) == []
    decreases |entries|
  {
    if entries == [] {
    } else {
      OfActionNone(entries[..|entries| - 1], x);
    }
  }

  /** Taking out the first entry of an action drops the head of its list and touches no other. */
  lemma OfActionWithout(pre: seq<Preflight>, i: nat, x: Text)
    requires i < |pre|
    ensures pre[i].action != x ==> OfAction(Without(pre, i), x) == OfAction(pre, x)
    ensures pre[i].action == x && i == Oldest(pre, x) ==>
      OfAction(pre, x) == [pre[i].firing] + OfAction(Without(pre, i), x)
  {
    var a, p, b := pre[..i], pre[i], pre[i + 1..];
    assert pre == a + [p] + b && Without(pre, i) == a + b;
    OfActionConcat(a + [p], b, x);
    OfActionConcat(a, b, x);
    OfActionSnoc(a, p, x);
    if p.action == x && i == Oldest(pre, x) { OfActionNone(a, x); }
  }

  lemma OfActionSnoc(a: seq<Preflight>, p: Preflight, x: Text)
    ensures OfAction(a + [p], x) == OfAction(a, x) + if p.action == x then [p.firing] else []
  {
    assert (a + [p])[..|a|] == a;
  }

  lemma {:induction false} OfActionKept(pre: seq<Preflight>, now: nat, x: Text)
    requires forall p :: p in pre && p.action == x ==> now < p.deadline
    ensures OfAction(KeptPreflight(pre, now), x) == OfAction(pre, x)
  {
    if pre == [] {
    } else {
      var front, last := pre[..|pre| - 1], pre[|pre| - 1];
      assert last in pre;
      OfActionKept(front, now, x);
      var kept := KeptPreflight(front, now);
      if now < last.deadline {
        assert (kept + [last])[..|kept|] == kept;
      } else {
        assert kept + [] == kept;
      }
    }
  }

  lemma OldestExists(pre: seq<Preflight>, x: Text)
    requires OfAction(pre, x) != []
    ensures Oldest(pre, x) < |pre| && OfAction(pre, x)[0] == pre[Oldest(pre, x)].firing
  {
    if Oldest(pre, x) == |pre| { OfActionNone(pre, x); }
    OfActionWithout(pre, Oldest(pre, x), x);
  }

  lemma PromoteAdvances(s: System, done: nat, e: Event, x: Text, show: Json -> Text)
    requires done <= |OfAction(s.history, x)| && OfAction(s.preflight, x) == OfAction(s.history, x)[done..]
    requires CompletesAction(DoPromote(e), x) ==> done < |OfAction(s.history, x)|
    ensures var next := done + if CompletesAction(DoPromote(e), x) then 1 else 0;
      next <= |OfAction(s.history, x)| && OfAction(Promote(s, e, show).preflight, x) == OfAction(s.history, x)[next..]
  {
    hide OfAction, Oldest, Completes, Promoted;
    var c := Completes(e);
    if c.Completion? {
      var i := Oldest(s.preflight, c.action);
      if c.action == x { OldestExists(s.preflight, x); }
      if i < |s.preflight| {
        OfActionWithout(s.preflight, i, x);
        assert Promote(s, e, show).preflight == Without(s.preflight, i);
      }
    }
  }

  lemma PromotePaired(s: System, done: nat, e: Event, x: Text, resultOf: nat -> Json, show: Json -> Text)
    requires Conserved(s) && Paired(s, done, x, resultOf) && FifoStep(s, done, DoPromote(e), x, resultOf)
    ensures Paired(Promote(s, e, show), done + if CompletesAction(DoPromote(e), x) then 1 else 0, x, resultOf)
  {
    hide Located, EmittedOnce, EmittedFaithful, Speaks, StemsFrom;
    PromoteAdvances(s, done, e, x, show);
    var c := Completes(e);
    if c.Completion? && Oldest(s.preflight, c.action) < |s.preflight| {
      var p := s.preflight[Oldest(s.preflight, c.action)];
      assert s.history[p.firing].action == p.action == c.action;
      if c.action == x { OldestExists(s.preflight, x); }
      assert c.success && c.action == x ==> e.payload == resultOf(p.firing);
      var t := Promote(s, e, show);
      assert PendingPaired(t, x, resultOf);
    }
  }

  lemma LapsedPendingPaired(s: System, now: nat, x: Text, resultOf: nat -> Json)
    requires Conserved(s) && PendingPaired(s, x, resultOf) && EmittedPaired(s, x, resultOf)
    ensures PendingPaired(SweepPending(s, now), x, resultOf)
    ensures EmittedPaired(SweepPending(s, now), x, resultOf)
  {
    PendingSplits(s.pending, now);
    var t := SweepPending(s, now);
    forall i | 0 <= i < |t.pending| ensures t.pending[i] in s.pending { }
    var lapsed := LapsedPending(s.pending, now);
    assert forall p :: p in lapsed ==> exists i :: 0 <= i < |s.pending| && s.pending[i] == p;
    DefaultsPaired(lapsed, s.history, x, resultOf);
    var defaults := PendingDefaults(lapsed);
    forall i | |s.emitted| <= i < |t.emitted| ensures t.emitted[i] in defaults { }
  }

  lemma {:induction false} DefaultsPaired(lapsed: seq<Pending>, history: seq<Preflight>, x: Text, resultOf: nat -> Json)
    requires forall p :: p in lapsed ==>
      p.firing < |history| && history[p.firing].action == x ==> p.actionResult == Some(resultOf(p.firing))
    ensures forall m :: m in PendingDefaults(lapsed) ==>
      m.firing < |history| && history[m.firing].action == x ==> Member(m.payload, ACTION_RESULT_KEY) == Some(resultOf(m.firing))
  {
    if lapsed == [] {
    } else {
      assert lapsed[|lapsed| - 1] in lapsed;
      DefaultsPaired(lapsed[..|lapsed| - 1], history, x, resultOf);
    }
  }

  /** No entry of `x` lapses, so a preflight sweep publishes nothing for `x`. */
  lemma {:induction false} SweptOthers(lapsed: seq<Preflight>, x: Text)
    requires forall p :: p in lapsed ==> p.action != x
    ensures forall m :: m in PreflightDefaults(lapsed) ==> exists p :: p in lapsed && p.firing == m.firing
  {
    if lapsed == [] {
    } else {
      var last := lapsed[|lapsed| - 1];
      assert last in lapsed;
      SweptOthers(lapsed[..|lapsed| - 1], x);
      forall m | m in PreflightDefaults(lapsed) ensures exists p :: p in lapsed && p.firing == m.firing {
        if m in PreflightDefaults(lapsed[..|lapsed| - 1]) {
          var p :| p in lapsed[..|lapsed| - 1] && p.firing == m.firing;
          assert p in lapsed;
        }
      }
    }
  }

  lemma SweepPreflightPaired(s: System, done: nat, now: nat, x: Text, resultOf: nat -> Json)
    requires Conserved(s) && Paired(s, done, x, resultOf) && FifoStep(s, done, DoSweepPreflight(now), x, resultOf)
    ensures Paired(SweepPreflight(s, now), done, x, resultOf)
  {
    var t := SweepPreflight(s, now);
    var lapsed := LapsedPreflight(s.preflight, now);
    OfActionKept(s.preflight, now, x);
    PreflightSplits(s.preflight, now);
    SweptOthers(lapsed, x);
    forall i | |s.emitted| <= i < |t.emitted| && t.emitted[i].firing < |s.history|
      ensures s.history[t.emitted[i].firing].action != x
    {
      assert t.emitted[i] in PreflightDefaults(lapsed);
      var p :| p in lapsed && p.firing == t.emitted[i].firing;
      assert p in s.preflight;
    }
  }

  lemma MatchPaired(s: System, done: nat, e: Event, x: Text, resultOf: nat -> Json)
    requires Paired(s, done, x, resultOf)
    ensures Paired(MatchPending(s, e), done, x, resultOf)
  {
  }

  lemma RegisterPaired(s: System, done: nat, p: Preflight, x: Text, resultOf: nat -> Json)
    requires Conserved(s) && p.firing == |s.history| && Paired(s, done, x, resultOf)
    ensures Paired(Register(s, p), done, x, resultOf)
  {
    OfActionSnoc(s.preflight, p, x);
    OfActionSnoc(s.history, p, x);
  }

  lemma FifoStepPaired(s: System, done: nat, step: Step, x: Text, resultOf: nat -> Json, show: Json -> Text)
    requires Conserved(s) && Allowed(s, step) && Paired(s, done, x, resultOf) && FifoStep(s, done, step, x, resultOf)
    ensures Paired(Apply(s, step, show), done + if CompletesAction(step, x) then 1 else 0, x, resultOf)
  {
    match step
    case DoPromote(e) => PromotePaired(s, done, e, x, resultOf, show);
    case DoMatch(e) => MatchPaired(s, done, e, x, resultOf);
    case DoRegister(p) => RegisterPaired(s, done, p, x, resultOf);
    case DoSweepPreflight(now) => SweepPreflightPaired(s, done, now, x, resultOf);
    case DoSweepPending(now) => LapsedPendingPaired(s, now, x, resultOf);
    case DoClearPreflight =>
      assert forall k :: 0 <= k < |s.preflight| ==> s.preflight[k] in s.preflight;
      OfActionNone(s.preflight, x);
    case DoClearPending =>
  }

  /** Whatever happens to other actions meanwhile, a run that keeps the discipline for `x` pairs
      every promoted entry of `x`, and every event published for it, with its own invocation. */
  lemma {:induction false} FifoCorrelation(steps: seq<Step>, x: Text, resultOf: nat -> Json, show: Json -> Text)
    requires RunAllowed(Idle, steps, show) && FifoRun(steps, x, resultOf, show)
    ensures Paired(Run(Idle, steps, show), Completions(steps, x), x, resultOf)
    decreases |steps|
  {
    if steps == [] {
    } else {
      var front := steps[..|steps| - 1];
      FifoCorrelation(front, x, resultOf, show);
      RunConserves(front, show);
      FifoStepPaired(Run(Idle, front, show), Completions(front, x), steps[|steps| - 1], x, resultOf, show);
    }
  }

  /** The hazard, exactly: a successful completion promotes the entry of the firing it belongs to if
      and only if that firing is the oldest outstanding one of its action. */
  lemma PromotesOwnIffOldest(s: System, e: Event, f: nat, show: Json -> Text)
    requires Conserved(s) && InPreflight(s, f)
    requires Completes(e) == Completion(s.history[f].action, true)
    ensures Promote(s, e, show).pending == s.pending + [Promoted(s.history[f], e.payload, show)]
       <==> OfAction(s.preflight, s.history[f].action) != [] && OfAction(s.preflight, s.history[f].action)[0] == f
  {
    var x := s.history[f].action;
    var k :| 0 <= k < |s.preflight| && s.preflight[k].firing == f;
    var i := Oldest(s.preflight, x);
    OfActionWithout(s.preflight, i, x);
    var p := s.preflight[i];
    assert Promote(s, e, show).pending == s.pending + [Promoted(p, e.payload, show)];
    var own := s.pending + [Promoted(s.history[f], e.payload, show)];
    assert own[|s.pending|].firing == f;
    if own == s.pending + [Promoted(p, e.payload, show)] {
      assert own[|s.pending|] == Promoted(p, e.payload, show);
    }
  }

  // ---- The hazard over whole runs --------------------------------------------------------------

  /** As `FifoStep`, but in any order: the completions of `x` belong to firings, the one numbered `done` to
      `owner(done)`, and carry what that invocation returned. */
  ghost predicate OwnedStep(s: System, done: nat, step: Step, x: Text, owner: nat -> nat, resultOf: nat -> Json) {
    match step
    case DoPromote(e) =>
      CompletesAction(step, x) ==>
        done < |OfAction(s.history, x)| && (Completes(e).success ==> e.payload == resultOf(owner(done)))
    case DoSweepPreflight(now) => forall p :: p in s.preflight && p.action == x ==> now < p.deadline
    case DoClearPreflight => forall p :: p in s.preflight ==> p.action != x
    case _ => true
  }

  ghost predicate OwnedRun(steps: seq<Step>, x: Text, owner: nat -> nat, resultOf: nat -> Json, show: Json -> Text)
    decreases |steps|
  {
    steps == [] ||
    (var front := steps[..|steps| - 1];
     && OwnedRun(front, x, owner, resultOf, show)
     && OwnedStep(Run(Idle, front, show), Completions(front, x), steps[|steps| - 1], x, owner, resultOf))
  }

  /** A successful completion of `x` comes when it is the turn of its firing. */
  ghost predicate InTurn(s: System, done: nat, step: Step, x: Text, owner: nat -> nat) {
    CompletesAction(step, x) && Completes(step.event).success ==>
      done < |OfAction(s.history, x)| && owner(done) == OfAction(s.history, x)[done]
  }

  ghost predicate InOrder(steps: seq<Step>, x: Text, owner: nat -> nat, show: Json -> Text)
    decreases |steps|
  {
    steps == [] ||
    (var front := steps[..|steps| - 1];
     && InOrder(front, x, owner, show)
     && InTurn(Run(Idle, front, show), Completions(front, x), steps[|steps| - 1], x, owner))
  }

  /** At each moment of the run, entries and published events for `x` carry their own results. */
  ghost predicate AlwaysPaired(steps: seq<Step>, x: Text, resultOf: nat -> Json, show: Json -> Text)
    decreases |steps|
  {
    steps == [] ||
    (var s := Run(Idle, steps, show);
     && AlwaysPaired(steps[..|steps| - 1], x, resultOf, show)
     && PendingPaired(s, x, resultOf) && EmittedPaired(s, x, resultOf))
  }

  lemma {:induction false} InOrderIsFifo(steps: seq<Step>, x: Text, owner: nat -> nat, resultOf: nat -> Json,
      show: Json -> Text)
    requires OwnedRun(steps, x, owner, resultOf, show) && InOrder(steps, x, owner, show)
    ensures FifoRun(steps, x, resultOf, show)
    decreases |steps|
  {
    if steps == [] {
    } else {
      InOrderIsFifo(steps[..|steps| - 1], x, owner, resultOf, show);
    }
  }

  /** A completion out of turn gives the entry whose turn it is the result of another invocation. */
  lemma OutOfTurnMispairs(s: System, done: nat, step: Step, x: Text, owner: nat -> nat, resultOf: nat -> Json,
      show: Json -> Text)
    requires Conserved(s) && Paired(s, done, x, resultOf) && OwnedStep(s, done, step, x, owner, resultOf)
    requires forall f, g :: resultOf(f) == resultOf(g) ==> f == g
    requires !InTurn(s, done, step, x, owner)
    ensures !PendingPaired(Apply(s, step, show), x, resultOf)
  {
    hide Located, EmittedOnce, EmittedFaithful, PendingFaithful;
    OldestExists(s.preflight, x);
    var p, t := s.preflight[Oldest(s.preflight, x)], Apply(s, step, show);
    assert p.firing == OfAction(s.history, x)[done];
    assert t.pending[|s.pending|] == Promoted(p, step.event.payload, show);
    assert s.history[p.firing].action == x;
    assert t.pending[|s.pending|].actionResult == Some(resultOf(owner(done)));
  }

  /** The hazard over every run: when invocations return different results, the promoted entries of `x`
      and the events published for them carry their own results at each moment of the run, if and only
      if each successful completion comes when it is the turn of its firing. */
  lemma {:induction false} PairedIffInOrder(steps: seq<Step>, x: Text, owner: nat -> nat, resultOf: nat -> Json,
      show: Json -> Text)
    requires RunAllowed(Idle, steps, show) && OwnedRun(steps, x, owner, resultOf, show)
    requires forall f, g :: resultOf(f) == resultOf(g) ==> f == g
    ensures AlwaysPaired(steps, x, resultOf, show) <==> InOrder(steps, x, owner, show)
    decreases |steps|
  {
    hide Conserved, PendingPaired, EmittedPaired, InTurn;
    if steps == [] {
    } else {
      var front, step := steps[..|steps| - 1], steps[|steps| - 1];
      PairedIffInOrder(front, x, owner, resultOf, show);
      if InOrder(front, x, owner, show) {
        InOrderIsFifo(front, x, owner, resultOf, show);
        FifoCorrelation(front, x, resultOf, show);
        RunConserves(front, show);
        LastInTurn(Run(Idle, front, show), Completions(front, x), step, x, owner, resultOf, show);
      }
    }
  }

  lemma LastInTurn(s: System, done: nat, step: Step, x: Text, owner: nat -> nat, resultOf: nat -> Json,
      show: Json -> Text)
    requires Conserved(s) && Allowed(s, step) && Paired(s, done, x, resultOf)
    requires OwnedStep(s, done, step, x, owner, resultOf)
    requires forall f, g :: resultOf(f) == resultOf(g) ==> f == g
    ensures var t := Apply(s, step, show);
      PendingPaired(t, x, resultOf) && EmittedPaired(t, x, resultOf) <==> InTurn(s, done, step, x, owner)
  {
    hide Conserved, PendingPaired, EmittedPaired;
    if InTurn(s, done, step, x, owner) {
      FifoStepPaired(s, done, step, x, resultOf, show);
    } else {
      OutOfTurnMispairs(s, done, step, x, owner, resultOf, show);
    }
  }

  lemma RunSnoc(steps: seq<Step>, step: Step, show: Json -> Text)
    requires RunAllowed(Idle, steps, show) && Allowed(Run(Idle, steps, show), step)
    ensures RunAllowed(Idle, steps + [step], show)
    ensures Run(Idle, steps + [step], show) == Apply(Run(Idle, steps, show), step, show)
  {
    assert (steps + [step])[..|steps|] == steps;
  }

  /** A failing run, from the start: two firings of one action whose invocations return different
      results, and the second one completes first.  The first firing's entry is promoted with the
      second one's result. */
  lemma OutOfOrderMispairs(x: Text, first: Preflight, second: Preflight, e: Event, resultOf: nat -> Json,
      show: Json -> Text)
    returns (steps: seq<Step>)
    requires first.firing == 0 && second.firing == 1 && first.action == x && second.action == x
    requires e.origin == Internal && Completes(e) == Completion(x, true) && e.payload == resultOf(1)
    requires resultOf(0) != resultOf(1)
    ensures steps == [DoRegister(first), DoRegister(second), DoPromote(e)] && RunAllowed(Idle, steps, show)
    ensures var s := Run(Idle, steps, show);
      && s.pending == [Promoted(first, resultOf(1), show)] && s.preflight == [second]
      && !PendingPaired(s, x, resultOf)
  {
    assert Run(Idle, [], show) == Idle && RunAllowed(Idle, [], show);
    RunSnoc([], DoRegister(first), show);
    RunSnoc([DoRegister(first)], DoRegister(second), show);
    assert [] + [DoRegister(first)] == [DoRegister(first)];
    assert [DoRegister(first)] + [DoRegister(second)] == [DoRegister(first), DoRegister(second)];
    var s := Run(Idle, [DoRegister(first), DoRegister(second)], show);
    assert s.preflight == [first, second] && s.pending == [];
    RunSnoc([DoRegister(first), DoRegister(second)], DoPromote(e), show);
    steps := [DoRegister(first), DoRegister(second), DoPromote(e)];
    assert steps == [DoRegister(first), DoRegister(second)] + [DoPromote(e)];
    assert Oldest([first, second], x) == 0 && Without([first, second], 0) == [second];
    var t := Run(Idle, steps, show);
    assert t.pending[0].firing == 0 && t.pending[0].actionResult == Some(resultOf(1));
  }
}
