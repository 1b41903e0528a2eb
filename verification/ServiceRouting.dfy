/** What becomes of each invocation of a supervised service, over every interleaving: handed to it at once,
    buffered, refused, or not decided yet; and which of these, exactly. */
module ServiceRouting {
  import opened ConditionSyntax
  import opened Events
  import opened EventPattern
  import opened Supervisor

  // ---- The ledger of invocations ---------------------------------------------------------------

  predicate Undecided(s: System, id: nat)
    requires id in s.invokers
  {
    s.invokers[id].Snapshot?
  }

  /** Passed on to the service by its own caller, or about to be. */
  predicate Direct(s: System, id: nat)
    requires id in s.invokers
  {
    s.invokers[id].Dispatching? || (id in s.handed && id !in s.buffered)
  }

  predicate RefusedWith(s: System, id: nat, code: Text)
    requires id in s.invokers
  {
    s.invokers[id] == Refused(code)
  }

  /** What the phase of an invoker says about the histories. */
  predicate InvokerOk(s: System, id: nat)
    requires id in s.invokers
  {
    match s.invokers[id]
    case Snapshot(_) => id !in s.buffered && id !in s.handed
    case Dispatching => id !in s.buffered && id !in s.handed
    case Refused(_) => id !in s.buffered && id !in s.handed
    case AboutToSpawn => id in s.buffered
    case _ => id in s.buffered || id in s.handed
  }

  /** A buffered invocation has been handed over exactly if it left the buffer that way. */
  predicate HandedOk(s: System) {
    && (forall i, j :: 0 <= i < j < |s.handed| ==> s.handed[i] != s.handed[j])
    && (forall id :: id in s.handed ==> id in s.invokers)
    && (forall id :: id in s.buffered ==> (id in s.handed <==> Dispatched(id) in s.departures))
  }

  ghost predicate Ledger(s: System) {
    HandedOk(s) && forall id :: id in s.invokers ==> InvokerOk(s, id)
  }

  /** What leaves the buffer was never handed over before. */
  lemma HeadNotHanded(s: System)
    requires Inv(s) && HandedOk(s) && s.buffer != []
    ensures s.buffer[0] in s.buffered && s.buffer[0] !in s.handed
    ensures forall k :: 0 <= k < |s.departures| ==> s.departures[k].id != s.buffer[0]
  {
    var id, n := s.buffer[0], |s.departures|;
    assert s.buffered[n] == id;
    forall k | 0 <= k < n ensures s.departures[k].id != id { assert s.buffered[k] == s.departures[k].id; }
  }

  lemma DrainLedger(cfg: Config, s: System, expired: bool)
    requires Inv(s) && Ledger(s) && Enabled(cfg, s, DrainOne(expired))
    ensures Ledger(Apply(cfg, s, DrainOne(expired)))
  {
    hide Inv;
    HeadNotHanded(s);
    var t := Apply(cfg, s, DrainOne(expired));
    forall id | id in t.invokers ensures InvokerOk(t, id) { assert InvokerOk(s, id) && id in s.invokers; }
    BufferedKnown(s, s.buffer[0]);
  }

  lemma BufferedKnown(s: System, id: nat)
    requires Inv(s) && id in s.buffered
    ensures id in s.invokers
  {
  }

  lemma StepHandedOk(cfg: Config, s: System, step: Step)
    requires Inv(s) && Ledger(s) && Enabled(cfg, s, step) && !step.DrainOne?
    ensures HandedOk(Apply(cfg, s, step))
  {
    hide NeedsBuffer, CanSpawn, Degraded, NotStranded;
    var t := Apply(cfg, s, step);
    DeparturesBuffered(s);
    assert t.departures == s.departures;
    if step.DispatchDirect? { assert InvokerOk(s, step.id); }
    if step.Route? {
      assert InvokerOk(s, step.id);
      forall id | id in t.buffered ensures id in s.buffered || id == step.id { }
    }
  }

  lemma StepInvokerOk(cfg: Config, s: System, step: Step, id: nat)
    requires Enabled(cfg, s, step) && !step.DrainOne? && id in Apply(cfg, s, step).invokers
    requires if id in s.invokers then InvokerOk(s, id) else id !in s.buffered && id !in s.handed
    ensures InvokerOk(Apply(cfg, s, step), id)
  {
    hide NeedsBuffer, CanSpawn, Degraded, BufferLocked;
  }

  lemma StepLedger(cfg: Config, s: System, step: Step)
    requires Inv(s) && Ledger(s) && Enabled(cfg, s, step)
    ensures Ledger(Apply(cfg, s, step))
  {
    hide Inv, Apply, Enabled, InvokerOk;
    if step.DrainOne? {
      DrainLedger(cfg, s, step.expired);
    } else {
      StepHandedOk(cfg, s, step);
      forall id | id in Apply(cfg, s, step).invokers ensures InvokerOk(Apply(cfg, s, step), id) {
        if id in s.buffered { BufferedKnown(s, id); }
        assert id in s.invokers ==> InvokerOk(s, id);
        StepInvokerOk(cfg, s, step, id);
      }
    }
  }

  lemma DeparturesBuffered(s: System)
    requires Inv(s)
    ensures forall d :: d in s.departures ==> d.id in s.buffered
  {
    forall d | d in s.departures ensures d.id in s.buffered {
      var k :| 0 <= k < |s.departures| && s.departures[k] == d;
      assert s.buffered[k] == d.id;
    }
  }

  lemma {:induction false} RunLedger(cfg: Config, s: System, steps: seq<Step>)
    requires Inv(s) && Ledger(s) && RunEnabled(cfg, s, steps)
    ensures Inv(Run(cfg, s, steps)) && Ledger(Run(cfg, s, steps))
    decreases |steps|
  {
    if steps == [] {
    } else {
      StepKeeps(cfg, s, steps[0]);
      StepLedger(cfg, s, steps[0]);
      RunLedger(cfg, Apply(cfg, s, steps[0]), steps[1..]);
    }
  }

  lemma ReachableLedger(cfg: Config, s: System)
    requires Reachable(cfg, s)
    ensures Inv(s) && Ledger(s)
  {
    var steps :| RunEnabled(cfg, Initial, steps) && Run(cfg, Initial, steps) == s;
    RunLedger(cfg, Initial, steps);
  }

  /** Over every run: an invocation is undecided, handed over by its caller, buffered or refused, exactly
      one of these; it is handed to the service at most once, never when refused; and one that no longer
      is about to be handed over has been, unless the buffer let it go otherwise. */
  lemma OneFate(cfg: Config, steps: seq<Step>, id: nat)
    requires RunEnabled(cfg, Initial, steps) && id in Run(cfg, Initial, steps).invokers
    ensures var s := Run(cfg, Initial, steps);
      && multiset{Undecided(s, id), Direct(s, id), id in s.buffered, s.invokers[id].Refused?}[true] == 1
      && (id in s.handed <==> (Direct(s, id) && !s.invokers[id].Dispatching?) || Dispatched(id) in s.departures)
      && (forall i, j :: 0 <= i < j < |s.handed| ==> s.handed[i] != s.handed[j])
  {
    RunLedger(cfg, Initial, steps);
    var s := Run(cfg, Initial, steps);
    DeparturesBuffered(s);
    assert InvokerOk(s, id);
  }

  // ---- Which fate ------------------------------------------------------------------------------

  /** A decision is final. */
  lemma StepDecided(cfg: Config, s: System, step: Step, id: nat)
    requires Inv(s) && Ledger(s) && Enabled(cfg, s, step) && id in s.invokers && !Undecided(s, id)
    ensures var t := Apply(cfg, s, step);
      && id in t.invokers && !Undecided(t, id)
      && (Direct(s, id) ==> Direct(t, id)) && (id in s.buffered ==> id in t.buffered)
      && (s.invokers[id].Refused? ==> t.invokers[id] == s.invokers[id])
  {
    hide Inv, NotStranded, CanSpawn;
    assert InvokerOk(s, id);
    var t := Apply(cfg, s, step);
    if step.DrainOne? { HeadNotHanded(s); }
  }

  lemma {:induction false} RunDecided(cfg: Config, s: System, steps: seq<Step>, id: nat)
    requires Inv(s) && Ledger(s) && RunEnabled(cfg, s, steps) && id in s.invokers && !Undecided(s, id)
    ensures var t := Run(cfg, s, steps);
      && id in t.invokers && !Undecided(t, id)
      && (Direct(s, id) ==> Direct(t, id)) && (id in s.buffered ==> id in t.buffered)
      && (s.invokers[id].Refused? ==> t.invokers[id] == s.invokers[id])
    decreases |steps|
  {
    if steps == [] {
    } else {
      StepDecided(cfg, s, steps[0], id);
      StepKeeps(cfg, s, steps[0]);
      StepLedger(cfg, s, steps[0]);
      RunDecided(cfg, Apply(cfg, s, steps[0]), steps[1..], id);
    }
  }

  /** Until it is routed, an invocation keeps the snapshot that it took. */
  lemma {:induction false} SnapshotKept(cfg: Config, s: System, steps: seq<Step>, id: nat)
    requires RunEnabled(cfg, s, steps) && id in s.invokers && s.invokers[id].Snapshot? && Route(id) !in steps
    ensures id in Run(cfg, s, steps).invokers && Run(cfg, s, steps).invokers[id] == s.invokers[id]
    decreases |steps|
  {
    if steps == [] {
    } else {
      assert steps[0] in steps && forall x :: x in steps[1..] ==> x in steps;
      SnapshotKept(cfg, Apply(cfg, s, steps[0]), steps[1..], id);
    }
  }

  predicate IsDown(s: System) { s.state == Stopped || s.state == Failed }

  /** The fates that an invocation can have, as conditions on the negotiated set when it was made (`a`)
      and the service's state when it is routed (`b`). */
  ghost predicate FateOf(cfg: Config, a: System, b: System, z: System, id: nat)
    requires id in z.invokers
  {
    var action := cfg.action(id);
    var lacking := a.runtimeProvides.Some? && action !in a.runtimeProvides.value;
    var wakes := cfg.activation.OnAction? && PatternMatches(cfg.activation.glob, action);
    var waits := b.state == Starting || (IsDown(b) && wakes);
    && (RefusedWith(z, id, "service_degraded") <==> lacking)
    && (RefusedWith(z, id, "service_unavailable") <==> !lacking && IsDown(b) && !wakes)
    && (RefusedWith(z, id, "buffer_full") <==> !lacking && waits && 64 <= |b.buffer|)
    && (Direct(z, id) <==> !lacking && b.state == Running)
    && (id in z.buffered <==> !lacking && waits && |b.buffer| < 64)
  }

  lemma RouteFate(cfg: Config, a: System, b: System, id: nat)
    requires Inv(b) && Ledger(b) && Enabled(cfg, b, Route(id)) && b.invokers[id] == Snapshot(a.runtimeProvides)
    ensures var t := Apply(cfg, b, Route(id)); id in t.invokers && !Undecided(t, id) && FateOf(cfg, a, b, t, id)
  {
    hide Inv;
    assert InvokerOk(b, id);
    assert MAX_PENDING_BUFFER == 64;
  }

  /** Exactly what becomes of an invocation, over every run: made at `a`, with anything until it is routed
      at `b`, and anything after that up to `z`. */
  lemma RoutedIff(cfg: Config, a: System, id: nat, mid: seq<Step>, b: System, after: seq<Step>, z: System)
    requires Reachable(cfg, a) && Enabled(cfg, a, Invoke(id)) && RunEnabled(cfg, Apply(cfg, a, Invoke(id)), mid)
    requires Route(id) !in mid && b == Run(cfg, Apply(cfg, a, Invoke(id)), mid) && Enabled(cfg, b, Route(id))
    requires RunEnabled(cfg, Apply(cfg, b, Route(id)), after) && z == Run(cfg, Apply(cfg, b, Route(id)), after)
    ensures id in z.invokers && FateOf(cfg, a, b, z, id)
  {
    hide Reachable, FateOf, Inv;
    var s, t := Apply(cfg, a, Invoke(id)), Apply(cfg, b, Route(id));
    ReachableLedger(cfg, a);
    StepKeeps(cfg, a, Invoke(id));
    StepLedger(cfg, a, Invoke(id));
    RunLedger(cfg, s, mid);
    SnapshotKept(cfg, s, mid, id);
    RouteFate(cfg, a, b, id);
    StepKeeps(cfg, b, Route(id));
    StepLedger(cfg, b, Route(id));
    RunDecided(cfg, t, after, id);
    RunLedger(cfg, t, after);
    FateKept(cfg, a, b, t, z, id);
  }

  lemma FateKept(cfg: Config, a: System, b: System, t: System, z: System, id: nat)
    requires Ledger(t) && Ledger(z) && id in t.invokers && id in z.invokers && FateOf(cfg, a, b, t, id)
    requires !Undecided(t, id)
    requires (Direct(t, id) ==> Direct(z, id)) && (id in t.buffered ==> id in z.buffered)
    requires t.invokers[id].Refused? ==> z.invokers[id] == t.invokers[id]
    ensures FateOf(cfg, a, b, z, id)
  {
    assert InvokerOk(t, id) && InvokerOk(z, id);
  }

  /** An invocation waits for its decision only while the startup buffer is being drained, which the spawner
      then goes on with by itself. */
  lemma RouteWaitsForDrain(cfg: Config, s: System, id: nat)
    requires id in s.invokers && Undecided(s, id) && !Enabled(cfg, s, Route(id))
    ensures Enabled(cfg, s, DrainOne(false)) || Enabled(cfg, s, DrainDone)
    ensures Enabled(cfg, s, DrainOne(false)) ==> |Apply(cfg, s, DrainOne(false)).buffer| < |s.buffer|
    ensures Enabled(cfg, s, DrainDone) ==> Enabled(cfg, Apply(cfg, s, DrainDone), Route(id))
  {
  }

  /** The invoker is done with its own steps but for its return. */
  predicate Settled(s: System, id: nat) {
    id in s.invokers && (s.invokers[id].Waiting? || s.invokers[id].Refused? || s.invokers[id].Returned?)
  }

  /** The invoker's own steps: to be routed, to ask for a start, to hand over. */
  predicate Acts(step: Step, id: nat) { step == Route(id) || step == RequestSpawn(id) || step == DispatchDirect(id) }

  lemma {:induction false} SettledStays(cfg: Config, s: System, steps: seq<Step>, id: nat)
    requires RunEnabled(cfg, s, steps) && Settled(s, id)
    ensures Settled(Run(cfg, s, steps), id) && forall x :: x in steps ==> !Acts(x, id)
    decreases |steps|
  {
    if steps == [] {
    } else {
      assert steps == [steps[0]] + steps[1..];
      SettledStays(cfg, Apply(cfg, s, steps[0]), steps[1..], id);
    }
  }

  /** An invocation asks for at most one start and is handed over by its caller at most once: after the one or
      the other its caller does nothing but wait and return. */
  lemma ActsOnce(cfg: Config, s: System, step: Step, after: seq<Step>, id: nat)
    requires (step == RequestSpawn(id) || step == DispatchDirect(id)) && Enabled(cfg, s, step)
    requires RunEnabled(cfg, Apply(cfg, s, step), after)
    ensures forall x :: x in after ==> !Acts(x, id)
  {
    SettledStays(cfg, Apply(cfg, s, step), after, id);
  }

  lemma {:induction false} ReturnedStays(cfg: Config, s: System, steps: seq<Step>, id: nat)
    requires RunEnabled(cfg, s, steps) && id in s.invokers && s.invokers[id].Returned?
    ensures id in Run(cfg, s, steps).invokers && Run(cfg, s, steps).invokers[id] == s.invokers[id]
    decreases |steps|
  {
    if steps == [] {
    } else {
      ReturnedStays(cfg, Apply(cfg, s, steps[0]), steps[1..], id);
    }
  }

  /** An invocation returns once, and its answer stands. */
  lemma ReturnsOnce(cfg: Config, s: System, id: nat, code: Text, after: seq<Step>)
    requires Enabled(cfg, s, Return(id, code)) && RunEnabled(cfg, Apply(cfg, s, Return(id, code)), after)
    ensures var t := Run(cfg, Apply(cfg, s, Return(id, code)), after);
      && id in t.invokers && t.invokers[id] == Returned(code) && forall other :: !Enabled(cfg, t, Return(id, other))
  {
    ReturnedStays(cfg, Apply(cfg, s, Return(id, code)), after, id);
  }

  // ---- The negotiated set ----------------------------------------------------------------------

  /** A running service negotiated its set at the last answer to `initialize`. */
  lemma {:induction false} ProvidesKept(cfg: Config, s: System, steps: seq<Step>)
    requires Inv(s) && RunEnabled(cfg, s, steps) && Run(cfg, s, steps).state == Running
    requires forall x :: x in steps ==> !x.InitReply?
    ensures s.state == Running && Run(cfg, s, steps).runtimeProvides == s.runtimeProvides
    decreases |steps|
  {
    if steps == [] {
    } else {
      assert steps[0] in steps && forall x :: x in steps[1..] ==> x in steps;
      StepKeeps(cfg, s, steps[0]);
      ProvidesKept(cfg, Apply(cfg, s, steps[0]), steps[1..]);
      ProvidesStep(cfg, s, steps[0]);
    }
  }

  lemma ProvidesStep(cfg: Config, s: System, step: Step)
    requires Inv(s) && Enabled(cfg, s, step) && !step.InitReply? && Apply(cfg, s, step).state == Running
    ensures s.state == Running && Apply(cfg, s, step).runtimeProvides == s.runtimeProvides
  {
    hide NotStranded, Accounted;
  }

  /** When no handshake completes between the making and the routing of an invocation, a running service is
      handed it if and only if the negotiated set holds its action, and refuses it as degraded otherwise. */
  lemma NegotiatedHandedIff(cfg: Config, a: System, id: nat, mid: seq<Step>, b: System, after: seq<Step>, z: System)
    requires Reachable(cfg, a) && Enabled(cfg, a, Invoke(id)) && RunEnabled(cfg, Apply(cfg, a, Invoke(id)), mid)
    requires Route(id) !in mid && b == Run(cfg, Apply(cfg, a, Invoke(id)), mid) && Enabled(cfg, b, Route(id))
    requires RunEnabled(cfg, Apply(cfg, b, Route(id)), after) && z == Run(cfg, Apply(cfg, b, Route(id)), after)
    requires b.state == Running && forall x :: x in mid ==> !x.InitReply?
    ensures id in z.invokers && b.runtimeProvides.Some?
    ensures Direct(z, id) <==> cfg.action(id) in b.runtimeProvides.value
    ensures RefusedWith(z, id, "service_degraded") <==> cfg.action(id) !in b.runtimeProvides.value
  {
    RoutedIff(cfg, a, id, mid, b, after, z);
    ReachableLedger(cfg, a);
    StepKeeps(cfg, a, Invoke(id));
    RunKeeps(cfg, Apply(cfg, a, Invoke(id)), mid);
    ProvidesKept(cfg, Apply(cfg, a, Invoke(id)), mid);
  }

  /** One start attempt up to the answer to `initialize`, whoever waits or is buffered. */
  lemma ReachStarted(cfg: Config, s: System, claimed: set<Text>) returns (t: System)
    requires Reachable(cfg, s) && s.spawner == Took && IsDown(s)
    ensures Reachable(cfg, t)
    ensures t == s.(state := Running, runtimeProvides := Some(claimed * cfg.approved), outgoing := true,
      children := s.children + {s.spawned}, current := Some(s.spawned), spawned := s.spawned + 1,
      spawner := Draining(false))
  {
    hide Reachable;
    t := Reach(cfg, s, Claim);
    t := Reach(cfg, t, SpawnProcess(true));
    t := Reach(cfg, t, InitReply(claimed));
  }

  /** Not so across a handshake: an invocation made before it is handed over although the set that came of
      it lacks the action. */
  lemma StaleSnapshotHandsOver(cfg: Config) returns (b: System)
    ensures Reachable(cfg, b) && Enabled(cfg, b, Route(0)) && b.state == Running && b.runtimeProvides == Some({})
    ensures Direct(Apply(cfg, b, Route(0)), 0)
  {
    hide Reachable;
    ReachInitial(cfg);
    b := Reach(cfg, Initial, Invoke(0));
    b := Reach(cfg, b, Enqueue(true));
    b := Reach(cfg, b, Dequeue);
    b := ReachStarted(cfg, b, {});
    assert {} * cfg.approved == {};
  }

  /** And one made with the set of an earlier instance is refused although the present set holds the
      action. */
  lemma StaleSnapshotRefuses(cfg: Config) returns (b: System)
    requires cfg.action(0) in cfg.approved
    ensures Reachable(cfg, b) && Enabled(cfg, b, Route(0)) && b.state == Running && b.runtimeProvides.Some?
    ensures cfg.action(0) in b.runtimeProvides.value
    ensures RefusedWith(Apply(cfg, b, Route(0)), 0, "service_degraded")
  {
    hide Reachable;
    ReachInitial(cfg);
    b := Reach(cfg, Initial, Enqueue(true));
    b := Reach(cfg, b, Dequeue);
    b := ReachStarted(cfg, b, {});
    b := Reach(cfg, b, Invoke(0));
    b := Reach(cfg, b, LockBuffer);
    b := Reach(cfg, b, DrainDone);
    b := Reach(cfg, b, ChildExit(0));
    b := Reach(cfg, b, Enqueue(true));
    b := Reach(cfg, b, Dequeue);
    b := ReachStarted(cfg, b, cfg.approved);
  }

  // ---- Leaving the buffer ----------------------------------------------------------------------

  /** Out of the buffer, and not handed over: it never will be. */
  predicate Dropped(s: System, id: nat) { id in s.buffered && id !in s.buffer && id !in s.handed }

  lemma StepDropped(cfg: Config, s: System, step: Step, id: nat)
    requires Inv(s) && Ledger(s) && Enabled(cfg, s, step) && Dropped(s, id)
    ensures Dropped(Apply(cfg, s, step), id)
  {
    hide Inv, NotStranded, CanSpawn;
    BufferedKnown(s, id);
    assert InvokerOk(s, id);
  }

  lemma {:induction false} RunDropped(cfg: Config, s: System, steps: seq<Step>, id: nat)
    requires Inv(s) && Ledger(s) && RunEnabled(cfg, s, steps) && Dropped(s, id)
    ensures Dropped(Run(cfg, s, steps), id)
    decreases |steps|
  {
    if steps == [] {
    } else {
      StepDropped(cfg, s, steps[0], id);
      StepKeeps(cfg, s, steps[0]);
      StepLedger(cfg, s, steps[0]);
      RunDropped(cfg, Apply(cfg, s, steps[0]), steps[1..], id);
    }
  }

  lemma {:induction false} RunHanded(cfg: Config, s: System, steps: seq<Step>)
    requires RunEnabled(cfg, s, steps)
    ensures s.handed <= Run(cfg, s, steps).handed
    decreases |steps|
  {
    if steps == [] {
    } else {
      RunHanded(cfg, Apply(cfg, s, steps[0]), steps[1..]);
    }
  }

  /** Exactly which buffered invocations reach the service, over every run: those that leave the buffer
      after a start that succeeded, and before their deadline. */
  lemma DrainedIff(cfg: Config, s: System, expired: bool, after: seq<Step>, z: System)
    requires Reachable(cfg, s) && Enabled(cfg, s, DrainOne(expired))
    requires RunEnabled(cfg, Apply(cfg, s, DrainOne(expired)), after)
    requires z == Run(cfg, Apply(cfg, s, DrainOne(expired)), after)
    ensures s.buffer[0] in z.handed <==> s.spawner.Draining? && !expired
  {
    hide Reachable, Inv;
    var t := Apply(cfg, s, DrainOne(expired));
    ReachableLedger(cfg, s);
    StepKeeps(cfg, s, DrainOne(expired));
    StepLedger(cfg, s, DrainOne(expired));
    HeadNotHanded(s);
    BufferOnce(s);
    if s.spawner.Draining? && !expired {
      assert t.handed[|s.handed|] == s.buffer[0];
      RunHanded(cfg, t, after);
      assert z.handed[|s.handed|] == s.buffer[0];
    } else {
      RunDropped(cfg, t, after, s.buffer[0]);
    }
  }

  lemma BufferOnce(s: System)
    requires Inv(s) && s.buffer != []
    ensures s.buffer[0] !in s.buffer[1..]
  {
    forall k | 0 < k < |s.buffer| ensures s.buffer[k] != s.buffer[0] {
      assert s.buffered[|s.departures|] == s.buffer[0] && s.buffered[|s.departures| + k] == s.buffer[k];
    }
  }

  /** A buffered invocation is handed over whatever the handshake negotiated. */
  lemma UnclaimedBufferedHanded(cfg: Config) returns (z: System)
    requires CanSpawn(cfg, cfg.action(0))
    ensures Reachable(cfg, z) && z.state == Running && z.runtimeProvides == Some({}) && 0 in z.handed
  {
    hide Reachable;
    ReachInitial(cfg);
    z := Reach(cfg, Initial, Invoke(0));
    z := Reach(cfg, z, Route(0));
    z := Reach(cfg, z, RequestSpawn(0));
    z := Reach(cfg, z, Dequeue);
    z := ReachStarted(cfg, z, {});
    z := Reach(cfg, z, LockBuffer);
    z := Reach(cfg, z, DrainOne(false));
    assert {} * cfg.approved == {};
  }
}
