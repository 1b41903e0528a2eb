/** One supervised service among any number: invokers, the single spawner thread and child exits,
    interleaved at lock granularity before shutdown.  Requests for other services keep the spawner
    busy but touch nothing of this one. */
module Supervisor {
  import opened ConditionSyntax
  import opened Events
  import opened EventPattern

  const MAX_PENDING_BUFFER := 64

  datatype ServiceState = Stopped | Starting | Running | Failed

  datatype Activation = OnStartup | OnEvent(glob: Text) | OnAction(glob: Text)

  /** `approved` is the manifest set; `action` gives the action of each invocation. */
  datatype Config = Config(activation: Activation, approved: set<Text>, action: nat -> Text)

  /** Where the spawner thread is.  `locked` says it holds the startup-buffer lock. */
  datatype Spawner =
    | Idle
    | OnOther
    | Took
    | Initializing(spawned: bool)
    | Draining(locked: bool)
    | MarkingFailed
    | ClosingOutgoing
    | FailDraining(locked: bool)

  datatype Invoker =
    | Snapshot(seen: Option<set<Text>>)
    | AboutToSpawn
    | Dispatching
    | Waiting
    | Refused(code: Text)
    | Returned(code: Text)

  /** How an invocation left the startup buffer. */
  datatype Departure = Dispatched(id: nat) | Expired(id: nat) | StartFailed(id: nat)

  /** `children` are the child processes alive, `current` the one of the newest start attempt, `spawned` the
      number of children ever spawned.  The code keeps none of these: an exit is only an exit.  `buffered`,
      `departures` and `handed` (invocations passed on to the service) are history. */
  datatype System = System(
    state: ServiceState, runtimeProvides: Option<set<Text>>, outgoing: bool,
    children: set<nat>, current: Option<nat>, spawned: nat,
    buffer: seq<nat>, queue: seq<bool>, spawner: Spawner, invokers: map<nat, Invoker>,
    buffered: seq<nat>, departures: seq<Departure>, handed: seq<nat>)

  const Initial := System(Stopped, None, false, {}, None, 0, [], [], Idle, map[], [], [], [])

  datatype Step =
    | Invoke(id: nat)
    | Route(id: nat)
    | RequestSpawn(id: nat)
    | DispatchDirect(id: nat)
    | Return(id: nat, code: Text)
    | Enqueue(own: bool)
    | Dequeue
    | OtherDone
    | Claim
    | SpawnProcess(ok: bool)
    | InitFails
    | InitReply(claimed: set<Text>)
    | LockBuffer
    | DrainOne(expired: bool)
    | DrainDone
    | MarkFailed
    | CloseOutgoing
    | ChildExit(child: nat)

  predicate BufferLocked(s: System) {
    s.spawner == Draining(true) || s.spawner == FailDraining(true)
  }

  predicate CanSpawn(cfg: Config, action: Text) {
    cfg.activation.OnAction? && PatternMatches(cfg.activation.glob, action)
  }

  predicate Degraded(cfg: Config, s: System, id: nat)
    requires id in s.invokers && s.invokers[id].Snapshot?
  {
    var seen := s.invokers[id].seen;
    seen.Some? && cfg.action(id) !in seen.value
  }

  /** The routing decision takes the startup-buffer lock only on these paths. */
  predicate NeedsBuffer(cfg: Config, s: System, id: nat)
    requires id in s.invokers && s.invokers[id].Snapshot?
  {
    !Degraded(cfg, s, id) && (s.state == Starting || (s.state != Running && CanSpawn(cfg, cfg.action(id))))
  }

  predicate Enabled(cfg: Config, s: System, step: Step) {
    match step
    case Invoke(id) => id !in s.invokers
    case Route(id) => id in s.invokers && s.invokers[id].Snapshot? && !(BufferLocked(s) && NeedsBuffer(cfg, s, id))
    case RequestSpawn(id) => id in s.invokers && s.invokers[id].AboutToSpawn?
    case DispatchDirect(id) => id in s.invokers && s.invokers[id].Dispatching?
    case Return(id, _) => id in s.invokers && s.invokers[id].Waiting?
    case Enqueue(_) => true
    case Dequeue => s.spawner.Idle? && s.queue != []
    case OtherDone => s.spawner.OnOther?
    case Claim => s.spawner.Took?
    case SpawnProcess(_) => s.spawner == Initializing(false)
    case InitFails => s.spawner == Initializing(true)
    case InitReply(_) => s.spawner == Initializing(true)
    case LockBuffer => s.spawner == Draining(false) || s.spawner == FailDraining(false)
    case DrainOne(_) => BufferLocked(s) && s.buffer != []
    case DrainDone => BufferLocked(s) && s.buffer == []
    case MarkFailed => s.spawner.MarkingFailed?
    case CloseOutgoing => s.spawner.ClosingOutgoing?
    case ChildExit(c) => c in s.children
  }

  function Push(s: System, id: nat, next: Invoker): System {
    if MAX_PENDING_BUFFER <= |s.buffer| then s.(invokers := s.invokers[id := Refused("buffer_full")])
    else s.(buffer := s.buffer + [id], buffered := s.buffered + [id], invokers := s.invokers[id := next])
  }

  /** `invoke_remote` after its snapshot of the negotiated set: one decision under the state lock. */
  function RouteInvocation(cfg: Config, s: System, id: nat): System
    requires id in s.invokers && s.invokers[id].Snapshot?
  {
    if Degraded(cfg, s, id) then s.(invokers := s.invokers[id := Refused("service_degraded")])
    else
      match s.state
      case Running => s.(invokers := s.invokers[id := Dispatching])
      case Starting => Push(s, id, Waiting)
      case _ =>
        if CanSpawn(cfg, cfg.action(id)) then Push(s, id, AboutToSpawn)
        else s.(invokers := s.invokers[id := Refused("service_unavailable")])
  }

  function Apply(cfg: Config, s: System, step: Step): System
    requires Enabled(cfg, s, step)
  {
    match step
    case Invoke(id) => s.(invokers := s.invokers[id := Snapshot(s.runtimeProvides)])
    case Route(id) => RouteInvocation(cfg, s, id)
    case RequestSpawn(id) => s.(queue := s.queue + [true], invokers := s.invokers[id := Waiting])
    case DispatchDirect(id) => s.(invokers := s.invokers[id := Waiting], handed := s.handed + [id])
    case Return(id, code) => s.(invokers := s.invokers[id := Returned(code)])
    case Enqueue(own) => s.(queue := s.queue + [own])
    case Dequeue => s.(queue := s.queue[1..], spawner := if s.queue[0] then Took else OnOther)
    case OtherDone => s.(spawner := Idle)
    case Claim =>
      if s.state == Running || s.state == Starting then s.(spawner := Idle)
      else s.(state := Starting, current := None, spawner := Initializing(false))
    case SpawnProcess(ok) =>
      if ok then
        s.(outgoing := true, children := s.children + {s.spawned}, current := Some(s.spawned),
           spawned := s.spawned + 1, spawner := Initializing(true))
      else s.(spawner := MarkingFailed)
    case InitFails => s.(spawner := MarkingFailed)
    case InitReply(claimed) =>
      if s.state != Starting then s.(spawner := MarkingFailed)
      else s.(state := Running, runtimeProvides := Some(claimed * cfg.approved), spawner := Draining(false))
    case LockBuffer => s.(spawner := s.spawner.(locked := true))
    case DrainOne(expired) =>
      var id := s.buffer[0];
      var how := if s.spawner.FailDraining? then StartFailed(id) else if expired then Expired(id) else Dispatched(id);
      s.(buffer := s.buffer[1..], departures := s.departures + [how],
         handed := if how.Dispatched? then s.handed + [id] else s.handed)
    case DrainDone => s.(spawner := Idle)
    case MarkFailed => s.(state := Failed, spawner := ClosingOutgoing)
    case CloseOutgoing => s.(outgoing := false, spawner := FailDraining(false))
    case ChildExit(c) => s.(state := Stopped, outgoing := false, runtimeProvides := None, children := s.children - {c})
  }

  // ---- Invariants ------------------------------------------------------------------------------

  /** The negotiated set is there exactly while the service runs. */
  predicate ProvidesIffRunning(s: System) { s.runtimeProvides.Some? <==> s.state == Running }

  /** Only the spawner's own attempt can be starting, and it has not run yet. */
  predicate AttemptShape(s: System) {
    && (s.state == Starting ==> s.spawner.Initializing? || s.spawner.MarkingFailed?)
    && (s.spawner.Initializing? || s.spawner.MarkingFailed? ==> s.state == Starting || s.state == Stopped)
  }

  /** A running service with a non-empty buffer is about to be drained. */
  predicate RunningDrains(s: System) {
    s.state == Running && s.buffer != [] ==> s.spawner.Draining?
  }

  /** A running service has its outgoing channel and a child; closing the channel after a failed start
      therefore never cuts off a running one. */
  predicate ChannelOpen(s: System) {
    && (s.state == Running || (s.state == Starting && s.spawner == Initializing(true)) ==>
          s.outgoing && s.current.Some? && s.current.value in s.children)
    && (s.spawner.ClosingOutgoing? ==> s.state == Failed || s.state == Stopped)
  }

  /** Children are numbered in the order they were spawned; a start attempt has none before it spawns. */
  predicate ChildrenOk(s: System) {
    && (forall c :: c in s.children ==> c < s.spawned)
    && (s.current.Some? ==> s.current.value < s.spawned)
    && (s.spawner == Initializing(false) ==> s.current == None)
  }

  predicate Attempting(s: System) { !s.spawner.Idle? && !s.spawner.OnOther? }

  ghost predicate SomeoneAboutToSpawn(s: System) {
    exists id :: id in s.invokers && s.invokers[id].AboutToSpawn?
  }

  /** Nothing is stranded: a non-empty buffer implies a start attempt not yet drained, a queued spawn
      request, or an invoker about to enqueue one. */
  ghost predicate NotStranded(s: System) {
    s.buffer != [] ==> Attempting(s) || true in s.queue || SomeoneAboutToSpawn(s)
  }

  function Ids(departures: seq<Departure>): seq<nat> {
    seq(|departures|, i requires 0 <= i < |departures| => departures[i].id)
  }

  /** Every buffered invocation is still there or has left, once and in order; and is buffered once. */
  ghost predicate Accounted(s: System) {
    && s.buffered == Ids(s.departures) + s.buffer
    && (forall i, j :: 0 <= i < j < |s.buffered| ==> s.buffered[i] != s.buffered[j])
    && (forall i :: 0 <= i < |s.buffered| ==>
          s.buffered[i] in s.invokers && !s.invokers[s.buffered[i]].Snapshot?)
  }

  ghost predicate Inv(s: System) {
    && ProvidesIffRunning(s) && AttemptShape(s) && RunningDrains(s) && NotStranded(s) && ChannelOpen(s) && ChildrenOk(s)
    && |s.buffer| <= MAX_PENDING_BUFFER && Accounted(s)
  }

  lemma InvokerUpdate(s: System, t: System, id: nat)
    requires NotStranded(s) && t.buffer == s.buffer && t.spawner == s.spawner && s.queue <= t.queue
    requires forall k :: k in s.invokers && k != id ==> k in t.invokers && t.invokers[k] == s.invokers[k]
    requires id in s.invokers && s.invokers[id].AboutToSpawn? ==> true in t.queue
    ensures NotStranded(t)
  {
    if true in s.queue { assert true in t.queue; }
    if SomeoneAboutToSpawn(s) {
      var k :| k in s.invokers && s.invokers[k].AboutToSpawn?;
      assert k != id ==> k in t.invokers && t.invokers[k].AboutToSpawn?;
    }
  }

  lemma PushKeeps(s: System, id: nat, next: Invoker)
    requires Accounted(s) && |s.buffer| <= MAX_PENDING_BUFFER
    requires id in s.invokers && s.invokers[id].Snapshot? && !next.Snapshot?
    ensures var t := Push(s, id, next); Accounted(t) && |t.buffer| <= MAX_PENDING_BUFFER
  {
    var t := Push(s, id, next);
    if t.buffer != s.buffer {
      assert forall i :: 0 <= i < |s.buffered| ==> s.buffered[i] != id;
      assert t.buffered == Ids(t.departures) + t.buffer;
    }
  }

  lemma PushStrandsNothing(s: System, id: nat, next: Invoker)
    requires NotStranded(s) && id in s.invokers && s.invokers[id].Snapshot?
    requires next.AboutToSpawn? || Attempting(s)
    ensures NotStranded(Push(s, id, next))
  {
    var t := Push(s, id, next);
    if t.buffer == s.buffer {
      InvokerUpdate(s, t, id);
    } else {
      assert t.invokers[id].AboutToSpawn? || Attempting(t);
    }
  }

  lemma RouteKeeps(cfg: Config, s: System, id: nat)
    requires Inv(s) && Enabled(cfg, s, Route(id))
    ensures Inv(RouteInvocation(cfg, s, id))
  {
    var t := RouteInvocation(cfg, s, id);
    if NeedsBuffer(cfg, s, id) {
      var next := if s.state == Starting then Waiting else AboutToSpawn;
      assert t == Push(s, id, next);
      PushKeeps(s, id, next);
      PushStrandsNothing(s, id, next);
    } else {
      InvokerUpdate(s, t, id);
    }
  }

  lemma StepStrandsNothing(cfg: Config, s: System, step: Step)
    requires Inv(s) && Enabled(cfg, s, step) && !step.Route?
    ensures NotStranded(Apply(cfg, s, step))
  {
    hide Accounted;
    var t := Apply(cfg, s, step);
    match step
    case Invoke(id) => InvokerUpdate(s, t, id);
    case RequestSpawn(id) =>
      assert t.queue[|s.queue|];
      InvokerUpdate(s, t, id);
    case DispatchDirect(id) => InvokerUpdate(s, t, id);
    case Return(id, _) => InvokerUpdate(s, t, id);
    case Enqueue(own) =>
      if true in s.queue { assert true in t.queue; }
      assert SomeoneAboutToSpawn(s) ==> SomeoneAboutToSpawn(t);
    case Dequeue =>
      assert s.queue == [s.queue[0]] + t.queue;
      assert SomeoneAboutToSpawn(s) ==> SomeoneAboutToSpawn(t);
    case Route(_) =>
    case _ =>
      assert SomeoneAboutToSpawn(s) ==> SomeoneAboutToSpawn(t);
  }

  lemma StepAccounts(cfg: Config, s: System, step: Step)
    requires Inv(s) && Enabled(cfg, s, step) && !step.Route?
    ensures Accounted(Apply(cfg, s, step))
  {
    hide NotStranded, CanSpawn;
    if step.DrainOne? {
      var t := Apply(cfg, s, step);
      assert s.buffer == [s.buffer[0]] + t.buffer;
      assert Ids(t.departures) == Ids(s.departures) + [s.buffer[0]];
    }
  }

  lemma StepKeepsState(cfg: Config, s: System, step: Step)
    requires Inv(s) && Enabled(cfg, s, step) && !step.Route?
    ensures var t := Apply(cfg, s, step);
      && ProvidesIffRunning(t) && AttemptShape(t) && RunningDrains(t) && ChannelOpen(t) && ChildrenOk(t)
      && |t.buffer| <= MAX_PENDING_BUFFER
  {
    hide NotStranded, Accounted, CanSpawn;
  }

  lemma StepKeeps(cfg: Config, s: System, step: Step)
    requires Inv(s) && Enabled(cfg, s, step)
    ensures Inv(Apply(cfg, s, step))
  {
    if step.Route? {
      RouteKeeps(cfg, s, step.id);
    } else {
      StepStrandsNothing(cfg, s, step);
      StepAccounts(cfg, s, step);
      StepKeepsState(cfg, s, step);
    }
  }

  // ---- Runs ------------------------------------------------------------------------------------

  predicate RunEnabled(cfg: Config, s: System, steps: seq<Step>)
    decreases |steps|
  {
    steps == [] || (Enabled(cfg, s, steps[0]) && RunEnabled(cfg, Apply(cfg, s, steps[0]), steps[1..]))
  }

  function Run(cfg: Config, s: System, steps: seq<Step>): System
    requires RunEnabled(cfg, s, steps)
    decreases |steps|
  {
    if steps == [] then s else Run(cfg, Apply(cfg, s, steps[0]), steps[1..])
  }

  lemma {:induction false} RunKeeps(cfg: Config, s: System, steps: seq<Step>)
    requires Inv(s) && RunEnabled(cfg, s, steps)
    ensures Inv(Run(cfg, s, steps))
    decreases |steps|
  {
    if steps == [] {
    } else {
      StepKeeps(cfg, s, steps[0]);
      RunKeeps(cfg, Apply(cfg, s, steps[0]), steps[1..]);
    }
  }

  /** Over every interleaving before shutdown: no stranded invocation, a bounded buffer, the negotiated
      set present exactly while running, and then an open channel to a live child. */
  lemma NoStrandedInvocation(cfg: Config, steps: seq<Step>)
    requires RunEnabled(cfg, Initial, steps)
    ensures var s := Run(cfg, Initial, steps);
      && NotStranded(s) && |s.buffer| <= MAX_PENDING_BUFFER && ProvidesIffRunning(s)
      && (s.state == Running ==> s.outgoing && s.current.Some? && s.current.value in s.children)
  {
    RunKeeps(cfg, Initial, steps);
  }

  predicate Quiescent(s: System) {
    !Attempting(s) && true !in s.queue && forall id :: id in s.invokers ==> !s.invokers[id].AboutToSpawn?
  }

  /** Once the spawner is done with this service, every invocation ever buffered has left the buffer
      exactly once, in the order it was buffered. */
  lemma QuiescentDrained(cfg: Config, steps: seq<Step>)
    requires RunEnabled(cfg, Initial, steps) && Quiescent(Run(cfg, Initial, steps))
    ensures var s := Run(cfg, Initial, steps);
      && s.buffer == [] && Ids(s.departures) == s.buffered
      && forall i, j :: 0 <= i < j < |s.departures| ==> s.departures[i].id != s.departures[j].id
  {
    RunKeeps(cfg, Initial, steps);
    var s := Run(cfg, Initial, steps);
    assert Ids(s.departures) + [] == Ids(s.departures);
    forall i, j | 0 <= i < j < |s.departures| ensures s.departures[i].id != s.departures[j].id {
      assert s.buffered[i] == s.departures[i].id && s.buffered[j] == s.departures[j].id;
    }
  }

  /** The service is down, whatever it did before and whatever old children are left, and nobody is
      starting it or has asked to. */
  ghost predicate Down(s: System) {
    && (s.state == Stopped || s.state == Failed) && s.buffer == [] && true !in s.queue
    && !Attempting(s) && !SomeoneAboutToSpawn(s)
  }

  lemma StepDown(cfg: Config, s: System, step: Step)
    requires Down(s) && Enabled(cfg, s, step) && step != Enqueue(true)
    requires forall id :: !CanSpawn(cfg, cfg.action(id))
    ensures Down(Apply(cfg, s, step)) && Apply(cfg, s, step).buffered == s.buffered
  {
    var t := Apply(cfg, s, step);
    if step.Dequeue? {
      assert s.queue == [s.queue[0]] + t.queue;
      assert s.queue[0] in s.queue;
    }
    forall id | id in t.invokers ensures !t.invokers[id].AboutToSpawn? {
      assert id in s.invokers ==> !s.invokers[id].AboutToSpawn?;
    }
  }

  /** A service that actions cannot activate is not resurrected by them: once it is down, stopped or
      failed, it stays down over every run in which nobody else asks for a start, and no further
      invocation is buffered for it. */
  lemma {:induction false} NotResurrectedByActions(cfg: Config, s: System, steps: seq<Step>)
    requires Down(s) && RunEnabled(cfg, s, steps)
    requires forall id :: !CanSpawn(cfg, cfg.action(id))
    requires forall i :: 0 <= i < |steps| ==> steps[i] != Enqueue(true)
    ensures Down(Run(cfg, s, steps)) && Run(cfg, s, steps).buffered == s.buffered
    decreases |steps|
  {
    if steps == [] {
    } else {
      StepDown(cfg, s, steps[0]);
      NotResurrectedByActions(cfg, Apply(cfg, s, steps[0]), steps[1..]);
    }
  }

  lemma {:induction false} RunSnoc(cfg: Config, s: System, steps: seq<Step>, step: Step)
    requires RunEnabled(cfg, s, steps) && Enabled(cfg, Run(cfg, s, steps), step)
    ensures RunEnabled(cfg, s, steps + [step])
    ensures Run(cfg, s, steps + [step]) == Apply(cfg, Run(cfg, s, steps), step)
    decreases |steps|
  {
    if steps == [] {
    } else {
      assert (steps + [step])[1..] == steps[1..] + [step];
      RunSnoc(cfg, Apply(cfg, s, steps[0]), steps[1..], step);
    }
  }

  ghost predicate Reachable(cfg: Config, s: System) {
    exists steps :: RunEnabled(cfg, Initial, steps) && Run(cfg, Initial, steps) == s
  }

  lemma Reach(cfg: Config, s: System, step: Step) returns (t: System)
    requires Reachable(cfg, s) && Enabled(cfg, s, step)
    ensures t == Apply(cfg, s, step) && Reachable(cfg, t)
  {
    var steps :| RunEnabled(cfg, Initial, steps) && Run(cfg, Initial, steps) == s;
    RunSnoc(cfg, Initial, steps, step);
    t := Apply(cfg, s, step);
  }

  /** One start attempt on an empty buffer up to the child's answer to `initialize`. */
  lemma ReachInitializing(cfg: Config, s: System) returns (t: System)
    requires Reachable(cfg, s) && s.spawner.Idle? && s.queue == [] && s.buffer == []
    requires s.state == Stopped || s.state == Failed
    ensures Reachable(cfg, t)
    ensures t == s.(state := Starting, outgoing := true, children := s.children + {s.spawned},
      current := Some(s.spawned), spawned := s.spawned + 1, spawner := Initializing(true))
  {
    hide Reachable, RunEnabled, Run;
    t := Reach(cfg, s, Enqueue(true));
    t := Reach(cfg, t, Dequeue);
    t := Reach(cfg, t, Claim);
    t := Reach(cfg, t, SpawnProcess(true));
  }

  lemma ReachFailedStart(cfg: Config, s: System) returns (t: System)
    requires Reachable(cfg, s) && s.spawner == Initializing(true) && s.buffer == []
    ensures Reachable(cfg, t) && t == s.(state := Failed, outgoing := false, spawner := Idle)
  {
    hide Reachable, RunEnabled, Run;
    t := Reach(cfg, s, InitFails);
    t := Reach(cfg, t, MarkFailed);
    t := Reach(cfg, t, CloseOutgoing);
    t := Reach(cfg, t, LockBuffer);
    t := Reach(cfg, t, DrainDone);
  }

  lemma ReachInitial(cfg: Config)
    ensures Reachable(cfg, Initial)
  {
    assert RunEnabled(cfg, Initial, []) && Run(cfg, Initial, []) == Initial;
  }

  lemma ReachableInv(cfg: Config, s: System)
    requires Reachable(cfg, s)
    ensures Inv(s)
  {
    var steps :| RunEnabled(cfg, Initial, steps) && Run(cfg, Initial, steps) == s;
    RunKeeps(cfg, Initial, steps);
  }

  // ---- Whose exit ends an instance -------------------------------------------------------------

  /** A start attempt that can still succeed, or a running instance. */
  predicate Live(s: System) { s.state == Running || (s.state == Starting && s.spawner.Initializing?) }

  /** The exit of a child that is not the live instance's own ends it. */
  predicate ForeignExit(s: System, c: nat) { Live(s) && c in s.children && s.current != Some(c) }

  /** Exactly when an instance with a child is exposed to a foreign exit: when a second child is alive. */
  lemma ExposedIffSecondChild(cfg: Config, s: System, own: nat)
    requires Reachable(cfg, s) && s.current == Some(own)
    requires Up(s)
    ensures own in s.children && ((exists c :: ForeignExit(s, c)) <==> 2 <= |s.children|)
    ensures forall c :: ForeignExit(s, c) ==>
      Enabled(cfg, s, ChildExit(c)) && Apply(cfg, s, ChildExit(c)).state == Stopped
      && !Apply(cfg, s, ChildExit(c)).outgoing && own in Apply(cfg, s, ChildExit(c)).children
  {
    hide NotStranded, Accounted, Reachable;
    ReachableInv(cfg, s);
    OthersOf(s.children, own);
    if c :| c in s.children && c != own { assert ForeignExit(s, c); }
  }

  lemma OthersOf(children: set<nat>, own: nat)
    requires own in children
    ensures 2 <= |children| <==> exists c :: c in children && c != own
  {
    var others := children - {own};
    assert |children| == |others| + 1;
    if others != {} { var c :| c in others; }
    if c :| c in children && c != own { assert c in others; }
  }

  /** `start_service` claims a start in a state where an old child is still alive. */
  predicate ClaimsOver(s: System, step: Step) {
    step.Claim? && s.state != Running && s.state != Starting && s.children != {}
  }

  /** At some point of the run a foreign exit can end an instance or a start attempt. */
  ghost predicate Exposed(cfg: Config, s: System, steps: seq<Step>)
    requires RunEnabled(cfg, s, steps)
    decreases |steps|
  {
    (exists c :: ForeignExit(s, c)) || (steps != [] && Exposed(cfg, Apply(cfg, s, steps[0]), steps[1..]))
  }

  /** At some point of the run a start is claimed over a living child. */
  ghost predicate Overlaps(cfg: Config, s: System, steps: seq<Step>)
    requires RunEnabled(cfg, s, steps)
    decreases |steps|
  {
    steps != [] && (ClaimsOver(s, steps[0]) || Overlaps(cfg, Apply(cfg, s, steps[0]), steps[1..]))
  }

  /** A step that does not claim over a living child exposes nothing that was not exposed. */
  lemma StepExposes(cfg: Config, s: System, step: Step)
    requires Inv(s) && Enabled(cfg, s, step) && !(exists c :: ForeignExit(s, c))
    ensures (exists c :: ForeignExit(Apply(cfg, s, step), c)) <==> ClaimsOver(s, step)
  {
    hide NotStranded, Accounted, CanSpawn;
    var t := Apply(cfg, s, step);
    if ClaimsOver(s, step) {
      var c :| c in s.children;
      assert ForeignExit(t, c);
    } else {
      forall c ensures !ForeignExit(t, c) { assert !ForeignExit(s, c); }
    }
  }

  lemma {:induction false} ExposedFrom(cfg: Config, s: System, steps: seq<Step>)
    requires Inv(s) && RunEnabled(cfg, s, steps) && !(exists c :: ForeignExit(s, c))
    ensures Exposed(cfg, s, steps) <==> Overlaps(cfg, s, steps)
    decreases |steps|
  {
    if steps == [] {
    } else {
      var t := Apply(cfg, s, steps[0]);
      StepKeeps(cfg, s, steps[0]);
      StepExposes(cfg, s, steps[0]);
      if exists c :: ForeignExit(t, c) {
        assert Exposed(cfg, t, steps[1..]);
      } else {
        ExposedFrom(cfg, t, steps[1..]);
      }
    }
  }

  /** Over every run: a foreign exit can at some point end an instance or a start attempt if and only if
      a start is claimed while an old child is alive, which `start_service` could see at its guard. */
  lemma ForeignExitIffOverlap(cfg: Config, steps: seq<Step>)
    requires RunEnabled(cfg, Initial, steps)
    ensures Exposed(cfg, Initial, steps) <==> Overlaps(cfg, Initial, steps)
  {
    ExposedFrom(cfg, Initial, steps);
  }

  /** A running instance, or one whose child is answering `initialize`. */
  predicate Up(s: System) { s.state == Running || (s.state == Starting && s.spawner == Initializing(true)) }

  predicate SpawnsOver(s: System, step: Step) { step == SpawnProcess(true) && s.children != {} }

  /** At some point of the run a foreign exit can end an instance that has a child of its own. */
  ghost predicate UpExposed(cfg: Config, s: System, steps: seq<Step>)
    requires RunEnabled(cfg, s, steps)
    decreases |steps|
  {
    (Up(s) && exists c :: ForeignExit(s, c)) || (steps != [] && UpExposed(cfg, Apply(cfg, s, steps[0]), steps[1..]))
  }

  /** At some point of the run a child is spawned while another is alive. */
  ghost predicate SpawnOverlaps(cfg: Config, s: System, steps: seq<Step>)
    requires RunEnabled(cfg, s, steps)
    decreases |steps|
  {
    steps != [] && (SpawnsOver(s, steps[0]) || SpawnOverlaps(cfg, Apply(cfg, s, steps[0]), steps[1..]))
  }

  /** As long as no child was spawned over another: at most one is alive, and none once its exit has
      overtaken a start attempt that has not spawned yet. */
  ghost predicate OneChild(s: System) {
    && (forall c, d :: c in s.children && d in s.children ==> c == d)
    && (Up(s) ==> s.current.Some? && s.current.value in s.children)
    && (s.spawner == Initializing(false) && s.state != Starting ==> s.children == {})
  }

  lemma StepOneChild(cfg: Config, s: System, step: Step)
    requires Inv(s) && OneChild(s) && Enabled(cfg, s, step)
    ensures var t := Apply(cfg, s, step);
      if SpawnsOver(s, step) then Up(t) && exists c :: ForeignExit(t, c)
      else OneChild(t)
  {
    hide NotStranded, Accounted, CanSpawn;
    var t := Apply(cfg, s, step);
    if SpawnsOver(s, step) {
      var c :| c in s.children;
      assert ForeignExit(t, c);
    }
  }

  lemma {:induction false} UpExposedFrom(cfg: Config, s: System, steps: seq<Step>)
    requires Inv(s) && OneChild(s) && RunEnabled(cfg, s, steps)
    ensures UpExposed(cfg, s, steps) <==> SpawnOverlaps(cfg, s, steps)
    decreases |steps|
  {
    assert !(Up(s) && exists c :: ForeignExit(s, c));
    if steps == [] {
    } else {
      var t := Apply(cfg, s, steps[0]);
      StepKeeps(cfg, s, steps[0]);
      StepOneChild(cfg, s, steps[0]);
      if SpawnsOver(s, steps[0]) {
        assert UpExposed(cfg, t, steps[1..]);
      } else {
        UpExposedFrom(cfg, t, steps[1..]);
      }
    }
  }

  /** Over every run: a foreign exit can at some point end an instance with a child of its own if and
      only if a child is spawned while another is alive. */
  lemma ForeignExitIffSpawnOverlap(cfg: Config, steps: seq<Step>)
    requires RunEnabled(cfg, Initial, steps)
    ensures UpExposed(cfg, Initial, steps) <==> SpawnOverlaps(cfg, Initial, steps)
  {
    UpExposedFrom(cfg, Initial, steps);
  }

  /** No step but an exit ends a running instance, and none changes its child. */
  lemma RunningEndsByExit(cfg: Config, s: System, step: Step)
    requires Inv(s) && Enabled(cfg, s, step) && s.state == Running && !step.ChildExit?
    ensures var t := Apply(cfg, s, step); t.state == Running && t.current == s.current && t.children == s.children
  {
    hide NotStranded, Accounted, CanSpawn;
  }

  lemma {:induction false} KeptRunning(cfg: Config, s: System, steps: seq<Step>)
    requires Inv(s) && RunEnabled(cfg, s, steps) && s.state == Running && s.children == {s.current.value}
    requires ChildExit(s.current.value) !in steps
    ensures Run(cfg, s, steps).state == Running
    decreases |steps|
  {
    if steps == [] {
    } else {
      assert steps[0] in steps && forall x :: x in steps[1..] ==> x in steps;
      RunningEndsByExit(cfg, s, steps[0]);
      StepKeeps(cfg, s, steps[0]);
      KeptRunning(cfg, Apply(cfg, s, steps[0]), steps[1..]);
    }
  }

  /** Exactly when a running instance is kept until its own child exits: when no other child is alive. */
  lemma KeptUntilOwnExitIff(cfg: Config, s: System, own: nat)
    requires Reachable(cfg, s) && s.state == Running && s.current == Some(own)
    ensures own in s.children
    ensures s.children == {own} <==> forall steps ::
      (RunEnabled(cfg, s, steps) && ChildExit(own) !in steps ==> Run(cfg, s, steps).state == Running)
  {
    ReachableInv(cfg, s);
    if s.children == {own} {
      forall steps | RunEnabled(cfg, s, steps) && ChildExit(own) !in steps
        ensures Run(cfg, s, steps).state == Running
      {
        KeptRunning(cfg, s, steps);
      }
    } else {
      var c :| c in s.children && c != own;
      OneStep(cfg, s, ChildExit(c));
    }
  }

  lemma OneStep(cfg: Config, s: System, step: Step)
    requires Enabled(cfg, s, step)
    ensures RunEnabled(cfg, s, [step]) && Run(cfg, s, [step]) == Apply(cfg, s, step)
  {
    assert [step][1..] == [];
    assert RunEnabled(cfg, Apply(cfg, s, step), []);
  }

  /** A failing run: a reachable state in which the service is running, and the late exit of an earlier
      child, whose start had failed, stops it while its own child lives on. */
  lemma LateExitStopsNewerInstance(cfg: Config) returns (s: System)
    ensures Reachable(cfg, s) && s.state == Running && s.outgoing && s.children == {0, 1} && s.current == Some(1)
    ensures ForeignExit(s, 0) && Enabled(cfg, s, ChildExit(0))
    ensures var t := Apply(cfg, s, ChildExit(0));
      t.state == Stopped && !t.outgoing && t.runtimeProvides == None && t.children == {1}
  {
    hide Reachable, RunEnabled, Run;
    ReachInitial(cfg);
    var a := ReachInitializing(cfg, Initial);
    var b := ReachFailedStart(cfg, a);
    var c := ReachInitializing(cfg, b);
    s := Reach(cfg, c, InitReply({}));
    assert s.children == {} + {0} + {1};
    assert s.children - {0} == {1};
  }

  /** Another: the late exit comes after the claim and before the new child is spawned.  Then no child is
      ever spawned over a living one, and the start attempt still fails. */
  lemma LateExitAbortsStart(cfg: Config) returns (claimed: System, s: System)
    ensures Reachable(cfg, claimed) && claimed.spawner == Initializing(false) && ForeignExit(claimed, 0)
    ensures Reachable(cfg, s) && s.spawner == Initializing(true) && s.state == Stopped && s.children == {1}
    ensures forall seen :: Enabled(cfg, s, InitReply(seen)) && Apply(cfg, s, InitReply(seen)).spawner == MarkingFailed
  {
    hide Reachable, RunEnabled, Run;
    ReachInitial(cfg);
    var a := ReachInitializing(cfg, Initial);
    var b := ReachFailedStart(cfg, a);
    var c := Reach(cfg, b, Enqueue(true));
    c := Reach(cfg, c, Dequeue);
    claimed := Reach(cfg, c, Claim);
    c := Reach(cfg, claimed, ChildExit(0));
    s := Reach(cfg, c, SpawnProcess(true));
    assert c.children == {};
  }
}
