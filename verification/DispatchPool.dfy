/** `try_dispatch` on the bounded worker pool: callers, workers, registration and shutdown interleaved
    at lock granularity.  Handlers may take any time but do return: no handler panics. */
module DispatchPool {
  import opened ConditionSyntax
  import opened Events

  datatype Entry = Entry(blocking: bool, silent: bool)

  /** `pooled` says that the registry has a pool, `hasBus` that it has a completion bus. */
  datatype Config = Config(pooled: bool, hasBus: bool, workers: nat, capacity: nat)

  predicate ConfigOk(cfg: Config) { 1 <= cfg.workers && 1 <= cfg.capacity }

  datatype Outcome = Value(v: Json) | Error(code: Text)

  const OVERLOADED := Error("overloaded")

  /** Who holds the job of a dispatch.  `Unknown`: the action was not registered. */
  datatype Place = Unknown | Deciding(blocking: bool) | OnCaller | OnThread | InQueue | OnWorker(worker: nat)

  datatype Stage = Ready | Returned(o: Outcome) | Announced(o: Outcome) | Responded(o: Outcome)

  datatype Call = Call(action: Text, silent: bool, place: Place, stage: Stage)

  datatype Worker = Idle | Holding(id: nat) | Busy(id: nat) | Exited

  datatype Effect = Published(id: nat, kind: Text, o: Outcome) | Answered(id: nat, o: Outcome)

  /** A dispatch is known by its index in `calls`.  `accepted` and `finished` count pool jobs. */
  datatype World = World(
    entries: map<Text, Entry>, open: bool, queue: seq<nat>, workers: seq<Worker>, active: nat,
    calls: seq<Call>, log: seq<Effect>, accepted: nat, finished: nat)

  function Initial(cfg: Config): World {
    World(map[], true, [], seq(cfg.workers, _ => Idle), 0, [], [], 0, 0)
  }

  datatype Step =
    | Register(name: Text, entry: Entry)
    | Dispatch(name: Text)
    | Shutdown
    | Route(id: nat)
    | HandlerReturns(id: nat, o: Outcome)
    | Publish(id: nat)
    | Respond(id: nat)
    | Recv(w: nat)
    | CountActive(w: nat)
    | Release(w: nat)
    | Exit(w: nat)

  /** The steps that need nobody outside: everything but new requests and shutdown. */
  predicate Internal(step: Step) { !step.Register? && !step.Dispatch? && !step.Shutdown? }

  predicate Runs(s: World, id: nat)
    requires id < |s.calls|
  {
    match s.calls[id].place
    case OnCaller => true
    case OnThread => true
    case OnWorker(w) => w < |s.workers| && s.workers[w] == Busy(id)
    case _ => false
  }

  predicate Enabled(s: World, step: Step) {
    match step
    case Register(_, _) => true
    case Dispatch(_) => true
    case Shutdown => true
    case Route(id) => id < |s.calls| && s.calls[id].place.Deciding?
    case HandlerReturns(id, _) => id < |s.calls| && Runs(s, id) && s.calls[id].stage.Ready?
    case Publish(id) => id < |s.calls| && s.calls[id].stage.Returned?
    case Respond(id) => id < |s.calls| && s.calls[id].stage.Announced?
    case Recv(w) => w < |s.workers| && s.workers[w].Idle? && s.queue != [] && s.queue[0] < |s.calls|
    case CountActive(w) => w < |s.workers| && s.workers[w].Holding?
    case Release(w) => w < |s.workers| && s.workers[w].Busy? && s.workers[w].id < |s.calls|
      && s.calls[s.workers[w].id].stage.Responded? && 0 < s.active
    case Exit(w) => w < |s.workers| && s.workers[w].Idle? && !s.open && s.queue == []
  }

  predicate Publishes(cfg: Config, c: Call) { cfg.hasBus && !c.silent }

  function Kind(action: Text, o: Outcome): Text {
    action + if o.Value? then ".completed" else ".failed"
  }

  function SetStage(s: World, id: nat, stage: Stage): World
    requires id < |s.calls|
  {
    s.(calls := s.calls[id := s.calls[id].(stage := stage)])
  }

  function SetPlace(s: World, id: nat, place: Place): World
    requires id < |s.calls|
  {
    s.(calls := s.calls[id := s.calls[id].(place := place)])
  }

  function TryExecute(cfg: Config, s: World, id: nat): World
    requires id < |s.calls|
  {
    if s.open && |s.queue| < cfg.capacity then
      SetPlace(s, id, InQueue).(queue := s.queue + [id], accepted := s.accepted + 1)
    else SetStage(SetPlace(s, id, OnCaller), id, Returned(OVERLOADED))
  }

  function Apply(cfg: Config, s: World, step: Step): World
    requires Enabled(s, step)
  {
    match step
    case Register(name, entry) => s.(entries := s.entries[name := entry])
    case Dispatch(name) =>
      var call :=
        if name in s.entries then Call(name, s.entries[name].silent, Deciding(s.entries[name].blocking), Ready)
        else Call(name, true, Unknown, Ready);
      s.(calls := s.calls + [call])
    case Shutdown => s.(open := false)
    case Route(id) =>
      if !s.calls[id].place.blocking then SetPlace(s, id, OnCaller)
      else if !cfg.pooled then SetPlace(s, id, OnThread)
      else TryExecute(cfg, s, id)
    case HandlerReturns(id, o) => SetStage(s, id, Returned(o))
    case Publish(id) =>
      var c := s.calls[id];
      var t := SetStage(s, id, Announced(c.stage.o));
      if Publishes(cfg, c) then t.(log := t.log + [Published(id, Kind(c.action, c.stage.o), c.stage.o)]) else t
    case Respond(id) =>
      var o := s.calls[id].stage.o;
      var t := SetStage(s, id, Responded(o));
      t.(log := t.log + [Answered(id, o)])
    case Recv(w) =>
      var id := s.queue[0];
      SetPlace(s, id, OnWorker(w)).(queue := s.queue[1..], workers := s.workers[w := Holding(id)])
    case CountActive(w) => s.(workers := s.workers[w := Busy(s.workers[w].id)], active := s.active + 1)
    case Release(w) => s.(workers := s.workers[w := Idle], active := s.active - 1, finished := s.finished + 1)
    case Exit(w) => s.(workers := s.workers[w := Exited])
  }

  // ---- Invariants ------------------------------------------------------------------------------

  predicate Held(p: Place) { p.OnCaller? || p.OnThread? || p.OnWorker? }

  /** Nothing happens to a job before somebody holds it. */
  ghost predicate Untouched(s: World) {
    forall id :: 0 <= id < |s.calls| && !Held(s.calls[id].place) ==> s.calls[id].stage.Ready?
  }

  /** The queue holds exactly the calls placed there, each once. */
  ghost predicate QueueOk(cfg: Config, s: World) {
    && |s.queue| <= cfg.capacity
    && (forall i :: 0 <= i < |s.queue| ==>
          s.queue[i] < |s.calls| && s.calls[s.queue[i]].place.InQueue?)
    && (forall i, j :: 0 <= i < j < |s.queue| ==> s.queue[i] != s.queue[j])
    && (forall id :: 0 <= id < |s.calls| && s.calls[id].place.InQueue? ==> id in s.queue)
  }

  predicate Holds(w: Worker, id: nat) { w == Holding(id) || w == Busy(id) }

  predicate HasJob(w: Worker) { w.Holding? || w.Busy? }

  /** A worker's job is placed on it; a placed job that is not answered is on its worker. */
  ghost predicate WorkersOk(cfg: Config, s: World) {
    && |s.workers| == cfg.workers && JobsPlaced(s) && PlacedHeld(s)
    && (forall w :: 0 <= w < |s.workers| && s.workers[w].Exited? ==> !s.open && s.queue == [])
  }

  /** Every worker's job is placed on it. */
  ghost predicate JobsPlaced(s: World) {
    forall w :: 0 <= w < |s.workers| && HasJob(s.workers[w]) ==>
      s.workers[w].id < |s.calls| && s.calls[s.workers[w].id].place == OnWorker(w)
  }

  /** A job placed on a worker and not answered is held by it. */
  ghost predicate PlacedHeld(s: World) {
    forall id :: 0 <= id < |s.calls| && s.calls[id].place.OnWorker? ==>
      s.calls[id].place.worker < |s.workers| &&
      (s.calls[id].stage.Responded? || Holds(s.workers[s.calls[id].place.worker], id))
  }

  function CountBusy(ws: seq<Worker>): nat {
    if ws == [] then 0 else CountBusy(ws[..|ws| - 1]) + if ws[|ws| - 1].Busy? then 1 else 0
  }

  function CountJobs(ws: seq<Worker>): nat {
    if ws == [] then 0 else CountJobs(ws[..|ws| - 1]) + if HasJob(ws[|ws| - 1]) then 1 else 0
  }

  predicate Balanced(s: World) {
    && s.active == CountBusy(s.workers)
    && s.accepted == |s.queue| + CountJobs(s.workers) + s.finished
  }

  function CountPublished(log: seq<Effect>, id: nat): nat {
    if log == [] then 0
    else
      var n := |log| - 1;
      CountPublished(log[..n], id) + if log[n].Published? && log[n].id == id then 1 else 0
  }

  function CountAnswered(log: seq<Effect>, id: nat): nat {
    if log == [] then 0
    else
      var n := |log| - 1;
      CountAnswered(log[..n], id) + if log[n].Answered? && log[n].id == id then 1 else 0
  }

  /** What the log must show of one call. */
  ghost predicate CallLogged(cfg: Config, s: World, id: nat)
    requires id < |s.calls|
  {
    var c := s.calls[id];
    var announced := c.stage.Announced? || c.stage.Responded?;
    && CountPublished(s.log, id) == (if announced && Publishes(cfg, c) then 1 else 0)
    && CountAnswered(s.log, id) == (if c.stage.Responded? then 1 else 0)
    && (announced && Publishes(cfg, c) ==> Published(id, Kind(c.action, c.stage.o), c.stage.o) in s.log)
    && (c.stage.Responded? ==> Answered(id, c.stage.o) in s.log)
  }

  ghost predicate Logged(cfg: Config, s: World) {
    && (forall id :: 0 <= id < |s.calls| ==> CallLogged(cfg, s, id))
    && (forall k :: 0 <= k < |s.log| ==> s.log[k].id < |s.calls|)
  }

  /** A responder fires only after its publication. */
  ghost predicate Ordered(cfg: Config, s: World) {
    forall k :: 0 <= k < |s.log| && s.log[k].Answered? ==>
      s.log[k].id < |s.calls| &&
      var c := s.calls[s.log[k].id];
      Publishes(cfg, c) ==> Published(s.log[k].id, Kind(c.action, s.log[k].o), s.log[k].o) in s.log[..k]
  }

  ghost predicate Inv(cfg: Config, s: World) {
    Untouched(s) && QueueOk(cfg, s) && WorkersOk(cfg, s) && Balanced(s) && Logged(cfg, s) && Ordered(cfg, s)
  }

  // ---- Each step keeps each of them ------------------------------------------------------------

  lemma {:induction false} CountUpdate(ws: seq<Worker>, w: nat, x: Worker)
    requires w < |ws|
    ensures CountBusy(ws[w := x]) == CountBusy(ws) - (if ws[w].Busy? then 1 else 0) + (if x.Busy? then 1 else 0)
    ensures CountJobs(ws[w := x]) == CountJobs(ws) - (if HasJob(ws[w]) then 1 else 0) + (if HasJob(x) then 1 else 0)
  {
    var n := |ws| - 1;
    if w < n {
      CountUpdate(ws[..n], w, x);
      assert ws[w := x][..n] == ws[..n][w := x];
    } else {
      assert ws[w := x][..n] == ws[..n];
    }
  }

  lemma LogSnoc(log: seq<Effect>, e: Effect, id: nat)
    ensures CountPublished(log + [e], id) == CountPublished(log, id) + if e.Published? && e.id == id then 1 else 0
    ensures CountAnswered(log + [e], id) == CountAnswered(log, id) + if e.Answered? && e.id == id then 1 else 0
  {
    assert (log + [e])[..|log|] == log;
  }

  lemma {:induction false} NothingLogged(log: seq<Effect>, id: nat)
    requires forall k :: 0 <= k < |log| ==> log[k].id != id
    ensures CountPublished(log, id) == 0 && CountAnswered(log, id) == 0
  {
    if log == [] {
    } else {
      NothingLogged(log[..|log| - 1], id);
    }
  }

  lemma UntouchedKept(cfg: Config, s: World, step: Step)
    requires Inv(cfg, s) && Enabled(s, step)
    ensures Untouched(Apply(cfg, s, step))
  {
    hide QueueOk, WorkersOk, Balanced, Logged, Ordered;
  }

  lemma RecvQueue(cfg: Config, s: World, w: nat)
    requires QueueOk(cfg, s) && Enabled(s, Recv(w))
    ensures QueueOk(cfg, Apply(cfg, s, Recv(w)))
  {
    var t := Apply(cfg, s, Recv(w));
    assert s.queue == [s.queue[0]] + t.queue;
    forall i | 0 <= i < |t.queue|
      ensures t.queue[i] < |t.calls| && t.calls[t.queue[i]].place.InQueue?
    {
      assert t.queue[i] == s.queue[i + 1] && s.queue[i + 1] != s.queue[0];
    }
    forall id | 0 <= id < |t.calls| && t.calls[id].place.InQueue? ensures id in t.queue {
      assert id in s.queue && id != s.queue[0];
    }
  }

  /** A step that changes no queue and puts no call into it. */
  lemma QueueUnchanged(cfg: Config, s: World, t: World)
    requires QueueOk(cfg, s) && t.queue == s.queue && |s.calls| <= |t.calls|
    requires forall id :: 0 <= id < |s.calls| ==>
      (t.calls[id].place.InQueue? <==> s.calls[id].place.InQueue?)
    requires forall id :: |s.calls| <= id < |t.calls| ==> !t.calls[id].place.InQueue?
    ensures QueueOk(cfg, t)
  {
  }

  lemma RouteQueue(cfg: Config, s: World, id: nat)
    requires QueueOk(cfg, s) && Enabled(s, Route(id))
    ensures QueueOk(cfg, Apply(cfg, s, Route(id)))
  {
    var t := Apply(cfg, s, Route(id));
    if t.queue == s.queue { QueueUnchanged(cfg, s, t); } else { assert t.queue == s.queue + [id]; }
  }

  lemma QueueKept(cfg: Config, s: World, step: Step)
    requires Inv(cfg, s) && Enabled(s, step)
    ensures QueueOk(cfg, Apply(cfg, s, step))
  {
    match step
    case Recv(w) => RecvQueue(cfg, s, w);
    case Route(id) => RouteQueue(cfg, s, id);
    case _ => QueueUnchanged(cfg, s, Apply(cfg, s, step));
  }

  lemma CallStepWorkers(cfg: Config, s: World, step: Step)
    requires Untouched(s) && WorkersOk(cfg, s) && Enabled(s, step)
    requires !step.Recv? && !step.CountActive? && !step.Release? && !step.Exit?
    ensures var t := Apply(cfg, s, step); t.workers == s.workers && JobsPlaced(t) && PlacedHeld(t)
  {
    assert JobsPlaced(s) && PlacedHeld(s);
    var t := Apply(cfg, s, step);
    assert |s.calls| <= |t.calls|;
    forall id | 0 <= id < |s.calls|
      ensures t.calls[id].place.OnWorker? <==> s.calls[id].place.OnWorker?
      ensures s.calls[id].place.OnWorker? ==> t.calls[id].place == s.calls[id].place
      ensures s.calls[id].stage.Responded? ==> t.calls[id].stage.Responded?
    {
    }
  }

  lemma RecvWorkers(cfg: Config, s: World, w: nat)
    requires WorkersOk(cfg, s) && QueueOk(cfg, s) && Enabled(s, Recv(w))
    ensures var t := Apply(cfg, s, Recv(w)); JobsPlaced(t) && PlacedHeld(t)
  {
    assert JobsPlaced(s) && PlacedHeld(s);
    var t := Apply(cfg, s, Recv(w));
    var id := s.queue[0];
    assert t.workers[w] == Holding(id) && t.calls[id].place == OnWorker(w);
  }

  /** A worker moves on with the job it has, or with none. */
  lemma WorkerStepWorkers(s: World, w: nat, x: Worker)
    requires JobsPlaced(s) && PlacedHeld(s) && w < |s.workers|
    requires HasJob(x) ==> HasJob(s.workers[w]) && x.id == s.workers[w].id
    requires HasJob(s.workers[w]) && !HasJob(x) ==>
      s.workers[w].id < |s.calls| && s.calls[s.workers[w].id].stage.Responded?
    ensures JobsPlaced(s.(workers := s.workers[w := x])) && PlacedHeld(s.(workers := s.workers[w := x]))
  {
  }

  lemma SameWorkers(s: World, t: World)
    requires JobsPlaced(s) && PlacedHeld(s) && t.workers == s.workers && t.calls == s.calls
    ensures JobsPlaced(t) && PlacedHeld(t)
  {
  }

  lemma WorkersKept(cfg: Config, s: World, step: Step)
    requires Inv(cfg, s) && Enabled(s, step)
    ensures WorkersOk(cfg, Apply(cfg, s, step))
  {
    hide QueueOk, Logged, Ordered, Balanced, JobsPlaced, PlacedHeld;
    var t := Apply(cfg, s, step);
    match step
    case Recv(w) => RecvWorkers(cfg, s, w);
    case CountActive(w) =>
      WorkerStepWorkers(s, w, t.workers[w]);
      SameWorkers(s.(workers := t.workers), t);
    case Release(w) =>
      WorkerStepWorkers(s, w, Idle);
      SameWorkers(s.(workers := t.workers), t);
    case Exit(w) => WorkerStepWorkers(s, w, Exited);
    case _ => CallStepWorkers(cfg, s, step);
  }

  lemma BalanceKept(cfg: Config, s: World, step: Step)
    requires Inv(cfg, s) && Enabled(s, step)
    ensures Balanced(Apply(cfg, s, step))
  {
    hide QueueOk, Logged, Ordered, Untouched, JobsPlaced, PlacedHeld;
    match step
    case Recv(w) => CountUpdate(s.workers, w, Holding(s.queue[0]));
    case CountActive(w) => CountUpdate(s.workers, w, Busy(s.workers[w].id));
    case Release(w) => CountUpdate(s.workers, w, Idle);
    case Exit(w) => CountUpdate(s.workers, w, Exited);
    case _ =>
  }

  /** A step that logs nothing and announces or answers nothing. */
  lemma LogUnchanged(cfg: Config, s: World, t: World, id: nat)
    requires Logged(cfg, s) && t.log == s.log && id < |t.calls|
    requires |s.calls| <= id ==> t.calls[id].stage.Ready?
    requires id < |s.calls| ==> t.calls[id].action == s.calls[id].action && t.calls[id].silent == s.calls[id].silent
    requires id < |s.calls| && t.calls[id].stage != s.calls[id].stage ==>
      (s.calls[id].stage.Ready? || s.calls[id].stage.Returned?) && (t.calls[id].stage.Ready? || t.calls[id].stage.Returned?)
    ensures CallLogged(cfg, t, id)
  {
    if id < |s.calls| { assert CallLogged(cfg, s, id); } else { NothingLogged(s.log, id); }
  }

  lemma PublishLogged(cfg: Config, s: World, i: nat, id: nat)
    requires Logged(cfg, s) && Enabled(s, Publish(i)) && id < |s.calls|
    ensures CallLogged(cfg, Apply(cfg, s, Publish(i)), id)
  {
    var t := Apply(cfg, s, Publish(i));
    assert CallLogged(cfg, s, id);
    if t.log != s.log { LogSnoc(s.log, t.log[|s.log|], id); }
  }

  lemma RespondLogged(cfg: Config, s: World, i: nat, id: nat)
    requires Logged(cfg, s) && Enabled(s, Respond(i)) && id < |s.calls|
    ensures CallLogged(cfg, Apply(cfg, s, Respond(i)), id)
  {
    var t := Apply(cfg, s, Respond(i));
    assert CallLogged(cfg, s, id);
    LogSnoc(s.log, t.log[|s.log|], id);
  }

  /** A step that neither publishes nor answers leaves the log, and no call beyond it. */
  lemma QuietStep(cfg: Config, s: World, step: Step, id: nat)
    requires Untouched(s) && Enabled(s, step) && !step.Publish? && !step.Respond?
    requires id < |Apply(cfg, s, step).calls|
    ensures var t := Apply(cfg, s, step);
      && t.log == s.log && |s.calls| <= |t.calls|
      && (|s.calls| <= id ==> t.calls[id].stage.Ready?)
      && (id < |s.calls| ==> t.calls[id].action == s.calls[id].action && t.calls[id].silent == s.calls[id].silent)
      && (id < |s.calls| && t.calls[id].stage != s.calls[id].stage ==>
            (s.calls[id].stage.Ready? || s.calls[id].stage.Returned?)
            && (t.calls[id].stage.Ready? || t.calls[id].stage.Returned?))
  {
  }

  lemma LogKept(cfg: Config, s: World, step: Step, id: nat)
    requires Inv(cfg, s) && Enabled(s, step) && id < |Apply(cfg, s, step).calls|
    ensures CallLogged(cfg, Apply(cfg, s, step), id)
  {
    hide QueueOk, WorkersOk, Balanced, Ordered, CallLogged, Untouched;
    match step
    case Publish(i) => PublishLogged(cfg, s, i, id);
    case Respond(i) => RespondLogged(cfg, s, i, id);
    case _ =>
      hide Apply;
      QuietStep(cfg, s, step, id);
      LogUnchanged(cfg, s, Apply(cfg, s, step), id);
  }

  lemma OrderKept(cfg: Config, s: World, step: Step)
    requires Inv(cfg, s) && Enabled(s, step)
    ensures Ordered(cfg, Apply(cfg, s, step))
  {
    hide QueueOk, WorkersOk, Balanced, Untouched;
    var t := Apply(cfg, s, step);
    assert s.log <= t.log;
    forall k | 0 <= k < |t.log| && t.log[k].Answered?
      ensures t.log[k].id < |t.calls|
      ensures var c := t.calls[t.log[k].id];
        Publishes(cfg, c) ==> Published(t.log[k].id, Kind(c.action, t.log[k].o), t.log[k].o) in t.log[..k]
    {
      if k < |s.log| {
        assert t.log[..k] == s.log[..k];
      } else {
        assert t.log[..k] == s.log;
        assert CallLogged(cfg, s, t.log[k].id);
      }
    }
  }

  lemma StepKeeps(cfg: Config, s: World, step: Step)
    requires Inv(cfg, s) && Enabled(s, step)
    ensures Inv(cfg, Apply(cfg, s, step))
  {
    UntouchedKept(cfg, s, step);
    QueueKept(cfg, s, step);
    WorkersKept(cfg, s, step);
    BalanceKept(cfg, s, step);
    OrderKept(cfg, s, step);
    var t := Apply(cfg, s, step);
    forall id | 0 <= id < |t.calls| ensures CallLogged(cfg, t, id) { LogKept(cfg, s, step, id); }
  }

  // ---- Runs ------------------------------------------------------------------------------------

  predicate RunEnabled(cfg: Config, s: World, steps: seq<Step>)
    decreases |steps|
  {
    steps == [] || (Enabled(s, steps[0]) && RunEnabled(cfg, Apply(cfg, s, steps[0]), steps[1..]))
  }

  function Run(cfg: Config, s: World, steps: seq<Step>): World
    requires RunEnabled(cfg, s, steps)
    decreases |steps|
  {
    if steps == [] then s else Run(cfg, Apply(cfg, s, steps[0]), steps[1..])
  }

  lemma {:induction false} RunKeeps(cfg: Config, s: World, steps: seq<Step>)
    requires Inv(cfg, s) && RunEnabled(cfg, s, steps)
    ensures Inv(cfg, Run(cfg, s, steps))
    decreases |steps|
  {
    if steps == [] {
    } else {
      StepKeeps(cfg, s, steps[0]);
      RunKeeps(cfg, Apply(cfg, s, steps[0]), steps[1..]);
    }
  }

  lemma {:induction false} AllIdle(ws: seq<Worker>)
    requires forall w :: 0 <= w < |ws| ==> ws[w] == Idle
    ensures CountBusy(ws) == 0 && CountJobs(ws) == 0
  {
    if ws == [] {
    } else {
      AllIdle(ws[..|ws| - 1]);
    }
  }

  lemma InitialOk(cfg: Config)
    ensures Inv(cfg, Initial(cfg))
  {
    AllIdle(Initial(cfg).workers);
  }

  lemma {:induction false} CountBounds(ws: seq<Worker>)
    ensures CountBusy(ws) <= CountJobs(ws) <= |ws|
  {
    if ws == [] {
    } else {
      CountBounds(ws[..|ws| - 1]);
    }
  }

  /** Safety, over every interleaving: a responder never fires twice, never before its publication, and
      each action that is neither silent nor without a bus is published at most once. */
  lemma AnsweredAtMostOnce(cfg: Config, steps: seq<Step>, id: nat)
    requires RunEnabled(cfg, Initial(cfg), steps) && id < |Run(cfg, Initial(cfg), steps).calls|
    ensures var s := Run(cfg, Initial(cfg), steps);
      && CountAnswered(s.log, id) <= 1
      && CountPublished(s.log, id) <= (if Publishes(cfg, s.calls[id]) then 1 else 0)
      && Ordered(cfg, s)
  {
    InitialOk(cfg);
    RunKeeps(cfg, Initial(cfg), steps);
    assert CallLogged(cfg, Run(cfg, Initial(cfg), steps), id);
  }

  /** Conservation and the bounds of the pool, over every interleaving. */
  lemma PoolConserves(cfg: Config, steps: seq<Step>)
    requires RunEnabled(cfg, Initial(cfg), steps)
    ensures var s := Run(cfg, Initial(cfg), steps);
      && s.accepted == |s.queue| + CountJobs(s.workers) + s.finished
      && |s.queue| <= cfg.capacity && CountJobs(s.workers) <= cfg.workers && s.active <= cfg.workers
  {
    InitialOk(cfg);
    RunKeeps(cfg, Initial(cfg), steps);
    CountBounds(Run(cfg, Initial(cfg), steps).workers);
  }

  // ---- Progress --------------------------------------------------------------------------------

  function CallWork(c: Call): nat {
    match c.place
    case Unknown => 0
    case Deciding(_) => 10
    case InQueue => 9
    case _ =>
      match c.stage
      case Ready => 3
      case Returned(_) => 2
      case Announced(_) => 1
      case Responded(_) => 0
  }

  function WorkerWork(w: Worker): nat {
    match w
    case Idle => 1
    case Holding(_) => 3
    case Busy(_) => 2
    case Exited => 0
  }

  function CallsWork(calls: seq<Call>): nat {
    if calls == [] then 0 else CallsWork(calls[..|calls| - 1]) + CallWork(calls[|calls| - 1])
  }

  function WorkersWork(ws: seq<Worker>): nat {
    if ws == [] then 0 else WorkersWork(ws[..|ws| - 1]) + WorkerWork(ws[|ws| - 1])
  }

  function Work(s: World): nat { CallsWork(s.calls) + WorkersWork(s.workers) }

  lemma {:induction false} CallsWorkUpdate(calls: seq<Call>, id: nat, c: Call)
    requires id < |calls|
    ensures CallsWork(calls[id := c]) == CallsWork(calls) - CallWork(calls[id]) + CallWork(c)
  {
    var n := |calls| - 1;
    if id < n {
      CallsWorkUpdate(calls[..n], id, c);
      assert calls[id := c][..n] == calls[..n][id := c];
    } else {
      assert calls[id := c][..n] == calls[..n];
    }
  }

  lemma {:induction false} WorkersWorkUpdate(ws: seq<Worker>, w: nat, x: Worker)
    requires w < |ws|
    ensures WorkersWork(ws[w := x]) == WorkersWork(ws) - WorkerWork(ws[w]) + WorkerWork(x)
  {
    var n := |ws| - 1;
    if w < n {
      WorkersWorkUpdate(ws[..n], w, x);
      assert ws[w := x][..n] == ws[..n][w := x];
    } else {
      assert ws[w := x][..n] == ws[..n];
    }
  }

  lemma CallWorkLess(s: World, t: World, id: nat)
    requires id < |s.calls| && |t.calls| == |s.calls| && t.workers == s.workers
    requires t.calls == s.calls[id := t.calls[id]] && CallWork(t.calls[id]) < CallWork(s.calls[id])
    ensures Work(t) < Work(s)
  {
    CallsWorkUpdate(s.calls, id, t.calls[id]);
  }

  lemma WorkerWorkLess(s: World, t: World, w: nat)
    requires w < |s.workers| && |t.workers| == |s.workers| && t.calls == s.calls
    requires t.workers == s.workers[w := t.workers[w]] && WorkerWork(t.workers[w]) < WorkerWork(s.workers[w])
    ensures Work(t) < Work(s)
  {
    WorkersWorkUpdate(s.workers, w, t.workers[w]);
  }

  lemma RecvLess(cfg: Config, s: World, w: nat)
    requires Inv(cfg, s) && Enabled(s, Recv(w))
    ensures Work(Apply(cfg, s, Recv(w))) < Work(s)
  {
    var t := Apply(cfg, s, Recv(w));
    CallsWorkUpdate(s.calls, s.queue[0], t.calls[s.queue[0]]);
    WorkersWorkUpdate(s.workers, w, t.workers[w]);
  }

  lemma RouteLess(cfg: Config, s: World, id: nat)
    requires Inv(cfg, s) && Enabled(s, Route(id))
    ensures Work(Apply(cfg, s, Route(id))) < Work(s)
  {
    var t := Apply(cfg, s, Route(id));
    assert t.calls == s.calls[id := t.calls[id]];
    CallWorkLess(s, t, id);
  }

  /** Every internal step leaves less to do. */
  lemma InternalStepsDecrease(cfg: Config, s: World, step: Step)
    requires Inv(cfg, s) && Enabled(s, step) && Internal(step)
    ensures Work(Apply(cfg, s, step)) < Work(s)
  {
    var t := Apply(cfg, s, step);
    match step
    case Route(id) => RouteLess(cfg, s, id);
    case HandlerReturns(id, _) => CallWorkLess(s, t, id);
    case Publish(id) => CallWorkLess(s, t, id);
    case Respond(id) => CallWorkLess(s, t, id);
    case Recv(w) => RecvLess(cfg, s, w);
    case CountActive(w) => WorkerWorkLess(s, t, w);
    case Release(w) => WorkerWorkLess(s, t, w);
    case Exit(w) => WorkerWorkLess(s, t, w);
  }

  predicate AllInternal(steps: seq<Step>) { forall i :: 0 <= i < |steps| ==> Internal(steps[i]) }

  lemma {:induction false} InternalRunsEnd(cfg: Config, s: World, steps: seq<Step>)
    requires Inv(cfg, s) && RunEnabled(cfg, s, steps) && AllInternal(steps)
    ensures |steps| <= Work(s)
    decreases |steps|
  {
    if steps == [] {
    } else {
      InternalStepsDecrease(cfg, s, steps[0]);
      StepKeeps(cfg, s, steps[0]);
      InternalRunsEnd(cfg, Apply(cfg, s, steps[0]), steps[1..]);
    }
  }

  ghost predicate Quiescent(s: World) { forall step :: Internal(step) ==> !Enabled(s, step) }

  /** Nothing hangs: where no internal step is possible, every registered dispatch has been answered. */
  lemma QuiescentAnswered(cfg: Config, s: World, id: nat)
    requires ConfigOk(cfg) && Inv(cfg, s) && Quiescent(s) && id < |s.calls| && !s.calls[id].place.Unknown?
    ensures s.calls[id].stage.Responded?
  {
    var c := s.calls[id];
    assert !Enabled(s, Route(id)) && !Enabled(s, Publish(id)) && !Enabled(s, Respond(id));
    assert !Enabled(s, HandlerReturns(id, OVERLOADED));
    match c.place
    case InQueue => SomeWorkerActs(cfg, s);
    case OnWorker(w) => assert !Enabled(s, CountActive(w));
    case _ =>
  }

  /** A non-empty queue leaves some worker with something to do. */
  lemma SomeWorkerActs(cfg: Config, s: World)
    requires ConfigOk(cfg) && Inv(cfg, s) && s.queue != []
    ensures !Quiescent(s)
  {
    match s.workers[0]
    case Idle => assert Internal(Recv(0)) && Enabled(s, Recv(0));
    case Holding(_) => assert Internal(CountActive(0)) && Enabled(s, CountActive(0));
    case Exited => assert false;
    case Busy(id) =>
      match s.calls[id].stage
      case Ready => assert Internal(HandlerReturns(id, OVERLOADED)) && Enabled(s, HandlerReturns(id, OVERLOADED));
      case Returned(_) => assert Internal(Publish(id)) && Enabled(s, Publish(id));
      case Announced(_) => assert Internal(Respond(id)) && Enabled(s, Respond(id));
      case Responded(_) =>
        BusyCounted(s.workers, 0);
        assert Internal(Release(0)) && Enabled(s, Release(0));
  }

  lemma {:induction false} BusyCounted(ws: seq<Worker>, w: nat)
    requires w < |ws| && ws[w].Busy?
    ensures 0 < CountBusy(ws)
  {
    if w < |ws| - 1 { BusyCounted(ws[..|ws| - 1], w); }
  }

  /** Exactly once: after any run, and then any further internal steps until none is left (they do run
      out), whether or not the pool was shut down in between, the responder of every dispatch that
      returned `true` has fired exactly once, after exactly one publication of that same outcome when
      the action is not silent and there is a bus, and after none otherwise; and every job the pool
      accepted is finished. */
  lemma ExactlyOnce(cfg: Config, steps: seq<Step>, rest: seq<Step>, id: nat)
    requires ConfigOk(cfg) && RunEnabled(cfg, Initial(cfg), steps)
    requires RunEnabled(cfg, Run(cfg, Initial(cfg), steps), rest) && AllInternal(rest)
    ensures |rest| <= Work(Run(cfg, Initial(cfg), steps))
    ensures var s := Run(cfg, Run(cfg, Initial(cfg), steps), rest);
      Quiescent(s) ==>
        && s.accepted == s.finished
        && (id < |s.calls| && !s.calls[id].place.Unknown? ==>
            && CountAnswered(s.log, id) == 1
            && CountPublished(s.log, id) == (if Publishes(cfg, s.calls[id]) then 1 else 0))
        && Ordered(cfg, s)
  {
    InitialOk(cfg);
    RunKeeps(cfg, Initial(cfg), steps);
    var m := Run(cfg, Initial(cfg), steps);
    InternalRunsEnd(cfg, m, rest);
    RunKeeps(cfg, m, rest);
    var s := Run(cfg, m, rest);
    if Quiescent(s) {
      if id < |s.calls| && !s.calls[id].place.Unknown? {
        QuiescentAnswered(cfg, s, id);
        assert CallLogged(cfg, s, id);
      }
      QuiescentPoolEmpty(cfg, s);
    }
  }

  lemma QuiescentPoolEmpty(cfg: Config, s: World)
    requires ConfigOk(cfg) && Inv(cfg, s) && Quiescent(s)
    ensures s.accepted == s.finished
  {
    if s.queue != [] { SomeWorkerActs(cfg, s); }
    forall w | 0 <= w < |s.workers| ensures !HasJob(s.workers[w]) {
      assert !Enabled(s, CountActive(w)) && !Enabled(s, Release(w));
      if s.workers[w].Busy? {
        QuiescentAnswered(cfg, s, s.workers[w].id);
        BusyCounted(s.workers, w);
      }
    }
    NoJobs(s.workers);
  }

  lemma {:induction false} NoJobs(ws: seq<Worker>)
    requires forall w :: 0 <= w < |ws| ==> !HasJob(ws[w])
    ensures CountJobs(ws) == 0
  {
    if ws == [] {
    } else {
      NoJobs(ws[..|ws| - 1]);
    }
  }

}
