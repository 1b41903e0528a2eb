/** The registry and the pool as objects: one dispatch as the sequence of its effects, and the worker
    loop.  `DispatchPool` has the same effects step by step, under every interleaving. */
module ActionRegistry {
  import opened ConditionSyntax
  import opened Events
  import D = DispatchPool

  /** A handler answers; what else it does is not part of this model. */
  type Handler = Json -> D.Outcome

  datatype Entry = Entry(handler: Handler, blocking: bool, silent: bool)

  datatype Job = Job(id: nat, action: Text, handler: Handler, params: Json, publishes: bool)

  /** The publication, when there is one to make, and then the responder. */
  function Effects(id: nat, action: Text, publishes: bool, o: D.Outcome): seq<D.Effect> {
    (if publishes then [D.Published(id, D.Kind(action, o), o)] else []) + [D.Answered(id, o)]
  }

  function RunEffects(job: Job): seq<D.Effect> { Effects(job.id, job.action, job.publishes, job.handler(job.params)) }

  function CancelEffects(job: Job): seq<D.Effect> { Effects(job.id, job.action, job.publishes, D.OVERLOADED) }

  function AllEffects(jobs: seq<Job>): seq<D.Effect> {
    if jobs == [] then [] else RunEffects(jobs[0]) + AllEffects(jobs[1..])
  }

  class ThreadPool {
    var open: bool
    var queue: seq<Job>
    const capacity: nat

    ghost predicate Valid()
      reads this
    {
      1 <= capacity && |queue| <= capacity
    }

    constructor (capacity: nat)
      requires 1 <= capacity
      ensures Valid() && open && queue == [] && this.capacity == capacity
    {
      open, queue := true, [];
      this.capacity := capacity;
    }

    /** Never blocks: a full or closed pool hands the job back. */
    method TryExecute(job: Job) returns (accepted: bool)
      requires Valid()
      modifies this
      ensures Valid() && open == old(open)
      ensures accepted <==> old(open) && |old(queue)| < capacity
      ensures queue == if accepted then old(queue) + [job] else old(queue)
    {
      accepted := open && |queue| < capacity;
      if accepted { queue := queue + [job]; }
    }

    method Shutdown()
      requires Valid()
      modifies this
      ensures Valid() && !open && queue == old(queue)
    {
      open := false;
    }

    /** The loop of a lone worker until there is nothing to receive: every accepted job runs, in order,
        whether or not the pool was shut down meanwhile. */
    method WorkerLoop() returns (log: seq<D.Effect>)
      requires Valid()
      modifies this
      ensures Valid() && open == old(open) && queue == [] && log == AllEffects(old(queue))
    {
      log := [];
      while queue != []
        invariant Valid() && open == old(open) && log + AllEffects(queue) == AllEffects(old(queue))
        decreases |queue|
      {
        var job := queue[0];
        log := log + RunEffects(job);
        queue := queue[1..];
      }
    }
  }

  class Registry {
    var entries: map<Text, Entry>
    var pool: ThreadPool?
    const hasBus: bool
    /** Publications and responder calls made on the callers' side, in order. */
    var log: seq<D.Effect>

    ghost predicate Valid()
      reads this, pool
    {
      pool != null ==> pool.Valid()
    }

    constructor (hasBus: bool)
      ensures Valid() && entries == map[] && pool == null && this.hasBus == hasBus && log == []
    {
      entries, pool, log := map[], null, [];
      this.hasBus := hasBus;
    }

    method WithPool(p: ThreadPool)
      requires Valid() && p.Valid()
      modifies this`pool
      ensures Valid() && pool == p
    {
      pool := p;
    }

    method Register(name: Text, entry: Entry)
      requires Valid()
      modifies this`entries
      ensures Valid() && entries == old(entries)[name := entry]
    {
      entries := entries[name := entry];
    }

    /** What `name` turns into; without a pool a blocking handler runs on a thread of its own, whose
        effects are taken here as made. */
    method TryDispatch(id: nat, name: Text, params: Json) returns (registered: bool)
      requires Valid()
      modifies this`log, pool
      ensures Valid() && (registered <==> name in entries)
      ensures !registered ==> log == old(log)
      ensures registered ==>
        var entry := entries[name];
        var job := Job(id, name, entry.handler, params, hasBus && !entry.silent);
        if entry.blocking && pool != null then
          var accepted := old(pool.open) && |old(pool.queue)| < pool.capacity;
          && log == (if accepted then old(log) else old(log) + CancelEffects(job))
          && pool.queue == (if accepted then old(pool.queue) + [job] else old(pool.queue))
        else log == old(log) + RunEffects(job)
      ensures pool != null && (!registered || !entries[name].blocking) ==> pool.queue == old(pool.queue)
    {
      if name !in entries { return false; }
      var entry := entries[name];
      var job := Job(id, name, entry.handler, params, hasBus && !entry.silent);
      if entry.blocking && pool != null {
        var accepted := pool.TryExecute(job);
        if !accepted { Complete(job, D.OVERLOADED); }
      } else {
        Complete(job, entry.handler(params));
      }
      registered := true;
    }

    method Complete(job: Job, o: D.Outcome)
      modifies this`log
      ensures log == old(log) + Effects(job.id, job.action, job.publishes, o)
    {
      if job.publishes { log := log + [D.Published(job.id, D.Kind(job.action, o), o)]; }
      log := log + [D.Answered(job.id, o)];
    }
  }

  // ---- The same effects, step by step ----------------------------------------------------------

  /** Whoever holds a job, caller, worker or thread: the three steps it takes with it add to the log
      exactly the effects of the object's dispatch. */
  lemma HolderEffects(cfg: D.Config, s: D.World, id: nat, o: D.Outcome)
    requires D.Enabled(s, D.HandlerReturns(id, o))
    ensures var a := D.Apply(cfg, s, D.HandlerReturns(id, o));
      && D.Enabled(a, D.Publish(id))
      && D.Enabled(D.Apply(cfg, a, D.Publish(id)), D.Respond(id))
      && D.Apply(cfg, D.Apply(cfg, a, D.Publish(id)), D.Respond(id)).log
           == s.log + Effects(id, s.calls[id].action, D.Publishes(cfg, s.calls[id]), o)
  {
    var c := s.calls[id];
    if D.Publishes(cfg, c) {
      var p, q := D.Published(id, D.Kind(c.action, o), o), D.Answered(id, o);
      assert s.log + [p] + [q] == s.log + ([p] + [q]);
    } else {
      assert [] + [D.Answered(id, o)] == [D.Answered(id, o)];
    }
  }

  /** A rejected job is completed by the caller itself, at once and as overloaded. */
  lemma RejectedEffects(cfg: D.Config, s: D.World, id: nat)
    requires D.Inv(cfg, s) && D.Enabled(s, D.Route(id)) && s.calls[id].place.blocking && cfg.pooled
    requires !s.open || cfg.capacity <= |s.queue|
    ensures var a := D.Apply(cfg, s, D.Route(id));
      && D.Enabled(a, D.Publish(id))
      && D.Enabled(D.Apply(cfg, a, D.Publish(id)), D.Respond(id))
      && D.Apply(cfg, D.Apply(cfg, a, D.Publish(id)), D.Respond(id)).log
           == s.log + Effects(id, s.calls[id].action, D.Publishes(cfg, s.calls[id]), D.OVERLOADED)
  {
    var c := s.calls[id];
    if D.Publishes(cfg, c) {
      var p, q := D.Published(id, D.Kind(c.action, D.OVERLOADED), D.OVERLOADED), D.Answered(id, D.OVERLOADED);
      assert s.log + [p] + [q] == s.log + ([p] + [q]);
    } else {
      assert [] + [D.Answered(id, D.OVERLOADED)] == [D.Answered(id, D.OVERLOADED)];
    }
  }

  /** What the log shows of one dispatch. */
  function OfCall(log: seq<D.Effect>, id: nat): seq<D.Effect> {
    if log == [] then []
    else
      var n := |log| - 1;
      OfCall(log[..n], id) + if log[n].id == id then [log[n]] else []
  }

  lemma OfCallSnoc(log: seq<D.Effect>, e: D.Effect, id: nat)
    ensures OfCall(log + [e], id) == OfCall(log, id) + if e.id == id then [e] else []
  {
    assert (log + [e])[..|log|] == log;
  }

  lemma {:induction false} OfNewCall(log: seq<D.Effect>, id: nat)
    requires forall k :: 0 <= k < |log| ==> log[k].id != id
    ensures OfCall(log, id) == []
  {
    if log == [] {
    } else {
      OfNewCall(log[..|log| - 1], id);
    }
  }

  /** How much of its effects a dispatch has made. */
  function Made(cfg: D.Config, id: nat, c: D.Call): seq<D.Effect> {
    match c.stage
    case Announced(o) => if D.Publishes(cfg, c) then [D.Published(id, D.Kind(c.action, o), o)] else []
    case Responded(o) => Effects(id, c.action, D.Publishes(cfg, c), o)
    case _ => []
  }

  ghost predicate Shown(cfg: D.Config, s: D.World, id: nat) {
    if id < |s.calls| then OfCall(s.log, id) == Made(cfg, id, s.calls[id]) else OfCall(s.log, id) == []
  }

  lemma PublishShown(cfg: D.Config, s: D.World, i: nat, id: nat)
    requires D.Enabled(s, D.Publish(i)) && Shown(cfg, s, id)
    ensures Shown(cfg, D.Apply(cfg, s, D.Publish(i)), id)
  {
    hide OfCall, D.Kind;
    var c := s.calls[i];
    if D.Publishes(cfg, c) {
      OfCallSnoc(s.log, D.Published(i, D.Kind(c.action, c.stage.o), c.stage.o), id);
    }
  }

  lemma RespondShown(cfg: D.Config, s: D.World, i: nat, id: nat)
    requires D.Enabled(s, D.Respond(i)) && Shown(cfg, s, id)
    ensures Shown(cfg, D.Apply(cfg, s, D.Respond(i)), id)
  {
    hide OfCall, D.Kind;
    OfCallSnoc(s.log, D.Answered(i, s.calls[i].stage.o), id);
  }

  lemma StepShown(cfg: D.Config, s: D.World, step: D.Step, id: nat)
    requires D.Inv(cfg, s) && D.Enabled(s, step) && Shown(cfg, s, id)
    ensures Shown(cfg, D.Apply(cfg, s, step), id)
  {
    match step
    case Publish(i) => PublishShown(cfg, s, i, id);
    case Respond(i) => RespondShown(cfg, s, i, id);
    case _ =>
      var t := D.Apply(cfg, s, step);
      if id < |t.calls| { D.QuietStep(cfg, s, step, id); }
  }

  lemma {:induction false} RunShown(cfg: D.Config, s: D.World, steps: seq<D.Step>, id: nat)
    requires D.Inv(cfg, s) && D.RunEnabled(cfg, s, steps) && Shown(cfg, s, id)
    ensures Shown(cfg, D.Run(cfg, s, steps), id)
    decreases |steps|
  {
    if steps == [] {
    } else {
      D.StepKeeps(cfg, s, steps[0]);
      StepShown(cfg, s, steps[0], id);
      RunShown(cfg, D.Apply(cfg, s, steps[0]), steps[1..], id);
    }
  }

  /** Over every interleaving, what the log shows of one dispatch is a beginning of the effects that the
      object makes for it, in the same order, and all of them once its responder has fired; whoever ran
      or rejected the job, and whatever was logged in between. */
  lemma CallEffects(cfg: D.Config, steps: seq<D.Step>, id: nat)
    requires D.RunEnabled(cfg, D.Initial(cfg), steps) && id < |D.Run(cfg, D.Initial(cfg), steps).calls|
    ensures var s := D.Run(cfg, D.Initial(cfg), steps);
      var c := s.calls[id];
      && (c.stage.Responded? ==> OfCall(s.log, id) == Effects(id, c.action, D.Publishes(cfg, c), c.stage.o))
      && (c.stage.Announced? ==> OfCall(s.log, id) <= Effects(id, c.action, D.Publishes(cfg, c), c.stage.o))
      && (c.stage.Ready? || c.stage.Returned? ==> OfCall(s.log, id) == [])
  {
    D.InitialOk(cfg);
    RunShown(cfg, D.Initial(cfg), steps, id);
  }

  lemma {:induction false} EffectsConcat(a: seq<Job>, b: seq<Job>)
    ensures AllEffects(a + b) == AllEffects(a) + AllEffects(b)
    decreases |a|
  {
    if a == [] {
      assert a + b == b;
    } else {
      assert (a + b)[1..] == a[1..] + b;
      EffectsConcat(a[1..], b);
    }
  }

  function AnswersOf(log: seq<D.Effect>): seq<nat> {
    if log == [] then [] else (if log[0].Answered? then [log[0].id] else []) + AnswersOf(log[1..])
  }

  lemma {:induction false} AnswersConcat(a: seq<D.Effect>, b: seq<D.Effect>)
    ensures AnswersOf(a + b) == AnswersOf(a) + AnswersOf(b)
    decreases |a|
  {
    if a == [] {
      assert a + b == b;
    } else {
      assert (a + b)[1..] == a[1..] + b;
      AnswersConcat(a[1..], b);
    }
  }

  /** A lone worker answers the accepted jobs once each, in the order they were accepted. */
  lemma {:induction false} AnsweredInOrder(jobs: seq<Job>)
    ensures AnswersOf(AllEffects(jobs)) == seq(|jobs|, i requires 0 <= i < |jobs| => jobs[i].id)
    decreases |jobs|
  {
    if jobs == [] {
    } else {
      AnsweredInOrder(jobs[1..]);
      AnswersConcat(RunEffects(jobs[0]), AllEffects(jobs[1..]));
      var o := jobs[0].handler(jobs[0].params);
      var p, q := [D.Published(jobs[0].id, D.Kind(jobs[0].action, o), o)], [D.Answered(jobs[0].id, o)];
      assert q[1..] == [] && AnswersOf(q) == [jobs[0].id];
      if jobs[0].publishes {
        AnswersConcat(p, q);
        assert p[1..] == [] && AnswersOf(p) == [];
      } else {
        assert [] + q == q;
      }
    }
  }
}
