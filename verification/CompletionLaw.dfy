/** Where the two halves meet: what the action registry publishes when a dispatch is done is what the await
    machine reads as the completion of that action. */
module CompletionLaw {
  import opened ConditionSyntax
  import opened Events
  import D = DispatchPool
  import A = AwaitMachine
  import R = ActionRegistry

  /** The kinds a registry publishes, and how the await machine reads them, whatever the action's name. */
  lemma KindIsRead(action: Text, o: D.Outcome, e: Event)
    requires e.source == "nestty.action" && e.kind == D.Kind(action, o)
    ensures e.kind == action + if o.Value? then ".completed" else ".failed"
    ensures A.Completes(e) == A.Completion(action, o.Value?)
  {
    var suffix := if o.Value? then ".completed" else ".failed";
    assert e.kind[|e.kind| - |suffix|..] == suffix && e.kind[..|e.kind| - |suffix|] == action;
    if !o.Value? { assert e.kind[|e.kind| - 1] == 'd' && e.kind[|e.kind| - 3] == 'l'; }
  }

  /** The event that a publication of the log puts on the bus.  `message` is the text of an error. */
  predicate IsCompletionEvent(e: Event, published: D.Effect, message: Text)
    requires published.Published?
  {
    && e.kind == published.kind && e.source == "nestty.action" && e.origin == Internal
    && e.payload == match published.o
                    case Value(v) => v
                    case Error(code) => JObject(map["code" := JString(code), "message" := JString(message)])
  }

  // ---- Over every run of the pool --------------------------------------------------------------

  /** Each publication is of the outcome that its call has, and that its responder is given. */
  ghost predicate PublishedOk(s: D.World) {
    forall k :: 0 <= k < |s.log| && s.log[k].Published? ==>
      var p := s.log[k];
      && p.id < |s.calls| && p.kind == D.Kind(s.calls[p.id].action, p.o)
      && (s.calls[p.id].stage == D.Announced(p.o) || s.calls[p.id].stage == D.Responded(p.o))
  }

  lemma StepPublished(cfg: D.Config, s: D.World, step: D.Step)
    requires D.Inv(cfg, s) && PublishedOk(s) && D.Enabled(s, step)
    ensures PublishedOk(D.Apply(cfg, s, step))
  {
    hide D.Kind, D.QueueOk, D.WorkersOk, D.Balanced, D.Logged, D.Ordered;
    var t := D.Apply(cfg, s, step);
    forall k | 0 <= k < |t.log| && t.log[k].Published?
      ensures var p := t.log[k];
        && p.id < |t.calls| && p.kind == D.Kind(t.calls[p.id].action, p.o)
        && (t.calls[p.id].stage == D.Announced(p.o) || t.calls[p.id].stage == D.Responded(p.o))
    {
      if k < |s.log| { assert t.log[k] == s.log[k]; }
    }
  }

  lemma {:induction false} RunPublished(cfg: D.Config, s: D.World, steps: seq<D.Step>)
    requires D.Inv(cfg, s) && PublishedOk(s) && D.RunEnabled(cfg, s, steps)
    ensures PublishedOk(D.Run(cfg, s, steps))
    decreases |steps|
  {
    if steps == [] {
    } else {
      StepPublished(cfg, s, steps[0]);
      D.StepKeeps(cfg, s, steps[0]);
      RunPublished(cfg, D.Apply(cfg, s, steps[0]), steps[1..]);
    }
  }

  /** For every publication of every run: its event reads as the completion of the dispatched action, a
      success exactly when the responder is given a value.  So the oldest await of that action is promoted
      with that value, and on an error, an overloaded pool included, it is dropped as failed. */
  lemma CompletionMovesAwait(cfg: D.Config, steps: seq<D.Step>, k: nat, e: Event, message: Text, s: A.System,
      show: Json -> Text)
    requires D.RunEnabled(cfg, D.Initial(cfg), steps) && k < |D.Run(cfg, D.Initial(cfg), steps).log|
    requires D.Run(cfg, D.Initial(cfg), steps).log[k].Published?
    requires IsCompletionEvent(e, D.Run(cfg, D.Initial(cfg), steps).log[k], message)
    ensures var z := D.Run(cfg, D.Initial(cfg), steps);
      && z.log[k].id < |z.calls|
      && var action, o := z.calls[z.log[k].id].action, z.log[k].o;
      && A.Completes(e) == A.Completion(action, o.Value?)
      && (z.calls[z.log[k].id].stage == D.Announced(o) || z.calls[z.log[k].id].stage == D.Responded(o))
      && forall i: nat :: i < |s.preflight| && OldestOf(s, i, action) ==>
           var p, t := s.preflight[i], A.Promote(s, e, show);
           && t.preflight == s.preflight[..i] + s.preflight[i + 1..]
           && (o.Value? ==> t.fates == s.fates && |t.pending| == |s.pending| + 1 && t.pending[..|s.pending|] == s.pending
                            && t.pending[|s.pending|].firing == p.firing
                            && t.pending[|s.pending|].actionResult == Some(o.v))
           && (o.Error? ==> t.pending == s.pending && t.fates == s.fates[p.firing := A.ActionFailed])
  {
    D.InitialOk(cfg);
    RunPublished(cfg, D.Initial(cfg), steps);
    var z := D.Run(cfg, D.Initial(cfg), steps);
    var action, o := z.calls[z.log[k].id].action, z.log[k].o;
    KindIsRead(action, o, e);
    forall i: nat | i < |s.preflight| && OldestOf(s, i, action) ensures A.Oldest(s.preflight, action) == i { }
  }

  /** The preflight at `i` is the first of its action. */
  predicate OldestOf(s: A.System, i: nat, action: Text)
    requires i < |s.preflight|
  {
    s.preflight[i].action == action && forall k :: 0 <= k < i ==> s.preflight[k].action != action
  }

  // ---- One dispatch from request to answer -----------------------------------------------------

  /** The step decides the outcome of the call: its handler answers, or the pool turns it away. */
  ghost predicate Decides(cfg: D.Config, s: D.World, step: D.Step, id: nat, o: D.Outcome)
    requires id < |s.calls|
  {
    || step == D.HandlerReturns(id, o)
    || (&& step == D.Route(id) && s.calls[id].place == D.Deciding(true) && cfg.pooled
        && (!s.open || cfg.capacity <= |s.queue|) && o == D.Error("overloaded"))
  }

  lemma StepSameCall(cfg: D.Config, s: D.World, step: D.Step, id: nat)
    requires D.QueueOk(cfg, s) && D.Enabled(s, step) && id < |s.calls|
    ensures var t := D.Apply(cfg, s, step);
      && id < |t.calls| && t.calls[id].action == s.calls[id].action && t.calls[id].silent == s.calls[id].silent
      && (t.calls[id].place.Unknown? <==> s.calls[id].place.Unknown?)
  {
    hide D.Kind;
  }

  lemma StepOutcome(cfg: D.Config, s: D.World, step: D.Step, id: nat)
    requires D.Inv(cfg, s) && D.Enabled(s, step) && id < |s.calls|
    ensures var t := D.Apply(cfg, s, step);
      && id < |t.calls| && t.calls[id].action == s.calls[id].action && t.calls[id].silent == s.calls[id].silent
      && (t.calls[id].place.Unknown? <==> s.calls[id].place.Unknown?)
      && (!s.calls[id].stage.Ready? ==> !t.calls[id].stage.Ready? && t.calls[id].stage.o == s.calls[id].stage.o)
      && (s.calls[id].stage.Ready? ==>
            (forall o :: Decides(cfg, s, step, id, o) ==> !t.calls[id].stage.Ready? && t.calls[id].stage.o == o)
            && (!t.calls[id].stage.Ready? ==> Decides(cfg, s, step, id, t.calls[id].stage.o)))
  {
    StepSameCall(cfg, s, step, id);
    hide D.QueueOk, D.WorkersOk, D.Balanced, D.Logged, D.Ordered, D.Kind;
  }

  lemma {:induction false} RunOutcome(cfg: D.Config, s: D.World, steps: seq<D.Step>, id: nat)
    requires D.Inv(cfg, s) && D.RunEnabled(cfg, s, steps) && id < |s.calls|
    ensures var t := D.Run(cfg, s, steps);
      && id < |t.calls| && t.calls[id].action == s.calls[id].action && t.calls[id].silent == s.calls[id].silent
      && (t.calls[id].place.Unknown? <==> s.calls[id].place.Unknown?)
      && (!s.calls[id].stage.Ready? ==> !t.calls[id].stage.Ready? && t.calls[id].stage.o == s.calls[id].stage.o)
    decreases |steps|
  {
    if steps == [] {
    } else {
      StepOutcome(cfg, s, steps[0], id);
      D.StepKeeps(cfg, s, steps[0]);
      RunOutcome(cfg, D.Apply(cfg, s, steps[0]), steps[1..], id);
    }
  }

  /** Somewhere in the run the call's outcome was decided as `o`. */
  ghost predicate Decided(cfg: D.Config, s: D.World, steps: seq<D.Step>, id: nat, o: D.Outcome)
    requires D.RunEnabled(cfg, s, steps) && id < |s.calls|
    decreases |steps|
  {
    steps != [] &&
    (Decides(cfg, s, steps[0], id, o)
     || (id < |D.Apply(cfg, s, steps[0]).calls| && Decided(cfg, D.Apply(cfg, s, steps[0]), steps[1..], id, o)))
  }

  lemma {:induction false} OutcomeDecided(cfg: D.Config, s: D.World, steps: seq<D.Step>, id: nat)
    requires D.Inv(cfg, s) && D.RunEnabled(cfg, s, steps) && id < |s.calls| && s.calls[id].stage.Ready?
    ensures id < |D.Run(cfg, s, steps).calls|
    ensures var c := D.Run(cfg, s, steps).calls[id]; !c.stage.Ready? ==> Decided(cfg, s, steps, id, c.stage.o)
    decreases |steps|
  {
    if steps == [] {
    } else {
      var t := D.Apply(cfg, s, steps[0]);
      StepOutcome(cfg, s, steps[0], id);
      D.StepKeeps(cfg, s, steps[0]);
      if t.calls[id].stage.Ready? {
        OutcomeDecided(cfg, t, steps[1..], id);
      } else {
        RunOutcome(cfg, t, steps[1..], id);
      }
    }
  }

  /** Over every run: `try_dispatch` of an unregistered name has no effect at all.  Of a registered one, the
      log shows in the end, when nothing more can happen by itself, exactly this: one publication iff there
      is a bus and the entry is not silent, `.completed` iff the outcome is a value, then one answer with
      the same outcome; and that is what the handler returned, or `overloaded` from a pool that was full or
      shut. */
  lemma DispatchTold(cfg: D.Config, before: seq<D.Step>, s: D.World, name: Text, rest: seq<D.Step>, z: D.World)
    requires D.ConfigOk(cfg) && D.RunEnabled(cfg, D.Initial(cfg), before) && s == D.Run(cfg, D.Initial(cfg), before)
    requires D.RunEnabled(cfg, D.Apply(cfg, s, D.Dispatch(name)), rest)
    requires z == D.Run(cfg, D.Apply(cfg, s, D.Dispatch(name)), rest)
    ensures |s.calls| < |z.calls|
    ensures name !in s.entries ==> R.OfCall(z.log, |s.calls|) == []
    ensures name in s.entries && D.Quiescent(z) ==> z.calls[|s.calls|].stage.Responded?
    ensures name in s.entries && z.calls[|s.calls|].stage.Responded? ==>
      var id, o := |s.calls|, z.calls[|s.calls|].stage.o;
      && Decided(cfg, D.Apply(cfg, s, D.Dispatch(name)), rest, id, o)
      && R.OfCall(z.log, id) ==
           (if cfg.hasBus && !s.entries[name].silent
            then [D.Published(id, name + (if o.Value? then ".completed" else ".failed"), o)] else [])
           + [D.Answered(id, o)]
  {
    hide D.Inv;
    var id, t := |s.calls|, D.Apply(cfg, s, D.Dispatch(name));
    D.InitialOk(cfg);
    D.RunKeeps(cfg, D.Initial(cfg), before);
    R.RunShown(cfg, D.Initial(cfg), before, id);
    R.StepShown(cfg, s, D.Dispatch(name), id);
    D.StepKeeps(cfg, s, D.Dispatch(name));
    R.RunShown(cfg, t, rest, id);
    D.RunKeeps(cfg, t, rest);
    RunOutcome(cfg, t, rest, id);
    OutcomeDecided(cfg, t, rest, id);
    UnknownUntouched(cfg, z);
    if D.Quiescent(z) && name in s.entries { D.QuiescentAnswered(cfg, z, id); }
  }

  lemma UnknownUntouched(cfg: D.Config, s: D.World)
    requires D.Inv(cfg, s)
    ensures forall id :: 0 <= id < |s.calls| && s.calls[id].place.Unknown? ==> s.calls[id].stage.Ready?
  {
  }

  /** The pool is open until somebody shuts it down. */
  lemma {:induction false} OpenUntilShutdown(cfg: D.Config, s: D.World, steps: seq<D.Step>)
    requires D.RunEnabled(cfg, s, steps)
    ensures D.Run(cfg, s, steps).open <==> s.open && D.Shutdown !in steps
    decreases |steps|
  {
    if steps == [] {
    } else {
      assert steps == [steps[0]] + steps[1..];
      OpenUntilShutdown(cfg, D.Apply(cfg, s, steps[0]), steps[1..]);
    }
  }

  /** Exactly where a registered dispatch goes, over every run: a handler that does not block runs on the
      caller; a blocking one on a thread of its own without a pool; with one, into the queue while there is
      room and nobody has shut the pool down, and else nowhere: the caller answers `overloaded`. */
  lemma RouteIff(cfg: D.Config, steps: seq<D.Step>, id: nat)
    requires D.RunEnabled(cfg, D.Initial(cfg), steps)
    requires D.Enabled(D.Run(cfg, D.Initial(cfg), steps), D.Route(id))
    ensures var s := D.Run(cfg, D.Initial(cfg), steps);
      var t, blocking := D.Apply(cfg, s, D.Route(id)), s.calls[id].place == D.Deciding(true);
      var taken := D.Shutdown !in steps && |s.queue| < cfg.capacity;
      && (blocking && cfg.pooled && taken <==> t.calls[id].place.InQueue?)
      && (blocking && !cfg.pooled <==> t.calls[id].place.OnThread?)
      && (!blocking || (cfg.pooled && !taken) <==> t.calls[id].place.OnCaller?)
      && (t.calls[id].stage == D.Returned(D.Error("overloaded")) <==> blocking && cfg.pooled && !taken)
      && (t.calls[id].place.InQueue? ==> t.queue == s.queue + [id])
  {
    D.InitialOk(cfg);
    D.RunKeeps(cfg, D.Initial(cfg), steps);
    OpenUntilShutdown(cfg, D.Initial(cfg), steps);
  }

  /** A name stands for the entry registered last under it. */
  lemma RegisteredLast(cfg: D.Config, s: D.World, name: Text, entry: D.Entry, steps: seq<D.Step>)
    requires D.RunEnabled(cfg, D.Apply(cfg, s, D.Register(name, entry)), steps)
    requires forall other :: D.Register(name, other) !in steps
    ensures var t := D.Run(cfg, D.Apply(cfg, s, D.Register(name, entry)), steps);
      name in t.entries && t.entries[name] == entry
  {
    EntryStays(cfg, D.Apply(cfg, s, D.Register(name, entry)), name, steps);
  }

  lemma {:induction false} EntryStays(cfg: D.Config, s: D.World, name: Text, steps: seq<D.Step>)
    requires D.RunEnabled(cfg, s, steps) && name in s.entries && forall other :: D.Register(name, other) !in steps
    ensures name in D.Run(cfg, s, steps).entries && D.Run(cfg, s, steps).entries[name] == s.entries[name]
    decreases |steps|
  {
    if steps == [] {
    } else {
      assert steps == [steps[0]] + steps[1..];
      EntryStays(cfg, D.Apply(cfg, s, steps[0]), name, steps[1..]);
    }
  }
}
