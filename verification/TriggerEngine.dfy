/** The trigger engine object: trigger compilation, event dispatch behind the trust gates, and the
    await pools, tied section by section to the await state machine. */
module TriggerEngine {
  import opened ConditionSyntax
  import opened ConditionLexer
  import opened ConditionEval
  import opened Events
  import opened EventPattern
  import opened Interpolation
  import opened AwaitMachine
  import opened AwaitTick

  datatype AwaitClause = AwaitClause(
    eventKind: Text, payloadMatch: map<Text, Json>, timeoutSeconds: nat, onTimeout: TimeoutPolicy)

  datatype Trigger = Trigger(
    name: Text, whenKind: Text, whenMatch: map<Text, Json>, action: Text, params: Json,
    condition: Option<Text>, awaits: Option<AwaitClause>, acceptExternal: bool, allowPrivileged: bool)

  datatype Compiled = Compiled(trigger: Trigger, condition: Option<Expr>)

  datatype Invocation = Invocation(action: Text, params: Json)

  /** What one dispatch does after the await passes. */
  datatype Effects = Effects(invoked: seq<Invocation>, entries: seq<Preflight>, fired: nat)

  /** What the engine cannot see into: numeral values, JSON printing, the clock, and the sink's answer
      to the trigger at each index of the snapshot. */
  datatype World = World(number: Text -> Option<real>, show: Json -> Text, now: nat, sinkOk: nat -> bool)

  const SYSTEM_SPAWN: Text := "system.spawn"

  // ---- Compilation -----------------------------------------------------------------------------

  function Compile(t: Trigger): Option<Compiled> {
    if t.condition.None? then Some(Compiled(t, None))
    else
      match ParseText(t.condition.value)
      case Parses(e) => Some(Compiled(t, Some(e)))
      case _ => None
  }

  function CompileAll(ts: seq<Trigger>): seq<Compiled> {
    if ts == [] then []
    else
      var c := Compile(ts[|ts| - 1]);
      CompileAll(ts[..|ts| - 1]) + (if c.Some? then [c.value] else [])
  }

  /** A compiled trigger holds the tree of its condition text. */
  predicate CompiledOk(ct: Compiled) {
    match ct.trigger.condition
    case None => ct.condition.None?
    case Some(text) => ct.condition.Some? && ParseText(text) == Parses(ct.condition.value)
  }

  /** Of the configured triggers, those whose condition parses are compiled, in their order. */
  lemma {:induction false} CompilesExactly(ts: seq<Trigger>) returns (ks: seq<nat>)
    ensures forall i, j :: 0 <= i < j < |ks| ==> ks[i] < ks[j]
    ensures forall k: nat :: k in ks <==>
      k < |ts| && (ts[k].condition.Some? ==> exists tree :: ParseText(ts[k].condition.value) == Parses(tree))
    ensures |CompileAll(ts)| == |ks|
    ensures forall i :: 0 <= i < |ks| ==>
      ks[i] < |ts| && CompileAll(ts)[i].trigger == ts[ks[i]] && CompiledOk(CompileAll(ts)[i])
  {
    if ts == [] {
      ks := [];
    } else {
      var front, last := ts[..|ts| - 1], ts[|ts| - 1];
      ks := CompilesExactly(front);
      forall i | 0 <= i < |ks| ensures ks[i] < |front| { assert ks[i] in ks; }
      ghost var shorter := ks;
      if Compile(last).Some? { ks := ks + [|front|]; }
      forall k: nat ensures k in ks <==>
        k < |ts| && (ts[k].condition.Some? ==> exists tree :: ParseText(ts[k].condition.value) == Parses(tree))
      {
        assert k in ks <==> k in shorter || (Compile(last).Some? && k == |front|);
        assert k < |front| ==> ts[k] == front[k];
      }
    }
  }

  // ---- Which triggers fire ---------------------------------------------------------------------

  predicate Matches(t: Trigger, e: Event) {
    PatternMatches(t.whenKind, e.kind) && PayloadMatches(t.whenMatch, e.payload)
  }

  predicate IsPrivileged(action: Text) { action == SYSTEM_SPAWN }

  predicate TrustGate(t: Trigger, e: Event) {
    (e.origin == External ==> t.acceptExternal) && (IsPrivileged(t.action) ==> t.allowPrivileged)
  }

  predicate ConditionMet(ct: Compiled, e: Event, context: Option<Context>, world: World) {
    ct.condition.None? || Eval(ct.condition.value, Env(e, context, world.number)) == Got(true)
  }

  predicate Eligible(ct: Compiled, e: Event, context: Option<Context>, world: World) {
    Matches(ct.trigger, e) && TrustGate(ct.trigger, e) && ConditionMet(ct, e, context, world)
  }

  function InvocationOf(t: Trigger, e: Event, context: Option<Context>, world: World): Invocation {
    Invocation(t.action, Interpolate(t.params, Scope(e, context, None, world.show)))
  }

  function EntryOf(t: Trigger, aw: AwaitClause, e: Event, context: Option<Context>, world: World, firing: nat): Preflight {
    Preflight(firing, t.name, t.action, aw.eventKind, aw.payloadMatch, e, context,
              world.now + aw.timeoutSeconds, aw.onTimeout)
  }

  /** The effects of the first `n` triggers of a snapshot, numbering new entries from `base`. */
  function Fire(cts: seq<Compiled>, n: nat, e: Event, context: Option<Context>, world: World, base: nat): Effects
    requires n <= |cts|
  {
    if n == 0 then Effects([], [], 0)
    else
      var before := Fire(cts, n - 1, e, context, world, base);
      var t := cts[n - 1].trigger;
      if !Eligible(cts[n - 1], e, context, world) then before
      else
        var invoked := before.(invoked := before.invoked + [InvocationOf(t, e, context, world)]);
        if !world.sinkOk(n - 1) then invoked
        else if t.awaits.None? then invoked.(fired := before.fired + 1)
        else
          invoked.(fired := before.fired + 1,
                   entries := before.entries + [EntryOf(t, t.awaits.value, e, context, world, base + |before.entries|)])
  }

  // ---- What must fire, said without the code's own order of tests -------------------------------

  /** The condition text is absent, or parses to a tree that holds here. */
  ghost predicate ConditionHolds(t: Trigger, e: Event, context: Option<Context>, world: World) {
    t.condition.Some? ==>
      exists tree :: ParseText(t.condition.value) == Parses(tree) && Holds(tree, Env(e, context, world.number)) == Some(true)
  }

  /** The event is of the trigger's kind and carries what it asks for, the trigger may act on it and may
      run its action, and its condition holds. */
  ghost predicate Fires(t: Trigger, e: Event, context: Option<Context>, world: World) {
    && PatternMatches(t.whenKind, e.kind)
    && (forall key :: key in t.whenMatch ==> Member(e.payload, key) == Some(t.whenMatch[key]))
    && (e.origin == Internal || t.acceptExternal)
    && (t.action != "system.spawn" || t.allowPrivileged)
    && ConditionHolds(t, e, context, world)
  }

  /** Firing, and accepted by the sink too, and awaiting a reply too. */
  datatype Stage = Firing | Accepted | Awaiting

  ghost predicate Reaches(stage: Stage, cts: seq<Compiled>, k: nat, e: Event, context: Option<Context>, world: World)
    requires k < |cts|
  {
    && Fires(cts[k].trigger, e, context, world)
    && (stage != Firing ==> world.sinkOk(k)) && (stage == Awaiting ==> cts[k].trigger.awaits.Some?)
  }

  /** `ks` lists the indices below `n` of the triggers that reach the stage, in order. */
  ghost predicate ListsStage(ks: seq<nat>, n: nat, stage: Stage, cts: seq<Compiled>, e: Event, context: Option<Context>,
      world: World)
    requires n <= |cts|
  {
    && (forall i, j :: 0 <= i < j < |ks| ==> ks[i] < ks[j])
    && (forall k: nat :: k in ks <==> k < n && Reaches(stage, cts, k, e, context, world))
  }

  /** The entry that an accepted trigger registers: its await, this event and context, and a deadline
      counted from now. */
  predicate Registers(p: Preflight, firing: nat, t: Trigger, e: Event, context: Option<Context>, world: World)
    requires t.awaits.Some?
  {
    var aw := t.awaits.value;
    && p.firing == firing && p.triggerName == t.name && p.action == t.action && p.event == e && p.context == context
    && p.awaitKind == aw.eventKind && p.template == aw.payloadMatch && p.onTimeout == aw.onTimeout
    && p.deadline == world.now + aw.timeoutSeconds
  }

  /** The triggers at `ks` are invoked, in that order, with their parameters filled in. */
  ghost predicate InvokesAt(invoked: seq<Invocation>, ks: seq<nat>, cts: seq<Compiled>, e: Event,
      context: Option<Context>, world: World)
  {
    && |invoked| == |ks|
    && (forall i :: 0 <= i < |ks| ==>
          && ks[i] < |cts| && invoked[i].action == cts[ks[i]].trigger.action
          && invoked[i].params == Interpolate(cts[ks[i]].trigger.params, Scope(e, context, None, world.show)))
  }

  /** The triggers at `ws` register an entry each, numbered on from `base`. */
  ghost predicate RegistersAt(entries: seq<Preflight>, ws: seq<nat>, base: nat, cts: seq<Compiled>, e: Event,
      context: Option<Context>, world: World)
  {
    && |entries| == |ws|
    && (forall i :: 0 <= i < |ws| ==>
          && ws[i] < |cts| && cts[ws[i]].trigger.awaits.Some?
          && Registers(entries[i], base + i, cts[ws[i]].trigger, e, context, world))
  }

  /** What the first `n` triggers of a snapshot do, whole: `ks` are those that fire, `oks` those of them that
      the sink accepts, `ws` those of these that await. */
  ghost predicate FiresExactly(cts: seq<Compiled>, n: nat, e: Event, context: Option<Context>, world: World, base: nat,
      effects: Effects, ks: seq<nat>, oks: seq<nat>, ws: seq<nat>)
    requires n <= |cts|
  {
    && ListsStage(ks, n, Firing, cts, e, context, world) && ListsStage(oks, n, Accepted, cts, e, context, world)
    && ListsStage(ws, n, Awaiting, cts, e, context, world)
    && InvokesAt(effects.invoked, ks, cts, e, context, world) && effects.fired == |oks|
    && RegistersAt(effects.entries, ws, base, cts, e, context, world)
  }

  // ---- The engine object -----------------------------------------------------------------------

  class TriggerEngine {
    var triggers: seq<Compiled>
    var preflightAwaits: seq<Preflight>
    var pendingAwaits: seq<Pending>
    /** Events sent to the bus, when there is one. */
    var published: seq<Emission>
    const hasBus: bool
    /** Number of await-bearing firings so far; only numbers entries. */
    var firings: nat
    ghost var sys: System

    ghost predicate Valid()
      reads this
    {
      && sys.preflight == preflightAwaits && sys.pending == pendingAwaits && |sys.history| == firings
      && published == (if hasBus then sys.emitted else [])
      && forall k :: 0 <= k < |triggers| ==> CompiledOk(triggers[k])
    }

    constructor (hasBus: bool)
      ensures Valid() && this.hasBus == hasBus && triggers == [] && sys == Idle
    {
      this.hasBus := hasBus;
      triggers, preflightAwaits, pendingAwaits, published, firings := [], [], [], [], 0;
      sys := Idle;
    }

    /** A trigger whose condition does not parse is dropped; both await pools are cleared. */
    method SetTriggers(ts: seq<Trigger>)
      requires Valid()
      modifies this
      ensures Valid() && triggers == CompileAll(ts)
      ensures sys == ClearPending(ClearPreflight(old(sys)))
    {
      var compiled: seq<Compiled> := [];
      for i := 0 to |ts|
        invariant compiled == CompileAll(ts[..i])
      {
        assert ts[..i + 1][..i] == ts[..i];
        var c := Compile(ts[i]);
        if c.Some? { compiled := compiled + [c.value]; }
      }
      assert ts[..|ts|] == ts;
      ghost var ks := CompilesExactly(ts);
      triggers := compiled;
      preflightAwaits := [];
      sys := ClearPreflight(sys);
      pendingAwaits := [];
      sys := ClearPending(sys);
    }

    method TryPromoteOrDropPreflight(e: Event, show: Json -> Text)
      requires Valid() && e.origin == Internal
      modifies this
      ensures Valid() && sys == Promote(old(sys), e, show)
      ensures triggers == old(triggers) && firings == old(firings)
    {
      var c := Completes(e);
      if c.NoCompletion? { return; }
      var idx := 0;
      while idx < |preflightAwaits| && preflightAwaits[idx].action != c.action
        invariant idx <= |preflightAwaits|
        invariant forall k :: 0 <= k < idx ==> preflightAwaits[k].action != c.action
      {
        idx := idx + 1;
      }
      assert idx == Oldest(preflightAwaits, c.action);
      if idx == |preflightAwaits| { return; }
      var removed := preflightAwaits[idx];
      sys := Promote(sys, e, show);
      preflightAwaits := Without(preflightAwaits, idx);
      if c.success {
        pendingAwaits := pendingAwaits + [Promoted(removed, e.payload, show)];
      }
    }

    method TryMatchPendingAwaits(e: Event)
      requires Valid() && e.origin == Internal
      modifies this
      ensures Valid() && sys == MatchPending(old(sys), e)
      ensures triggers == old(triggers) && firings == old(firings)
    {
      var idx := 0;
      while idx < |pendingAwaits| && !Claims(pendingAwaits[idx], e)
        invariant idx <= |pendingAwaits|
        invariant forall k :: 0 <= k < idx ==> !Claims(pendingAwaits[k], e)
      {
        idx := idx + 1;
      }
      assert idx == FirstClaim(pendingAwaits, e);
      if idx == |pendingAwaits| { return; }
      var p := pendingAwaits[idx];
      sys := MatchPending(sys, e);
      pendingAwaits := Without(pendingAwaits, idx);
      if hasBus {
        published := published + [Emission(p.firing, p.triggerName + AWAITED,
                                           AwaitedPayload(p.originalPayload, e.payload, p.actionResult))];
      }
    }

    method RegisterPreflightAwait(t: Trigger, aw: AwaitClause, e: Event, context: Option<Context>, world: World)
      requires Valid()
      modifies this
      ensures Valid() && sys == Register(old(sys), EntryOf(t, aw, e, context, world, old(firings)))
      ensures triggers == old(triggers)
    {
      var entry := EntryOf(t, aw, e, context, world, firings);
      preflightAwaits := preflightAwaits + [entry];
      firings := firings + 1;
      sys := Register(sys, entry);
    }

    /** Await passes first, so that an entry registered for this event is not consumed by it; then every
        trigger of the snapshot, in order.  Returns how many fired and what the sink was asked to do. */
    method Dispatch(e: Event, context: Option<Context>, world: World)
      returns (fired: nat, invoked: seq<Invocation>)
      requires Valid()
      modifies this
      ensures Valid() && triggers == old(triggers)
      ensures var effects := Fire(triggers, |triggers|, e, context, world, old(firings));
        && fired == effects.fired && invoked == effects.invoked
        && sys == AwaitTick.Dispatch(old(sys), Arrival(e, effects.entries), world.show)
      ensures exists entries, ks, oks, ws ::
        && FiresExactly(triggers, |triggers|, e, context, world, old(firings), Effects(invoked, entries, fired), ks, oks, ws)
        && sys == AwaitTick.Dispatch(old(sys), Arrival(e, entries), world.show)
    {
      ghost var ks, oks, ws := FireExact(triggers, |triggers|, e, context, world, firings);
      AwaitPasses(e, world.show);
      fired, invoked := FireSnapshot(triggers, e, context, world);
    }

    /** Events from outside the daemon reach no await. */
    method AwaitPasses(e: Event, show: Json -> Text)
      requires Valid()
      modifies this
      ensures Valid() && triggers == old(triggers) && firings == old(firings)
      ensures sys == Intake(old(sys), e, show)
    {
      if e.origin != External {
        TryPromoteOrDropPreflight(e, show);
        TryMatchPendingAwaits(e);
      }
    }

    method FireSnapshot(snapshot: seq<Compiled>, e: Event, context: Option<Context>, world: World)
      returns (fired: nat, invoked: seq<Invocation>)
      requires Valid()
      modifies this
      ensures Valid() && triggers == old(triggers)
      ensures var effects := Fire(snapshot, |snapshot|, e, context, world, old(firings));
        && fired == effects.fired && invoked == effects.invoked && sys == RegisterAll(old(sys), effects.entries)
    {
      hide ConditionMet, InvocationOf, EntryOf, Matches, IsPrivileged;
      ghost var base, taken := firings, sys;
      ghost var entries: seq<Preflight> := [];
      fired, invoked := 0, [];
      for i := 0 to |snapshot|
        invariant Valid() && triggers == old(triggers)
        invariant Fire(snapshot, i, e, context, world, base) == Effects(invoked, entries, fired)
        invariant firings == base + |entries| && sys == RegisterAll(taken, entries)
      {
        var ct := snapshot[i];
        if !Matches(ct.trigger, e) { continue; }
        if e.origin == External && !ct.trigger.acceptExternal { continue; }
        if IsPrivileged(ct.trigger.action) && !ct.trigger.allowPrivileged { continue; }
        if !ConditionMet(ct, e, context, world) { continue; }
        invoked := invoked + [InvocationOf(ct.trigger, e, context, world)];
        if world.sinkOk(i) {
          fired := fired + 1;
          if ct.trigger.awaits.Some? {
            ghost var entry := EntryOf(ct.trigger, ct.trigger.awaits.value, e, context, world, firings);
            RegisterPreflightAwait(ct.trigger, ct.trigger.awaits.value, e, context, world);
            assert (entries + [entry])[..|entries|] == entries;
            entries := entries + [entry];
          }
        }
      }
    }

    /** Drops the expired entries of both pools, publishing defaults where asked. */
    method SweepPendingAwaits(now: nat)
      requires Valid()
      modifies this
      ensures Valid() && sys == SweepPending(SweepPreflight(old(sys), now), now)
      ensures triggers == old(triggers) && firings == old(firings)
    {
      var kept, toEmit := RetainPreflight(preflightAwaits, now);
      var keptPending, more := RetainPending(pendingAwaits, now);
      sys := SweepPreflight(sys, now);
      preflightAwaits := kept;
      sys := SweepPending(sys, now);
      pendingAwaits := keptPending;
      if hasBus { published := published + toEmit + more; }
    }
  }

  method RetainPreflight(pre: seq<Preflight>, now: nat) returns (kept: seq<Preflight>, toEmit: seq<Emission>)
    ensures kept == KeptPreflight(pre, now) && toEmit == PreflightDefaults(LapsedPreflight(pre, now))
  {
    kept, toEmit := [], [];
    ghost var lapsed: seq<Preflight> := [];
    for i := 0 to |pre|
      invariant kept == KeptPreflight(pre[..i], now) && lapsed == LapsedPreflight(pre[..i], now)
      invariant toEmit == PreflightDefaults(lapsed)
    {
      assert pre[..i + 1][..i] == pre[..i];
      var p := pre[i];
      if now < p.deadline {
        kept := kept + [p];
      } else {
        assert (lapsed + [p])[..|lapsed|] == lapsed;
        lapsed := lapsed + [p];
        if p.onTimeout == FireWithDefault {
          toEmit := toEmit + [Emission(p.firing, p.triggerName + AWAITED, AwaitedPayload(p.event.payload, JNull, None))];
        }
      }
    }
    assert pre[..|pre|] == pre;
  }

  method RetainPending(pending: seq<Pending>, now: nat) returns (kept: seq<Pending>, toEmit: seq<Emission>)
    ensures kept == KeptPending(pending, now) && toEmit == PendingDefaults(LapsedPending(pending, now))
  {
    kept, toEmit := [], [];
    ghost var lapsed: seq<Pending> := [];
    for i := 0 to |pending|
      invariant kept == KeptPending(pending[..i], now) && lapsed == LapsedPending(pending[..i], now)
      invariant toEmit == PendingDefaults(lapsed)
    {
      assert pending[..i + 1][..i] == pending[..i];
      var p := pending[i];
      if now < p.deadline {
        kept := kept + [p];
      } else {
        assert (lapsed + [p])[..|lapsed|] == lapsed;
        lapsed := lapsed + [p];
        if p.onTimeout == FireWithDefault {
          toEmit := toEmit + [Emission(p.firing, p.triggerName + AWAITED,
                                       AwaitedPayload(p.originalPayload, JNull, p.actionResult))];
        }
      }
    }
    assert pending[..|pending|] == pending;
  }

  // ---- Exactly what fires ----------------------------------------------------------------------

  lemma FiresIsEligible(ct: Compiled, e: Event, context: Option<Context>, world: World)
    requires CompiledOk(ct)
    ensures Eligible(ct, e, context, world) <==> Fires(ct.trigger, e, context, world)
  {
  }

  lemma ListsMore(ks: seq<nat>, n: nat, stage: Stage, cts: seq<Compiled>, e: Event, context: Option<Context>,
      world: World)
    requires n < |cts| && ListsStage(ks, n, stage, cts, e, context, world)
    ensures ListsStage(if Reaches(stage, cts, n, e, context, world) then ks + [n] else ks, n + 1, stage, cts, e, context, world)
  {
    hide Reaches;
    forall i | 0 <= i < |ks| ensures ks[i] < n { assert ks[i] in ks; }
    var more := if Reaches(stage, cts, n, e, context, world) then ks + [n] else ks;
    forall k: nat ensures k in more <==> k < n + 1 && Reaches(stage, cts, k, e, context, world) {
      assert k in more <==> k in ks || (Reaches(stage, cts, n, e, context, world) && k == n);
    }
  }

  lemma InvokesMore(invoked: seq<Invocation>, ks: seq<nat>, k: nat, cts: seq<Compiled>, e: Event,
      context: Option<Context>, world: World)
    requires InvokesAt(invoked, ks, cts, e, context, world) && k < |cts|
    ensures InvokesAt(invoked + [InvocationOf(cts[k].trigger, e, context, world)], ks + [k], cts, e, context, world)
  {
  }

  lemma RegistersMore(entries: seq<Preflight>, ws: seq<nat>, k: nat, base: nat, cts: seq<Compiled>, e: Event,
      context: Option<Context>, world: World)
    requires RegistersAt(entries, ws, base, cts, e, context, world) && k < |cts| && cts[k].trigger.awaits.Some?
    ensures var t := cts[k].trigger;
      RegistersAt(entries + [EntryOf(t, t.awaits.value, e, context, world, base + |entries|)], ws + [k], base, cts, e,
                  context, world)
  {
  }

  lemma NothingFires(cts: seq<Compiled>, e: Event, context: Option<Context>, world: World, base: nat)
    ensures FiresExactly(cts, 0, e, context, world, base, Effects([], [], 0), [], [], [])
  {
  }

  /** The exact set and order: a trigger of the snapshot is invoked iff it fires, once, in snapshot order and
      with its parameters filled in; the result counts those that the sink accepts; and each of these with
      an await registers it. */
  lemma {:induction false} FireExact(cts: seq<Compiled>, n: nat, e: Event, context: Option<Context>, world: World,
      base: nat)
    returns (ks: seq<nat>, oks: seq<nat>, ws: seq<nat>)
    requires n <= |cts| && forall k :: 0 <= k < |cts| ==> CompiledOk(cts[k])
    ensures FiresExactly(cts, n, e, context, world, base, Fire(cts, n, e, context, world, base), ks, oks, ws)
  {
    hide Fires, Eligible, ListsStage, InvokesAt, RegistersAt, InvocationOf, EntryOf, CompiledOk;
    if n == 0 {
      ks, oks, ws := [], [], [];
      NothingFires(cts, e, context, world, base);
    } else {
      var m := n - 1;
      ks, oks, ws := FireExact(cts, m, e, context, world, base);
      var before := Fire(cts, m, e, context, world, base);
      FiresIsEligible(cts[m], e, context, world);
      ListsMore(ks, m, Firing, cts, e, context, world);
      ListsMore(oks, m, Accepted, cts, e, context, world);
      ListsMore(ws, m, Awaiting, cts, e, context, world);
      if Fires(cts[m].trigger, e, context, world) {
        InvokesMore(before.invoked, ks, m, cts, e, context, world);
        ks := ks + [m];
        if world.sinkOk(m) {
          oks := oks + [m];
          if cts[m].trigger.awaits.Some? {
            RegistersMore(before.entries, ws, m, base, cts, e, context, world);
            ws := ws + [m];
          }
        }
      }
    }
  }

  // ---- Properties of firing --------------------------------------------------------------------

  /** The trust boundary: whatever the condition says, an action runs only for a trigger that matches,
      that accepts external events if this is one, and that may run it if it is privileged. */
  lemma {:induction false} InvokedIsTrusted(cts: seq<Compiled>, n: nat, e: Event, context: Option<Context>,
      world: World, base: nat)
    requires n <= |cts|
    ensures forall inv :: inv in Fire(cts, n, e, context, world, base).invoked ==>
      exists k :: 0 <= k < n && inv == InvocationOf(cts[k].trigger, e, context, world)
        && Matches(cts[k].trigger, e)
        && (e.origin == External ==> cts[k].trigger.acceptExternal)
        && (inv.action == SYSTEM_SPAWN ==> cts[k].trigger.allowPrivileged)
  {
    if n == 0 {
    } else {
      InvokedIsTrusted(cts, n - 1, e, context, world, base);
    }
  }

  /** New entries are numbered consecutively, and each belongs to a firing counted in the result. */
  lemma {:induction false} EntriesNumbered(cts: seq<Compiled>, n: nat, e: Event, context: Option<Context>,
      world: World, base: nat)
    requires n <= |cts|
    ensures var effects := Fire(cts, n, e, context, world, base);
      && |effects.entries| <= effects.fired <= |effects.invoked| <= n
      && (forall k :: 0 <= k < |effects.entries| ==> effects.entries[k].firing == base + k && effects.entries[k].event == e)
  {
    if n == 0 {
    } else {
      EntriesNumbered(cts, n - 1, e, context, world, base);
    }
  }

  /** So a dispatch keeps the ledger, whatever triggers it fires and whatever the sink answers. */
  lemma DispatchConserves(s: System, cts: seq<Compiled>, e: Event, context: Option<Context>, world: World)
    requires Conserved(s)
    ensures var entries := Fire(cts, |cts|, e, context, world, |s.history|).entries;
      var t := AwaitTick.Dispatch(s, Arrival(e, entries), world.show);
      Conserved(t) && t.history == s.history + entries && FatesKept(s, t)
  {
    EntriesNumbered(cts, |cts|, e, context, world, |s.history|);
    IntakeIsNarrow(s, e, world.show);
    RegisterAllKeeps(Intake(s, e, world.show), Fire(cts, |cts|, e, context, world, |s.history|).entries);
  }
}
