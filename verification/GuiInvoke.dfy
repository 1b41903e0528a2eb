/** Invocations of one GUI client: invokers, the reader that resolves them, timeouts and the disconnect,
    interleaved at lock granularity. */
module GuiInvoke {
  import opened ConditionSyntax
  import opened Events

  datatype Answer = Reply(payload: Json) | Disconnected | TimedOut

  /** Where the one sending half of an invocation's reply channel is. */
  datatype Sender = NotYet | InMap | InFlight(a: Answer) | Delivered(a: Answer) | Gone

  datatype Phase = Created | Inserted | Waiting | GivingUp(code: Answer) | Returned(answer: Answer)

  datatype Invocation = Invocation(phase: Phase, sender: Sender)

  /** An invocation is known by its index.  `connected`: the pending map is still there; the map is the
      invocations whose sender is `InMap`.  `resolved` records what the reader resolved. */
  datatype Client = Client(
    connected: bool, calls: seq<Invocation>, finished: seq<(nat, Answer)>, resolved: seq<(nat, Json)>)

  const Initial := Client(true, [], [], [])

  datatype Step =
    | Begin
    | Insert(id: nat)
    | Send(id: nat, ok: bool)
    | Receive(id: nat)
    | Timeout(id: nat)
    | RemovePending(id: nat)
    | Resolve(id: nat, payload: Json)
    | Deliver(id: nat)
    | FailAll

  predicate Enabled(s: Client, step: Step) {
    match step
    case Begin => true
    case Insert(id) => id < |s.calls| && s.calls[id].phase.Created?
    case Send(id, _) => id < |s.calls| && s.calls[id].phase.Inserted?
    case Receive(id) => id < |s.calls| && s.calls[id].phase.Waiting? && s.calls[id].sender.Delivered?
    case Timeout(id) => id < |s.calls| && s.calls[id].phase.Waiting? && !s.calls[id].sender.Delivered?
    case RemovePending(id) => id < |s.calls| && s.calls[id].phase.GivingUp?
    case Resolve(_, _) => true
    case Deliver(id) => id < |s.calls| && s.calls[id].sender.InFlight?
    case FailAll => true
  }

  function Set(s: Client, id: nat, c: Invocation): Client
    requires id < |s.calls|
  {
    s.(calls := s.calls[id := c])
  }

  function Return(s: Client, id: nat, a: Answer, sender: Sender): Client
    requires id < |s.calls|
  {
    Set(s, id, Invocation(Returned(a), sender)).(finished := s.finished + [(id, a)])
  }

  function Drained(c: Invocation): Invocation {
    if c.sender.InMap? then c.(sender := InFlight(Disconnected)) else c
  }

  function Apply(s: Client, step: Step): Client
    requires Enabled(s, step)
  {
    match step
    case Begin => s.(calls := s.calls + [Invocation(Created, NotYet)])
    case Insert(id) =>
      if s.connected then Set(s, id, Invocation(Inserted, InMap)) else Return(s, id, Disconnected, Gone)
    case Send(id, ok) => Set(s, id, s.calls[id].(phase := if ok then Waiting else GivingUp(Disconnected)))
    case Receive(id) => Return(s, id, s.calls[id].sender.a, Gone)
    case Timeout(id) => Set(s, id, s.calls[id].(phase := GivingUp(TimedOut)))
    case RemovePending(id) =>
      var c := s.calls[id];
      Return(s, id, c.phase.code, if c.sender.InMap? then Gone else c.sender)
    case Resolve(id, payload) =>
      if id < |s.calls| && s.calls[id].sender.InMap? then
        Set(s, id, s.calls[id].(sender := InFlight(Reply(payload)))).(resolved := s.resolved + [(id, payload)])
      else s
    case Deliver(id) => Set(s, id, s.calls[id].(sender := Delivered(s.calls[id].sender.a)))
    case FailAll =>
      s.(connected := false,
         calls := seq(|s.calls|, i requires 0 <= i < |s.calls| => Drained(s.calls[i])))
  }

  // ---- Invariants ------------------------------------------------------------------------------

  /** Where a sender can be in each phase. */
  predicate ShapeOk(c: Invocation, connected: bool) {
    && (c.phase.Created? <==> c.sender.NotYet?)
    && (c.phase.Inserted? || c.phase.Waiting? ==> !c.sender.Gone?)
    && (c.phase.Returned? ==> !c.sender.InMap?)
    && (c.sender.InMap? ==> connected)
  }

  predicate Carried(s: Client, id: nat, a: Answer) { a.Reply? ==> (id, a.payload) in s.resolved }

  /** A reply comes from the reader and for this very invocation. */
  predicate AnswerOk(s: Client, id: nat)
    requires id < |s.calls|
  {
    var c := s.calls[id];
    && (c.sender.InFlight? || c.sender.Delivered? ==> Carried(s, id, c.sender.a))
    && (c.phase.GivingUp? ==> !c.phase.code.Reply?)
    && (c.phase.Returned? ==> Carried(s, id, c.phase.answer))
  }

  function CountReturns(log: seq<(nat, Answer)>, id: nat): nat {
    if log == [] then 0
    else CountReturns(log[..|log| - 1], id) + if log[|log| - 1].0 == id then 1 else 0
  }

  function CountResolved(log: seq<(nat, Json)>, id: nat): nat {
    if log == [] then 0
    else CountResolved(log[..|log| - 1], id) + if log[|log| - 1].0 == id then 1 else 0
  }

  ghost predicate Logged(s: Client, id: nat)
    requires id < |s.calls|
  {
    var c := s.calls[id];
    && CountReturns(s.finished, id) == (if c.phase.Returned? then 1 else 0)
    && (c.phase.Returned? ==> (id, c.phase.answer) in s.finished)
    && CountResolved(s.resolved, id) <= (if c.sender.NotYet? || c.sender.InMap? then 0 else 1)
  }

  ghost predicate Inv(s: Client) {
    && (forall id :: 0 <= id < |s.calls| ==> ShapeOk(s.calls[id], s.connected))
    && (forall id :: 0 <= id < |s.calls| ==> AnswerOk(s, id))
    && (forall id :: 0 <= id < |s.calls| ==> Logged(s, id))
    && (forall k :: 0 <= k < |s.finished| ==> s.finished[k].0 < |s.calls|)
    && (forall k :: 0 <= k < |s.resolved| ==> s.resolved[k].0 < |s.calls|)
  }

  lemma ReturnsSnoc(log: seq<(nat, Answer)>, x: (nat, Answer), id: nat)
    ensures CountReturns(log + [x], id) == CountReturns(log, id) + if x.0 == id then 1 else 0
  {
    assert (log + [x])[..|log|] == log;
  }

  lemma ResolvedSnoc(log: seq<(nat, Json)>, x: (nat, Json), id: nat)
    ensures CountResolved(log + [x], id) == CountResolved(log, id) + if x.0 == id then 1 else 0
  {
    assert (log + [x])[..|log|] == log;
  }

  lemma {:induction false} NotLogged(s: Client, id: nat, m: nat, n: nat)
    requires m <= |s.finished| && n <= |s.resolved|
    requires forall k :: 0 <= k < m ==> s.finished[k].0 != id
    requires forall k :: 0 <= k < n ==> s.resolved[k].0 != id
    ensures CountReturns(s.finished[..m], id) == 0 && CountResolved(s.resolved[..n], id) == 0
    decreases m + n
  {
    if m > 0 {
      NotLogged(s, id, m - 1, n);
      assert s.finished[..m][..m - 1] == s.finished[..m - 1];
    } else if n > 0 {
      NotLogged(s, id, m, n - 1);
      assert s.resolved[..n][..n - 1] == s.resolved[..n - 1];
    }
  }

  lemma StepShape(s: Client, step: Step, id: nat)
    requires Inv(s) && Enabled(s, step) && id < |Apply(s, step).calls|
    ensures ShapeOk(Apply(s, step).calls[id], Apply(s, step).connected)
    ensures AnswerOk(Apply(s, step), id)
  {
    if id < |s.calls| { assert ShapeOk(s.calls[id], s.connected) && AnswerOk(s, id); }
  }

  lemma BeginLogged(s: Client)
    requires Inv(s)
    ensures Logged(Apply(s, Begin), |s.calls|)
  {
    NotLogged(s, |s.calls|, |s.finished|, |s.resolved|);
    assert s.finished[..|s.finished|] == s.finished && s.resolved[..|s.resolved|] == s.resolved;
  }

  /** A step that changes neither log and moves `id` within what the logs say of it. */
  lemma QuietLogged(s: Client, t: Client, id: nat)
    requires id < |s.calls| && id < |t.calls| && Logged(s, id)
    requires t.finished == s.finished && t.resolved == s.resolved
    requires t.calls[id] == s.calls[id] ||
      (!t.calls[id].phase.Returned? && !s.calls[id].phase.Returned?
       && (t.calls[id].sender.NotYet? || t.calls[id].sender.InMap? ==> s.calls[id].sender.NotYet? || s.calls[id].sender.InMap?))
      || (t.calls[id].phase == s.calls[id].phase && !t.calls[id].sender.NotYet? && !t.calls[id].sender.InMap?)
    ensures Logged(t, id)
  {
    hide CountReturns, CountResolved, Carried;
  }

  lemma ReturnLogged(s: Client, i: nat, a: Answer, sender: Sender, id: nat)
    requires i < |s.calls| && id < |s.calls| && Logged(s, id) && !s.calls[i].phase.Returned?
    requires sender.NotYet? || sender.InMap? ==> s.calls[i].sender.NotYet? || s.calls[i].sender.InMap?
    ensures Logged(Return(s, i, a, sender), id)
  {
    hide CountReturns, CountResolved, Carried;
    ReturnsSnoc(s.finished, (i, a), id);
  }

  lemma ResolveLogged(s: Client, i: nat, payload: Json, id: nat)
    requires id < |s.calls| && Logged(s, id) && i < |s.calls| && s.calls[i].sender.InMap?
    ensures Logged(Apply(s, Resolve(i, payload)), id)
  {
    hide CountReturns, CountResolved, Carried;
    ResolvedSnoc(s.resolved, (i, payload), id);
  }

  lemma StepLogged(s: Client, step: Step, id: nat)
    requires Inv(s) && Enabled(s, step) && id < |Apply(s, step).calls|
    ensures Logged(Apply(s, step), id)
  {
    hide CountReturns, CountResolved, Carried, Logged;
    var t := Apply(s, step);
    if id == |s.calls| {
      BeginLogged(s);
    } else {
      assert Logged(s, id);
      match step
      case Insert(i) =>
        if s.connected { QuietLogged(s, t, id); } else { ReturnLogged(s, i, Disconnected, Gone, id); }
      case Receive(i) => ReturnLogged(s, i, s.calls[i].sender.a, Gone, id);
      case RemovePending(i) =>
        var c := s.calls[i];
        ReturnLogged(s, i, c.phase.code, if c.sender.InMap? then Gone else c.sender, id);
      case Resolve(i, payload) =>
        if i < |s.calls| && s.calls[i].sender.InMap? { ResolveLogged(s, i, payload, id); }
      case _ => QuietLogged(s, t, id);
    }
  }

  lemma StepKeeps(s: Client, step: Step)
    requires Inv(s) && Enabled(s, step)
    ensures Inv(Apply(s, step))
  {
    var t := Apply(s, step);
    forall id | 0 <= id < |t.calls| ensures ShapeOk(t.calls[id], t.connected) && AnswerOk(t, id) && Logged(t, id) {
      StepShape(s, step, id);
      StepLogged(s, step, id);
    }
  }

  // ---- Runs ------------------------------------------------------------------------------------

  predicate RunEnabled(s: Client, steps: seq<Step>)
    decreases |steps|
  {
    steps == [] || (Enabled(s, steps[0]) && RunEnabled(Apply(s, steps[0]), steps[1..]))
  }

  function Run(s: Client, steps: seq<Step>): Client
    requires RunEnabled(s, steps)
    decreases |steps|
  {
    if steps == [] then s else Run(Apply(s, steps[0]), steps[1..])
  }

  lemma {:induction false} RunKeeps(s: Client, steps: seq<Step>)
    requires Inv(s) && RunEnabled(s, steps)
    ensures Inv(Run(s, steps)) && (!s.connected ==> !Run(s, steps).connected)
    decreases |steps|
  {
    if steps == [] {
    } else {
      StepKeeps(s, steps[0]);
      RunKeeps(Apply(s, steps[0]), steps[1..]);
    }
  }

  /** Over every interleaving: an invocation returns at most once, with its entry no longer pending;
      the reader resolves it at most once; and a reply it returns is one resolved for its own id. */
  lemma ReturnsOnce(steps: seq<Step>, id: nat)
    requires RunEnabled(Initial, steps) && id < |Run(Initial, steps).calls|
    ensures var s := Run(Initial, steps); var c := s.calls[id];
      && CountReturns(s.finished, id) == (if c.phase.Returned? then 1 else 0)
      && CountResolved(s.resolved, id) <= 1
      && (c.phase.Returned? ==> !c.sender.InMap?)
      && (c.phase.Returned? && c.phase.answer.Reply? ==> (id, c.phase.answer.payload) in s.resolved)
  {
    RunKeeps(Initial, steps);
    var s := Run(Initial, steps);
    assert ShapeOk(s.calls[id], s.connected) && AnswerOk(s, id) && Logged(s, id);
  }

  /** After the disconnect nothing is pending any more, whatever stale invokers still do. */
  lemma NothingPendingAfterDisconnect(before: seq<Step>, after: seq<Step>, id: nat)
    requires RunEnabled(Initial, before) && Enabled(Run(Initial, before), FailAll)
    requires RunEnabled(Apply(Run(Initial, before), FailAll), after)
    requires id < |Run(Apply(Run(Initial, before), FailAll), after).calls|
    ensures !Run(Apply(Run(Initial, before), FailAll), after).calls[id].sender.InMap?
  {
    RunKeeps(Initial, before);
    var s := Run(Initial, before);
    StepKeeps(s, FailAll);
    RunKeeps(Apply(s, FailAll), after);
    var t := Run(Apply(s, FailAll), after);
    assert ShapeOk(t.calls[id], t.connected);
  }

  /** The steps an invocation itself still has to take. */
  function Left(c: Invocation): nat {
    match c.phase
    case Created => 4
    case Inserted => 3
    case Waiting => 2
    case GivingUp(_) => 1
    case Returned(_) => 0
  }

  /** The step an invoker can always take next, by itself: waiting ends at the latest by timeout. */
  function Next(c: Invocation, id: nat): Step {
    match c.phase
    case Created => Insert(id)
    case Inserted => Send(id, true)
    case Waiting => if c.sender.Delivered? then Receive(id) else Timeout(id)
    case GivingUp(_) => RemovePending(id)
    case Returned(_) => Begin
  }

  predicate OwnStep(step: Step, id: nat) {
    step == Insert(id) || step == Send(id, true) || step == Send(id, false) || step == Receive(id) ||
    step == Timeout(id) || step == RemovePending(id)
  }

  lemma StepAdvances(s: Client, id: nat, step: Step)
    requires Inv(s) && id < |s.calls| && Enabled(s, step)
    ensures id < |Apply(s, step).calls|
    ensures Left(Apply(s, step).calls[id]) + (if OwnStep(step, id) then 1 else 0) <= Left(s.calls[id])
  {
    assert ShapeOk(s.calls[id], s.connected);
  }

  function OwnSteps(steps: seq<Step>, id: nat): nat {
    if steps == [] then 0 else (if OwnStep(steps[0], id) then 1 else 0) + OwnSteps(steps[1..], id)
  }

  /** An invocation takes at most four steps of its own, whatever all others do. */
  lemma {:induction false} OwnStepsBounded(s: Client, steps: seq<Step>, id: nat)
    requires Inv(s) && RunEnabled(s, steps) && id < |s.calls|
    ensures OwnSteps(steps, id) <= Left(s.calls[id]) <= 4
    decreases |steps|
  {
    if steps == [] {
    } else {
      StepKeeps(s, steps[0]);
      StepAdvances(s, id, steps[0]);
      OwnStepsBounded(Apply(s, steps[0]), steps[1..], id);
    }
  }

  /** No invocation hangs: from every state of every run, its own steps alone bring it to return. */
  lemma {:induction false} InvokerProgresses(s: Client, id: nat) returns (own: seq<Step>)
    requires Inv(s) && id < |s.calls|
    ensures RunEnabled(s, own) && (forall i :: 0 <= i < |own| ==> OwnStep(own[i], id))
    ensures |own| <= Left(s.calls[id]) && id < |Run(s, own).calls| && Run(s, own).calls[id].phase.Returned?
    decreases Left(s.calls[id])
  {
    if s.calls[id].phase.Returned? {
      own := [];
    } else {
      var step := Next(s.calls[id], id);
      assert ShapeOk(s.calls[id], s.connected);
      StepKeeps(s, step);
      StepAdvances(s, id, step);
      var rest := InvokerProgresses(Apply(s, step), id);
      own := [step] + rest;
      assert own[1..] == rest;
    }
  }

  // ---- When an answer that came is the answer given --------------------------------------------

  /** The invoker stopped waiting for a reply, or never began to. */
  predicate GaveUp(steps: seq<Step>, id: nat) { Timeout(id) in steps || Send(id, false) in steps }

  predicate GivesUp(step: Step, id: nat) { step == Timeout(id) || step == Send(id, false) }

  /** What holds of an invocation that gave up, or did not, so far. */
  predicate AnswerTracks(s: Client, id: nat, gaveUp: bool, p: Json) {
    if |s.calls| <= id then !gaveUp && (id, p) !in s.resolved
    else
      var c := s.calls[id];
      var resolved := (id, p) in s.resolved;
      && (gaveUp ==> c.phase.GivingUp? || (c.phase.Returned? && !c.phase.answer.Reply?))
      && (!gaveUp ==> !c.phase.GivingUp?)
      && (c.sender.NotYet? || c.sender.InMap? ==> !resolved)
      && ((c.sender.InFlight? || c.sender.Delivered?) && resolved ==> c.sender.a == Reply(p))
      && (!gaveUp && c.phase.Returned? && resolved ==> c.phase.answer == Reply(p))
  }

  lemma StepTracks(s: Client, step: Step, id: nat, gaveUp: bool, p: Json)
    requires Inv(s) && Enabled(s, step) && AnswerTracks(s, id, gaveUp, p)
    ensures AnswerTracks(Apply(s, step), id, gaveUp || GivesUp(step, id), p)
  {
    hide Logged;
    if id < |s.calls| { assert ShapeOk(s.calls[id], s.connected) && AnswerOk(s, id); }
  }

  lemma {:induction false} RunTracks(s: Client, steps: seq<Step>, id: nat, gaveUp: bool, p: Json)
    requires Inv(s) && RunEnabled(s, steps) && AnswerTracks(s, id, gaveUp, p)
    ensures AnswerTracks(Run(s, steps), id, gaveUp || GaveUp(steps, id), p)
    decreases |steps|
  {
    if steps == [] {
    } else {
      StepKeeps(s, steps[0]);
      StepTracks(s, steps[0], id, gaveUp, p);
      RunTracks(Apply(s, steps[0]), steps[1..], id, gaveUp || GivesUp(steps[0], id), p);
      assert steps == [steps[0]] + steps[1..];
      assert GaveUp(steps, id) <==> GivesUp(steps[0], id) || GaveUp(steps[1..], id);
    }
  }

  /** Exactly when a reply that the reader resolved is what its invocation returns, over every run: the
      wait did not time out, however close the two came, and the request had been queued. */
  lemma ResolvedIsAnswerIff(steps: seq<Step>, id: nat, p: Json)
    requires RunEnabled(Initial, steps) && id < |Run(Initial, steps).calls|
    requires Run(Initial, steps).calls[id].phase.Returned? && (id, p) in Run(Initial, steps).resolved
    ensures Run(Initial, steps).calls[id].phase.answer == Reply(p) <==>
      Timeout(id) !in steps && Send(id, false) !in steps
  {
    RunTracks(Initial, steps, id, false, p);
  }

  ghost predicate Reachable(s: Client, steps: seq<Step>) { RunEnabled(Initial, steps) && Run(Initial, steps) == s }

  lemma {:induction false} RunSnoc(s: Client, steps: seq<Step>, step: Step)
    requires RunEnabled(s, steps) && Enabled(Run(s, steps), step)
    ensures RunEnabled(s, steps + [step]) && Run(s, steps + [step]) == Apply(Run(s, steps), step)
    decreases |steps|
  {
    if steps == [] {
    } else {
      assert (steps + [step])[1..] == steps[1..] + [step];
      RunSnoc(Apply(s, steps[0]), steps[1..], step);
    }
  }

  lemma Reach(s: Client, steps: seq<Step>, step: Step) returns (t: Client, longer: seq<Step>)
    requires Reachable(s, steps) && Enabled(s, step)
    ensures longer == steps + [step] && t == Apply(s, step) && Reachable(t, longer)
  {
    RunSnoc(Initial, steps, step);
    t, longer := Apply(s, step), steps + [step];
  }

  lemma ReachWaiting() returns (s: Client, steps: seq<Step>)
    ensures Reachable(s, steps) && steps == [Begin, Insert(0), Send(0, true)]
    ensures s == Client(true, [Invocation(Waiting, InMap)], [], [])
  {
    hide RunEnabled, Run;
    s, steps := ReachInitial();
    s, steps := Reach(s, steps, Begin);
    s, steps := Reach(s, steps, Insert(0));
    s, steps := Reach(s, steps, Send(0, true));
    assert steps == [Begin, Insert(0), Send(0, true)];
  }

  lemma ReachInitial() returns (s: Client, steps: seq<Step>)
    ensures Reachable(s, steps) && s == Initial && steps == []
  {
    s, steps := Initial, [];
  }

  /** The reply comes between the timeout and the removal of the entry. */
  lemma LostAfterTimeout(p: Json) returns (s: Client, steps: seq<Step>)
    ensures Reachable(s, steps)
    ensures steps == [Begin, Insert(0), Send(0, true), Timeout(0), Resolve(0, p), RemovePending(0)]
    ensures |s.calls| == 1 && (0, p) in s.resolved && s.calls[0].phase == Returned(TimedOut)
  {
    hide RunEnabled, Run, Reachable;
    s, steps := ReachWaiting();
    s, steps := Reach(s, steps, Timeout(0));
    s, steps := Reach(s, steps, Resolve(0, p));
    s, steps := Reach(s, steps, RemovePending(0));
    assert steps == [Begin, Insert(0), Send(0, true), Timeout(0), Resolve(0, p), RemovePending(0)];
  }

  /** The reply was taken from the map in time, and reaches the channel only after the timeout. */
  lemma LostBeforeTimeout(p: Json) returns (s: Client, steps: seq<Step>)
    ensures Reachable(s, steps)
    ensures steps == [Begin, Insert(0), Send(0, true), Resolve(0, p), Timeout(0), Deliver(0), RemovePending(0)]
    ensures |s.calls| == 1 && (0, p) in s.resolved && s.calls[0].phase == Returned(TimedOut)
  {
    hide RunEnabled, Run, Reachable;
    s, steps := ReachWaiting();
    s, steps := Reach(s, steps, Resolve(0, p));
    s, steps := Reach(s, steps, Timeout(0));
    s, steps := Reach(s, steps, Deliver(0));
    s, steps := Reach(s, steps, RemovePending(0));
    assert steps == [Begin, Insert(0), Send(0, true), Resolve(0, p), Timeout(0), Deliver(0), RemovePending(0)];
  }

  /** A reply in time is returned: from every state in which an invocation waits with its entry in the map,
      the reader's resolving, the delivery and the invoker's receive are possible in turn and end with that
      very reply. */
  lemma ReplyReturned(s: Client, id: nat, p: Json) returns (steps: seq<Step>)
    requires id < |s.calls| && s.calls[id].phase.Waiting? && s.calls[id].sender.InMap?
    ensures steps == [Resolve(id, p), Deliver(id), Receive(id)] && RunEnabled(s, steps)
    ensures Run(s, steps).calls == s.calls[id := Invocation(Returned(Reply(p)), Gone)]
    ensures Run(s, steps).finished == s.finished + [(id, Reply(p))]
  {
    var a := Apply(s, Resolve(id, p));
    var b := Apply(a, Deliver(id));
    steps := [Resolve(id, p), Deliver(id), Receive(id)];
    assert steps[1..] == [Deliver(id), Receive(id)] && steps[1..][1..] == [Receive(id)] && steps[1..][1..][1..] == [];
    assert RunEnabled(Apply(b, Receive(id)), []);
    assert RunEnabled(b, [Receive(id)]) && RunEnabled(a, steps[1..]);
    var t := Apply(b, Receive(id));
    assert Run(t, []) == t && Run(b, [Receive(id)]) == t && Run(a, steps[1..]) == t && Run(s, steps) == t;
    assert t.calls == s.calls[id := Invocation(Returned(Reply(p)), Gone)];
  }
}
