/** The other half of bridging: what is published on one side does arrive on the other, unchanged and exactly
    once, unless a buffer was full, the connection was given up, or the daemon refuses it. */
module BridgeDelivery {
  import opened ConditionSyntax
  import opened Events
  import opened EventPattern
  import opened Bridge

  // ---- Copies are true -------------------------------------------------------------------------

  /** A copy has the kind and the source of the publication that it stems from. */
  predicate True(e: Ev, natives: seq<Native>) {
    e.root < |natives| && e.kind == natives[e.root].kind && e.source == natives[e.root].source
  }

  predicate AllTrue(q: seq<Ev>, natives: seq<Native>) { forall i :: 0 <= i < |q| ==> True(q[i], natives) }

  predicate ConnTrue(c: Conn, natives: seq<Native>) {
    AllTrue(c.down, natives) && AllTrue(c.up, natives) && AllTrue(c.downWire, natives) && AllTrue(c.upWire, natives)
  }

  ghost predicate Copies(s: System) {
    && AllTrue(s.daemon, s.natives)
    && (forall g :: 0 <= g < |s.guis| ==> AllTrue(s.guis[g], s.natives))
    && (forall c :: 0 <= c < |s.conns| ==> ConnTrue(s.conns[c], s.natives))
  }

  lemma MoreTrue(s: System, x: Native)
    requires Copies(s)
    ensures Copies(s.(natives := s.natives + [x]))
  {
    forall c | 0 <= c < |s.conns| ensures ConnTrue(s.conns[c], s.natives + [x]) { assert ConnTrue(s.conns[c], s.natives); }
  }

  lemma DaemonBusTrue(s: System, e: Ev, full: set<nat>)
    requires Copies(s) && True(e, s.natives)
    ensures Copies(OnDaemonBus(s, e, full))
  {
    forall c | 0 <= c < |s.conns| ensures ConnTrue(OnDaemonBus(s, e, full).conns[c], s.natives) {
      assert ConnTrue(s.conns[c], s.natives);
    }
  }

  lemma GuiBusTrue(s: System, gui: nat, e: Ev)
    requires Copies(s) && True(e, s.natives) && gui < |s.guis|
    ensures Copies(OnGuiBus(s, gui, e))
  {
    forall c | 0 <= c < |s.conns| ensures ConnTrue(OnGuiBus(s, gui, e).conns[c], s.natives) {
      assert ConnTrue(s.conns[c], s.natives);
    }
  }

  lemma SetConnTrue(s: System, c: nat, conn: Conn)
    requires Copies(s) && c < |s.conns| && ConnTrue(conn, s.natives)
    ensures Copies(SetConn(s, c, conn))
  {
  }

  lemma StepTrue(s: System, step: Step)
    requires Copies(s) && Enabled(s, step)
    ensures Copies(Apply(s, step))
  {
    match step
    case StartGui =>
    case Connect(gui, hostTriggers) =>
    case Close(c) => assert ConnTrue(s.conns[c], s.natives);
    case Abandon(c) => assert ConnTrue(s.conns[c], s.natives);
    case PublishDaemon(kind, source, full) =>
      var x := Native(OnDaemon, kind, source);
      MoreTrue(s, x);
      DaemonBusTrue(s.(natives := s.natives + [x]), Ev(|s.natives|, kind, source, false, None, 0), full);
    case PublishGui(gui, kind, source) =>
      var x := Native(OnGui(gui), kind, source);
      MoreTrue(s, x);
      GuiBusTrue(s.(natives := s.natives + [x]), gui, Ev(|s.natives|, kind, source, false, None, 0));
    case ForwardDown(c, wireFull) => assert ConnTrue(s.conns[c], s.natives);
    case ForwardUp(c, i) => assert ConnTrue(s.conns[c], s.natives);
    case ArriveDown(c) =>
      var conn := s.conns[c];
      assert ConnTrue(conn, s.natives);
      SetConnTrue(s, c, conn.(downWire := conn.downWire[1..]));
      GuiBusTrue(SetConn(s, c, conn.(downWire := conn.downWire[1..])), conn.gui, Bridged(conn.downWire[0], c));
    case ArriveUp(c, full) =>
      var conn := s.conns[c];
      assert ConnTrue(conn, s.natives);
      SetConnTrue(s, c, conn.(upWire := conn.upWire[1..]));
      DaemonBusTrue(SetConn(s, c, conn.(upWire := conn.upWire[1..])), Bridged(conn.upWire[0], c), full);
  }

  lemma {:induction false} RunTrue(s: System, steps: seq<Step>)
    requires Copies(s) && RunEnabled(s, steps)
    ensures Copies(Run(s, steps))
    decreases |steps|
  {
    if steps == [] {
    } else {
      StepTrue(s, steps[0]);
      RunTrue(Apply(s, steps[0]), steps[1..]);
    }
  }

  /** Over every run: whatever is on a bus, however it got there, has the kind and the source with which it
      was first published.  The receiving trigger engine relies on the source. */
  lemma CopiesAreTrue(steps: seq<Step>)
    requires RunEnabled(Initial, steps)
    ensures var s := Run(Initial, steps);
      && (forall i :: 0 <= i < |s.daemon| ==> True(s.daemon[i], s.natives))
      && (forall g, i :: 0 <= g < |s.guis| && 0 <= i < |s.guis[g]| ==> True(s.guis[g][i], s.natives))
  {
    RunTrue(Initial, steps);
    var s := Run(Initial, steps);
    forall g, i | 0 <= g < |s.guis| && 0 <= i < |s.guis[g]| ensures True(s.guis[g][i], s.natives) {
      assert AllTrue(s.guis[g], s.natives);
    }
  }

  // ---- Nothing is lost on the way down ---------------------------------------------------------

  /** Copies of a daemon publication on their way over `c`, and arrived by it. */
  function DownTotal(s: System, c: nat, root: nat): nat
    requires c < |s.conns| && s.conns[c].gui < |s.guis|
  {
    DownCount(s.conns[c], root) + Count(s.guis[s.conns[c].gui], Via(root, c))
  }

  function UpTotal(s: System, c: nat, root: nat): nat
    requires c < |s.conns|
  {
    UpCount(s.conns[c], root) + Count(s.daemon, Via(root, c))
  }

  lemma ToDownSame(c: Conn, i: nat, e: Ev, full: set<nat>, root: nat)
    requires e.root != root || e.bridged
    ensures DownCount(ToDown(c, i, e, full), root) == DownCount(c, root)
    ensures UpCount(ToDown(c, i, e, full), root) == UpCount(c, root)
  {
    CountConcat(c.down, [e], Fresh(root));
    CountOne(e, Fresh(root));
  }

  lemma ToUpSame(c: Conn, gui: nat, e: Ev, root: nat)
    requires e.root != root || e.bridged
    ensures DownCount(ToUp(c, gui, e), root) == DownCount(c, root)
    ensures UpCount(ToUp(c, gui, e), root) == UpCount(c, root)
  {
    var k := Takers(e.kind, |KINDS|);
    CountConcat(c.up, Repeat(e, k), Fresh(root));
    CountRepeat(e, k, Fresh(root));
  }

  lemma PublishSame(s: System, step: Step, c: nat, root: nat)
    requires Inv(s) && Enabled(s, step) && (step.PublishDaemon? || step.PublishGui?)
    requires c < |s.conns| && root < |s.natives|
    ensures var t := Apply(s, step);
      && c < |t.conns| && t.conns[c].gui == s.conns[c].gui < |t.guis| == |s.guis|
      && DownTotal(t, c, root) == DownTotal(s, c, root) && UpTotal(t, c, root) == UpTotal(s, c, root)
  {
    hide EventsOk, DownCount, UpCount;
    assert CountsOk(s, c, root);
    var e := Ev(|s.natives|, step.kind, step.source, false, None, 0);
    CountOne(e, Via(root, c));
    if step.PublishDaemon? {
      ToDownSame(s.conns[c], c, e, step.full, root);
      CountConcat(s.daemon, [e], Via(root, c));
    } else {
      ToUpSame(s.conns[c], step.gui, e, root);
      CountConcat(s.guis[step.gui], [e], Via(root, c));
    }
  }

  lemma ForwardDownSame(s: System, d: nat, wireFull: bool, c: nat, root: nat)
    requires Inv(s) && Enabled(s, ForwardDown(d, wireFull)) && c < |s.conns| && (d == c ==> !wireFull)
    ensures var t := Apply(s, ForwardDown(d, wireFull));
      && s.conns[c].gui < |s.guis|
      && t.conns[c].gui == s.conns[c].gui && t.guis == s.guis && t.daemon == s.daemon
      && DownTotal(t, c, root) == DownTotal(s, c, root) && UpTotal(t, c, root) == UpTotal(s, c, root)
  {
    assert CountsOk(s, c, root);
    if d == c {
      var conn := s.conns[c];
      CountConcat(conn.downWire, [conn.down[0]], Any(root));
      CountOne(conn.down[0], Any(root));
    }
  }

  lemma ForwardUpSame(s: System, d: nat, i: nat, c: nat, root: nat)
    requires Inv(s) && Enabled(s, ForwardUp(d, i)) && c < |s.conns|
    ensures var t := Apply(s, ForwardUp(d, i));
      && s.conns[c].gui < |s.guis|
      && t.conns[c].gui == s.conns[c].gui && t.guis == s.guis && t.daemon == s.daemon
      && DownTotal(t, c, root) == DownTotal(s, c, root) && UpTotal(t, c, root) == UpTotal(s, c, root)
  {
    assert CountsOk(s, c, root);
    if d == c {
      var conn := s.conns[c];
      CountWithout(conn.up, i, Fresh(root));
      CountConcat(conn.upWire, [conn.up[i]], Any(root));
      CountOne(conn.up[i], Any(root));
    }
  }

  lemma ArriveDownSame(s: System, d: nat, c: nat, root: nat)
    requires Inv(s) && Enabled(s, ArriveDown(d)) && c < |s.conns|
    ensures var t := Apply(s, ArriveDown(d));
      && s.conns[c].gui < |s.guis| == |t.guis|
      && t.conns[c].gui == s.conns[c].gui && t.daemon == s.daemon
      && DownTotal(t, c, root) == DownTotal(s, c, root) && UpTotal(t, c, root) == UpTotal(s, c, root)
  {
    hide ConnOk, DownCount, UpCount, AllOk, NoForgery;
    assert CountsOk(s, c, root) && CountsOk(s, d, root);
    var conn := s.conns[d];
    var e, popped := Bridged(conn.downWire[0], d), conn.(downWire := conn.downWire[1..]);
    assert ConnOk(conn, |s.natives|, |s.conns|, |s.guis|);
    PopOk(conn, |s.natives|, |s.conns|, |s.guis|, root);
    var mid := SetConn(s, d, popped);
    ToUpSame(mid.conns[c], conn.gui, e, root);
    CountConcat(s.guis[conn.gui], [e], Via(root, c));
    CountOne(e, Via(root, c));
  }

  /** The daemon refuses exactly the publications without a kind, and those that could pose as completions. */
  predicate Refusable(x: Native) {
    x.kind == "" || HasSuffix(x.kind, ".completed") || HasSuffix(x.kind, ".failed") || x.source == "nestty.action"
  }

  lemma ArriveUpSame(s: System, d: nat, full: set<nat>, c: nat, root: nat)
    requires Inv(s) && Copies(s) && Enabled(s, ArriveUp(d, full)) && c < |s.conns| && root < |s.natives|
    ensures var t := Apply(s, ArriveUp(d, full));
      && s.conns[c].gui < |s.guis|
      && t.conns[c].gui == s.conns[c].gui && t.guis == s.guis
      && DownTotal(t, c, root) == DownTotal(s, c, root)
      && (!Refusable(s.natives[root]) ==> UpTotal(t, c, root) == UpTotal(s, c, root))
  {
    hide ConnOk, DownCount, UpCount, AllOk, NoForgery;
    assert CountsOk(s, c, root) && CountsOk(s, d, root);
    var conn := s.conns[d];
    var e, popped := Bridged(conn.upWire[0], d), conn.(upWire := conn.upWire[1..]);
    assert ConnOk(conn, |s.natives|, |s.conns|, |s.guis|) && ConnTrue(conn, s.natives);
    PopOk(conn, |s.natives|, |s.conns|, |s.guis|, root);
    var mid := SetConn(s, d, popped);
    assert True(conn.upWire[0], s.natives);
    ToDownSame(mid.conns[c], c, e, full, root);
    CountConcat(s.daemon, [e], Via(root, c));
    CountOne(e, Via(root, c));
  }

  /** No buffer of `c` is full for what is on its way, and `c` is not given up. */
  predicate Lossless(step: Step, c: nat) { step != Abandon(c) && step != ForwardDown(c, true) }

  lemma StepSame(s: System, step: Step, c: nat, root: nat)
    requires Inv(s) && Copies(s) && Enabled(s, step) && Lossless(step, c) && c < |s.conns| && root < |s.natives|
    ensures var t := Apply(s, step);
      && c < |t.conns| && s.conns[c].gui < |s.guis| && t.conns[c].gui == s.conns[c].gui < |t.guis|
      && root < |t.natives| && t.natives[root] == s.natives[root]
      && DownTotal(t, c, root) == DownTotal(s, c, root)
      && (!Refusable(s.natives[root]) ==> UpTotal(t, c, root) == UpTotal(s, c, root))
  {
    hide EventsOk, Copies, Refusable;
    assert CountsOk(s, c, root);
    match step
    case PublishDaemon(_, _, _) => PublishSame(s, step, c, root);
    case PublishGui(_, _, _) => PublishSame(s, step, c, root);
    case ForwardDown(d, wireFull) => ForwardDownSame(s, d, wireFull, c, root);
    case ForwardUp(d, i) => ForwardUpSame(s, d, i, c, root);
    case ArriveDown(d) => ArriveDownSame(s, d, c, root);
    case ArriveUp(d, full) => ArriveUpSame(s, d, full, c, root);
    case _ =>
  }

  lemma {:induction false} RunSame(s: System, steps: seq<Step>, c: nat, root: nat)
    requires Inv(s) && Copies(s) && RunEnabled(s, steps) && c < |s.conns| && root < |s.natives|
    requires forall x :: x in steps ==> Lossless(x, c)
    ensures var t := Run(s, steps);
      && c < |t.conns| && s.conns[c].gui < |s.guis| && t.conns[c].gui == s.conns[c].gui < |t.guis|
      && root < |t.natives| && t.natives[root] == s.natives[root]
      && DownTotal(t, c, root) == DownTotal(s, c, root)
      && (!Refusable(s.natives[root]) ==> UpTotal(t, c, root) == UpTotal(s, c, root))
    decreases |steps|
  {
    hide Refusable;
    assert c < |s.conns| ==> CountsOk(s, c, root);
    if steps == [] {
    } else {
      assert steps[0] in steps && forall x :: x in steps[1..] ==> x in steps;
      StepSame(s, steps[0], c, root);
      StepKeeps(s, steps[0]);
      StepTrue(s, steps[0]);
      RunSame(Apply(s, steps[0]), steps[1..], c, root);
    }
  }

  /** A connection is open from its making until it is closed. */
  lemma OpenUntilClosed(s: System, gui: nat, hostTriggers: bool, steps: seq<Step>)
    requires Enabled(s, Connect(gui, hostTriggers)) && RunEnabled(Apply(s, Connect(gui, hostTriggers)), steps)
    ensures var c, t := |s.conns|, Run(Apply(s, Connect(gui, hostTriggers)), steps);
      && c < |t.conns| && t.conns[c].gui == gui && t.conns[c].hostTriggers == hostTriggers
      && (t.conns[c].open <==> Close(c) !in steps)
  {
    OpenThrough(Apply(s, Connect(gui, hostTriggers)), |s.conns|, steps);
  }

  lemma OpenStep(s: System, c: nat, step: Step)
    requires Enabled(s, step) && c < |s.conns|
    ensures var t := Apply(s, step);
      && c < |t.conns| && t.conns[c].gui == s.conns[c].gui && t.conns[c].hostTriggers == s.conns[c].hostTriggers
      && (t.conns[c].open <==> s.conns[c].open && step != Close(c))
  {
    hide Takers, Refused;
  }

  lemma {:induction false} OpenThrough(s: System, c: nat, steps: seq<Step>)
    requires RunEnabled(s, steps) && c < |s.conns|
    ensures var t := Run(s, steps);
      && c < |t.conns| && t.conns[c].gui == s.conns[c].gui && t.conns[c].hostTriggers == s.conns[c].hostTriggers
      && (t.conns[c].open <==> s.conns[c].open && Close(c) !in steps)
    decreases |steps|
  {
    hide Apply;
    if steps == [] {
    } else {
      assert steps == [steps[0]] + steps[1..];
      OpenStep(s, c, steps[0]);
      OpenThrough(Apply(s, steps[0]), c, steps[1..]);
    }
  }

  function Starts(steps: seq<Step>): nat {
    if steps == [] then 0 else (if steps[0].StartGui? then 1 else 0) + Starts(steps[1..])
  }

  /** Every GUI that has been started has a bus of its own, and any of them can connect. */
  lemma {:induction false} StartedCanConnect(s: System, steps: seq<Step>)
    requires RunEnabled(s, steps)
    ensures |Run(s, steps).guis| == |s.guis| + Starts(steps)
    ensures forall gui: nat, hostTriggers :: Enabled(Run(s, steps), Connect(gui, hostTriggers)) <==> gui < |s.guis| + Starts(steps)
    decreases |steps|
  {
    if steps == [] {
    } else {
      StartedCanConnect(Apply(s, steps[0]), steps[1..]);
    }
  }

  // ---- Delivery --------------------------------------------------------------------------------

  lemma {:induction false} TakersExact(kind: Text, n: nat)
    requires n <= |KINDS|
    ensures Takers(kind, n) == if kind in KINDS[..n] then 1 else 0
  {
    hide KINDS;
    if n == 0 {
    } else {
      TakersExact(kind, n - 1);
      KindsAreExact(n - 1, kind);
      assert KINDS[..n] == KINDS[..n - 1] + [KINDS[n - 1]];
      if kind == KINDS[n - 1] {
        forall i | 0 <= i < n - 1 ensures KINDS[i] != kind { KindsDistinct(i, n - 1); }
      }
    }
  }

  /** Right after its publication an event is on its way over each connection that takes it. */
  lemma DownStarts(s: System, kind: Text, source: Text, full: set<nat>, c: nat)
    requires Inv(s) && c < |s.conns|
    ensures var t := Apply(s, PublishDaemon(kind, source, full));
      && s.conns[c].gui < |t.guis| && t.conns[c].gui == s.conns[c].gui
      && DownTotal(t, c, |s.natives|) == if s.conns[c].open && c !in full then 1 else 0
  {
    var root := |s.natives|;
    var e := Ev(root, kind, source, false, None, 0);
    assert CountsOk(s, c, root);
    NewRoot(s, c);
    CountConcat(s.conns[c].down, [e], Fresh(root));
    CountOne(e, Fresh(root));
  }

  lemma UpStarts(s: System, gui: nat, kind: Text, source: Text, c: nat)
    requires Inv(s) && c < |s.conns| && gui < |s.guis|
    ensures var t := Apply(s, PublishGui(gui, kind, source));
      && UpTotal(t, c, |s.natives|) ==
         if s.conns[c].open && s.conns[c].gui == gui && s.conns[c].hostTriggers && kind in KINDS then 1 else 0
  {
    var root := |s.natives|;
    var e := Ev(root, kind, source, false, None, 0);
    NewRoot(s, c);
    TakersExact(kind, |KINDS|);
    assert KINDS[..|KINDS|] == KINDS;
    CountConcat(s.conns[c].up, Repeat(e, Takers(kind, |KINDS|)), Fresh(root));
    CountRepeat(e, Takers(kind, |KINDS|), Fresh(root));
  }

  lemma {:induction false} Counted(q: seq<Ev>, p: Pick)
    ensures 0 < Count(q, p) <==> exists i :: 0 <= i < |q| && Picks(p, q[i])
  {
    if q == [] {
    } else {
      Counted(q[1..], p);
      assert q == [q[0]] + q[1..];
      if i :| 0 <= i < |q| && Picks(p, q[i]) && 0 < i { assert q[1..][i - 1] == q[i]; }
      if i :| 0 <= i < |q[1..]| && Picks(p, q[1..][i]) { assert q[i + 1] == q[1..][i]; }
    }
  }

  /** The copy that a native publication becomes on the other side. */
  function Arrived(root: nat, kind: Text, source: Text, c: nat): Ev { Ev(root, kind, source, true, Some(c), 1) }

  lemma ArrivedIs(q: seq<Ev>, s: System, root: nat, c: nat)
    requires AllTrue(q, s.natives) && AllOk(q, |s.natives|, |s.conns|) && root < |s.natives|
    requires 0 < Count(q, Via(root, c))
    ensures Arrived(root, s.natives[root].kind, s.natives[root].source, c) in q
  {
    Counted(q, Via(root, c));
    var i :| 0 <= i < |q| && Picks(Via(root, c), q[i]);
    assert True(q[i], s.natives) && EvOk(q[i], |s.natives|, |s.conns|);
  }

  /** Down, from any reachable state: a publication on the daemon's own bus, then anything as long as nothing
      is full for `c` and `c` is not given up, until forwarding has come to rest.  The GUI of `c` has then
      got the event over `c`, once and unchanged, if and only if `c` was open and took it; otherwise not at
      all. */
  lemma DeliveredDownIff(before: seq<Step>, s: System, kind: Text, source: Text, full: set<nat>, c: nat,
      after: seq<Step>, z: System)
    requires RunEnabled(Initial, before) && s == Run(Initial, before) && c < |s.conns|
    requires RunEnabled(Apply(s, PublishDaemon(kind, source, full)), after)
    requires z == Run(Apply(s, PublishDaemon(kind, source, full)), after)
    requires Stuck(z) && forall x :: x in after ==> Lossless(x, c)
    ensures c < |z.conns| && z.conns[c].gui == s.conns[c].gui < |z.guis|
    ensures var bus := z.guis[s.conns[c].gui];
      && Count(bus, Via(|s.natives|, c)) == (if s.conns[c].open && c !in full then 1 else 0)
      && (s.conns[c].open && c !in full ==> Arrived(|s.natives|, kind, source, c) in bus)
  {
    hide Stuck, DownTotal, UpTotal;
    var publish, root := PublishDaemon(kind, source, full), |s.natives|;
    RunKeeps(Initial, before);
    RunTrue(Initial, before);
    StepKeeps(s, publish);
    StepTrue(s, publish);
    DownStarts(s, kind, source, full, c);
    RunSame(Apply(s, publish), after, c, root);
    RunKeeps(Apply(s, publish), after);
    RunTrue(Apply(s, publish), after);
    RestsDown(z, c, root);
    if s.conns[c].open && c !in full {
      assert AllTrue(z.guis[s.conns[c].gui], z.natives);
      ArrivedIs(z.guis[s.conns[c].gui], z, root, c);
    }
  }

  lemma RestsDown(z: System, c: nat, root: nat)
    requires Inv(z) && Stuck(z) && c < |z.conns|
    ensures z.conns[c].gui < |z.guis| && DownTotal(z, c, root) == Count(z.guis[z.conns[c].gui], Via(root, c))
    ensures UpTotal(z, c, root) == Count(z.daemon, Via(root, c))
  {
    assert CountsOk(z, c, root);
    StuckDrained(z, c);
  }

  /** Up, likewise: a publication on a GUI's own bus reaches the daemon over `c`, once and unchanged, if and
      only if `c` is an open connection of that GUI that hosts triggers, its kind is one of those
      forwarded, and the daemon does not refuse it; otherwise not at all. */
  lemma DeliveredUpIff(before: seq<Step>, s: System, gui: nat, kind: Text, source: Text, c: nat,
      after: seq<Step>, z: System)
    requires RunEnabled(Initial, before) && s == Run(Initial, before) && c < |s.conns| && gui < |s.guis|
    requires RunEnabled(Apply(s, PublishGui(gui, kind, source)), after)
    requires z == Run(Apply(s, PublishGui(gui, kind, source)), after)
    requires Stuck(z) && forall x :: x in after ==> Lossless(x, c)
    ensures var takes := s.conns[c].open && s.conns[c].gui == gui && s.conns[c].hostTriggers && kind in KINDS;
      var refused := Refusable(Native(OnGui(gui), kind, source));
      && Count(z.daemon, Via(|s.natives|, c)) == (if takes && !refused then 1 else 0)
      && (takes && !refused ==> Arrived(|s.natives|, kind, source, c) in z.daemon)
  {
    hide Stuck, DownTotal, UpTotal, Refusable;
    var publish, root := PublishGui(gui, kind, source), |s.natives|;
    RunKeeps(Initial, before);
    RunTrue(Initial, before);
    StepKeeps(s, publish);
    StepTrue(s, publish);
    UpStarts(s, gui, kind, source, c);
    RunSame(Apply(s, publish), after, c, root);
    RunKeeps(Apply(s, publish), after);
    RunTrue(Apply(s, publish), after);
    RestsDown(z, c, root);
    if Refusable(Native(OnGui(gui), kind, source)) {
      NothingRefused(z, c, root);
    } else if 0 < Count(z.daemon, Via(root, c)) {
      ArrivedIs(z.daemon, z, root, c);
    }
  }

  lemma NothingRefused(s: System, c: nat, root: nat)
    requires Inv(s) && Copies(s) && root < |s.natives| && Refusable(s.natives[root])
    ensures Count(s.daemon, Via(root, c)) == 0
  {
    Counted(s.daemon, Via(root, c));
    forall i | 0 <= i < |s.daemon| ensures !Picks(Via(root, c), s.daemon[i]) {
      assert True(s.daemon[i], s.natives) && EvOk(s.daemon[i], |s.natives|, |s.conns|);
    }
  }
}
