/** Two-way bridging between the daemon bus and the buses of the GUIs: both forwarders, both wires and
    both receiving ends, interleaved over any number of GUIs and connections. */
module Bridge {
  import opened ConditionSyntax
  import opened Events
  import opened EventPattern

  /** The kinds that a GUI forwards to the daemon, one subscription each. */
  const KINDS: seq<Text> := [
    "panel.exited", "panel.focused", "panel.title_changed", "tab.closed", "tab.created", "tab.renamed",
    "terminal.cwd_changed", "terminal.shell_precmd", "terminal.shell_preexec", "webview.loaded",
    "webview.navigated", "webview.title_changed", "window.restored"]

  datatype Where = OnDaemon | OnGui(gui: nat)

  /** A publication that came over no wire. */
  datatype Native = Native(where: Where, kind: Text, source: Text)

  /** One copy of a published event.  `root` is the native publish it stems from, `via` the connection it
      came over, `hops` how often it crossed a wire.  The code keeps only `bridged`, the `bridge_id`. */
  datatype Ev = Ev(root: nat, kind: Text, source: Text, bridged: bool, via: Option<nat>, hops: nat)

  /** `down` and `up` are the queues of the two forwarders' subscriptions. */
  datatype Conn = Conn(
    gui: nat, hostTriggers: bool, open: bool, down: seq<Ev>, downWire: seq<Ev>, up: seq<Ev>, upWire: seq<Ev>)

  /** `daemon` and `guis` record everything published on each bus; `natives` the native publishes. */
  datatype System = System(daemon: seq<Ev>, guis: seq<seq<Ev>>, conns: seq<Conn>, natives: seq<Native>)

  const Initial := System([], [], [], [])

  /** `full` names connections whose bounded buffer takes no more. */
  datatype Step =
    | StartGui
    | Connect(gui: nat, hostTriggers: bool)
    | Close(c: nat)
    | Abandon(c: nat)
    | PublishDaemon(kind: Text, source: Text, full: set<nat>)
    | PublishGui(gui: nat, kind: Text, source: Text)
    | ForwardDown(c: nat, wireFull: bool)
    | ArriveDown(c: nat)
    | ForwardUp(c: nat, i: nat)
    | ArriveUp(c: nat, full: set<nat>)

  predicate Forwarding(step: Step) { step.ForwardDown? || step.ArriveDown? || step.ForwardUp? || step.ArriveUp? }

  predicate Enabled(s: System, step: Step) {
    match step
    case StartGui => true
    case Connect(gui, _) => gui < |s.guis|
    case Close(c) => c < |s.conns|
    case Abandon(c) => c < |s.conns| && !s.conns[c].open
    case PublishDaemon(_, _, _) => true
    case PublishGui(gui, _, _) => gui < |s.guis|
    case ForwardDown(c, _) => c < |s.conns| && s.conns[c].down != []
    case ArriveDown(c) => c < |s.conns| && s.conns[c].downWire != [] && s.conns[c].gui < |s.guis|
    case ForwardUp(c, i) => c < |s.conns| && i < |s.conns[c].up|
    case ArriveUp(c, _) => c < |s.conns| && s.conns[c].upWire != []
  }

  /** How many of a connection's forwarder subscriptions take an event of this kind. */
  function Takers(kind: Text, n: nat): nat
    requires n <= |KINDS|
  {
    if n == 0 then 0 else Takers(kind, n - 1) + if PatternMatches(KINDS[n - 1], kind) then 1 else 0
  }

  function Repeat(e: Ev, n: nat): seq<Ev> { seq(n, _ => e) }

  function ToDown(c: Conn, i: nat, e: Ev, full: set<nat>): Conn {
    if c.open && i !in full then c.(down := c.down + [e]) else c
  }

  function ToUp(c: Conn, gui: nat, e: Ev): Conn {
    if c.open && c.gui == gui && c.hostTriggers then c.(up := c.up + Repeat(e, Takers(e.kind, |KINDS|))) else c
  }

  function OnDaemonBus(s: System, e: Ev, full: set<nat>): System {
    s.(daemon := s.daemon + [e],
       conns := seq(|s.conns|, i requires 0 <= i < |s.conns| => ToDown(s.conns[i], i, e, full)))
  }

  function OnGuiBus(s: System, gui: nat, e: Ev): System
    requires gui < |s.guis|
  {
    s.(guis := s.guis[gui := s.guis[gui] + [e]],
       conns := seq(|s.conns|, i requires 0 <= i < |s.conns| => ToUp(s.conns[i], gui, e)))
  }

  function Bridged(e: Ev, c: nat): Ev { e.(bridged := true, via := Some(c), hops := e.hops + 1) }

  /** What `_bus.publish` refuses. */
  predicate Refused(e: Ev) {
    e.kind == "" || HasSuffix(e.kind, ".completed") || HasSuffix(e.kind, ".failed") || e.source == COMPLETION_EVENT_SOURCE
  }

  function SetConn(s: System, c: nat, conn: Conn): System
    requires c < |s.conns|
  {
    s.(conns := s.conns[c := conn])
  }

  function Apply(s: System, step: Step): System
    requires Enabled(s, step)
  {
    match step
    case StartGui => s.(guis := s.guis + [[]])
    case Connect(gui, hostTriggers) => s.(conns := s.conns + [Conn(gui, hostTriggers, true, [], [], [], [])])
    case Close(c) => SetConn(s, c, s.conns[c].(open := false))
    case Abandon(c) => SetConn(s, c, s.conns[c].(down := [], downWire := [], up := [], upWire := []))
    case PublishDaemon(kind, source, full) =>
      OnDaemonBus(s, Ev(|s.natives|, kind, source, false, None, 0), full).(natives := s.natives + [Native(OnDaemon, kind, source)])
    case PublishGui(gui, kind, source) =>
      OnGuiBus(s, gui, Ev(|s.natives|, kind, source, false, None, 0)).(natives := s.natives + [Native(OnGui(gui), kind, source)])
    case ForwardDown(c, wireFull) =>
      var conn := s.conns[c];
      var e, rest := conn.down[0], conn.(down := conn.down[1..]);
      SetConn(s, c, if e.bridged || wireFull then rest else rest.(downWire := conn.downWire + [e]))
    case ArriveDown(c) =>
      var conn := s.conns[c];
      OnGuiBus(SetConn(s, c, conn.(downWire := conn.downWire[1..])), conn.gui, Bridged(conn.downWire[0], c))
    case ForwardUp(c, i) =>
      var conn := s.conns[c];
      var e, rest := conn.up[i], conn.(up := conn.up[..i] + conn.up[i + 1..]);
      SetConn(s, c, if e.bridged then rest else rest.(upWire := conn.upWire + [e]))
    case ArriveUp(c, full) =>
      var conn := s.conns[c];
      var e, rest := conn.upWire[0], SetConn(s, c, conn.(upWire := conn.upWire[1..]));
      if Refused(e) then rest else OnDaemonBus(rest, Bridged(e, c), full)
  }

  // ---- Counting copies -------------------------------------------------------------------------

  /** Copies of a root: those that never crossed, all of them, or those that came over a connection. */
  datatype Pick = Fresh(root: nat) | Any(root: nat) | Via(root: nat, c: nat)

  predicate Picks(p: Pick, e: Ev) {
    e.root == p.root && (p.Fresh? ==> !e.bridged) && (p.Via? ==> e.via == Some(p.c))
  }

  function Count(q: seq<Ev>, p: Pick): nat {
    if q == [] then 0 else (if Picks(p, q[0]) then 1 else 0) + Count(q[1..], p)
  }

  lemma {:induction false} CountConcat(a: seq<Ev>, b: seq<Ev>, p: Pick)
    ensures Count(a + b, p) == Count(a, p) + Count(b, p)
  {
    if a == [] {
      assert a + b == b;
    } else {
      assert (a + b)[1..] == a[1..] + b;
      CountConcat(a[1..], b, p);
    }
  }

  lemma CountOne(e: Ev, p: Pick)
    ensures Count([e], p) == if Picks(p, e) then 1 else 0
  {
    assert [e][1..] == [];
  }

  lemma {:induction false} CountRepeat(e: Ev, n: nat, p: Pick)
    ensures Count(Repeat(e, n), p) == if Picks(p, e) then n else 0
  {
    if n == 0 {
    } else {
      assert Repeat(e, n)[1..] == Repeat(e, n - 1);
      CountRepeat(e, n - 1, p);
    }
  }

  lemma CountWithout(q: seq<Ev>, i: nat, p: Pick)
    requires i < |q|
    ensures Count(q[..i] + q[i + 1..], p) + (if Picks(p, q[i]) then 1 else 0) == Count(q, p)
  {
    assert q == q[..i] + ([q[i]] + q[i + 1..]);
    CountConcat(q[..i], [q[i]] + q[i + 1..], p);
    CountConcat([q[i]], q[i + 1..], p);
    CountConcat(q[..i], q[i + 1..], p);
    CountOne(q[i], p);
  }

  lemma {:induction false} CountNone(q: seq<Ev>, p: Pick)
    requires forall i :: 0 <= i < |q| ==> q[i].root != p.root
    ensures Count(q, p) == 0
  {
    if q == [] {
    } else {
      CountNone(q[1..], p);
    }
  }

  // ---- One subscription per kind ---------------------------------------------------------------

  lemma KindsAreExact(i: nat, kind: Text)
    requires i < |KINDS|
    ensures PatternMatches(KINDS[i], kind) <==> KINDS[i] == kind
  {
  }

  lemma KindsDistinct(i: nat, j: nat)
    requires i < j < |KINDS|
    ensures KINDS[i] != KINDS[j]
  {
  }

  lemma {:induction false} NoTakers(kind: Text, n: nat)
    requires n <= |KINDS| && forall i :: 0 <= i < n ==> KINDS[i] != kind
    ensures Takers(kind, n) == 0
  {
    if n == 0 {
    } else {
      KindsAreExact(n - 1, kind);
      NoTakers(kind, n - 1);
    }
  }

  /** An event of whatever kind is taken by at most one forwarder of a connection. */
  lemma {:induction false} OneTaker(kind: Text, n: nat)
    requires n <= |KINDS|
    ensures Takers(kind, n) <= 1
  {
    if n == 0 {
    } else {
      KindsAreExact(n - 1, kind);
      if KINDS[n - 1] == kind {
        forall i | 0 <= i < n - 1 ensures KINDS[i] != kind { KindsDistinct(i, n - 1); }
        NoTakers(kind, n - 1);
      } else {
        OneTaker(kind, n - 1);
      }
    }
  }

  // ---- Invariants ------------------------------------------------------------------------------

  /** A copy is marked exactly when it has crossed, once, over a known connection. */
  predicate EvOk(e: Ev, natives: nat, conns: nat) {
    && e.root < natives
    && (if e.bridged then e.hops == 1 && e.via.Some? && e.via.value < conns else e.hops == 0 && e.via.None?)
  }

  predicate AllOk(q: seq<Ev>, natives: nat, conns: nat) {
    forall i :: 0 <= i < |q| ==> EvOk(q[i], natives, conns)
  }

  /** Only what has never crossed is put on a wire. */
  predicate WireOk(q: seq<Ev>, natives: nat, conns: nat) {
    forall i :: 0 <= i < |q| ==> EvOk(q[i], natives, conns) && !q[i].bridged
  }

  predicate ConnOk(c: Conn, natives: nat, conns: nat, guis: nat) {
    && c.gui < guis && AllOk(c.down, natives, conns) && AllOk(c.up, natives, conns)
    && WireOk(c.downWire, natives, conns) && WireOk(c.upWire, natives, conns)
  }

  /** Nothing that came over a wire poses as a completion. */
  predicate NoForgery(daemon: seq<Ev>) {
    forall i :: 0 <= i < |daemon| && daemon[i].bridged ==> !Refused(daemon[i])
  }

  ghost predicate EventsOk(s: System) {
    && AllOk(s.daemon, |s.natives|, |s.conns|) && NoForgery(s.daemon)
    && (forall g :: 0 <= g < |s.guis| ==> AllOk(s.guis[g], |s.natives|, |s.conns|))
    && (forall c :: 0 <= c < |s.conns| ==> ConnOk(s.conns[c], |s.natives|, |s.conns|, |s.guis|))
  }

  function UpCount(c: Conn, root: nat): nat { Count(c.up, Fresh(root)) + Count(c.upWire, Any(root)) }

  function DownCount(c: Conn, root: nat): nat { Count(c.down, Fresh(root)) + Count(c.downWire, Any(root)) }

  function Due(s: System, root: nat, where: Where): nat {
    if root < |s.natives| && s.natives[root].where == where then 1 else 0
  }

  /** On its way over a connection or arrived by it, a native event is there at most once. */
  predicate CountsOk(s: System, c: nat, root: nat)
    requires c < |s.conns|
  {
    && s.conns[c].gui < |s.guis|
    && UpCount(s.conns[c], root) + Count(s.daemon, Via(root, c)) <= Due(s, root, OnGui(s.conns[c].gui))
    && DownCount(s.conns[c], root) + Count(s.guis[s.conns[c].gui], Via(root, c)) <= Due(s, root, OnDaemon)
  }

  ghost predicate Inv(s: System) {
    EventsOk(s) && forall c, root: nat :: 0 <= c < |s.conns| ==> CountsOk(s, c, root)
  }

  lemma AllOkGrows(q: seq<Ev>, n: nat, c: nat, n': nat, c': nat)
    requires n <= n' && c <= c'
    ensures AllOk(q, n, c) ==> AllOk(q, n', c')
    ensures WireOk(q, n, c) ==> WireOk(q, n', c')
  {
  }

  lemma ToDownOk(c: Conn, i: nat, e: Ev, full: set<nat>, n: nat, m: nat, g: nat, root: nat)
    requires ConnOk(c, n, m, g) && EvOk(e, n, m)
    ensures ConnOk(ToDown(c, i, e, full), n, m, g)
    ensures UpCount(ToDown(c, i, e, full), root) == UpCount(c, root)
    ensures DownCount(ToDown(c, i, e, full), root) <= DownCount(c, root) + if e.root == root && !e.bridged then 1 else 0
  {
    CountConcat(c.down, [e], Fresh(root));
    CountOne(e, Fresh(root));
  }

  lemma ToUpOk(c: Conn, gui: nat, e: Ev, n: nat, m: nat, g: nat, root: nat)
    requires ConnOk(c, n, m, g) && EvOk(e, n, m)
    ensures ConnOk(ToUp(c, gui, e), n, m, g)
    ensures DownCount(ToUp(c, gui, e), root) == DownCount(c, root)
    ensures UpCount(ToUp(c, gui, e), root) <=
      UpCount(c, root) + if e.root == root && !e.bridged && c.gui == gui then 1 else 0
  {
    var k := Takers(e.kind, |KINDS|);
    OneTaker(e.kind, |KINDS|);
    CountConcat(c.up, Repeat(e, k), Fresh(root));
    CountRepeat(e, k, Fresh(root));
  }

  /** Fan-out on the daemon bus. */
  lemma DaemonBusOk(s: System, e: Ev, full: set<nat>, c: nat, root: nat)
    requires EventsOk(s) && EvOk(e, |s.natives|, |s.conns|) && (e.bridged ==> !Refused(e)) && c < |s.conns|
    ensures var t := OnDaemonBus(s, e, full);
      && ConnOk(t.conns[c], |s.natives|, |s.conns|, |s.guis|) && t.conns[c].gui == s.conns[c].gui
      && UpCount(t.conns[c], root) == UpCount(s.conns[c], root)
      && DownCount(t.conns[c], root) <= DownCount(s.conns[c], root) + (if e.root == root && !e.bridged then 1 else 0)
      && Count(t.daemon, Via(root, c)) == Count(s.daemon, Via(root, c)) + if Picks(Via(root, c), e) then 1 else 0
  {
    assert ConnOk(s.conns[c], |s.natives|, |s.conns|, |s.guis|);
    ToDownOk(s.conns[c], c, e, full, |s.natives|, |s.conns|, |s.guis|, root);
    CountConcat(s.daemon, [e], Via(root, c));
    CountOne(e, Via(root, c));
  }

  /** Fan-out on a GUI bus. */
  lemma GuiBusOk(s: System, gui: nat, e: Ev, c: nat, root: nat)
    requires EventsOk(s) && EvOk(e, |s.natives|, |s.conns|) && gui < |s.guis| && c < |s.conns|
    ensures var t, mine := OnGuiBus(s, gui, e), s.conns[c].gui == gui;
      && ConnOk(t.conns[c], |s.natives|, |s.conns|, |s.guis|) && t.conns[c].gui == s.conns[c].gui
      && DownCount(t.conns[c], root) == DownCount(s.conns[c], root)
      && UpCount(t.conns[c], root) <=
           UpCount(s.conns[c], root) + (if e.root == root && !e.bridged && mine then 1 else 0)
      && Count(t.guis[s.conns[c].gui], Via(root, c)) ==
           Count(s.guis[s.conns[c].gui], Via(root, c)) + if mine && Picks(Via(root, c), e) then 1 else 0
  {
    assert ConnOk(s.conns[c], |s.natives|, |s.conns|, |s.guis|);
    ToUpOk(s.conns[c], gui, e, |s.natives|, |s.conns|, |s.guis|, root);
    CountConcat(s.guis[gui], [e], Via(root, c));
    CountOne(e, Via(root, c));
  }

  lemma DaemonBusEvents(s: System, e: Ev, full: set<nat>)
    requires EventsOk(s) && EvOk(e, |s.natives|, |s.conns|) && (e.bridged ==> !Refused(e))
    ensures EventsOk(OnDaemonBus(s, e, full))
  {
    forall c | 0 <= c < |s.conns|
      ensures ConnOk(OnDaemonBus(s, e, full).conns[c], |s.natives|, |s.conns|, |s.guis|)
    {
      DaemonBusOk(s, e, full, c, 0);
    }
  }

  lemma GuiBusEvents(s: System, gui: nat, e: Ev)
    requires EventsOk(s) && EvOk(e, |s.natives|, |s.conns|) && gui < |s.guis|
    ensures EventsOk(OnGuiBus(s, gui, e))
  {
    forall c | 0 <= c < |s.conns|
      ensures ConnOk(OnGuiBus(s, gui, e).conns[c], |s.natives|, |s.conns|, |s.guis|)
    {
      GuiBusOk(s, gui, e, c, 0);
    }
  }

  lemma SetConnOk(s: System, c: nat, conn: Conn)
    requires Inv(s) && c < |s.conns| && ConnOk(conn, |s.natives|, |s.conns|, |s.guis|) && conn.gui == s.conns[c].gui
    requires forall root: nat :: UpCount(conn, root) <= UpCount(s.conns[c], root)
    requires forall root: nat :: DownCount(conn, root) <= DownCount(s.conns[c], root)
    ensures Inv(SetConn(s, c, conn))
  {
    var t := SetConn(s, c, conn);
    forall d, root: nat | 0 <= d < |t.conns| ensures CountsOk(t, d, root) { assert CountsOk(s, d, root); }
  }

  /** A native event on the daemon bus. */
  lemma DaemonNativeKeeps(s: System, e: Ev, full: set<nat>)
    requires Inv(s) && EvOk(e, |s.natives| + 1, |s.conns|) && !e.bridged && e.root == |s.natives|
    ensures Inv(OnDaemonBus(s, e, full).(natives := s.natives + [Native(OnDaemon, e.kind, e.source)]))
  {
    var s1 := s.(natives := s.natives + [Native(OnDaemon, e.kind, e.source)]);
    MoreNatives(s, Native(OnDaemon, e.kind, e.source));
    var t := OnDaemonBus(s1, e, full);
    assert t == OnDaemonBus(s, e, full).(natives := s.natives + [Native(OnDaemon, e.kind, e.source)]);
    DaemonBusEvents(s1, e, full);
    forall c, root: nat | 0 <= c < |t.conns| ensures CountsOk(t, c, root) {
      assert CountsOk(s, c, root);
      if root == |s.natives| { NewRoot(s, c); }
      DaemonBusOk(s1, e, full, c, root);
    }
  }

  lemma GuiNativeKeeps(s: System, gui: nat, e: Ev)
    requires Inv(s) && gui < |s.guis|
    requires EvOk(e, |s.natives| + 1, |s.conns|) && !e.bridged && e.root == |s.natives|
    ensures Inv(OnGuiBus(s, gui, e).(natives := s.natives + [Native(OnGui(gui), e.kind, e.source)]))
  {
    var s1 := s.(natives := s.natives + [Native(OnGui(gui), e.kind, e.source)]);
    MoreNatives(s, Native(OnGui(gui), e.kind, e.source));
    var t := OnGuiBus(s1, gui, e);
    assert t == OnGuiBus(s, gui, e).(natives := s.natives + [Native(OnGui(gui), e.kind, e.source)]);
    GuiBusEvents(s1, gui, e);
    forall c, root: nat | 0 <= c < |t.conns| ensures CountsOk(t, c, root) {
      assert CountsOk(s, c, root);
      if root == |s.natives| { NewRoot(s, c); }
      GuiBusOk(s1, gui, e, c, root);
    }
  }

  lemma MoreNatives(s: System, x: Native)
    requires EventsOk(s)
    ensures EventsOk(s.(natives := s.natives + [x]))
  {
    forall c | 0 <= c < |s.conns| ensures ConnOk(s.conns[c], |s.natives| + 1, |s.conns|, |s.guis|) {
      assert ConnOk(s.conns[c], |s.natives|, |s.conns|, |s.guis|);
    }
  }

  /** No copy of a root that has not been published. */
  lemma NewRoot(s: System, c: nat)
    requires EventsOk(s) && c < |s.conns|
    ensures UpCount(s.conns[c], |s.natives|) == 0 && DownCount(s.conns[c], |s.natives|) == 0
    ensures Count(s.daemon, Via(|s.natives|, c)) == 0
    ensures s.conns[c].gui < |s.guis| && Count(s.guis[s.conns[c].gui], Via(|s.natives|, c)) == 0
  {
    var n, conn := |s.natives|, s.conns[c];
    assert ConnOk(conn, n, |s.conns|, |s.guis|);
    CountNone(conn.up, Fresh(n));
    CountNone(conn.upWire, Any(n));
    CountNone(conn.down, Fresh(n));
    CountNone(conn.downWire, Any(n));
    CountNone(s.daemon, Via(n, c));
    CountNone(s.guis[conn.gui], Via(n, c));
  }

  lemma {:induction false} NothingVia(q: seq<Ev>, natives: nat, conns: nat, root: nat)
    requires AllOk(q, natives, conns)
    ensures Count(q, Via(root, conns)) == 0
  {
    if q == [] {
    } else {
      assert EvOk(q[0], natives, conns);
      assert AllOk(q[1..], natives, conns);
      NothingVia(q[1..], natives, conns, root);
    }
  }

  lemma ConnectKeeps(s: System, gui: nat, hostTriggers: bool)
    requires Inv(s) && gui < |s.guis|
    ensures Inv(Apply(s, Connect(gui, hostTriggers)))
  {
    var t := Apply(s, Connect(gui, hostTriggers));
    var n, m := |s.natives|, |s.conns|;
    AllOkGrows(s.daemon, n, m, n, m + 1);
    forall g | 0 <= g < |t.guis| ensures AllOk(t.guis[g], n, m + 1) { assert AllOk(s.guis[g], n, m); }
    forall c | 0 <= c < |t.conns| ensures ConnOk(t.conns[c], n, m + 1, |t.guis|) {
      if c < m { assert ConnOk(s.conns[c], n, m, |s.guis|); }
    }
    forall c, root: nat | 0 <= c < |t.conns| ensures CountsOk(t, c, root) {
      if c < m {
        assert CountsOk(s, c, root);
      } else {
        NothingVia(s.daemon, n, m, root);
        NothingVia(s.guis[gui], n, m, root);
      }
    }
  }

  lemma ForwardDownKeeps(s: System, c: nat, wireFull: bool)
    requires Inv(s) && Enabled(s, ForwardDown(c, wireFull))
    ensures Inv(Apply(s, ForwardDown(c, wireFull)))
  {
    var conn, t := s.conns[c], Apply(s, ForwardDown(c, wireFull)).conns[c];
    assert ConnOk(conn, |s.natives|, |s.conns|, |s.guis|);
    assert EvOk(conn.down[0], |s.natives|, |s.conns|);
    forall root: nat ensures UpCount(t, root) <= UpCount(conn, root) && DownCount(t, root) <= DownCount(conn, root) {
      CountConcat(conn.downWire, [conn.down[0]], Any(root));
      CountOne(conn.down[0], Any(root));
    }
    SetConnOk(s, c, t);
  }

  lemma ForwardUpKeeps(s: System, c: nat, i: nat)
    requires Inv(s) && Enabled(s, ForwardUp(c, i))
    ensures Inv(Apply(s, ForwardUp(c, i)))
  {
    var conn, t := s.conns[c], Apply(s, ForwardUp(c, i)).conns[c];
    assert ConnOk(conn, |s.natives|, |s.conns|, |s.guis|);
    assert EvOk(conn.up[i], |s.natives|, |s.conns|);
    forall root: nat ensures UpCount(t, root) <= UpCount(conn, root) && DownCount(t, root) <= DownCount(conn, root) {
      CountWithout(conn.up, i, Fresh(root));
      CountConcat(conn.upWire, [conn.up[i]], Any(root));
      CountOne(conn.up[i], Any(root));
    }
    SetConnOk(s, c, t);
  }

  /** A connection after the first event left a wire. */
  lemma PopOk(conn: Conn, natives: nat, conns: nat, guis: nat, root: nat)
    requires ConnOk(conn, natives, conns, guis)
    ensures conn.downWire != [] ==>
      var popped, e := conn.(downWire := conn.downWire[1..]), conn.downWire[0];
      && ConnOk(popped, natives, conns, guis) && EvOk(e, natives, conns) && !e.bridged
      && UpCount(popped, root) == UpCount(conn, root)
      && DownCount(popped, root) + (if e.root == root then 1 else 0) == DownCount(conn, root)
    ensures conn.upWire != [] ==>
      var popped, e := conn.(upWire := conn.upWire[1..]), conn.upWire[0];
      && ConnOk(popped, natives, conns, guis) && EvOk(e, natives, conns) && !e.bridged
      && DownCount(popped, root) == DownCount(conn, root)
      && UpCount(popped, root) + (if e.root == root then 1 else 0) == UpCount(conn, root)
  {
  }

  lemma ArriveDownKeeps(s: System, c: nat)
    requires Inv(s) && Enabled(s, ArriveDown(c))
    ensures Inv(Apply(s, ArriveDown(c)))
  {
    hide ConnOk, UpCount, DownCount, AllOk, NoForgery;
    var conn := s.conns[c];
    var e, gui := conn.downWire[0], conn.gui;
    assert ConnOk(conn, |s.natives|, |s.conns|, |s.guis|);
    var popped := conn.(downWire := conn.downWire[1..]);
    var mid := SetConn(s, c, popped);
    PopOk(conn, |s.natives|, |s.conns|, |s.guis|, 0);
    forall root: nat ensures UpCount(popped, root) == UpCount(conn, root)
        && DownCount(popped, root) + (if e.root == root then 1 else 0) == DownCount(conn, root)
    {
      PopOk(conn, |s.natives|, |s.conns|, |s.guis|, root);
    }
    SetConnOk(s, c, popped);
    var t := OnGuiBus(mid, gui, Bridged(e, c));
    GuiBusEvents(mid, gui, Bridged(e, c));
    forall d, root: nat | 0 <= d < |t.conns| ensures CountsOk(t, d, root) {
      assert CountsOk(s, d, root);
      GuiBusOk(mid, gui, Bridged(e, c), d, root);
    }
  }

  lemma ArriveUpKeeps(s: System, c: nat, full: set<nat>)
    requires Inv(s) && Enabled(s, ArriveUp(c, full))
    ensures Inv(Apply(s, ArriveUp(c, full)))
  {
    hide ConnOk, UpCount, DownCount, AllOk, NoForgery;
    var conn := s.conns[c];
    var e := conn.upWire[0];
    assert ConnOk(conn, |s.natives|, |s.conns|, |s.guis|);
    var popped := conn.(upWire := conn.upWire[1..]);
    var mid := SetConn(s, c, popped);
    PopOk(conn, |s.natives|, |s.conns|, |s.guis|, 0);
    forall root: nat ensures DownCount(popped, root) == DownCount(conn, root)
        && UpCount(popped, root) + (if e.root == root then 1 else 0) == UpCount(conn, root)
    {
      PopOk(conn, |s.natives|, |s.conns|, |s.guis|, root);
    }
    SetConnOk(s, c, popped);
    if !Refused(e) {
      var t := OnDaemonBus(mid, Bridged(e, c), full);
      DaemonBusEvents(mid, Bridged(e, c), full);
      forall d, root: nat | 0 <= d < |t.conns| ensures CountsOk(t, d, root) {
        assert CountsOk(s, d, root);
        DaemonBusOk(mid, Bridged(e, c), full, d, root);
      }
    }
  }

  lemma StepKeeps(s: System, step: Step)
    requires Inv(s) && Enabled(s, step)
    ensures Inv(Apply(s, step))
  {
    match step
    case StartGui =>
      var t := Apply(s, step);
      forall c | 0 <= c < |t.conns| ensures ConnOk(t.conns[c], |t.natives|, |t.conns|, |t.guis|) {
        assert ConnOk(s.conns[c], |s.natives|, |s.conns|, |s.guis|);
      }
      forall c, root: nat | 0 <= c < |t.conns| ensures CountsOk(t, c, root) { assert CountsOk(s, c, root); }
    case Connect(gui, hostTriggers) => ConnectKeeps(s, gui, hostTriggers);
    case Close(c) =>
      assert ConnOk(s.conns[c], |s.natives|, |s.conns|, |s.guis|);
      SetConnOk(s, c, s.conns[c].(open := false));
    case Abandon(c) =>
      assert ConnOk(s.conns[c], |s.natives|, |s.conns|, |s.guis|);
      SetConnOk(s, c, s.conns[c].(down := [], downWire := [], up := [], upWire := []));
    case PublishDaemon(kind, source, full) =>
      DaemonNativeKeeps(s, Ev(|s.natives|, kind, source, false, None, 0), full);
    case PublishGui(gui, kind, source) =>
      GuiNativeKeeps(s, gui, Ev(|s.natives|, kind, source, false, None, 0));
    case ForwardDown(c, wireFull) => ForwardDownKeeps(s, c, wireFull);
    case ArriveDown(c) => ArriveDownKeeps(s, c);
    case ForwardUp(c, i) => ForwardUpKeeps(s, c, i);
    case ArriveUp(c, full) => ArriveUpKeeps(s, c, full);
  }

  // ---- Runs ------------------------------------------------------------------------------------

  predicate RunEnabled(s: System, steps: seq<Step>)
    decreases |steps|
  {
    steps == [] || (Enabled(s, steps[0]) && RunEnabled(Apply(s, steps[0]), steps[1..]))
  }

  function Run(s: System, steps: seq<Step>): System
    requires RunEnabled(s, steps)
    decreases |steps|
  {
    if steps == [] then s else Run(Apply(s, steps[0]), steps[1..])
  }

  lemma {:induction false} RunKeeps(s: System, steps: seq<Step>)
    requires Inv(s) && RunEnabled(s, steps)
    ensures Inv(Run(s, steps))
    decreases |steps|
  {
    if steps == [] {
    } else {
      StepKeeps(s, steps[0]);
      RunKeeps(Apply(s, steps[0]), steps[1..]);
    }
  }

  /** Loop-free, over every interleaving: nothing crosses a wire more than once, and what is on a wire
      has not crossed before. */
  lemma NothingCrossesTwice(steps: seq<Step>)
    requires RunEnabled(Initial, steps)
    ensures var s := Run(Initial, steps);
      && (forall i :: 0 <= i < |s.daemon| ==> s.daemon[i].hops <= 1)
      && (forall g, i :: 0 <= g < |s.guis| && 0 <= i < |s.guis[g]| ==> s.guis[g][i].hops <= 1)
      && (forall c, i :: 0 <= c < |s.conns| && 0 <= i < |s.conns[c].upWire| ==> s.conns[c].upWire[i].hops == 0)
      && (forall c, i :: 0 <= c < |s.conns| && 0 <= i < |s.conns[c].downWire| ==> s.conns[c].downWire[i].hops == 0)
  {
    RunKeeps(Initial, steps);
    var s := Run(Initial, steps);
    forall g, i | 0 <= g < |s.guis| && 0 <= i < |s.guis[g]| ensures s.guis[g][i].hops <= 1 {
      assert AllOk(s.guis[g], |s.natives|, |s.conns|);
    }
    forall c | 0 <= c < |s.conns|
      ensures forall i :: 0 <= i < |s.conns[c].upWire| ==> s.conns[c].upWire[i].hops == 0
      ensures forall i :: 0 <= i < |s.conns[c].downWire| ==> s.conns[c].downWire[i].hops == 0
    {
      assert ConnOk(s.conns[c], |s.natives|, |s.conns|, |s.guis|);
    }
  }

  /** Bounded: over one connection a native event of its GUI becomes at most one daemon event, a native
      daemon event at most one event of its GUI, and any other event none. */
  lemma AtMostOnePerConnection(steps: seq<Step>, c: nat, root: nat)
    requires RunEnabled(Initial, steps) && c < |Run(Initial, steps).conns|
    ensures var s := Run(Initial, steps);
      && s.conns[c].gui < |s.guis|
      && Count(s.daemon, Via(root, c)) <= Due(s, root, OnGui(s.conns[c].gui))
      && Count(s.guis[s.conns[c].gui], Via(root, c)) <= Due(s, root, OnDaemon)
  {
    RunKeeps(Initial, steps);
    assert CountsOk(Run(Initial, steps), c, root);
  }

  /** What came over a wire is never on the daemon bus as a completion, which the trigger engine would
      trust. */
  lemma NoForgedCompletion(steps: seq<Step>, i: nat)
    requires RunEnabled(Initial, steps) && i < |Run(Initial, steps).daemon| && Run(Initial, steps).daemon[i].bridged
    ensures var e := Run(Initial, steps).daemon[i];
      e.source != COMPLETION_EVENT_SOURCE && !HasSuffix(e.kind, ".completed") && !HasSuffix(e.kind, ".failed")
  {
    RunKeeps(Initial, steps);
    assert NoForgery(Run(Initial, steps).daemon);
  }

  // ---- Quiescence ------------------------------------------------------------------------------

  /** Work left in a queue when `n` connections exist: a copy that has not crossed may still reach every
      connection once; one that has only waits to be skipped. */
  function QueueWork(q: seq<Ev>, n: nat): nat {
    if q == [] then 0 else (if q[0].bridged then 1 else n + 3) + QueueWork(q[1..], n)
  }

  function ConnWork(c: Conn, n: nat): nat {
    QueueWork(c.down, n) + QueueWork(c.up, n) + (n + 2) * |c.downWire| + (n + 2) * |c.upWire|
  }

  function TotalWork(conns: seq<Conn>, n: nat): nat {
    if conns == [] then 0 else ConnWork(conns[0], n) + TotalWork(conns[1..], n)
  }

  function Work(s: System): nat { TotalWork(s.conns, |s.conns|) }

  lemma {:induction false} QueueWorkConcat(a: seq<Ev>, b: seq<Ev>, n: nat)
    ensures QueueWork(a + b, n) == QueueWork(a, n) + QueueWork(b, n)
  {
    if a == [] {
      assert a + b == b;
    } else {
      assert (a + b)[1..] == a[1..] + b;
      QueueWorkConcat(a[1..], b, n);
    }
  }

  lemma {:induction false} TotalUpdate(conns: seq<Conn>, c: nat, conn: Conn, n: nat)
    requires c < |conns|
    ensures TotalWork(conns[c := conn], n) + ConnWork(conns[c], n) == TotalWork(conns, n) + ConnWork(conn, n)
  {
    if c > 0 {
      TotalUpdate(conns[1..], c - 1, conn, n);
      assert conns[c := conn][1..] == conns[1..][c - 1 := conn];
    } else {
      assert conns[c := conn][1..] == conns[1..];
    }
  }

  /** A fan-out gives each connection at most one more unit. */
  lemma {:induction false} TotalFanOut(a: seq<Conn>, b: seq<Conn>, n: nat)
    requires |a| == |b| && forall i :: 0 <= i < |a| ==> ConnWork(b[i], n) <= ConnWork(a[i], n) + 1
    ensures TotalWork(b, n) <= TotalWork(a, n) + |a|
  {
    if a == [] {
    } else {
      TotalFanOut(a[1..], b[1..], n);
    }
  }

  lemma DownUnit(c: Conn, i: nat, e: Ev, full: set<nat>, n: nat)
    requires e.bridged
    ensures ConnWork(ToDown(c, i, e, full), n) <= ConnWork(c, n) + 1
  {
    QueueWorkConcat(c.down, [e], n);
    assert QueueWork([e], n) == 1;
  }

  lemma UpUnit(c: Conn, gui: nat, e: Ev, n: nat)
    requires e.bridged
    ensures ConnWork(ToUp(c, gui, e), n) <= ConnWork(c, n) + 1
  {
    var k := Takers(e.kind, |KINDS|);
    OneTaker(e.kind, |KINDS|);
    QueueWorkConcat(c.up, Repeat(e, k), n);
    if k == 1 {
      assert Repeat(e, 1) == [e];
      assert QueueWork([e], n) == 1;
    }
  }

  lemma ArriveDownLess(s: System, c: nat)
    requires Enabled(s, ArriveDown(c))
    ensures Work(Apply(s, ArriveDown(c))) < Work(s)
  {
    hide TotalWork, QueueWork;
    var n, conn := |s.conns|, s.conns[c];
    var popped := conn.(downWire := conn.downWire[1..]);
    var mid, e := SetConn(s, c, popped), Bridged(conn.downWire[0], c);
    TotalUpdate(s.conns, c, popped, n);
    assert ConnWork(popped, n) + (n + 2) == ConnWork(conn, n);
    var t := OnGuiBus(mid, conn.gui, e);
    forall i | 0 <= i < n ensures ConnWork(t.conns[i], n) <= ConnWork(mid.conns[i], n) + 1 {
      UpUnit(mid.conns[i], conn.gui, e, n);
    }
    TotalFanOut(mid.conns, t.conns, n);
  }

  lemma ArriveUpLess(s: System, c: nat, full: set<nat>)
    requires Enabled(s, ArriveUp(c, full))
    ensures Work(Apply(s, ArriveUp(c, full))) < Work(s)
  {
    hide TotalWork, QueueWork, Refused;
    var n, conn := |s.conns|, s.conns[c];
    var popped := conn.(upWire := conn.upWire[1..]);
    var mid, e := SetConn(s, c, popped), Bridged(conn.upWire[0], c);
    TotalUpdate(s.conns, c, popped, n);
    assert ConnWork(popped, n) + (n + 2) == ConnWork(conn, n);
    var t := OnDaemonBus(mid, e, full);
    forall i | 0 <= i < n ensures ConnWork(t.conns[i], n) <= ConnWork(mid.conns[i], n) + 1 {
      DownUnit(mid.conns[i], i, e, full, n);
    }
    TotalFanOut(mid.conns, t.conns, n);
  }

  lemma WireGrows(wire: seq<Ev>, e: Ev, n: nat)
    ensures (n + 2) * |wire + [e]| == (n + 2) * |wire| + (n + 2)
  {
  }

  lemma ForwardDownLess(s: System, c: nat, wireFull: bool)
    requires Enabled(s, ForwardDown(c, wireFull))
    ensures Work(Apply(s, ForwardDown(c, wireFull))) < Work(s)
  {
    var n, conn, t := |s.conns|, s.conns[c], Apply(s, ForwardDown(c, wireFull));
    WireGrows(conn.downWire, conn.down[0], n);
    TotalUpdate(s.conns, c, t.conns[c], n);
  }

  lemma ForwardUpLess(s: System, c: nat, i: nat)
    requires Enabled(s, ForwardUp(c, i))
    ensures Work(Apply(s, ForwardUp(c, i))) < Work(s)
  {
    var n, conn, t := |s.conns|, s.conns[c], Apply(s, ForwardUp(c, i));
    var a, b := conn.up[..i], conn.up[i + 1..];
    assert conn.up == a + ([conn.up[i]] + b);
    QueueWorkConcat(a, [conn.up[i]] + b, n);
    QueueWorkConcat(a, b, n);
    assert ([conn.up[i]] + b)[1..] == b;
    WireGrows(conn.upWire, conn.up[i], n);
    TotalUpdate(s.conns, c, t.conns[c], n);
  }

  /** Every forwarding step leaves strictly less to do. */
  lemma ForwardingDecreases(s: System, step: Step)
    requires Enabled(s, step) && Forwarding(step)
    ensures Work(Apply(s, step)) < Work(s)
  {
    match step
    case ForwardDown(c, wireFull) => ForwardDownLess(s, c, wireFull);
    case ArriveDown(c) => ArriveDownLess(s, c);
    case ForwardUp(c, i) => ForwardUpLess(s, c, i);
    case ArriveUp(c, full) => ArriveUpLess(s, c, full);
  }

  predicate AllForwarding(steps: seq<Step>) { forall i :: 0 <= i < |steps| ==> Forwarding(steps[i]) }

  predicate Drained(c: Conn) { c.down == [] && c.downWire == [] && c.up == [] && c.upWire == [] }

  ghost predicate Stuck(s: System) { forall step :: Forwarding(step) ==> !Enabled(s, step) }

  lemma StuckDrained(s: System, c: nat)
    requires Inv(s) && Stuck(s) && c < |s.conns|
    ensures Drained(s.conns[c])
  {
    assert ConnOk(s.conns[c], |s.natives|, |s.conns|, |s.guis|);
    assert Forwarding(ForwardDown(c, false)) && Forwarding(ArriveDown(c));
    assert Forwarding(ForwardUp(c, 0)) && Forwarding(ArriveUp(c, {}));
  }

  lemma {:induction false} ForwardingEnds(s: System, steps: seq<Step>)
    requires RunEnabled(s, steps) && AllForwarding(steps)
    ensures |steps| <= Work(s)
    decreases |steps|
  {
    if steps == [] {
    } else {
      ForwardingDecreases(s, steps[0]);
      ForwardingEnds(Apply(s, steps[0]), steps[1..]);
    }
  }

  /** With no new native publish, forwarding quiesces: after any run there are at most `Work` more
      forwarding steps, and where none is possible every queue and every wire is empty. */
  lemma ForwardingQuiesces(before: seq<Step>, steps: seq<Step>, c: nat)
    requires RunEnabled(Initial, before) && RunEnabled(Run(Initial, before), steps) && AllForwarding(steps)
    ensures |steps| <= Work(Run(Initial, before))
    ensures var t := Run(Run(Initial, before), steps);
      Stuck(t) && c < |t.conns| ==> Drained(t.conns[c])
  {
    RunKeeps(Initial, before);
    ForwardingEnds(Run(Initial, before), steps);
    RunKeeps(Run(Initial, before), steps);
    var t := Run(Run(Initial, before), steps);
    if Stuck(t) && c < |t.conns| { StuckDrained(t, c); }
  }
}
