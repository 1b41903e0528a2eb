/** Registered GUI clients: registration order, the primary, and routing to a client. */
module GuiRegistry {
  import opened ConditionSyntax
  import opened Events

  datatype Client = Client(capabilities: set<Text>, wantPrimary: bool)

  /** The registry as a value: what its three locks guard together. */
  datatype Registry = Registry(clients: map<nat, Client>, order: seq<nat>, primary: Option<nat>)

  datatype Routed = Routed(id: nat) | NotGuiOwned | UnknownClient | NoGui

  /** The capability that a GUI-owned method asks for. */
  function MethodCapability(name: Text): Option<Text> {
    if name in {"tab.new", "tab.close", "tab.list", "tab.info", "tab.rename", "tabs.toggle_bar", "claude.start"}
    then Some("tab")
    else if name in {"split.horizontal", "split.vertical"} then Some("split")
    else if name in {"terminal.read", "terminal.state", "terminal.exec", "terminal.feed", "terminal.history",
      "terminal.context"} then Some("terminal")
    else if HasPrefix(name, "webview.") then Some("webview")
    else if HasPrefix(name, "background.") then Some("background")
    else if name in {"statusbar.show", "statusbar.hide", "statusbar.toggle"} then Some("statusbar")
    else if name == "agent.approve" then Some("agent.ui")
    else if name == "plugin.open" then Some("plugin.open")
    else if name in {"session.list", "session.info"} then Some("session")
    else None
  }

  predicate Willing(r: Registry, id: nat) { id in r.clients && r.clients[id].wantPrimary }

  /** The willing client registered last among the first `n`. */
  function LatestWilling(r: Registry, n: nat): Option<nat>
    requires n <= |r.order|
  {
    if n == 0 then None
    else if Willing(r, r.order[n - 1]) then Some(r.order[n - 1])
    else LatestWilling(r, n - 1)
  }

  function Without(order: seq<nat>, id: nat): seq<nat> {
    if order == [] then []
    else
      var n := |order| - 1;
      Without(order[..n], id) + if order[n] == id then [] else [order[n]]
  }

  function Registered(r: Registry, id: nat, client: Client): Registry {
    Registry(r.clients[id := client], r.order + [id],
             if r.primary == None && client.wantPrimary then Some(id) else r.primary)
  }

  function Unregistered(r: Registry, id: nat): Registry {
    var left := Registry(r.clients - {id}, Without(r.order, id), r.primary);
    if r.primary == Some(id) then left.(primary := LatestWilling(left, |left.order|)) else left
  }

  class GuiRegistry {
    var clients: map<nat, Client>
    var order: seq<nat>
    var primary: Option<nat>

    function State(): Registry
      reads this
    {
      Registry(clients, order, primary)
    }

    constructor ()
      ensures State() == Registry(map[], [], None)
    {
      clients, order, primary := map[], [], None;
    }

    /** The id is drawn by the caller: a new unique identifier. */
    method Register(id: nat, client: Client) returns (isPrimary: bool)
      requires id !in clients
      modifies this
      ensures State() == Registered(old(State()), id, client)
      ensures isPrimary <==> primary == Some(id) && old(primary) == None
    {
      clients := clients[id := client];
      order := order + [id];
      isPrimary := primary == None && client.wantPrimary;
      if isPrimary { primary := Some(id); }
    }

    method Unregister(id: nat) returns (removed: Option<Client>)
      modifies this
      ensures State() == Unregistered(old(State()), id)
      ensures removed == if id in old(clients) then Some(old(clients)[id]) else None
    {
      removed := if id in clients then Some(clients[id]) else None;
      clients := clients - {id};
      order := Retain(order, id);
      if primary == Some(id) {
        primary := None;
        ghost var left := Registry(clients, order, old(primary));
        var i := |order|;
        while 0 < i && primary == None
          invariant 0 <= i <= |order| && order == left.order && clients == left.clients
          invariant primary == None ==> LatestWilling(left, |order|) == LatestWilling(left, i)
          invariant primary != None ==> LatestWilling(left, |order|) == primary
        {
          i := i - 1;
          if order[i] in clients && clients[order[i]].wantPrimary { primary := Some(order[i]); }
        }
      }
    }

    method Retain(ids: seq<nat>, id: nat) returns (kept: seq<nat>)
      ensures kept == Without(ids, id)
    {
      kept := [];
      for i := 0 to |ids|
        invariant kept == Without(ids[..i], id)
      {
        assert ids[..i + 1][..i] == ids[..i];
        if ids[i] != id { kept := kept + [ids[i]]; }
      }
      assert ids[..|ids|] == ids;
    }

    /** Without a target only the primary is asked, whatever other clients could do. */
    method Route(name: Text, target: Option<nat>) returns (r: Routed)
      ensures r == RouteTo(State(), name, target)
    {
      var cap := MethodCapability(name);
      if cap == None { return NotGuiOwned; }
      var candidate: nat;
      match target {
        case Some(id) =>
          if id !in clients { return UnknownClient; }
          candidate := id;
        case None =>
          if primary == None || primary.value !in clients { return NoGui; }
          candidate := primary.value;
      }
      r := if cap.value in clients[candidate].capabilities then Routed(candidate) else NoGui;
    }
  }

  function RouteTo(r: Registry, name: Text, target: Option<nat>): Routed {
    var cap, asked := MethodCapability(name), if target.Some? then target else r.primary;
    if cap == None then NotGuiOwned
    else if asked == None || asked.value !in r.clients then (if target.Some? then UnknownClient else NoGui)
    else if cap.value in r.clients[asked.value].capabilities then Routed(asked.value)
    else NoGui
  }

  // ---- Invariants over all runs ----------------------------------------------------------------

  ghost predicate Listing(r: Registry) {
    && (forall i, j :: 0 <= i < j < |r.order| ==> r.order[i] != r.order[j])
    && (forall id :: id in r.order <==> id in r.clients)
  }

  /** The primary is a willing client, and absent only when none is willing. */
  ghost predicate PrimaryOk(r: Registry) {
    && (r.primary.Some? ==> Willing(r, r.primary.value))
    && (r.primary.None? ==> forall id :: id in r.clients ==> !r.clients[id].wantPrimary)
  }

  lemma {:induction false} WithoutMembers(order: seq<nat>, id: nat)
    ensures forall x :: x in Without(order, id) <==> x in order && x != id
  {
    if order == [] {
    } else {
      var n := |order| - 1;
      WithoutMembers(order[..n], id);
      assert order == order[..n] + [order[n]];
    }
  }

  lemma {:induction false} WithoutDistinct(order: seq<nat>, id: nat)
    requires forall i, j :: 0 <= i < j < |order| ==> order[i] != order[j]
    ensures forall i, j :: 0 <= i < j < |Without(order, id)| ==> Without(order, id)[i] != Without(order, id)[j]
  {
    if order == [] {
    } else {
      var n := |order| - 1;
      WithoutDistinct(order[..n], id);
      WithoutMembers(order[..n], id);
      var kept := Without(order[..n], id);
      forall i | 0 <= i < |kept| ensures kept[i] != order[n] { assert kept[i] in order[..n]; }
    }
  }

  /** Of the first `n` clients, the one at `i` is the last willing one. */
  predicate LastWillingAt(r: Registry, n: nat, i: nat)
    requires i < n <= |r.order|
  {
    Willing(r, r.order[i]) && forall j :: i < j < n ==> !Willing(r, r.order[j])
  }

  /** The promotion picks the willing client with the last position, and fails only without one. */
  lemma {:induction false} LatestWillingIs(r: Registry, n: nat)
    requires n <= |r.order|
    ensures LatestWilling(r, n).None? <==> forall i :: 0 <= i < n ==> !Willing(r, r.order[i])
    ensures LatestWilling(r, n).Some? ==>
      exists i: nat :: i < n && LastWillingAt(r, n, i) && r.order[i] == LatestWilling(r, n).value
  {
    if n == 0 {
    } else {
      LatestWillingIs(r, n - 1);
      if Willing(r, r.order[n - 1]) {
        assert LastWillingAt(r, n, n - 1);
      } else if LatestWilling(r, n).Some? {
        var i: nat :| i < n - 1 && LastWillingAt(r, n - 1, i) && r.order[i] == LatestWilling(r, n - 1).value;
        assert LastWillingAt(r, n, i);
      }
    }
  }

  datatype Step = Register(id: nat, client: Client) | Unregister(id: nat)

  predicate Enabled(r: Registry, step: Step) { step.Register? ==> step.id !in r.clients }

  function Apply(r: Registry, step: Step): Registry {
    match step
    case Register(id, client) => Registered(r, id, client)
    case Unregister(id) => Unregistered(r, id)
  }

  lemma StepKeeps(r: Registry, step: Step)
    requires Listing(r) && PrimaryOk(r) && Enabled(r, step)
    ensures Listing(Apply(r, step)) && PrimaryOk(Apply(r, step))
  {
    var t := Apply(r, step);
    match step
    case Register(id, _) =>
    case Unregister(id) =>
      WithoutMembers(r.order, id);
      WithoutDistinct(r.order, id);
      LatestWillingIs(t, |t.order|);
      forall x ensures x in t.order <==> x in t.clients { assert x in r.order <==> x in r.clients; }
      forall x | x in t.clients && t.clients[x].wantPrimary
        ensures exists i :: 0 <= i < |t.order| && Willing(t, t.order[i])
      {
        assert x in t.order;
        var i :| 0 <= i < |t.order| && t.order[i] == x;
      }
      LatestIgnoresPrimary(t, Registry(t.clients, t.order, r.primary), |t.order|);
  }

  lemma {:induction false} LatestIgnoresPrimary(a: Registry, b: Registry, n: nat)
    requires a.clients == b.clients && a.order == b.order && n <= |a.order|
    ensures LatestWilling(a, n) == LatestWilling(b, n)
  {
    if n == 0 {
    } else {
      LatestIgnoresPrimary(a, b, n - 1);
    }
  }

  predicate RunEnabled(r: Registry, steps: seq<Step>)
    decreases |steps|
  {
    steps == [] || (Enabled(r, steps[0]) && RunEnabled(Apply(r, steps[0]), steps[1..]))
  }

  function Run(r: Registry, steps: seq<Step>): Registry
    decreases |steps|
  {
    if steps == [] then r else Run(Apply(r, steps[0]), steps[1..])
  }

  lemma {:induction false} RunKeeps(r: Registry, steps: seq<Step>)
    requires Listing(r) && PrimaryOk(r) && RunEnabled(r, steps)
    ensures Listing(Run(r, steps)) && PrimaryOk(Run(r, steps))
    decreases |steps|
  {
    if steps == [] {
    } else {
      StepKeeps(r, steps[0]);
      RunKeeps(Apply(r, steps[0]), steps[1..]);
    }
  }

  const Empty := Registry(map[], [], None)

  /** Over every run of registrations and unregistrations: `order` is a duplicate-free listing of the
      clients, and the primary is absent exactly when no registered client wants to be it. */
  lemma PrimaryOverRuns(steps: seq<Step>)
    requires RunEnabled(Empty, steps)
    ensures var r := Run(Empty, steps);
      && Listing(r)
      && (r.primary.None? <==> forall id :: id in r.clients ==> !r.clients[id].wantPrimary)
      && (r.primary.Some? ==> Willing(r, r.primary.value))
  {
    RunKeeps(Empty, steps);
  }

  predicate NeverUnregisters(steps: seq<Step>, id: nat) {
    forall i :: 0 <= i < |steps| ==> steps[i] != Unregister(id)
  }

  /** A primary stays the primary until it unregisters, whoever else comes and goes. */
  lemma {:induction false} PrimaryStable(r: Registry, steps: seq<Step>, id: nat)
    requires r.primary == Some(id) && NeverUnregisters(steps, id)
    ensures Run(r, steps).primary == Some(id)
    decreases |steps|
  {
    if steps == [] {
    } else {
      assert steps[0] != Unregister(id);
      PrimaryStable(Apply(r, steps[0]), steps[1..], id);
    }
  }

  /** When it does, the willing client registered latest of those left takes over. */
  lemma PromotesLatest(steps: seq<Step>, id: nat)
    requires RunEnabled(Empty, steps) && Run(Empty, steps).primary == Some(id)
    ensures var t := Apply(Run(Empty, steps), Unregister(id));
      match t.primary
      case None => forall x :: x in t.clients ==> !t.clients[x].wantPrimary
      case Some(next) => exists i: nat :: i < |t.order| && LastWillingAt(t, |t.order|, i) && t.order[i] == next
  {
    RunKeeps(Empty, steps);
    var r := Run(Empty, steps);
    StepKeeps(r, Unregister(id));
    var t := Apply(r, Unregister(id));
    LatestIgnoresPrimary(t, Registry(t.clients, t.order, r.primary), |t.order|);
    LatestWillingIs(t, |t.order|);
  }

  /** Over every run, routing exactly: a method that no capability owns is refused as such, whoever is asked;
      else an unknown target is; else the request goes to the target, or without one to the primary, if and
      only if that client has the capability. */
  lemma RouteIff(steps: seq<Step>, name: Text, target: Option<nat>)
    requires RunEnabled(Empty, steps)
    ensures var r := Run(Empty, steps);
      var cap, answer := MethodCapability(name), RouteTo(r, name, target);
      && (answer == NotGuiOwned <==> cap == None)
      && (answer == UnknownClient <==> cap.Some? && target.Some? && target.value !in r.clients)
      && (forall id :: answer == Routed(id) <==>
            && cap.Some? && id in r.clients && cap.value in r.clients[id].capabilities
            && (target == Some(id) || (target == None && r.primary == Some(id))))
      && (answer == NoGui <==>
            && cap.Some?
            && (target.Some? ==> target.value in r.clients && cap.value !in r.clients[target.value].capabilities)
            && (target.None? ==> r.primary.Some? ==>
                  r.primary.value in r.clients && cap.value !in r.clients[r.primary.value].capabilities))
  {
    RunKeeps(Empty, steps);
  }
}
