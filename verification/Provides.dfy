/** Ownership of action names among plugins: `resolve_provides`, before any service is started. */
module Provides {
  import opened ConditionSyntax
  import opened Ordering

  datatype Service = Service(name: Text, actions: seq<Text>)

  /** A directory is only ever compared with another: it is its rank in that order. */
  datatype Plugin = Plugin(name: Text, dir: nat, services: seq<Service>)

  datatype Conflict = Conflict(action: Text, winner: Text, losers: seq<Text>)

  /** One service of one plugin, in the order the plugins are walked. */
  datatype Slot = Slot(plugin: Text, service: Text, actions: seq<Text>)

  datatype Decl = Decl(plugin: Text, action: Text)

  // ---- The walk order --------------------------------------------------------------------------

  predicate Before(p: Plugin, q: Plugin) {
    Less(p.name, q.name) || (p.name == q.name && p.dir < q.dir)
  }

  predicate Ordered(s: seq<Plugin>) {
    forall i, j :: 0 <= i < j < |s| ==> !Before(s[j], s[i])
  }

  lemma NotBeforeTransitive(p: Plugin, q: Plugin, r: Plugin)
    requires !Before(q, p) && !Before(r, q)
    ensures !Before(r, p)
  {
    LessTotal(p.name, q.name);
    LessTotal(q.name, r.name);
    LessTotal(p.name, r.name);
    if Less(p.name, q.name) && Less(q.name, r.name) { LessTransitive(p.name, q.name, r.name); }
  }

  lemma OrderedInFront(p: Plugin, s: seq<Plugin>)
    requires Ordered(s) && (s != [] ==> !Before(s[0], p))
    ensures Ordered([p] + s)
  {
    forall j | 0 <= j < |s| ensures !Before(s[j], p) {
      if j > 0 { NotBeforeTransitive(p, s[0], s[j]); }
    }
  }

  lemma OrderedBehind(p: Plugin, s: seq<Plugin>, rest: seq<Plugin>)
    requires s != [] && Ordered(s) && Before(s[0], p) && Ordered(rest)
    requires multiset(rest) == multiset(s[1..]) + multiset{p}
    ensures Ordered([s[0]] + rest)
  {
    LessTotal(p.name, s[0].name);
    forall i | 0 <= i < |rest| ensures !Before(rest[i], s[0]) {
      assert rest[i] in multiset(rest);
      assert rest[i] == p || rest[i] in s[1..];
    }
  }

  function InsertPlugin(p: Plugin, s: seq<Plugin>): (r: seq<Plugin>)
    requires Ordered(s)
    ensures Ordered(r) && multiset(r) == multiset(s) + multiset{p}
    decreases |s|
  {
    if s == [] then [p]
    else
      assert s == [s[0]] + s[1..];
      if Before(s[0], p) then
        var rest := InsertPlugin(p, s[1..]);
        OrderedBehind(p, s, rest);
        [s[0]] + rest
      else
        OrderedInFront(p, s);
        [p] + s
  }

  /** `sort_by` name and then directory, stable. */
  function StableSort(s: seq<Plugin>): (r: seq<Plugin>)
    ensures Ordered(r) && multiset(r) == multiset(s)
  {
    if s == [] then []
    else
      assert s == [s[0]] + s[1..];
      InsertPlugin(s[0], StableSort(s[1..]))
  }

  predicate DistinctNames(s: seq<Plugin>) {
    forall i, j :: 0 <= i < j < |s| ==> s[i].name != s[j].name
  }

  lemma FirstIsNotAfter(a: seq<Plugin>, x: Plugin)
    requires Ordered(a) && x in a
    ensures !Before(x, a[0])
  {
    var i :| 0 <= i < |a| && a[i] == x;
    LessTotal(x.name, x.name);
  }

  predicate Distinguishable(a: seq<Plugin>) {
    forall p, q :: p in a && q in a && p.name == q.name && p.dir == q.dir ==> p == q
  }

  lemma HeadsAgree(a: seq<Plugin>, b: seq<Plugin>)
    requires Ordered(a) && Ordered(b) && a != [] && b != [] && a[0] in b && b[0] in a && Distinguishable(a)
    ensures a[0] == b[0]
  {
    FirstIsNotAfter(a, b[0]);
    FirstIsNotAfter(b, a[0]);
    LessTotal(a[0].name, b[0].name);
  }

  /** Two ordered listings of the same plugins agree when no two plugins compare equal. */
  lemma {:induction false} OrderedUnique(a: seq<Plugin>, b: seq<Plugin>)
    requires Ordered(a) && Ordered(b) && multiset(a) == multiset(b) && Distinguishable(a)
    ensures a == b
    decreases |a|
  {
    assert |multiset(a)| == |a| && |multiset(b)| == |b|;
    if a == [] {
    } else {
      assert a[0] in multiset(b) && b[0] in multiset(a);
      HeadsAgree(a, b);
      assert a == [a[0]] + a[1..] && b == [b[0]] + b[1..];
      assert multiset(a[1..]) == multiset(a) - multiset{a[0]};
      assert multiset(b[1..]) == multiset(b) - multiset{b[0]};
      assert forall p :: p in a[1..] ==> p in a;
      OrderedUnique(a[1..], b[1..]);
    }
  }

  // ---- The tables built by the walk ------------------------------------------------------------

  function PluginSlots(plugin: Text, services: seq<Service>): (r: seq<Slot>) {
    seq(|services|, i requires 0 <= i < |services| => Slot(plugin, services[i].name, services[i].actions))
  }

  function Slots(plugins: seq<Plugin>): seq<Slot> {
    if plugins == [] then []
    else
      var n := |plugins| - 1;
      Slots(plugins[..n]) + PluginSlots(plugins[n].name, plugins[n].services)
  }

  function ActionDecls(plugin: Text, actions: seq<Text>): seq<Decl> {
    seq(|actions|, i requires 0 <= i < |actions| => Decl(plugin, actions[i]))
  }

  function Decls(slots: seq<Slot>): seq<Decl> {
    if slots == [] then []
    else Decls(slots[..|slots| - 1]) + ActionDecls(slots[|slots| - 1].plugin, slots[|slots| - 1].actions)
  }

  function OwnerMap(d: seq<Decl>): map<Text, Text> {
    if d == [] then map[]
    else
      var owner, last := OwnerMap(d[..|d| - 1]), d[|d| - 1];
      if last.action in owner then owner else owner[last.action := last.plugin]
  }

  function Losers(d: seq<Decl>, action: Text): seq<Text> {
    if d == [] then []
    else
      var before, last := d[..|d| - 1], d[|d| - 1];
      var owner, losers := OwnerMap(before), Losers(before, action);
      if last.action == action && action in owner && owner[action] != last.plugin && last.plugin !in losers
      then losers + [last.plugin]
      else losers
  }

  function ConflictMap(d: seq<Decl>): map<Text, Conflict> {
    if d == [] then map[]
    else
      var before, last := d[..|d| - 1], d[|d| - 1];
      var owner, m := OwnerMap(before), ConflictMap(before);
      if last.action in owner && owner[last.action] != last.plugin then
        m[last.action := Entered(m, last, owner[last.action])]
      else m
  }

  function Entered(m: map<Text, Conflict>, x: Decl, winner: Text): Conflict {
    var entry := if x.action in m then m[x.action] else Conflict(x.action, winner, []);
    if x.plugin in entry.losers then entry else entry.(losers := entry.losers + [x.plugin])
  }

  /** What a service takes of its actions when `owned` already have an owner. */
  function Take(owned: set<Text>, actions: seq<Text>): seq<Text> {
    if actions == [] then []
    else
      var before, last := actions[..|actions| - 1], actions[|actions| - 1];
      Take(owned, before) + if last !in owned && last !in before then [last] else []
  }

  function SlotTake(slots: seq<Slot>, i: nat): seq<Text>
    requires i < |slots|
  {
    Take(OwnerMap(Decls(slots[..i])).Keys, slots[i].actions)
  }

  function Approve(slots: seq<Slot>): map<(Text, Text), seq<Text>> {
    if slots == [] then map[]
    else
      var n := |slots| - 1;
      Approve(slots[..n])[(slots[n].plugin, slots[n].service) := SlotTake(slots, n)]
  }

  /** `list` holds the values of `m`, sorted by action. */
  ghost predicate Lists(m: map<Text, Conflict>, list: seq<Conflict>) {
    && Increasing(ActionsOf(list)) && Elements(ActionsOf(list)) == m.Keys
    && forall i :: 0 <= i < |list| ==> list[i].action in m && list[i] == m[list[i].action]
  }

  function ActionsOf(list: seq<Conflict>): seq<Text> {
    seq(|list|, i requires 0 <= i < |list| => list[i].action)
  }

  ghost predicate Resolved(plugins: seq<Plugin>, approved: map<(Text, Text), seq<Text>>, conflicts: seq<Conflict>) {
    var slots := Slots(StableSort(plugins));
    approved == Approve(slots) && Lists(ConflictMap(Decls(slots)), conflicts)
  }

  // ---- The walk --------------------------------------------------------------------------------

  lemma DeclSnoc(d: seq<Decl>, x: Decl)
    ensures OwnerMap(d + [x]) == if x.action in OwnerMap(d) then OwnerMap(d) else OwnerMap(d)[x.action := x.plugin]
    ensures ConflictMap(d + [x]) == if x.action in OwnerMap(d) && OwnerMap(d)[x.action] != x.plugin
      then ConflictMap(d)[x.action := Entered(ConflictMap(d), x, OwnerMap(d)[x.action])] else ConflictMap(d)
  {
    assert (d + [x])[..|d|] == d;
  }

  lemma ActionSnoc(d: seq<Decl>, plugin: Text, actions: seq<Text>, k: nat)
    requires k < |actions|
    ensures d + ActionDecls(plugin, actions[..k + 1]) == d + ActionDecls(plugin, actions[..k]) + [Decl(plugin, actions[k])]
  {
  }

  lemma OwnerKeysSnoc(d: seq<Decl>, x: Decl)
    ensures OwnerMap(d + [x]).Keys == OwnerMap(d).Keys + {x.action}
  {
    assert (d + [x])[..|d|] == d;
  }

  lemma {:induction false} OwnerKeys(d: seq<Decl>, plugin: Text, actions: seq<Text>, k: nat)
    requires k <= |actions|
    ensures OwnerMap(d + ActionDecls(plugin, actions[..k])).Keys == OwnerMap(d).Keys + Elements(actions[..k])
    decreases k
  {
    hide OwnerMap;
    if k == 0 {
      assert d + ActionDecls(plugin, actions[..0]) == d;
    } else {
      OwnerKeys(d, plugin, actions, k - 1);
      ActionSnoc(d, plugin, actions, k - 1);
      OwnerKeysSnoc(d + ActionDecls(plugin, actions[..k - 1]), Decl(plugin, actions[k - 1]));
      assert Elements(actions[..k]) == Elements(actions[..k - 1]) + {actions[k - 1]} by {
        assert actions[..k] == actions[..k - 1] + [actions[k - 1]];
      }
    }
  }

  lemma TakeSnoc(d: seq<Decl>, plugin: Text, actions: seq<Text>, k: nat)
    requires k < |actions|
    ensures var owned := OwnerMap(d).Keys;
      Take(owned, actions[..k + 1]) == Take(owned, actions[..k]) +
        if actions[k] in OwnerMap(d + ActionDecls(plugin, actions[..k])) then [] else [actions[k]]
  {
    OwnerKeys(d, plugin, actions, k);
    assert actions[..k + 1][..k] == actions[..k];
    assert actions[k] in Elements(actions[..k]) <==> actions[k] in actions[..k];
  }

  /** The loop over one service's actions; `d` is what was declared before it. */
  method WalkService(ghost d: seq<Decl>, pname: Text, actions: seq<Text>,
      owner0: map<Text, Text>, conflicts0: map<Text, Conflict>)
    returns (owner: map<Text, Text>, conflicts: map<Text, Conflict>, take: seq<Text>)
    requires owner0 == OwnerMap(d) && conflicts0 == ConflictMap(d)
    ensures owner == OwnerMap(d + ActionDecls(pname, actions))
    ensures conflicts == ConflictMap(d + ActionDecls(pname, actions))
    ensures take == Take(OwnerMap(d).Keys, actions)
  {
    owner, conflicts, take := owner0, conflicts0, [];
    assert d + ActionDecls(pname, actions[..0]) == d;
    for k := 0 to |actions|
      invariant owner == OwnerMap(d + ActionDecls(pname, actions[..k]))
      invariant conflicts == ConflictMap(d + ActionDecls(pname, actions[..k]))
      invariant take == Take(OwnerMap(d).Keys, actions[..k])
    {
      var action := actions[k];
      ActionSnoc(d, pname, actions, k);
      TakeSnoc(d, pname, actions, k);
      DeclSnoc(d + ActionDecls(pname, actions[..k]), Decl(pname, action));
      if action !in owner {
        owner := owner[action := pname];
        take := take + [action];
      } else if owner[action] != pname {
        var entry := if action in conflicts then conflicts[action] else Conflict(action, owner[action], []);
        if pname !in entry.losers { entry := entry.(losers := entry.losers + [pname]); }
        conflicts := conflicts[action := entry];
      }
    }
    assert actions[..|actions|] == actions;
  }

  lemma SlotSnoc(done: seq<Slot>, slot: Slot)
    ensures Decls(done + [slot]) == Decls(done) + ActionDecls(slot.plugin, slot.actions)
    ensures Approve(done + [slot]) ==
      Approve(done)[(slot.plugin, slot.service) := Take(OwnerMap(Decls(done)).Keys, slot.actions)]
  {
    assert (done + [slot])[..|done|] == done;
  }

  lemma PluginSlotSnoc(done: seq<Slot>, plugin: Plugin, j: nat)
    requires j < |plugin.services|
    ensures var svc := plugin.services[j];
      done + PluginSlots(plugin.name, plugin.services[..j + 1])
        == done + PluginSlots(plugin.name, plugin.services[..j]) + [Slot(plugin.name, svc.name, svc.actions)]
  {
  }

  /** The loop over one plugin's services; `done` are the slots before it. */
  method WalkPlugin(ghost done: seq<Slot>, plugin: Plugin, owner0: map<Text, Text>,
      conflicts0: map<Text, Conflict>, approved0: map<(Text, Text), seq<Text>>)
    returns (owner: map<Text, Text>, conflicts: map<Text, Conflict>, approved: map<(Text, Text), seq<Text>>)
    requires owner0 == OwnerMap(Decls(done)) && conflicts0 == ConflictMap(Decls(done)) && approved0 == Approve(done)
    ensures var slots := done + PluginSlots(plugin.name, plugin.services);
      owner == OwnerMap(Decls(slots)) && conflicts == ConflictMap(Decls(slots)) && approved == Approve(slots)
  {
    owner, conflicts, approved := owner0, conflicts0, approved0;
    ghost var slots := done;
    assert slots == done + PluginSlots(plugin.name, plugin.services[..0]);
    for j := 0 to |plugin.services|
      invariant slots == done + PluginSlots(plugin.name, plugin.services[..j])
      invariant owner == OwnerMap(Decls(slots)) && conflicts == ConflictMap(Decls(slots)) && approved == Approve(slots)
    {
      var svc := plugin.services[j];
      var take;
      owner, conflicts, take := WalkService(Decls(slots), plugin.name, svc.actions, owner, conflicts);
      approved := approved[(plugin.name, svc.name) := take];
      PluginSlotSnoc(done, plugin, j);
      SlotSnoc(slots, Slot(plugin.name, svc.name, svc.actions));
      slots := slots + [Slot(plugin.name, svc.name, svc.actions)];
    }
    assert plugin.services[..|plugin.services|] == plugin.services;
  }

  method SortConflicts(m: map<Text, Conflict>) returns (list: seq<Conflict>)
    requires forall a :: a in m ==> m[a].action == a
    ensures Lists(m, list)
  {
    var keys: seq<Text> := [];
    var left := m.Keys;
    while left != {}
      invariant Increasing(keys) && left <= m.Keys && Elements(keys) == m.Keys - left
      decreases |left|
    {
      var a :| a in left;
      keys := Insert(a, keys);
      left := left - {a};
    }
    assert forall i :: 0 <= i < |keys| ==> keys[i] in Elements(keys);
    list := seq(|keys|, i requires 0 <= i < |keys| && keys[i] in m => m[keys[i]]);
    assert ActionsOf(list) == keys;
  }

  lemma SlotsSnoc(ordered: seq<Plugin>, i: nat)
    requires i < |ordered|
    ensures Slots(ordered[..i + 1]) == Slots(ordered[..i]) + PluginSlots(ordered[i].name, ordered[i].services)
  {
    assert ordered[..i + 1][..i] == ordered[..i];
  }

  lemma EmptyTables()
    ensures Slots([]) == [] && OwnerMap(Decls([])) == map[] && ConflictMap(Decls([])) == map[] && Approve([]) == map[]
  {
  }

  method ResolveProvides(plugins: seq<Plugin>)
    returns (approved: map<(Text, Text), seq<Text>>, conflictList: seq<Conflict>)
    ensures Resolved(plugins, approved, conflictList)
  {
    hide Slots, OwnerMap, Approve, Decls, StableSort;
    var ordered := StableSort(plugins);
    var owner: map<Text, Text> := map[];
    var conflicts: map<Text, Conflict> := map[];
    approved := map[];
    EmptyTables();
    for i := 0 to |ordered|
      invariant owner == OwnerMap(Decls(Slots(ordered[..i])))
      invariant conflicts == ConflictMap(Decls(Slots(ordered[..i])))
      invariant approved == Approve(Slots(ordered[..i]))
    {
      SlotsSnoc(ordered, i);
      owner, conflicts, approved := WalkPlugin(Slots(ordered[..i]), ordered[i], owner, conflicts, approved);
    }
    assert ordered[..|ordered|] == ordered;
    forall a | a in conflicts ensures conflicts[a].action == a { ConflictMeaning(Decls(Slots(ordered)), a); }
    conflictList := SortConflicts(conflicts);
  }

  // ---- What the tables mean --------------------------------------------------------------------

  lemma {:induction false} ConflictMeaning(d: seq<Decl>, a: Text)
    ensures a in ConflictMap(d) <==> Losers(d, a) != []
    ensures a in ConflictMap(d) ==>
      a in OwnerMap(d) && ConflictMap(d)[a] == Conflict(a, OwnerMap(d)[a], Losers(d, a))
  {
    if d == [] {
    } else {
      ConflictMeaning(d[..|d| - 1], a);
    }
  }

  /** `d[i]` is the first declaration of its action. */
  predicate FirstDecl(d: seq<Decl>, i: nat)
    requires i < |d|
  {
    forall j :: 0 <= j < i ==> d[j].action != d[i].action
  }

  /** The owner of an action is the plugin that declares it first, and every declared action has one. */
  lemma {:induction false} OwnerIsFirst(d: seq<Decl>, i: nat)
    requires i < |d|
    ensures d[i].action in OwnerMap(d) && (FirstDecl(d, i) ==> OwnerMap(d)[d[i].action] == d[i].plugin)
  {
    var n := |d| - 1;
    if i < n {
      assert FirstDecl(d, i) ==> FirstDecl(d[..n], i);
      OwnerIsFirst(d[..n], i);
    } else if d[n].action in OwnerMap(d[..n]) {
      var j := OwnedIsDeclared(d[..n], d[n].action);
    }
  }

  lemma {:induction false} OwnedIsDeclared(d: seq<Decl>, a: Text) returns (i: nat)
    requires a in OwnerMap(d)
    ensures i < |d| && d[i] == Decl(OwnerMap(d)[a], a) && FirstDecl(d, i)
  {
    var n := |d| - 1;
    if a in OwnerMap(d[..n]) {
      i := OwnedIsDeclared(d[..n], a);
    } else {
      i := n;
      if j :| 0 <= j < n && d[j].action == a { OwnerIsFirst(d[..n], j); }
    }
  }

  /** Declarations come in the order of the plugin names. */
  predicate InOrder(d: seq<Decl>) {
    forall i, j :: 0 <= i < j < |d| ==> !Less(d[j].plugin, d[i].plugin)
  }

  /** In a walk by name, the losers of an action are all its declarers but the owner, increasing. */
  lemma {:induction false} LosersMeaning(d: seq<Decl>, a: Text)
    requires InOrder(d)
    ensures Increasing(Losers(d, a))
    ensures forall n :: n in Losers(d, a) <==> Decl(n, a) in d && a in OwnerMap(d) && n != OwnerMap(d)[a]
  {
    if d == [] {
    } else {
      var k := |d| - 1;
      var before, last := d[..k], d[k];
      LosersMeaning(before, a);
      assert d == before + [last];
      forall n | Decl(n, a) in before ensures a in OwnerMap(before) {
        var i :| 0 <= i < k && before[i] == Decl(n, a);
        OwnerIsFirst(before, i);
      }
      forall n | Decl(n, a) in before && n != last.plugin ensures Less(n, last.plugin) {
        var i :| 0 <= i < k && before[i] == Decl(n, a);
        LessTotal(n, last.plugin);
      }
    }
  }

  /** In a walk by name, the owner is the least declarer. */
  lemma OwnerIsLeast(d: seq<Decl>, a: Text, n: Text)
    requires InOrder(d) && Decl(n, a) in d
    ensures a in OwnerMap(d) && Decl(OwnerMap(d)[a], a) in d
    ensures n == OwnerMap(d)[a] || Less(OwnerMap(d)[a], n)
  {
    var i :| 0 <= i < |d| && d[i] == Decl(n, a);
    OwnerIsFirst(d, i);
    var j := OwnedIsDeclared(d, a);
    assert d[i].action == a && j <= i;
    LessTotal(n, d[j].plugin);
  }

  // ---- From the plugins to the walk ------------------------------------------------------------

  predicate Offers(p: Plugin, action: Text) {
    exists s :: s in p.services && action in s.actions
  }

  predicate Declares(plugins: seq<Plugin>, name: Text, action: Text) {
    exists p :: p in plugins && p.name == name && Offers(p, action)
  }

  lemma {:induction false} SlotOrigin(plugins: seq<Plugin>)
    ensures forall slot :: slot in Slots(plugins) <==>
      exists p, s :: p in plugins && s in p.services && slot == Slot(p.name, s.name, s.actions)
  {
    if plugins == [] {
    } else {
      var n := |plugins| - 1;
      SlotOrigin(plugins[..n]);
      assert plugins == plugins[..n] + [plugins[n]];
      forall slot ensures slot in PluginSlots(plugins[n].name, plugins[n].services) <==>
        exists s :: s in plugins[n].services && slot == Slot(plugins[n].name, s.name, s.actions)
      {
        if s :| s in plugins[n].services && slot == Slot(plugins[n].name, s.name, s.actions) {
          var j :| 0 <= j < |plugins[n].services| && plugins[n].services[j] == s;
          assert PluginSlots(plugins[n].name, plugins[n].services)[j] == slot;
        }
      }
    }
  }

  lemma {:induction false} DeclOrigin(slots: seq<Slot>)
    ensures forall x :: x in Decls(slots) <==>
      exists slot :: slot in slots && slot.plugin == x.plugin && x.action in slot.actions
  {
    if slots == [] {
    } else {
      var n := |slots| - 1;
      DeclOrigin(slots[..n]);
      assert slots == slots[..n] + [slots[n]];
      forall x ensures x in ActionDecls(slots[n].plugin, slots[n].actions) <==>
        slots[n].plugin == x.plugin && x.action in slots[n].actions
      {
        if slots[n].plugin == x.plugin && x.action in slots[n].actions {
          var j :| 0 <= j < |slots[n].actions| && slots[n].actions[j] == x.action;
          assert ActionDecls(slots[n].plugin, slots[n].actions)[j] == x;
        }
      }
    }
  }

  lemma DeclaredInWalk(plugins: seq<Plugin>, name: Text, action: Text)
    ensures Decl(name, action) in Decls(Slots(StableSort(plugins))) <==> Declares(plugins, name, action)
  {
    var ordered := StableSort(plugins);
    SlotOrigin(ordered);
    DeclOrigin(Slots(ordered));
    forall p ensures p in plugins <==> p in ordered {
      assert p in multiset(plugins) <==> p in multiset(ordered);
    }
    if Declares(plugins, name, action) {
      var p :| p in plugins && p.name == name && Offers(p, action);
      var s :| s in p.services && action in s.actions;
      assert Slot(p.name, s.name, s.actions) in Slots(ordered);
    }
  }

  predicate SlotsOrdered(slots: seq<Slot>) {
    forall i, j :: 0 <= i < j < |slots| ==> !Less(slots[j].plugin, slots[i].plugin)
  }

  lemma {:induction false} SlotsInOrder(plugins: seq<Plugin>)
    requires Ordered(plugins)
    ensures SlotsOrdered(Slots(plugins))
  {
    if plugins == [] {
    } else {
      var n := |plugins| - 1;
      SlotsInOrder(plugins[..n]);
      SlotOrigin(plugins[..n]);
      LessTotal(plugins[n].name, plugins[n].name);
      forall slot | slot in Slots(plugins[..n]) ensures !Less(plugins[n].name, slot.plugin) {
        var p, s :| p in plugins[..n] && s in p.services && slot == Slot(p.name, s.name, s.actions);
        var i :| 0 <= i < n && plugins[i] == p;
        assert !Before(plugins[n], plugins[i]);
      }
      var slots, m := Slots(plugins), |Slots(plugins[..n])|;
      forall i, j | 0 <= i < j < |slots| ensures !Less(slots[j].plugin, slots[i].plugin) {
        if j < m {
          assert slots[i] == Slots(plugins[..n])[i] && slots[j] == Slots(plugins[..n])[j];
        } else {
          assert slots[j].plugin == plugins[n].name;
          if i < m { assert slots[i] in Slots(plugins[..n]); } else { assert slots[i].plugin == plugins[n].name; }
        }
      }
    }
  }

  lemma {:induction false} DeclsInOrder(slots: seq<Slot>)
    requires SlotsOrdered(slots)
    ensures InOrder(Decls(slots))
  {
    if slots == [] {
    } else {
      var n := |slots| - 1;
      DeclsInOrder(slots[..n]);
      DeclOrigin(slots[..n]);
      LessTotal(slots[n].plugin, slots[n].plugin);
      forall x | x in Decls(slots[..n]) ensures !Less(slots[n].plugin, x.plugin) {
        var slot :| slot in slots[..n] && slot.plugin == x.plugin && x.action in slot.actions;
      }
    }
  }

  lemma WalkInOrder(plugins: seq<Plugin>)
    ensures InOrder(Decls(Slots(StableSort(plugins))))
  {
    SlotsInOrder(StableSort(plugins));
    DeclsInOrder(Slots(StableSort(plugins)));
  }

  // ---- Approved actions ------------------------------------------------------------------------

  lemma {:induction false} TakeMembers(owned: set<Text>, actions: seq<Text>)
    ensures forall a :: a in Take(owned, actions) <==> a in actions && a !in owned
    ensures forall i, j :: 0 <= i < j < |Take(owned, actions)| ==> Take(owned, actions)[i] != Take(owned, actions)[j]
  {
    if actions == [] {
    } else {
      var n := |actions| - 1;
      TakeMembers(owned, actions[..n]);
      assert actions == actions[..n] + [actions[n]];
    }
  }

  predicate FirstSlot(slots: seq<Slot>, i: nat, a: Text)
    requires i < |slots|
  {
    a in slots[i].actions && forall j :: 0 <= j < i ==> a !in slots[j].actions
  }

  lemma TakenIffFirst(slots: seq<Slot>, i: nat, a: Text)
    requires i < |slots|
    ensures a in SlotTake(slots, i) <==> FirstSlot(slots, i, a)
  {
    var d := Decls(slots[..i]);
    TakeMembers(OwnerMap(d).Keys, slots[i].actions);
    DeclOrigin(slots[..i]);
    if a in OwnerMap(d) {
      var k := OwnedIsDeclared(d, a);
      assert d[k] in d;
      var slot :| slot in slots[..i] && slot.plugin == d[k].plugin && a in slot.actions;
    } else if j :| 0 <= j < i && a in slots[j].actions {
      assert slots[j] in slots[..i];
      assert Decl(slots[j].plugin, a) in d;
      var k :| 0 <= k < |d| && d[k] == Decl(slots[j].plugin, a);
      OwnerIsFirst(d, k);
    }
  }

  function Key(slot: Slot): (Text, Text) { (slot.plugin, slot.service) }

  predicate LastOfKey(slots: seq<Slot>, i: nat)
    requires i < |slots|
  {
    forall j :: i < j < |slots| ==> Key(slots[j]) != Key(slots[i])
  }

  /** A key keeps what its last service took. */
  lemma {:induction false} ApproveKeepsLast(slots: seq<Slot>, i: nat)
    requires i < |slots| && LastOfKey(slots, i)
    ensures Key(slots[i]) in Approve(slots) && Approve(slots)[Key(slots[i])] == SlotTake(slots, i)
  {
    var n := |slots| - 1;
    if i < n {
      assert slots[..n][..i] == slots[..i];
      ApproveKeepsLast(slots[..n], i);
    }
  }

  lemma {:induction false} ApproveOrigin(slots: seq<Slot>, k: (Text, Text)) returns (i: nat)
    requires k in Approve(slots)
    ensures i < |slots| && Key(slots[i]) == k && LastOfKey(slots, i)
  {
    var n := |slots| - 1;
    if k == Key(slots[n]) { return n; }
    i := ApproveOrigin(slots[..n], k);
  }

  /** Exactly when a declared action is approved for anyone: no later service has the same plugin and
      service name as the one that declares it first.  The map overwrites such an entry. */
  lemma ApprovedIffNotOverwritten(slots: seq<Slot>, i: nat, a: Text)
    requires i < |slots| && FirstSlot(slots, i, a)
    ensures (exists k :: k in Approve(slots) && a in Approve(slots)[k]) <==> LastOfKey(slots, i)
    ensures forall k :: k in Approve(slots) && a in Approve(slots)[k] ==> k == Key(slots[i])
  {
    forall k | k in Approve(slots) && a in Approve(slots)[k] ensures k == Key(slots[i]) && LastOfKey(slots, i) {
      var j := ApproveOrigin(slots, k);
      ApproveKeepsLast(slots, j);
      TakenIffFirst(slots, j, a);
    }
    if LastOfKey(slots, i) {
      ApproveKeepsLast(slots, i);
      TakenIffFirst(slots, i, a);
    }
  }

  /** The overwriting does happen: a plugin that names two of its services alike loses the action of
      the first one to nobody. */
  lemma SameServiceNameLosesAction(action: Text)
    ensures var p := Plugin("p", 0, [Service("s", [action]), Service("s", [])]);
      forall k :: k in Approve(Slots(StableSort([p]))) ==> action !in Approve(Slots(StableSort([p])))[k]
  {
    var p := Plugin("p", 0, [Service("s", [action]), Service("s", [])]);
    assert [p][1..] == [] && StableSort([]) == [];
    assert StableSort([p]) == [p];
    var slots := Slots([p]);
    assert [p][..0] == [] && Slots([]) == [];
    assert slots == PluginSlots(p.name, p.services);
    assert slots == [Slot("p", "s", [action]), Slot("p", "s", [])];
    assert FirstSlot(slots, 0, action);
    ApprovedIffNotOverwritten(slots, 0, action);
    assert Key(slots[1]) == Key(slots[0]);
  }

  predicate DistinctServices(p: Plugin) {
    forall i, j :: 0 <= i < j < |p.services| ==> p.services[i].name != p.services[j].name
  }

  /** No plugin name occurs twice, and no service name twice within a plugin. */
  predicate DistinctPairs(plugins: seq<Plugin>) {
    DistinctNames(plugins) && forall p :: p in plugins ==> DistinctServices(p)
  }

  predicate DistinctSlots(slots: seq<Slot>) {
    forall i, j :: 0 <= i < j < |slots| ==> Key(slots[i]) != Key(slots[j])
  }

  lemma {:induction false} SlotKeysDistinct(plugins: seq<Plugin>)
    requires DistinctPairs(plugins)
    ensures DistinctSlots(Slots(plugins))
  {
    if plugins == [] {
    } else {
      var n := |plugins| - 1;
      SlotKeysDistinct(plugins[..n]);
      SlotOrigin(plugins[..n]);
      assert plugins[n] in plugins;
      forall slot | slot in Slots(plugins[..n]) ensures slot.plugin != plugins[n].name {
        var p, s :| p in plugins[..n] && s in p.services && slot == Slot(p.name, s.name, s.actions);
        var i :| 0 <= i < n && plugins[i] == p;
      }
      var slots, m := Slots(plugins), |Slots(plugins[..n])|;
      forall i, j | 0 <= i < j < |slots| ensures Key(slots[i]) != Key(slots[j]) {
        if j < m {
          assert slots[i] == Slots(plugins[..n])[i] && slots[j] == Slots(plugins[..n])[j];
        } else {
          var services := plugins[n].services;
          assert slots[j] == PluginSlots(plugins[n].name, services)[j - m];
          if i < m {
            assert slots[i] in Slots(plugins[..n]);
          } else {
            assert slots[i] == PluginSlots(plugins[n].name, services)[i - m];
            assert services[i - m].name != services[j - m].name;
          }
        }
      }
    }
  }

  lemma {:induction false} CountOnce(plugins: seq<Plugin>, p: Plugin)
    requires DistinctNames(plugins) && p in plugins
    ensures multiset(plugins)[p] == 1
  {
    var n := |plugins| - 1;
    assert plugins == plugins[..n] + [plugins[n]];
    if p == plugins[n] {
      assert p !in plugins[..n];
      assert multiset(plugins[..n])[p] == 0;
    } else {
      CountOnce(plugins[..n], p);
    }
  }

  lemma CountTwice(plugins: seq<Plugin>, i: nat, j: nat)
    requires i < j < |plugins| && plugins[i] == plugins[j]
    ensures 2 <= multiset(plugins)[plugins[i]]
  {
    assert plugins == plugins[..j] + plugins[j..];
    assert plugins[i] in plugins[..j] && plugins[j] in plugins[j..];
    assert plugins[i] in multiset(plugins[..j]) && plugins[i] in multiset(plugins[j..]);
  }

  lemma DistinctAfterSort(plugins: seq<Plugin>)
    requires DistinctPairs(plugins)
    ensures DistinctPairs(StableSort(plugins))
  {
    var ordered := StableSort(plugins);
    forall p | p in ordered ensures p in plugins { assert p in multiset(ordered); }
    forall i, j | 0 <= i < j < |ordered| ensures ordered[i].name != ordered[j].name {
      NamesApart(plugins, ordered, i, j);
    }
  }

  lemma NamesApart(plugins: seq<Plugin>, ordered: seq<Plugin>, i: nat, j: nat)
    requires DistinctNames(plugins) && multiset(ordered) == multiset(plugins) && i < j < |ordered|
    ensures ordered[i].name != ordered[j].name
  {
    var p, q := ordered[i], ordered[j];
    assert p in multiset(ordered) && q in multiset(ordered);
    if p == q {
      CountTwice(ordered, i, j);
      CountOnce(plugins, p);
    } else {
      var k :| 0 <= k < |plugins| && plugins[k] == p;
      var l :| 0 <= l < |plugins| && plugins[l] == q;
    }
  }

  // ---- Main results ----------------------------------------------------------------------------

  /** With distinct pairs of names, every declared action is approved for exactly one service, of the
      lexically least plugin declaring it, and once there. */
  lemma SingleOwner(plugins: seq<Plugin>, approved: map<(Text, Text), seq<Text>>, conflicts: seq<Conflict>,
      name: Text, action: Text)
    returns (k: (Text, Text))
    requires Resolved(plugins, approved, conflicts) && DistinctPairs(plugins) && Declares(plugins, name, action)
    ensures k in approved && action in approved[k]
    ensures forall other :: other in approved && action in approved[other] ==> other == k
    ensures forall i, j :: 0 <= i < j < |approved[k]| ==> approved[k][i] != approved[k][j]
    ensures Declares(plugins, k.0, action)
    ensures forall n :: Declares(plugins, n, action) ==> n == k.0 || Less(k.0, n)
  {
    var slots := Slots(StableSort(plugins));
    DeclaredInWalk(plugins, name, action);
    DeclOrigin(slots);
    var i := FirstDeclaring(slots, action);
    DistinctAfterSort(plugins);
    SlotKeysDistinct(StableSort(plugins));
    assert LastOfKey(slots, i);
    ApprovedIffNotOverwritten(slots, i, action);
    ApproveKeepsLast(slots, i);
    TakenIffFirst(slots, i, action);
    TakeMembers(OwnerMap(Decls(slots[..i])).Keys, slots[i].actions);
    k := Key(slots[i]);
    assert Decl(slots[i].plugin, action) in Decls(slots);
    DeclaredInWalk(plugins, slots[i].plugin, action);
    forall n | Declares(plugins, n, action) ensures n == k.0 || Less(k.0, n) {
      FirstIsLeast(plugins, i, action, n);
    }
  }

  lemma SlotOfDeclarer(plugins: seq<Plugin>, action: Text, n: Text) returns (j: nat)
    requires Declares(plugins, n, action)
    ensures var slots := Slots(StableSort(plugins)); j < |slots| && slots[j].plugin == n && action in slots[j].actions
  {
    var slots := Slots(StableSort(plugins));
    DeclaredInWalk(plugins, n, action);
    DeclOrigin(slots);
    assert Decl(n, action) in Decls(slots);
    var slot :| slot in slots && slot.plugin == n && action in slot.actions;
    j :| 0 <= j < |slots| && slots[j] == slot;
  }

  lemma FirstIsLeast(plugins: seq<Plugin>, i: nat, action: Text, n: Text)
    requires i < |Slots(StableSort(plugins))| && FirstSlot(Slots(StableSort(plugins)), i, action)
    requires Declares(plugins, n, action)
    ensures var p := Slots(StableSort(plugins))[i].plugin; n == p || Less(p, n)
  {
    var slots := Slots(StableSort(plugins));
    var j := SlotOfDeclarer(plugins, action, n);
    SlotsInOrder(StableSort(plugins));
    assert i <= j;
    LessTotal(slots[i].plugin, n);
  }

  lemma {:induction false} FirstDeclaring(slots: seq<Slot>, a: Text) returns (i: nat)
    requires exists slot :: slot in slots && a in slot.actions
    ensures i < |slots| && FirstSlot(slots, i, a)
  {
    var n := |slots| - 1;
    if exists slot :: slot in slots[..n] && a in slot.actions {
      i := FirstDeclaring(slots[..n], a);
    } else {
      i := n;
      assert forall j :: 0 <= j < n ==> slots[j] in slots[..n];
    }
  }

  /** Whatever the names: the conflict list is sorted by action, holds exactly the actions that plugins
      of two different names declare, and names the least as winner and all others as losers in order. */
  lemma ConflictsExact(plugins: seq<Plugin>, approved: map<(Text, Text), seq<Text>>, conflicts: seq<Conflict>)
    requires Resolved(plugins, approved, conflicts)
    ensures Increasing(ActionsOf(conflicts))
    ensures forall a :: a in ActionsOf(conflicts) <==>
      exists m, n :: m != n && Declares(plugins, m, a) && Declares(plugins, n, a)
    ensures forall c :: c in conflicts ==>
      && Increasing(c.losers) && Declares(plugins, c.winner, c.action)
      && (forall n :: n in c.losers <==> Declares(plugins, n, c.action) && n != c.winner)
      && (forall n :: n in c.losers ==> Less(c.winner, n))
  {
    var d := Decls(Slots(StableSort(plugins)));
    forall a ensures a in ActionsOf(conflicts) <==>
      exists m, n :: m != n && Declares(plugins, m, a) && Declares(plugins, n, a)
    {
      assert a in Elements(ActionsOf(conflicts)) <==> a in ActionsOf(conflicts);
      ConflictIff(plugins, a);
    }
    forall c | c in conflicts
      ensures && Increasing(c.losers) && Declares(plugins, c.winner, c.action)
        && (forall n :: n in c.losers <==> Declares(plugins, n, c.action) && n != c.winner)
        && (forall n :: n in c.losers ==> Less(c.winner, n))
    {
      ConflictEntry(plugins, c.action);
    }
  }

  lemma ConflictEntry(plugins: seq<Plugin>, a: Text)
    requires a in ConflictMap(Decls(Slots(StableSort(plugins))))
    ensures var c := ConflictMap(Decls(Slots(StableSort(plugins))))[a];
      && c.action == a && Increasing(c.losers) && Declares(plugins, c.winner, a)
      && (forall n :: n in c.losers <==> Declares(plugins, n, a) && n != c.winner)
      && (forall n :: n in c.losers ==> Less(c.winner, n))
  {
    var d := Decls(Slots(StableSort(plugins)));
    WalkInOrder(plugins);
    ConflictMeaning(d, a);
    LosersMeaning(d, a);
    var c := ConflictMap(d)[a];
    var i := OwnedIsDeclared(d, a);
    DeclaredInWalk(plugins, c.winner, a);
    forall n ensures n in c.losers <==> Declares(plugins, n, a) && n != c.winner {
      DeclaredInWalk(plugins, n, a);
    }
    forall n | n in c.losers ensures Less(c.winner, n) { OwnerIsLeast(d, a, n); }
  }

  lemma ConflictIff(plugins: seq<Plugin>, a: Text)
    ensures a in ConflictMap(Decls(Slots(StableSort(plugins)))) <==>
      exists m, n :: m != n && Declares(plugins, m, a) && Declares(plugins, n, a)
  {
    var d := Decls(Slots(StableSort(plugins)));
    WalkInOrder(plugins);
    ConflictMeaning(d, a);
    LosersMeaning(d, a);
    if a in ConflictMap(d) {
      ConflictEntry(plugins, a);
      var c := ConflictMap(d)[a];
      assert c.losers[0] in c.losers;
    }
    if m, n :| m != n && Declares(plugins, m, a) && Declares(plugins, n, a) {
      DeclaredInWalk(plugins, m, a);
      DeclaredInWalk(plugins, n, a);
      OwnerIsLeast(d, a, m);
      assert m in Losers(d, a) || n in Losers(d, a);
    }
  }

  lemma ListsUnique(m: map<Text, Conflict>, a: seq<Conflict>, b: seq<Conflict>)
    requires Lists(m, a) && Lists(m, b)
    ensures a == b
  {
    IncreasingUnique(ActionsOf(a), ActionsOf(b));
    assert |a| == |b|;
    forall i | 0 <= i < |a| ensures a[i] == b[i] {
      assert ActionsOf(a)[i] == ActionsOf(b)[i];
    }
  }

  /** Deterministic: the order in which the loader lists the plugins has no influence, as long as no two
      different plugins have the same name and the same directory. */
  lemma OrderIrrelevant(a: seq<Plugin>, b: seq<Plugin>,
      approvedA: map<(Text, Text), seq<Text>>, conflictsA: seq<Conflict>,
      approvedB: map<(Text, Text), seq<Text>>, conflictsB: seq<Conflict>)
    requires multiset(a) == multiset(b) && Distinguishable(a)
    requires Resolved(a, approvedA, conflictsA) && Resolved(b, approvedB, conflictsB)
    ensures approvedA == approvedB && conflictsA == conflictsB
  {
    forall p ensures p in a <==> p in StableSort(a) {
      assert p in multiset(a) <==> p in multiset(StableSort(a));
    }
    OrderedUnique(StableSort(a), StableSort(b));
    ListsUnique(ConflictMap(Decls(Slots(StableSort(a)))), conflictsA, conflictsB);
  }
}
