/** The trigger pump's subscriptions as a state machine over publish, drain and hot reload, and what
    they deliver: every event at most once, and exactly once iff a matching receiver was held from its
    publication to the next drain. */
module PumpDelivery {
  import opened ConditionSyntax
  import opened Events
  import opened Ordering
  import opened EventPattern
  import opened EventBus
  import opened AwaitMachine

  /** `receivers` maps each subscribed pattern to its channel.  `log` and `delivered` are history: what
      was published, and the publication numbers handed to the dispatcher, in order. */
  datatype Pump = Pump(bus: BusState, receivers: map<Text, nat>, log: seq<Event>, delivered: seq<nat>)

  const Fresh := Pump(BusState([], [], 0), map[], [], [])

  // ---- Reconcile -------------------------------------------------------------------------------

  /** An iteration order of a set: each element once. */
  predicate Lists<T(==)>(order: seq<T>, s: set<T>) {
    Elements(order) == s && forall i, j :: 0 <= i < j < |order| ==> order[i] != order[j]
  }

  function Unneeded(receivers: map<Text, nat>, needed: set<Text>): set<nat> {
    set q | q in receivers && q !in needed :: receivers[q]
  }

  function StillNeeded(receivers: map<Text, nat>, needed: set<Text>): map<Text, nat> {
    map q | q in receivers && q in needed :: receivers[q]
  }

  function SubscribeMissing(p: Pump, order: seq<Text>): Pump
    decreases |order|
  {
    if order == [] then p
    else
      var q := SubscribeMissing(p, order[..|order| - 1]);
      var pattern := order[|order| - 1];
      if pattern in q.receivers then q else AddReceiver(q, pattern)
  }

  function AddReceiver(p: Pump, pattern: Text): Pump {
    p.(bus := Subscribe(p.bus, pattern, None), receivers := p.receivers[pattern := |p.bus.channels|])
  }

  function Reconcile(p: Pump, patterns: seq<Text>, order: seq<Text>): Pump {
    SubscribeMissing(Pruned(p, Elements(Covering(patterns))), order)
  }

  function Pruned(p: Pump, needed: set<Text>): Pump {
    p.(bus := Drop(p.bus, Unneeded(p.receivers, needed)), receivers := StillNeeded(p.receivers, needed))
  }

  // ---- Drain -----------------------------------------------------------------------------------

  function Completing(x: Stamped): bool { IsCompletion(x.event) }

  /** Stable sort by "is a registry completion" first. */
  function Sorted(xs: seq<Stamped>): seq<Stamped> { SortedFirst(xs, Completing) }

  /** All queues, in the order the receivers are visited. */
  function Collected(channels: seq<Channel>, receivers: map<Text, nat>, order: seq<Text>): seq<Stamped>
    requires forall q :: q in order ==> q in receivers && receivers[q] < |channels|
  {
    if order == [] then []
    else
      Collected(channels, receivers, order[..|order| - 1]) + channels[receivers[order[|order| - 1]]].queue
  }

  function Serials(xs: seq<Stamped>): seq<nat> { seq(|xs|, i requires 0 <= i < |xs| => xs[i].serial) }

  function Emptied(channels: seq<Channel>, drained: set<nat>): seq<Channel> {
    seq(|channels|, i requires 0 <= i < |channels| =>
      if i in drained then channels[i].(queue := []) else channels[i])
  }

  function ChannelsOf(receivers: map<Text, nat>, order: seq<Text>): set<nat>
    requires forall q :: q in order ==> q in receivers
  {
    set q | q in order :: receivers[q]
  }

  function Drain(p: Pump, order: seq<Text>): Pump
    requires forall q :: q in order ==> q in p.receivers && p.receivers[q] < |p.bus.channels|
  {
    p.(bus := p.bus.(channels := Emptied(p.bus.channels, ChannelsOf(p.receivers, order))),
       delivered := p.delivered + Serials(Sorted(Collected(p.bus.channels, p.receivers, order))))
  }

  /** Sorting what was drained is sorting its events as the await machine expects them. */
  lemma SortedPrioritizes(xs: seq<Stamped>)
    ensures EventsOf(Sorted(xs)) == Prioritized(EventsOf(xs))
  {
    SelectEvents(xs, true);
    SelectEvents(xs, false);
    var a, b := Select(xs, Completing, true), Select(xs, Completing, false);
    assert EventsOf(a + b) == EventsOf(a) + EventsOf(b);
  }

  lemma {:induction false} SelectEvents(xs: seq<Stamped>, completions: bool)
    ensures EventsOf(Select(xs, Completing, completions)) == Select(EventsOf(xs), IsCompletion, completions)
  {
    if xs == [] {
    } else {
      var front, last := xs[..|xs| - 1], xs[|xs| - 1];
      SelectEvents(front, completions);
      assert EventsOf(xs)[..|xs| - 1] == EventsOf(front) && EventsOf(xs)[|xs| - 1] == last.event;
      var picked := Select(front, Completing, completions);
      assert EventsOf(picked + [last]) == EventsOf(picked) + [last.event];
    }
  }

  // ---- Steps -----------------------------------------------------------------------------------

  /** What can happen on the bus: publications, the pump's own reloads and drains, and the comings,
      goings and receives of subscribers other than the pump. */
  datatype Step =
    | DoPublish(event: Event)
    | DoReconcile(patterns: seq<Text>, order: seq<Text>)
    | DoDrain(order: seq<Text>)
    | DoSubscribe(pattern: Text, bound: Option<nat>)
    | DoDrop(channel: nat)
    | DoReceive(channel: nat)

  /** All channel numbers are in range, which every step keeps (`StepInv`). */
  ghost predicate Shaped(p: Pump) {
    WellFormed(p.bus) && forall q :: q in p.receivers ==> p.receivers[q] < |p.bus.channels|
  }

  ghost predicate Allowed(p: Pump, step: Step) {
    Shaped(p) &&
    match step
    case DoReconcile(patterns, order) => Lists(order, Elements(Covering(patterns)))
    case DoDrain(order) => Lists(order, p.receivers.Keys)
    case DoDrop(c) => c !in p.receivers.Values
    case DoReceive(c) => c !in p.receivers.Values
    case _ => true
  }

  ghost function Apply(p: Pump, step: Step): Pump
    requires Allowed(p, step)
  {
    match step
    case DoPublish(e) => p.(bus := Publish(p.bus, e), log := p.log + [e])
    case DoReconcile(patterns, order) => Reconcile(p, patterns, order)
    case DoDrain(order) =>
      assert forall q :: q in order ==> q in Elements(order);
      Drain(p, order)
    case DoSubscribe(pattern, bound) => p.(bus := Subscribe(p.bus, pattern, bound))
    case DoDrop(c) => p.(bus := Drop(p.bus, {c}))
    case DoReceive(c) =>
      if c < |p.bus.channels| && p.bus.channels[c].queue != [] then
        p.(bus := p.bus.(channels := p.bus.channels[c := p.bus.channels[c].(queue := p.bus.channels[c].queue[1..])]))
      else p
  }

  // ---- Invariant -------------------------------------------------------------------------------

  ghost predicate Subscribed(p: Pump) {
    forall q :: q in p.receivers ==>
      && p.receivers[q] < |p.bus.channels| && p.bus.channels[p.receivers[q]].connected
      && Subscriber(q, p.receivers[q], None) in p.bus.subscribers
  }

  ghost predicate Injective(p: Pump) {
    forall q, r :: q in p.receivers && r in p.receivers && p.receivers[q] == p.receivers[r] ==> q == r
  }

  ghost predicate NoOverlap(p: Pump) {
    forall q, r, kind: Text {:trigger PatternMatches(q, kind), PatternMatches(r, kind)} ::
      q in p.receivers && r in p.receivers && PatternMatches(q, kind) && PatternMatches(r, kind) ==> q == r
  }

  function Queue(p: Pump, q: Text): seq<Stamped> {
    if q in p.receivers && p.receivers[q] < |p.bus.channels| then p.bus.channels[p.receivers[q]].queue else []
  }

  /** A queued event is genuine, of a kind the pattern matches, not yet delivered, and in publication
      order. */
  ghost predicate QueueOk(p: Pump, q: Text) {
    var queue := Queue(p, q);
    && (forall i :: 0 <= i < |queue| ==>
          queue[i].serial < |p.log| && queue[i].event == p.log[queue[i].serial]
          && PatternMatches(q, queue[i].event.kind) && queue[i].serial !in p.delivered)
    && (forall i, j :: 0 <= i < j < |queue| ==> queue[i].serial < queue[j].serial)
  }

  ghost predicate DeliveredOk(p: Pump) {
    && (forall i :: 0 <= i < |p.delivered| ==> p.delivered[i] < |p.log|)
    && Once(p.delivered)
  }

  ghost predicate Inv(p: Pump) {
    && WellFormed(p.bus) && p.bus.published == |p.log|
    && Subscribed(p) && Injective(p) && NoOverlap(p)
    && (forall q :: q in p.receivers ==> QueueOk(p, q))
    && DeliveredOk(p)
  }

  // ---- Each step keeps it ----------------------------------------------------------------------

  lemma SubscriberIndex(b: BusState, s: Subscriber) returns (i: nat)
    requires s in b.subscribers
    ensures i < |b.subscribers| && b.subscribers[i] == s
  {
    i :| 0 <= i < |b.subscribers| && b.subscribers[i] == s;
  }

  /** A publication appends to the queue of each receiver whose pattern matches, and to no other. */
  lemma PublishQueues(p: Pump, e: Event, q: Text)
    requires Inv(p) && q in p.receivers
    ensures var t := Apply(p, DoPublish(e));
      Queue(t, q) == if PatternMatches(q, e.kind) then Queue(p, q) + [Stamped(|p.log|, e)] else Queue(p, q)
    ensures Subscriber(q, p.receivers[q], None) in Apply(p, DoPublish(e)).bus.subscribers
  {
    PublishReaches(p.bus, e, Subscriber(q, p.receivers[q], None));
  }

  lemma PublishReaches(b: BusState, e: Event, sub: Subscriber)
    requires WellFormed(b) && sub in b.subscribers
    ensures sub.channel < |b.channels| && |Publish(b, e).channels| == |b.channels|
    ensures Publish(b, e).channels[sub.channel] == Deliver(b.channels, sub, Stamped(b.published, e))[sub.channel]
    ensures b.channels[sub.channel].connected ==> sub in Publish(b, e).subscribers
  {
    var x := Stamped(b.published, e);
    FanOk(b.channels, b.subscribers, |b.subscribers|, x);
    RetainedOk(b.channels, b.subscribers, |b.subscribers|, x);
    assert b.subscribers[..|b.subscribers|] == b.subscribers;
    var i := SubscriberIndex(b, sub);
  }

  /** A queue that gains at most the newest publication. */
  lemma QueueGrowsOk(p: Pump, t: Pump, e: Event, q: Text)
    requires QueueOk(p, q) && DeliveredOk(p) && t.log == p.log + [e] && t.delivered == p.delivered
    requires Queue(t, q) == if PatternMatches(q, e.kind) then Queue(p, q) + [Stamped(|p.log|, e)] else Queue(p, q)
    ensures QueueOk(t, q)
  {
    var n, old', new' := |p.log|, Queue(p, q), Queue(t, q);
    assert n !in p.delivered;
    forall i | 0 <= i < |new'|
      ensures && new'[i].serial < |t.log| && new'[i].event == t.log[new'[i].serial]
        && PatternMatches(q, new'[i].event.kind) && new'[i].serial !in t.delivered
    {
      if i < |old'| { assert new'[i] == old'[i]; }
    }
    forall i, j | 0 <= i < j < |new'| ensures new'[i].serial < new'[j].serial {
      assert new'[i] == old'[i];
      if j < |old'| { assert new'[j] == old'[j]; }
    }
  }

  lemma PublishQueueOk(p: Pump, e: Event, q: Text)
    requires Inv(p) && q in p.receivers
    ensures QueueOk(Apply(p, DoPublish(e)), q)
  {
    PublishQueues(p, e, q);
    QueueGrowsOk(p, Apply(p, DoPublish(e)), e, q);
  }

  lemma PublishInv(p: Pump, e: Event)
    requires Inv(p)
    ensures Inv(Apply(p, DoPublish(e)))
  {
    var t := Apply(p, DoPublish(e));
    PublishKeepsWellFormed(p.bus, e);
    forall q | q in p.receivers ensures QueueOk(t, q) { PublishQueueOk(p, e, q); }
    assert Subscribed(t) by {
      forall q | q in p.receivers ensures Subscriber(q, p.receivers[q], None) in t.bus.subscribers {
        PublishQueues(p, e, q);
      }
    }
    assert NoOverlap(t);
    assert DeliveredOk(t);
  }

  lemma SubscribeInv(p: Pump, pattern: Text, bound: Option<nat>)
    requires Inv(p)
    ensures Inv(Apply(p, DoSubscribe(pattern, bound)))
    ensures forall q :: q in p.receivers ==> Queue(Apply(p, DoSubscribe(pattern, bound)), q) == Queue(p, q)
  {
    var t := Apply(p, DoSubscribe(pattern, bound));
    forall q | q in p.receivers ensures QueueOk(t, q) && Queue(t, q) == Queue(p, q) { assert QueueOk(p, q); }
    assert WellFormed(t.bus) && Injective(t) && NoOverlap(t);
    forall q | q in p.receivers ensures Subscriber(q, p.receivers[q], None) in t.bus.subscribers { }
    assert Subscribed(t);
  }

  /** A change confined to channels that are not the pump's. */
  lemma ElsewhereInv(p: Pump, t: Pump)
    requires Inv(p) && t == p.(bus := p.bus.(channels := t.bus.channels)) && |t.bus.channels| == |p.bus.channels|
    requires forall q :: q in p.receivers ==> t.bus.channels[p.receivers[q]] == p.bus.channels[p.receivers[q]]
    ensures Inv(t) && forall q :: q in p.receivers ==> Queue(t, q) == Queue(p, q)
  {
    forall q | q in p.receivers ensures QueueOk(t, q) && Queue(t, q) == Queue(p, q) { assert QueueOk(p, q); }
    assert Subscribed(t) && NoOverlap(t);
  }

  lemma OthersInv(p: Pump, step: Step)
    requires Inv(p) && Allowed(p, step) && (step.DoDrop? || step.DoReceive?)
    ensures Inv(Apply(p, step))
    ensures forall q :: q in p.receivers ==> Queue(Apply(p, step), q) == Queue(p, q)
  {
    var t := Apply(p, step);
    forall q | q in p.receivers ensures t.bus.channels[p.receivers[q]] == p.bus.channels[p.receivers[q]] {
      assert p.receivers[q] in p.receivers.Values;
    }
    ElsewhereInv(p, t);
  }

  /** What subscribing the missing patterns leaves alone: queues of old receivers; and new receivers
      start empty. */
  ghost predicate Extends(p: Pump, t: Pump) {
    && t.log == p.log && t.delivered == p.delivered
    && (forall q :: q in p.receivers ==> q in t.receivers && Queue(t, q) == Queue(p, q))
    && (forall q :: q in t.receivers && q !in p.receivers ==> Queue(t, q) == [])
  }

  lemma AddReceiverShape(p: Pump, pattern: Text)
    requires Inv(p) && pattern !in p.receivers
    ensures var t := AddReceiver(p, pattern);
      WellFormed(t.bus) && Subscribed(t) && Injective(t)
  {
    var t := AddReceiver(p, pattern);
    assert Subscriber(pattern, |p.bus.channels|, None) == t.bus.subscribers[|p.bus.subscribers|];
  }

  /** The queue of `q` is the same before and after. */
  lemma SameQueueOk(p: Pump, t: Pump, q: Text)
    requires QueueOk(p, q) && Queue(t, q) == Queue(p, q) && t.log == p.log && t.delivered == p.delivered
    ensures QueueOk(t, q)
  {
  }

  lemma AddReceiverQueues(p: Pump, pattern: Text)
    requires Inv(p) && pattern !in p.receivers
    ensures var t := AddReceiver(p, pattern);
      Extends(p, t) && forall q :: q in t.receivers ==> QueueOk(t, q)
  {
    var t := AddReceiver(p, pattern);
    forall q | q in t.receivers ensures QueueOk(t, q) {
      if q != pattern { SameQueueOk(p, t, q); } else { assert Queue(t, q) == []; }
    }
  }

  /** No kind is matched by two of these patterns. */
  ghost predicate Apart(cover: set<Text>) {
    forall q, r, kind: Text {:trigger PatternMatches(q, kind), PatternMatches(r, kind)} ::
      q in cover && r in cover && PatternMatches(q, kind) && PatternMatches(r, kind) ==> q == r
  }

  lemma AddReceiverInv(p: Pump, pattern: Text, cover: set<Text>)
    requires Inv(p) && pattern !in p.receivers
    requires Apart(cover) && pattern in cover && p.receivers.Keys <= cover
    ensures Inv(AddReceiver(p, pattern)) && Extends(p, AddReceiver(p, pattern))
  {
    AddReceiverShape(p, pattern);
    AddReceiverQueues(p, pattern);
    assert NoOverlap(AddReceiver(p, pattern));
  }

  lemma ExtendsTransitive(p: Pump, t: Pump, u: Pump)
    requires Extends(p, t) && Extends(t, u)
    ensures Extends(p, u)
  {
    forall q | q in u.receivers && q !in p.receivers ensures Queue(u, q) == [] {
      if q in t.receivers { assert Queue(t, q) == []; }
    }
  }

  /** `t` is `p` with receivers for `keys`, all else kept. */
  ghost predicate Grown(p: Pump, t: Pump, keys: set<Text>) {
    Inv(t) && Extends(p, t) && t.receivers.Keys == keys
  }

  lemma {:induction false} SubscribeMissingInv(p: Pump, cover: set<Text>, order: seq<Text>)
    requires Inv(p) && Apart(cover) && Elements(order) <= cover && p.receivers.Keys <= cover
    ensures Grown(p, SubscribeMissing(p, order), p.receivers.Keys + Elements(order))
    decreases |order|
  {
    hide Inv, Apart;
    if order == [] {
      assert p.receivers.Keys + Elements(order) == p.receivers.Keys;
    } else {
      var front, last := order[..|order| - 1], order[|order| - 1];
      ElementsSnoc(order);
      SubscribeMissingInv(p, cover, front);
      SubscribeOneMore(p, SubscribeMissing(p, front), cover, last, p.receivers.Keys + Elements(front));
      assert p.receivers.Keys + Elements(front) + {last} == p.receivers.Keys + Elements(order);
    }
  }

  lemma ElementsSnoc(order: seq<Text>)
    requires order != []
    ensures Elements(order) == Elements(order[..|order| - 1]) + {order[|order| - 1]}
  {
    assert order == order[..|order| - 1] + [order[|order| - 1]];
  }

  lemma SubscribeOneMore(p: Pump, t: Pump, cover: set<Text>, last: Text, keys: set<Text>)
    requires Grown(p, t, keys) && Apart(cover) && last in cover && keys <= cover
    ensures Grown(p, if last in t.receivers then t else AddReceiver(t, last), keys + {last})
  {
    if last in t.receivers {
      assert keys + {last} == keys;
    } else {
      AddReceiverInv(t, last, cover);
      ExtendsTransitive(p, t, AddReceiver(t, last));
    }
  }

  lemma PruneInv(p: Pump, needed: set<Text>)
    requires Inv(p)
    ensures var t := Pruned(p, needed);
      && Inv(t) && t.receivers.Keys == p.receivers.Keys * needed
      && forall q :: q in t.receivers ==> Queue(t, q) == Queue(p, q)
  {
    var t := Pruned(p, needed);
    forall q | q in t.receivers
      ensures QueueOk(t, q) && Queue(t, q) == Queue(p, q) && t.bus.channels[t.receivers[q]].connected
    {
      assert QueueOk(p, q);
      assert p.receivers[q] !in Unneeded(p.receivers, needed);
    }
  }

  /** A reload leaves exactly the cover subscribed; a receiver kept through it keeps its queue, and one
      that appears starts empty. */
  lemma ReconcileInv(p: Pump, patterns: seq<Text>, order: seq<Text>)
    requires Inv(p) && Lists(order, Elements(Covering(patterns)))
    ensures var t := Reconcile(p, patterns, order);
      && Inv(t) && t.log == p.log && t.delivered == p.delivered
      && t.receivers.Keys == Elements(Covering(patterns))
      && forall q :: q in t.receivers ==> Queue(t, q) == if q in p.receivers then Queue(p, q) else []
  {
    hide QueueOk, Subscribed, Injective, NoOverlap;
    var needed := Elements(Covering(patterns));
    PruneInv(p, needed);
    var pruned := Pruned(p, needed);
    forall q, r, kind: Text | q in needed && r in needed && PatternMatches(q, kind) && PatternMatches(r, kind)
      ensures q == r
    {
      CoverDisjoint(patterns, q, r, kind);
    }
    SubscribeMissingInv(pruned, needed, order);
    assert pruned.receivers.Keys + needed == needed;
    assert Grown(pruned, SubscribeMissing(pruned, order), needed);
  }

  // ---- Draining --------------------------------------------------------------------------------

  lemma {:induction false} PickedMembers(xs: seq<Stamped>, first: bool)
    ensures forall x :: x in Select(xs, Completing, first) <==> x in xs && Completing(x) == first
    ensures multiset(Select(xs, Completing, first)) <= multiset(xs)
  {
    if xs == [] {
    } else {
      var front, last := xs[..|xs| - 1], xs[|xs| - 1];
      assert xs == front + [last];
      PickedMembers(front, first);
    }
  }

  ghost predicate DistinctSerials(xs: seq<Stamped>) {
    forall i, j :: 0 <= i < j < |xs| ==> xs[i].serial != xs[j].serial
  }

  lemma {:induction false} PickedDistinct(xs: seq<Stamped>, first: bool)
    requires DistinctSerials(xs)
    ensures DistinctSerials(Select(xs, Completing, first))
  {
    if xs == [] {
    } else {
      var front, last := xs[..|xs| - 1], xs[|xs| - 1];
      PickedDistinct(front, first);
      PickedMembers(front, first);
      forall x | x in Select(front, Completing, first) ensures x.serial != last.serial {
        var i :| 0 <= i < |front| && front[i] == x;
        assert xs[i] == x;
      }
    }
  }

  lemma DistinctInjective(xs: seq<Stamped>, x: Stamped, y: Stamped)
    requires DistinctSerials(xs) && x in xs && y in xs && x.serial == y.serial
    ensures x == y
  {
    var i :| 0 <= i < |xs| && xs[i] == x;
    var j :| 0 <= j < |xs| && xs[j] == y;
  }

  lemma SortedOk(xs: seq<Stamped>)
    requires DistinctSerials(xs)
    ensures DistinctSerials(Sorted(xs)) && forall x :: x in Sorted(xs) <==> x in xs
  {
    PickedMembers(xs, true);
    PickedMembers(xs, false);
    PickedDistinct(xs, true);
    PickedDistinct(xs, false);
    var a, b := Select(xs, Completing, true), Select(xs, Completing, false);
    forall i, j | 0 <= i < |a| && 0 <= j < |b| ensures a[i].serial != b[j].serial {
      assert a[i] in a && b[j] in b;
      if a[i].serial == b[j].serial { DistinctInjective(xs, a[i], b[j]); }
    }
  }

  lemma {:induction false} CollectedOk(p: Pump, order: seq<Text>)
    requires Inv(p) && forall q :: q in order ==> q in p.receivers && p.receivers[q] < |p.bus.channels|
    requires forall i, j :: 0 <= i < j < |order| ==> order[i] != order[j]
    ensures var xs := Collected(p.bus.channels, p.receivers, order);
      DistinctSerials(xs) && forall x :: x in xs <==> exists q :: q in order && x in Queue(p, q)
    decreases |order|
  {
    if order == [] {
    } else {
      var front, last := order[..|order| - 1], order[|order| - 1];
      assert order == front + [last];
      CollectedOk(p, front);
      var xs, ys := Collected(p.bus.channels, p.receivers, front), Queue(p, last);
      assert QueueOk(p, last);
      forall x, y | x in xs && y in ys ensures x.serial != y.serial {
        var q :| q in front && x in Queue(p, q);
        assert QueueOk(p, q);
        assert PatternMatches(q, x.event.kind) && PatternMatches(last, y.event.kind);
      }
      assert Collected(p.bus.channels, p.receivers, order) == xs + ys;
    }
  }

  /** What a drain hands over: every queued event, once. */
  lemma DrainDelivers(p: Pump, order: seq<Text>)
    requires Inv(p) && Lists(order, p.receivers.Keys)
    requires forall q :: q in order ==> q in p.receivers && p.receivers[q] < |p.bus.channels|
    ensures var ys := Sorted(Collected(p.bus.channels, p.receivers, order));
      && DistinctSerials(ys)
      && forall y :: y in ys <==> exists q :: q in p.receivers && y in Queue(p, q)
  {
    var xs := Collected(p.bus.channels, p.receivers, order);
    CollectedOk(p, order);
    SortedOk(xs);
    SameMembers2(order, p.receivers.Keys);
    forall y ensures y in Sorted(xs) <==> exists q :: q in p.receivers && y in Queue(p, q) {
      if y in xs { var q :| q in order && y in Queue(p, q); }
    }
  }

  lemma SameMembers2<T>(order: seq<T>, s: set<T>)
    requires Elements(order) == s
    ensures forall x :: x in order <==> x in s
  {
    forall x ensures x in order <==> x in s { assert x in Elements(order) <==> x in s; }
  }

  ghost predicate Queued(p: Pump, n: nat) {
    exists q, x :: q in p.receivers && x in Queue(p, q) && x.serial == n
  }

  /** Handing over genuine, new and pairwise different publications. */
  lemma AppendDelivered(p: Pump, t: Pump, ys: seq<Stamped>)
    requires DeliveredOk(p) && DistinctSerials(ys) && t.log == p.log && t.delivered == p.delivered + Serials(ys)
    requires forall y :: y in ys ==> y.serial < |p.log| && y.serial !in p.delivered
    ensures DeliveredOk(t)
  {
    SerialsOk(ys);
    forall i | 0 <= i < |ys| ensures Serials(ys)[i] < |p.log| && Serials(ys)[i] !in p.delivered { assert ys[i] in ys; }
  }

  lemma QueuedFacts(p: Pump, ys: seq<Stamped>)
    requires forall q :: q in p.receivers ==> QueueOk(p, q)
    requires forall y :: y in ys <==> exists q :: q in p.receivers && y in Queue(p, q)
    ensures forall y :: y in ys ==> y.serial < |p.log| && y.serial !in p.delivered
    ensures forall n :: n in Serials(ys) <==> Queued(p, n)
  {
    SerialsOk(ys);
    forall y | y in ys ensures y.serial < |p.log| && y.serial !in p.delivered {
      var q :| q in p.receivers && y in Queue(p, q);
      assert QueueOk(p, q);
    }
    forall n ensures n in Serials(ys) <==> Queued(p, n) {
      if n in Serials(ys) { var y :| y in ys && y.serial == n; }
    }
  }

  lemma DrainedOk(p: Pump, order: seq<Text>)
    requires Inv(p) && Lists(order, p.receivers.Keys)
    requires forall q :: q in order ==> q in p.receivers && p.receivers[q] < |p.bus.channels|
    ensures DeliveredOk(Drain(p, order))
    ensures forall n :: n in Drain(p, order).delivered <==> n in p.delivered || Queued(p, n)
  {
    var ys := Sorted(Collected(p.bus.channels, p.receivers, order));
    DrainDelivers(p, order);
    QueuedFacts(p, ys);
    AppendDelivered(p, Drain(p, order), ys);
  }

  lemma DrainShape(p: Pump, order: seq<Text>)
    requires WellFormed(p.bus) && Subscribed(p) && Lists(order, p.receivers.Keys)
    requires forall q :: q in order ==> q in p.receivers && p.receivers[q] < |p.bus.channels|
    ensures var t := Drain(p, order);
      && WellFormed(t.bus) && Subscribed(t) && t.bus.published == p.bus.published
      && (forall q :: q in t.receivers ==> Queue(t, q) == [])
  {
    var t := Drain(p, order);
    SameMembers2(order, p.receivers.Keys);
    forall q | q in p.receivers ensures Queue(t, q) == [] && t.bus.channels[p.receivers[q]].connected {
      assert q in order;
      assert p.receivers[q] in ChannelsOf(p.receivers, order);
    }
  }

  lemma DrainInv(p: Pump, order: seq<Text>)
    requires Inv(p) && Lists(order, p.receivers.Keys)
    requires forall q :: q in order ==> q in p.receivers && p.receivers[q] < |p.bus.channels|
    ensures var t := Drain(p, order);
      && Inv(t) && t.log == p.log && t.receivers == p.receivers
      && (forall q :: q in t.receivers ==> Queue(t, q) == [])
  {
    var t := Drain(p, order);
    DrainedOk(p, order);
    DrainShape(p, order);
    OverlapKept(p, t);
    assert Injective(t);
    forall q | q in t.receivers ensures QueueOk(t, q) { assert Queue(t, q) == []; }
  }

  lemma OverlapKept(p: Pump, t: Pump)
    requires NoOverlap(p) && t.receivers == p.receivers
    ensures NoOverlap(t)
  {
  }

  lemma SerialsOk(xs: seq<Stamped>)
    ensures forall n :: n in Serials(xs) <==> exists x :: x in xs && x.serial == n
    ensures DistinctSerials(xs) ==> Once(Serials(xs))
  {
    forall n | n in Serials(xs) ensures exists x :: x in xs && x.serial == n {
      var i :| 0 <= i < |xs| && Serials(xs)[i] == n;
      assert xs[i] in xs;
    }
    forall x | x in xs ensures x.serial in Serials(xs) {
      var i :| 0 <= i < |xs| && xs[i] == x;
      assert Serials(xs)[i] == x.serial;
    }
  }

  // ---- Runs ------------------------------------------------------------------------------------

  lemma StepInv(p: Pump, step: Step)
    requires Inv(p) && Allowed(p, step)
    ensures Inv(Apply(p, step))
  {
    match step
    case DoPublish(e) => PublishInv(p, e);
    case DoReconcile(patterns, order) => ReconcileInv(p, patterns, order);
    case DoDrain(order) =>
      assert forall q :: q in order ==> q in Elements(order);
      DrainInv(p, order);
    case DoSubscribe(pattern, bound) => SubscribeInv(p, pattern, bound);
    case _ => OthersInv(p, step);
  }

  ghost predicate RunAllowed(p: Pump, steps: seq<Step>)
    decreases |steps|
  {
    steps == [] || (Allowed(p, steps[0]) && RunAllowed(Apply(p, steps[0]), steps[1..]))
  }

  ghost function Run(p: Pump, steps: seq<Step>): Pump
    requires RunAllowed(p, steps)
    decreases |steps|
  {
    if steps == [] then p else Run(Apply(p, steps[0]), steps[1..])
  }

  lemma {:induction false} RunInv(p: Pump, steps: seq<Step>)
    requires Inv(p) && RunAllowed(p, steps)
    ensures Inv(Run(p, steps))
    decreases |steps|
  {
    if steps == [] {
    } else {
      StepInv(p, steps[0]);
      RunInv(Apply(p, steps[0]), steps[1..]);
    }
  }

  /** Over every run of a fresh pump, no publication is dispatched twice. */
  lemma AtMostOnce(steps: seq<Step>)
    requires RunAllowed(Fresh, steps)
    ensures Once(Run(Fresh, steps).delivered)
    ensures forall n :: n in Run(Fresh, steps).delivered ==> n < |Run(Fresh, steps).log|
  {
    RunInv(Fresh, steps);
  }

  /** The step neither drains the pump nor, if it is a reload, drops the pattern `q`. */
  predicate Keeps(step: Step, q: Text) {
    !step.DoDrain? && (step.DoReconcile? ==> q in Covering(step.patterns))
  }

  ghost predicate QueuedFor(p: Pump, q: Text, n: nat) {
    q in p.receivers && exists x :: x in Queue(p, q) && x.serial == n
  }

  /** Published, but neither queued nor delivered. */
  ghost predicate Lost(p: Pump, n: nat) { n < |p.log| && n !in p.delivered && !Queued(p, n) }

  lemma PublishLands(p: Pump, e: Event, q: Text)
    requires Inv(p)
    ensures var t := Apply(p, DoPublish(e));
      QueuedFor(t, q, |p.log|) <==> q in p.receivers && PatternMatches(q, e.kind)
  {
    if q in p.receivers {
      PublishQueues(p, e, q);
      var t := Apply(p, DoPublish(e));
      var x := Stamped(|p.log|, e);
      assert QueueOk(p, q);
      if PatternMatches(q, e.kind) { assert x in Queue(t, q); }
    }
  }

  lemma StepQueues(p: Pump, step: Step, q: Text, n: nat)
    requires Inv(p) && Allowed(p, step) && !step.DoDrain? && n < |p.log|
    ensures QueuedFor(Apply(p, step), q, n) <==> QueuedFor(p, q, n) && Keeps(step, q)
    ensures Apply(p, step).delivered == p.delivered && n < |Apply(p, step).log|
  {
    match step
    case DoPublish(e) =>
      if q in p.receivers {
        PublishQueues(p, e, q);
        assert forall x :: x in Queue(Apply(p, step), q) && x.serial == n ==> x in Queue(p, q);
        assert forall x :: x in Queue(p, q) ==> x in Queue(Apply(p, step), q);
      }
    case DoReconcile(patterns, order) =>
      ReconcileInv(p, patterns, order);
      SameMembers2(Covering(patterns), Elements(Covering(patterns)));
    case DoSubscribe(pattern, bound) => SubscribeInv(p, pattern, bound);
    case _ => OthersInv(p, step);
  }

  lemma StepLost(p: Pump, step: Step, n: nat)
    requires Inv(p) && Allowed(p, step) && Lost(p, n)
    ensures Lost(Apply(p, step), n)
  {
    if step.DoDrain? {
      assert forall q :: q in step.order ==> q in Elements(step.order);
      DrainInv(p, step.order);
      DrainedOk(p, step.order);
    } else {
      StepQueues(p, step, [], n);
      forall q ensures !QueuedFor(Apply(p, step), q, n) {
        StepQueues(p, step, q, n);
        assert QueuedFor(p, q, n) ==> Queued(p, n);
      }
      if Queued(Apply(p, step), n) {
        var q, x :| q in Apply(p, step).receivers && x in Queue(Apply(p, step), q) && x.serial == n;
        assert QueuedFor(Apply(p, step), q, n);
      }
    }
  }

  /** What is lost stays lost. */
  lemma {:induction false} NeverDelivered(p: Pump, steps: seq<Step>, n: nat)
    requires Inv(p) && RunAllowed(p, steps) && Lost(p, n)
    ensures n !in Run(p, steps).delivered
    decreases |steps|
  {
    if steps == [] {
    } else {
      StepInv(p, steps[0]);
      StepLost(p, steps[0], n);
      NeverDelivered(Apply(p, steps[0]), steps[1..], n);
    }
  }

  predicate NoDrain(steps: seq<Step>) { forall i :: 0 <= i < |steps| ==> !steps[i].DoDrain? }

  predicate AllKeep(steps: seq<Step>, q: Text) { forall i :: 0 <= i < |steps| ==> Keeps(steps[i], q) }

  lemma Unfold(steps: seq<Step>, q: Text)
    requires steps != []
    ensures AllKeep(steps, q) <==> Keeps(steps[0], q) && AllKeep(steps[1..], q)
    ensures NoDrain(steps) <==> !steps[0].DoDrain? && NoDrain(steps[1..])
  {
    assert steps == [steps[0]] + steps[1..];
  }

  /** Between drains, an event stays queued for `q` exactly as long as every reload keeps `q`. */
  lemma {:induction false} QueuedThrough(p: Pump, steps: seq<Step>, q: Text, n: nat)
    requires Inv(p) && RunAllowed(p, steps) && n < |p.log| && NoDrain(steps)
    ensures QueuedFor(Run(p, steps), q, n) <==> QueuedFor(p, q, n) && AllKeep(steps, q)
    ensures Run(p, steps).delivered == p.delivered
    decreases |steps|
  {
    if steps == [] {
    } else {
      Unfold(steps, q);
      StepQueues(p, steps[0], q, n);
      StepInv(p, steps[0]);
      QueuedThrough(Apply(p, steps[0]), steps[1..], q, n);
    }
  }

  /** A receiver whose pattern matches is held from the publication through `steps`. */
  ghost predicate Held(p: Pump, e: Event, steps: seq<Step>) {
    exists q :: q in p.receivers && PatternMatches(q, e.kind) && AllKeep(steps, q)
  }

  /** One drain hands over `n` if and only if it is queued, and what it leaves out is never delivered. */
  lemma DrainDecides(t: Pump, order: seq<Text>, drained: Pump, later: seq<Step>, n: nat)
    requires Inv(t) && Allowed(t, DoDrain(order)) && drained == Apply(t, DoDrain(order)) && RunAllowed(drained, later)
    requires n < |t.log| && n !in t.delivered
    ensures n in drained.delivered <==> Queued(t, n)
    ensures n in Run(drained, later).delivered <==> Queued(t, n)
  {
    SameMembers2(order, t.receivers.Keys);
    DrainedOk(t, order);
    DrainInv(t, order);
    if n in drained.delivered {
      DeliveredStays(drained, later, n);
    } else {
      NeverDelivered(drained, later, n);
    }
  }

  /** Delivery across hot reloads, from any reachable pump `p`: the publication of `e`, anything but a
      drain up to `t`, then a drain.  The event is among those dispatched if and only if a matching
      receiver was held all the way; and then no later step dispatches it again, nor, if it was not,
      ever. */
  lemma DeliveredIffHeld(before: seq<Step>, p: Pump, e: Event, steps: seq<Step>, t: Pump, order: seq<Text>,
      drained: Pump, later: seq<Step>)
    requires RunAllowed(Fresh, before) && p == Run(Fresh, before)
    requires Allowed(p, DoPublish(e)) && RunAllowed(Apply(p, DoPublish(e)), steps) && NoDrain(steps)
    requires t == Run(Apply(p, DoPublish(e)), steps)
    requires Allowed(t, DoDrain(order)) && drained == Apply(t, DoDrain(order)) && RunAllowed(drained, later)
    ensures |p.log| in drained.delivered <==> Held(p, e, steps)
    ensures |p.log| in Run(drained, later).delivered <==> Held(p, e, steps)
    ensures Once(Run(drained, later).delivered)
  {
    RunInv(Fresh, before);
    StepInv(p, DoPublish(e));
    RunInv(Apply(p, DoPublish(e)), steps);
    QueuedIffHeld(p, e, steps);
    DrainDecides(t, order, drained, later, |p.log|);
    StepInv(t, DoDrain(order));
    RunInv(drained, later);
  }

  lemma QueuedIffHeld(p: Pump, e: Event, steps: seq<Step>)
    requires Inv(p) && Allowed(p, DoPublish(e)) && RunAllowed(Apply(p, DoPublish(e)), steps)
    requires NoDrain(steps)
    ensures Queued(Run(Apply(p, DoPublish(e)), steps), |p.log|) <==> Held(p, e, steps)
    ensures |p.log| !in Run(Apply(p, DoPublish(e)), steps).delivered
    ensures |p.log| < |Run(Apply(p, DoPublish(e)), steps).log|
  {
    var n := |p.log|;
    var s := Apply(p, DoPublish(e));
    var t := Run(s, steps);
    PublishInv(p, e);
    QueuedThrough(s, steps, [], n);
    LogGrows(s, steps);
    assert n !in p.delivered;
    if Queued(t, n) {
      var q, x :| q in t.receivers && x in Queue(t, q) && x.serial == n;
      assert QueuedFor(t, q, n);
      QueuedThrough(s, steps, q, n);
      PublishLands(p, e, q);
    }
    if Held(p, e, steps) {
      var q :| q in p.receivers && PatternMatches(q, e.kind) && AllKeep(steps, q);
      QueuedThrough(s, steps, q, n);
      PublishLands(p, e, q);
      assert QueuedFor(t, q, n);
    }
  }

  lemma {:induction false} LogGrows(p: Pump, steps: seq<Step>)
    requires Inv(p) && RunAllowed(p, steps)
    ensures |p.log| <= |Run(p, steps).log|
    decreases |steps|
  {
    if steps == [] {
    } else {
      StepInv(p, steps[0]);
      StepLog(p, steps[0]);
      LogGrows(Apply(p, steps[0]), steps[1..]);
    }
  }

  lemma StepLog(p: Pump, step: Step)
    requires Inv(p) && Allowed(p, step)
    ensures |p.log| <= |Apply(p, step).log|
  {
    if step.DoReconcile? { ReconcileInv(p, step.patterns, step.order); }
  }

  lemma {:induction false} DeliveredStays(p: Pump, steps: seq<Step>, n: nat)
    requires Inv(p) && RunAllowed(p, steps) && n in p.delivered
    ensures n in Run(p, steps).delivered
    decreases |steps|
  {
    if steps == [] {
    } else {
      StepInv(p, steps[0]);
      if steps[0].DoDrain? {
        assert forall q :: q in steps[0].order ==> q in Elements(steps[0].order);
        DrainedOk(p, steps[0].order);
      } else {
        var i :| 0 <= i < |p.delivered| && p.delivered[i] == n;
        StepQueues(p, steps[0], [], n);
      }
      DeliveredStays(Apply(p, steps[0]), steps[1..], n);
    }
  }
}
