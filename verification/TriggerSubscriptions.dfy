/** The pump's subscription object, tied to the delivery state machine. */
module TriggerSubscriptions {
  import opened ConditionSyntax
  import opened Events
  import opened Ordering
  import opened EventPattern
  import opened EventBus
  import opened TriggerEngine
  import opened PumpDelivery
  import AwaitMachine
  import AwaitTick

  const DOT_COMPLETED: Text := ".completed"
  const DOT_FAILED: Text := ".failed"

  /** Per trigger: its own kind, and for an await also the reply's kind and the action's completions. */
  function Requested(triggers: seq<Trigger>): seq<Text> {
    if triggers == [] then []
    else
      var t := triggers[|triggers| - 1];
      Requested(triggers[..|triggers| - 1]) + [t.whenKind]
      + (if t.awaits.None? then [] else [t.awaits.value.eventKind, t.action + DOT_COMPLETED, t.action + DOT_FAILED])
  }

  /** The trigger has a use for events of this kind: it fires on them, or it awaits a reply and they are that
      reply or the completion of its action. */
  predicate Uses(t: Trigger, kind: Text) {
    || PatternMatches(t.whenKind, kind)
    || (t.awaits.Some? && (|| PatternMatches(t.awaits.value.eventKind, kind)
                           || PatternMatches(t.action + ".completed", kind)
                           || PatternMatches(t.action + ".failed", kind)))
  }

  /** What one trigger requests. */
  function OwnRequests(t: Trigger): seq<Text> {
    [t.whenKind]
    + (if t.awaits.None? then [] else [t.awaits.value.eventKind, t.action + DOT_COMPLETED, t.action + DOT_FAILED])
  }

  lemma OwnRequestsIff(t: Trigger, kind: Text)
    ensures (exists q :: q in OwnRequests(t) && PatternMatches(q, kind)) <==> Uses(t, kind)
  {
    hide PatternMatches;
    var own := OwnRequests(t);
    assert own[0] == t.whenKind;
    if t.awaits.Some? {
      assert own[1] == t.awaits.value.eventKind && own[2] == t.action + ".completed" && own[3] == t.action + ".failed";
    }
  }

  lemma {:induction false} RequestedIff(triggers: seq<Trigger>, kind: Text)
    ensures (exists q :: q in Requested(triggers) && PatternMatches(q, kind)) <==>
      exists t :: t in triggers && Uses(t, kind)
  {
    hide PatternMatches, Uses;
    if triggers == [] {
    } else {
      var front, t := triggers[..|triggers| - 1], triggers[|triggers| - 1];
      RequestedIff(front, kind);
      OwnRequestsIff(t, kind);
      assert triggers == front + [t];
      assert Requested(triggers) == Requested(front) + OwnRequests(t);
      hide OwnRequests, Requested;
    }
  }

  /** After a reload some receiver takes the events of a kind if and only if some trigger has a use for them. */
  lemma SubscribedIff(p: Pump, triggers: seq<Trigger>, order: seq<Text>, kind: Text)
    requires Inv(p) && Lists(order, Elements(Covering(Requested(triggers))))
    ensures (exists q :: q in Reconcile(p, Requested(triggers), order).receivers && PatternMatches(q, kind)) <==>
      exists t :: t in triggers && Uses(t, kind)
  {
    hide Inv;
    ReconcileInv(p, Requested(triggers), order);
    RequestedIff(triggers, kind);
    CoverExact(Requested(triggers), kind);
    SameMembers2(Covering(Requested(triggers)), Elements(Covering(Requested(triggers))));
  }

  class TriggerSubscriptions {
    const bus: EventBus
    var receivers: map<Text, nat>
    ghost var delivered: seq<nat>

    ghost function AsPump(): Pump
      reads this, bus
    {
      Pump(bus.State(), receivers, bus.log, delivered)
    }

    constructor (bus: EventBus)
      requires bus.Valid()
      ensures this.bus == bus && receivers == map[] && delivered == []
    {
      this.bus := bus;
      receivers := map[];
      delivered := [];
    }

    /** Subscribes to the cover of the requested kinds, keeping the receivers still needed. */
    method ReconcileTriggers(triggers: seq<Trigger>) returns (order: seq<Text>)
      requires bus.Valid()
      modifies this, bus
      ensures bus.Valid() && Lists(order, Elements(Covering(Requested(triggers))))
      ensures AsPump() == Reconcile(old(AsPump()), Requested(triggers), order)
    {
      var raw: seq<Text> := [];
      for i := 0 to |triggers|
        invariant raw == Requested(triggers[..i])
      {
        assert triggers[..i + 1][..i] == triggers[..i];
        var t := triggers[i];
        raw := raw + [t.whenKind];
        if t.awaits.Some? {
          raw := raw + [t.awaits.value.eventKind, t.action + DOT_COMPLETED, t.action + DOT_FAILED];
        }
      }
      assert triggers[..|triggers|] == triggers;
      var cover := CoveringPatterns(raw);
      var needed := set q | q in cover;
      order := SubscribeTo(needed);
    }

    method SubscribeTo(needed: set<Text>) returns (order: seq<Text>)
      requires bus.Valid()
      modifies this`receivers, bus
      ensures bus.Valid() && Lists(order, needed)
      ensures AsPump() == SubscribeMissing(old(Pruned(AsPump(), needed)), order)
    {
      bus.DropReceivers(Unneeded(receivers, needed));
      receivers := StillNeeded(receivers, needed);
      order := Enumerate(needed);
      SubscribeEach(order);
    }

    method SubscribeEach(order: seq<Text>)
      requires bus.Valid()
      modifies this`receivers, bus
      ensures bus.Valid() && AsPump() == SubscribeMissing(old(AsPump()), order)
    {
      ghost var before := AsPump();
      for i := 0 to |order|
        invariant bus.Valid() && AsPump() == SubscribeMissing(before, order[..i])
      {
        assert order[..i + 1][..i] == order[..i];
        EnsureReceiver(order[i]);
      }
      assert order[..|order|] == order;
    }

    method EnsureReceiver(pattern: Text)
      requires bus.Valid()
      modifies this`receivers, bus
      ensures bus.Valid()
      ensures AsPump() == if pattern in old(receivers) then old(AsPump()) else AddReceiver(old(AsPump()), pattern)
    {
      if pattern !in receivers {
        var channel := bus.SubscribeWithBuffer(pattern, None);
        receivers := receivers[pattern := channel];
      }
    }

    /** Takes everything from every receiver, then hands the events over completions first. */
    method DrainInto() returns (events: seq<Event>, order: seq<Text>)
      requires bus.Valid() && forall q :: q in receivers ==> receivers[q] < |bus.channels|
      requires Injective(AsPump())
      modifies this`delivered, bus
      ensures bus.Valid() && Lists(order, receivers.Keys)
      ensures forall q :: q in order ==> q in receivers && receivers[q] < |old(bus.channels)|
      ensures AsPump() == Drain(old(AsPump()), order)
      ensures events == EventsOf(Sorted(Collected(old(bus.channels), receivers, order)))
    {
      order := Enumerate(receivers.Keys);
      SameMembers2(order, receivers.Keys);
      var taken := TakeAll(order);
      delivered := delivered + Serials(Sorted(taken));
      events := EventsOf(Sorted(taken));
    }

    method TakeAll(order: seq<Text>) returns (taken: seq<Stamped>)
      requires bus.Valid() && forall q :: q in order ==> q in receivers && receivers[q] < |bus.channels|
      requires Injective(AsPump()) && forall i, j :: 0 <= i < j < |order| ==> order[i] != order[j]
      modifies bus
      ensures bus.Valid() && bus.log == old(bus.log)
      ensures bus.State() == old(bus.State()).(channels := Emptied(old(bus.channels), ChannelsOf(receivers, order)))
      ensures taken == Collected(old(bus.channels), receivers, order)
    {
      ghost var before := bus.channels;
      taken := [];
      assert Emptied(before, {}) == before && ChannelsOf(receivers, order[..0]) == {};
      for i := 0 to |order|
        invariant bus.Valid() && bus.log == old(bus.log) && bus.subscribers == old(bus.subscribers)
        invariant bus.published == old(bus.published)
        invariant bus.channels == Emptied(before, ChannelsOf(receivers, order[..i]))
        invariant taken == Collected(before, receivers, order[..i])
      {
        var c := receivers[order[i]];
        TakeOneMore(before, receivers, order, i);
        var more := DrainOne(c);
        taken := taken + more;
      }
      assert order[..|order|] == order;
    }

    method DrainOne(channel: nat) returns (taken: seq<Stamped>)
      requires bus.Valid() && channel < |bus.channels|
      modifies bus
      ensures bus.Valid() && bus.log == old(bus.log) && bus.subscribers == old(bus.subscribers)
      ensures bus.published == old(bus.published)
      ensures taken == old(bus.channels)[channel].queue && bus.channels == Emptied(old(bus.channels), {channel})
    {
      taken := [];
      var empty := false;
      ghost var before, queue := bus.channels, bus.channels[channel].queue;
      assert queue[0..] == queue && before[channel := before[channel].(queue := queue)] == before;
      while !empty
        invariant bus.Valid() && bus.log == old(bus.log) && bus.subscribers == old(bus.subscribers)
        invariant bus.published == old(bus.published) && |taken| <= |queue| && taken == queue[..|taken|]
        invariant bus.channels == before[channel := before[channel].(queue := queue[|taken|..])]
        invariant empty ==> |taken| == |queue|
        decreases |queue| - |taken|, !empty
      {
        var x := bus.TryRecv(channel);
        if x.Some? { taken := taken + [x.value]; } else { empty := true; }
      }
      assert queue[|taken|..] == [];
      assert bus.channels == before[channel := before[channel].(queue := [])];
    }
  }

  /** A hash table's iteration order: any order, each key once. */
  method Enumerate(s: set<Text>) returns (order: seq<Text>)
    ensures Lists(order, s)
  {
    order := [];
    var remaining := s;
    ghost var seen: set<Text> := {};
    while remaining != {}
      invariant Lists(order, seen) && seen + remaining == s && seen !! remaining
      decreases |remaining|
    {
      var x :| x in remaining;
      ListsSnoc(order, seen, x);
      remaining, seen, order := remaining - {x}, seen + {x}, order + [x];
    }
    assert seen == s;
  }

  lemma ListsSnoc(order: seq<Text>, s: set<Text>, x: Text)
    requires Lists(order, s) && x !in s
    ensures Lists(order + [x], s + {x})
  {
    SameMembers2(order, s);
    ElementsSnoc(order + [x]);
    assert (order + [x])[..|order|] == order;
  }

  lemma TakeOneMore(before: seq<Channel>, receivers: map<Text, nat>, order: seq<Text>, i: nat)
    requires i < |order| && forall q :: q in order ==> q in receivers && receivers[q] < |before|
    requires forall q, r :: q in receivers && r in receivers && receivers[q] == receivers[r] ==> q == r
    requires forall i, j :: 0 <= i < j < |order| ==> order[i] != order[j]
    ensures var c := receivers[order[i]];
      var sofar := Emptied(before, ChannelsOf(receivers, order[..i]));
      && sofar[c] == before[c]
      && Emptied(sofar, {c}) == Emptied(before, ChannelsOf(receivers, order[..i + 1]))
      && Collected(before, receivers, order[..i + 1]) == Collected(before, receivers, order[..i]) + before[c].queue
  {
    assert order[..i + 1] == order[..i] + [order[i]];
    assert order[..i + 1][..i] == order[..i];
    ChannelsSnoc(receivers, order[..i], order[i]);
    assert receivers[order[i]] !in ChannelsOf(receivers, order[..i]);
  }

  lemma ChannelsSnoc(receivers: map<Text, nat>, order: seq<Text>, x: Text)
    requires x in receivers && forall q :: q in order ==> q in receivers
    ensures ChannelsOf(receivers, order + [x]) == ChannelsOf(receivers, order) + {receivers[x]}
  {
    forall c | c in ChannelsOf(receivers, order) + {receivers[x]} ensures c in ChannelsOf(receivers, order + [x]) {
      if c == receivers[x] {
        assert x in order + [x];
      } else {
        var q :| q in order && receivers[q] == c;
        assert q in order + [x];
      }
    }
  }

  // ---- What a drain hands to the await machine -------------------------------------------------

  /** A drain takes exactly what is queued for the receivers, each event once. */
  lemma CollectedInQueues(p: Pump, order: seq<Text>)
    requires Inv(p) && Lists(order, p.receivers.Keys)
    requires forall q :: q in order ==> q in p.receivers && p.receivers[q] < |p.bus.channels|
    ensures var taken := Collected(p.bus.channels, p.receivers, order);
      DistinctSerials(taken) && forall y :: y in taken <==> exists q :: q in p.receivers && y in Queue(p, q)
  {
    CollectedOk(p, order);
    SameMembers2(order, p.receivers.Keys);
  }

  /** `taken` is what a drain takes, in any order of the receivers, and `batch` what it hands over.  Its
      first completion of `x` is the one at `i`, a success; `f` is the oldest preflight of `x`; the event
      at `j` meets the criteria of `f`, and no other firing in play awaits its kind.  Then the tick ends
      with `f` matched unless that event is a completion taken earlier than `i`; if nothing else taken
      answers, exactly then. */
  lemma DrainedReplyResolves(p: Pump, order: seq<Text>, taken: seq<Stamped>, i: nat, j: nat, s: AwaitMachine.System,
      batch: seq<AwaitTick.Arrival>, f: nat, x: Text, show: Json -> Text)
    requires forall q :: q in order ==> q in p.receivers && p.receivers[q] < |p.bus.channels|
    requires taken == Collected(p.bus.channels, p.receivers, order)
    requires AwaitTick.ArrivalEvents(batch) == EventsOf(Sorted(taken))
    requires AwaitTick.FirstSuccess(EventsOf(taken), i, x) && j < |taken|
    requires AwaitMachine.Conserved(s) && AwaitTick.TickNumbered(s, batch, show)
    requires AwaitTick.Waiting(s, f, x) && f < |s.history|
    requires AwaitTick.Answers(AwaitMachine.Promoted(s.history[f], taken[i].event.payload, show), taken[j].event)
    requires AwaitTick.OnlyAwaitedBy(AwaitTick.Tick(s, batch, show).history, s.fates.Keys, f, taken[j].event.kind)
    ensures !AwaitMachine.IsCompletion(taken[j].event) || i <= j ==>
      AwaitTick.MatchedIn(AwaitTick.Tick(s, batch, show), f)
    ensures (forall l :: 0 <= l < |taken| && l != j ==>
        !AwaitTick.Answers(AwaitMachine.Promoted(s.history[f], taken[i].event.payload, show), taken[l].event))
      ==> (AwaitTick.MatchedIn(AwaitTick.Tick(s, batch, show), f)
           <==> !AwaitMachine.IsCompletion(taken[j].event) || i <= j)
  {
    hide AwaitMachine.Conserved, AwaitTick.TickNumbered, AwaitTick.Tick, AwaitTick.Waiting, AwaitTick.MatchedIn;
    hide AwaitTick.OnlyAwaitedBy, AwaitTick.Answers, AwaitMachine.Promoted, AwaitMachine.Completes, Sorted;
    hide Collected;
    SortedPrioritizes(taken);
    var raw := EventsOf(taken);
    assert |raw| == |taken| && raw[i] == taken[i].event && raw[j] == taken[j].event;
    AwaitTick.SameTickReplyByKind(s, raw, i, j, batch, f, x, show);
  }
}
