/** The in-process event bus: fan-out to bounded and unbounded subscribers, and the history ring.
    A queued event carries its publication number, which nothing in the bus looks at. */
module EventBus {
  import opened ConditionSyntax
  import opened Events
  import opened EventPattern

  datatype Stamped = Stamped(serial: nat, event: Event)

  function EventsOf(xs: seq<Stamped>): seq<Event> { seq(|xs|, i requires 0 <= i < |xs| => xs[i].event) }

  /** The sending half: a pattern and the channel to deliver to; `bound` is `None` when unbounded. */
  datatype Subscriber = Subscriber(pattern: Text, channel: nat, bound: Option<nat>)

  /** The receiving half; a dropped receiver leaves its channel disconnected. */
  datatype Channel = Channel(connected: bool, queue: seq<Stamped>)

  datatype BusState = BusState(subscribers: seq<Subscriber>, channels: seq<Channel>, published: nat)

  // ---- Specification ---------------------------------------------------------------------------

  predicate WellFormed(b: BusState) {
    && (forall i :: 0 <= i < |b.subscribers| ==> b.subscribers[i].channel < |b.channels|)
    && (forall i, j :: 0 <= i < j < |b.subscribers| ==> b.subscribers[i].channel != b.subscribers[j].channel)
  }

  predicate Accepts(sub: Subscriber, c: Channel, x: Stamped) {
    && PatternMatches(sub.pattern, x.event.kind)
    && c.connected
    && (sub.bound.Some? ==> |c.queue| < sub.bound.value)
  }

  function Deliver(channels: seq<Channel>, sub: Subscriber, x: Stamped): seq<Channel>
    requires sub.channel < |channels|
  {
    var c := channels[sub.channel];
    if Accepts(sub, c, x) then channels[sub.channel := c.(queue := c.queue + [x])] else channels
  }

  function Fan(channels: seq<Channel>, subs: seq<Subscriber>, n: nat, x: Stamped): (r: seq<Channel>)
    requires n <= |subs| && forall i :: 0 <= i < |subs| ==> subs[i].channel < |channels|
    ensures |r| == |channels|
    ensures forall k :: 0 <= k < |r| ==> r[k].connected == channels[k].connected
  {
    if n == 0 then channels else Deliver(Fan(channels, subs, n - 1, x), subs[n - 1], x)
  }

  /** A subscriber stays unless a delivery to it finds the receiver gone. */
  predicate Stays(sub: Subscriber, channels: seq<Channel>, x: Stamped)
    requires sub.channel < |channels|
  {
    PatternMatches(sub.pattern, x.event.kind) ==> channels[sub.channel].connected
  }

  function Retained(channels: seq<Channel>, subs: seq<Subscriber>, n: nat, x: Stamped): seq<Subscriber>
    requires n <= |subs| && forall i :: 0 <= i < |subs| ==> subs[i].channel < |channels|
  {
    if n == 0 then []
    else Retained(channels, subs, n - 1, x) + if Stays(subs[n - 1], channels, x) then [subs[n - 1]] else []
  }

  function Publish(b: BusState, e: Event): BusState
    requires WellFormed(b)
  {
    var x := Stamped(b.published, e);
    BusState(Retained(b.channels, b.subscribers, |b.subscribers|, x),
             Fan(b.channels, b.subscribers, |b.subscribers|, x), b.published + 1)
  }

  function Subscribe(b: BusState, pattern: Text, bound: Option<nat>): BusState {
    b.(subscribers := b.subscribers + [Subscriber(pattern, |b.channels|, bound)],
       channels := b.channels + [Channel(true, [])])
  }

  /** Receivers dropped: their channels disconnect and what was queued is gone. */
  function Drop(b: BusState, dropped: set<nat>): BusState {
    b.(channels := seq(|b.channels|, i requires 0 <= i < |b.channels| =>
      if i in dropped then Channel(false, []) else b.channels[i]))
  }

  // ---- The bus object --------------------------------------------------------------------------

  class EventBus {
    var subscribers: seq<Subscriber>
    var channels: seq<Channel>
    var published: nat
    var history: seq<Event>
    const historyCap: nat
    /** Everything ever published. */
    ghost var log: seq<Event>

    function State(): BusState
      reads this
    {
      BusState(subscribers, channels, published)
    }

    ghost predicate Valid()
      reads this
    {
      && WellFormed(State()) && 1 <= historyCap && |log| == published
      && history == (if |log| <= historyCap then log else log[|log| - historyCap..])
    }

    constructor (historyCap: nat)
      ensures Valid() && State() == BusState([], [], 0) && log == []
      ensures this.historyCap == if historyCap == 0 then 1 else historyCap
    {
      subscribers, channels, published, history, log := [], [], 0, [], [];
      this.historyCap := if historyCap == 0 then 1 else historyCap;
    }

    method SubscribeWithBuffer(pattern: Text, bound: Option<nat>) returns (channel: nat)
      requires Valid()
      modifies this
      ensures Valid() && log == old(log)
      ensures State() == Subscribe(old(State()), pattern, bound) && channel == |old(channels)|
    {
      channel := |channels|;
      subscribers := subscribers + [Subscriber(pattern, channel, bound)];
      channels := channels + [Channel(true, [])];
    }

    /** History first, then every subscriber in order. */
    method PublishEvent(e: Event)
      requires Valid()
      modifies this
      ensures Valid() && log == old(log) + [e] && State() == Publish(old(State()), e)
    {
      PublishKeepsWellFormed(State(), e);
      if |history| >= historyCap { history := history[1..]; }
      history := history + [e];
      log := log + [e];
      FanOut(Stamped(published, e));
      published := published + 1;
    }

    /** One pass over the subscribers: deliver, and prune the disconnected. */
    method FanOut(x: Stamped)
      requires WellFormed(State())
      modifies this`subscribers, this`channels
      ensures subscribers == Retained(old(channels), old(subscribers), |old(subscribers)|, x)
      ensures channels == Fan(old(channels), old(subscribers), |old(subscribers)|, x)
    {
      var kept: seq<Subscriber> := [];
      var subs, before := subscribers, channels;
      for i := 0 to |subs|
        invariant subscribers == subs && |channels| == |before|
        invariant channels == Fan(before, subs, i, x) && kept == Retained(before, subs, i, x)
      {
        var sub := subs[i];
        if !PatternMatches(sub.pattern, x.event.kind) {
          kept := kept + [sub];
        } else {
          var c := channels[sub.channel];
          if c.connected {
            kept := kept + [sub];
            if sub.bound.None? || |c.queue| < sub.bound.value {
              channels := channels[sub.channel := c.(queue := c.queue + [x])];
            }
          }
        }
      }
      subscribers := kept;
    }

    method TryRecv(channel: nat) returns (x: Option<Stamped>)
      requires Valid() && channel < |channels|
      modifies this
      ensures Valid() && log == old(log) && subscribers == old(subscribers) && published == old(published)
      ensures |channels| == |old(channels)|
      ensures x.None? ==> channels == old(channels) && channels[channel].queue == []
      ensures x.Some? ==> old(channels)[channel].queue != [] && x.value == old(channels)[channel].queue[0]
      ensures x.Some? ==>
        channels == old(channels)[channel := old(channels)[channel].(queue := old(channels)[channel].queue[1..])]
    {
      var c := channels[channel];
      if c.queue == [] { return None; }
      x := Some(c.queue[0]);
      channels := channels[channel := c.(queue := c.queue[1..])];
    }

    method DropReceivers(dropped: set<nat>)
      requires Valid()
      modifies this
      ensures Valid() && log == old(log) && State() == Drop(old(State()), dropped)
    {
      channels := Drop(State(), dropped).channels;
    }

    /** Recent events, oldest first, filtered by time and kind. */
    method History(sinceMs: Option<nat>, kindGlob: Option<Text>) returns (out: seq<Event>)
      requires Valid()
      ensures forall e :: e in out ==> e in history && Wanted(e, sinceMs, kindGlob)
      ensures out == Kept(history, sinceMs, kindGlob)
    {
      out := [];
      for i := 0 to |history|
        invariant out == Kept(history[..i], sinceMs, kindGlob)
        invariant forall e :: e in out ==> e in history && Wanted(e, sinceMs, kindGlob)
      {
        assert history[..i + 1][..i] == history[..i];
        if Wanted(history[i], sinceMs, kindGlob) { out := out + [history[i]]; }
      }
      assert history[..|history|] == history;
    }
  }

  predicate Wanted(e: Event, sinceMs: Option<nat>, kindGlob: Option<Text>) {
    (sinceMs.Some? ==> sinceMs.value <= e.timestampMs) && (kindGlob.Some? ==> PatternMatches(kindGlob.value, e.kind))
  }

  function Kept(events: seq<Event>, sinceMs: Option<nat>, kindGlob: Option<Text>): seq<Event> {
    if events == [] then []
    else
      var last := events[|events| - 1];
      Kept(events[..|events| - 1], sinceMs, kindGlob) + (if Wanted(last, sinceMs, kindGlob) then [last] else [])
  }

  /** The event at `k` is recent enough, and of a kind asked for. */
  predicate AskedFor(events: seq<Event>, k: nat, sinceMs: Option<nat>, kindGlob: Option<Text>) {
    && k < |events| && (sinceMs == None || sinceMs.value <= events[k].timestampMs)
    && (kindGlob == None || PatternMatches(kindGlob.value, events[k].kind))
  }

  /** The filtered history, exactly: the events at increasing places that are asked for, no other, and each
      once. */
  lemma {:induction false} KeptExactly(events: seq<Event>, sinceMs: Option<nat>, kindGlob: Option<Text>) returns (ks: seq<nat>)
    ensures forall i, j :: 0 <= i < j < |ks| ==> ks[i] < ks[j]
    ensures forall k: nat :: k in ks <==> AskedFor(events, k, sinceMs, kindGlob)
    ensures |Kept(events, sinceMs, kindGlob)| == |ks|
    ensures forall i :: 0 <= i < |ks| ==> ks[i] < |events| && Kept(events, sinceMs, kindGlob)[i] == events[ks[i]]
  {
    hide AskedFor, Wanted, PatternMatches;
    if events == [] {
      ks := [];
      NothingAskedFor(sinceMs, kindGlob);
    } else {
      var front, last := events[..|events| - 1], events[|events| - 1];
      var shorter := KeptExactly(front, sinceMs, kindGlob);
      forall k: nat ensures k in shorter <==> k < |front| && AskedFor(events, k, sinceMs, kindGlob) {
        SameAskedFor(events, k, sinceMs, kindGlob);
      }
      LastAskedFor(events, sinceMs, kindGlob);
      ks := if Wanted(last, sinceMs, kindGlob) then shorter + [|front|] else shorter;
      MoreAskedFor(events, shorter, ks, sinceMs, kindGlob);
    }
  }

  lemma NothingAskedFor(sinceMs: Option<nat>, kindGlob: Option<Text>)
    ensures forall k: nat :: !AskedFor([], k, sinceMs, kindGlob)
  {
  }

  lemma SameAskedFor(events: seq<Event>, k: nat, sinceMs: Option<nat>, kindGlob: Option<Text>)
    requires events != []
    ensures AskedFor(events[..|events| - 1], k, sinceMs, kindGlob) <==>
      k < |events| - 1 && AskedFor(events, k, sinceMs, kindGlob)
  {
  }

  lemma LastAskedFor(events: seq<Event>, sinceMs: Option<nat>, kindGlob: Option<Text>)
    requires events != []
    ensures Wanted(events[|events| - 1], sinceMs, kindGlob) <==> AskedFor(events, |events| - 1, sinceMs, kindGlob)
  {
  }

  lemma MoreAskedFor(events: seq<Event>, shorter: seq<nat>, ks: seq<nat>, sinceMs: Option<nat>, kindGlob: Option<Text>)
    requires events != []
    requires forall k: nat :: k in shorter <==> k < |events| - 1 && AskedFor(events, k, sinceMs, kindGlob)
    requires ks == if AskedFor(events, |events| - 1, sinceMs, kindGlob) then shorter + [|events| - 1] else shorter
    ensures forall k: nat :: k in ks <==> AskedFor(events, k, sinceMs, kindGlob)
  {
    forall k: nat ensures k in ks <==> AskedFor(events, k, sinceMs, kindGlob) {
      assert k in ks <==> k in shorter || (AskedFor(events, |events| - 1, sinceMs, kindGlob) && k == |events| - 1);
    }
  }

  // ---- What a publication does -----------------------------------------------------------------

  lemma {:induction false} RetainedOk(channels: seq<Channel>, subs: seq<Subscriber>, n: nat, x: Stamped)
    requires n <= |subs| && forall i :: 0 <= i < |subs| ==> subs[i].channel < |channels|
    requires forall i, j :: 0 <= i < j < |subs| ==> subs[i].channel != subs[j].channel
    ensures var r := Retained(channels, subs, n, x);
      && (forall s :: s in r <==> s in subs[..n] && Stays(s, channels, x))
      && (forall i, j :: 0 <= i < j < |r| ==> r[i].channel != r[j].channel)
  {
    if n == 0 {
    } else {
      RetainedOk(channels, subs, n - 1, x);
      var shorter, last := Retained(channels, subs, n - 1, x), subs[n - 1];
      assert subs[..n] == subs[..n - 1] + [last];
      forall i | 0 <= i < |shorter| ensures shorter[i].channel != last.channel {
        assert shorter[i] in subs[..n - 1];
      }
    }
  }

  /** The channel of each subscriber gets the event iff the subscriber accepts it, once; other channels
      are untouched. */
  lemma {:induction false} FanOk(channels: seq<Channel>, subs: seq<Subscriber>, n: nat, x: Stamped)
    requires n <= |subs| && forall i :: 0 <= i < |subs| ==> subs[i].channel < |channels|
    requires forall i, j :: 0 <= i < j < |subs| ==> subs[i].channel != subs[j].channel
    ensures var r := Fan(channels, subs, n, x);
      && (forall i :: 0 <= i < n ==> r[subs[i].channel] == Deliver(channels, subs[i], x)[subs[i].channel])
      && (forall k :: 0 <= k < |channels| && (forall i :: 0 <= i < n ==> subs[i].channel != k) ==> r[k] == channels[k])
  {
    if n == 0 {
    } else {
      FanOk(channels, subs, n - 1, x);
      var last := subs[n - 1].channel;
      assert Fan(channels, subs, n - 1, x)[last] == channels[last];
    }
  }

  lemma PublishKeepsWellFormed(b: BusState, e: Event)
    requires WellFormed(b)
    ensures WellFormed(Publish(b, e))
  {
    RetainedOk(b.channels, b.subscribers, |b.subscribers|, Stamped(b.published, e));
    var r := Publish(b, e).subscribers;
    forall i | 0 <= i < |r| ensures r[i].channel < |b.channels| { assert r[i] in b.subscribers[..|b.subscribers|]; }
  }

  /** A subscriber whose receiver was dropped gets nothing more, and the next event that it would have got
      removes it; others stay. */
  lemma DroppedArePruned(b: BusState, dropped: set<nat>, e: Event, sub: Subscriber)
    requires WellFormed(b) && sub in b.subscribers
    ensures WellFormed(Drop(b, dropped)) && sub.channel < |Publish(Drop(b, dropped), e).channels|
    ensures var t := Publish(Drop(b, dropped), e);
      && (sub.channel in dropped ==> t.channels[sub.channel].queue == [] && !t.channels[sub.channel].connected)
      && (sub.channel in dropped && PatternMatches(sub.pattern, e.kind) ==> sub !in t.subscribers)
      && (sub.channel !in dropped ==>
            t.channels[sub.channel].connected == b.channels[sub.channel].connected
            && b.channels[sub.channel].queue <= t.channels[sub.channel].queue
            && (b.channels[sub.channel].connected ==> sub in t.subscribers))
  {
    var d, x := Drop(b, dropped), Stamped(b.published, e);
    RetainedOk(d.channels, d.subscribers, |d.subscribers|, x);
    FanOk(d.channels, d.subscribers, |d.subscribers|, x);
    assert d.subscribers[..|d.subscribers|] == d.subscribers;
    var i :| 0 <= i < |b.subscribers| && b.subscribers[i] == sub;
  }

  /** A new subscriber is connected, and gets a matching event at once unless it has no room at all. */
  lemma SubscribedAreServed(b: BusState, pattern: Text, bound: Option<nat>, e: Event)
    requires WellFormed(b) && PatternMatches(pattern, e.kind)
    ensures WellFormed(Subscribe(b, pattern, bound))
    ensures var t := Publish(Subscribe(b, pattern, bound), e);
      |b.channels| < |t.channels|
      && t.channels[|b.channels|].queue == if bound == Some(0) then [] else [Stamped(b.published, e)]
  {
    var d, x := Subscribe(b, pattern, bound), Stamped(b.published, e);
    FanOk(d.channels, d.subscribers, |d.subscribers|, x);
    assert d.subscribers[|b.subscribers|] == Subscriber(pattern, |b.channels|, bound);
  }
}
