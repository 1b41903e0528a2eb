/** Delivery with every channel operation a step of its own: publications from other threads come between
    the single drops, subscriptions and receives of one reload or one drain.  The pump itself does one
    reload or drain at a time. */
module PumpInterleaving {
  import opened ConditionSyntax
  import opened Events
  import opened Ordering
  import opened EventPattern
  import opened EventBus
  import AwaitMachine
  import opened PumpDelivery

  /** `todo` are the receivers that a drain has not passed yet, `taken` what it has received. */
  datatype Phase = Resting | Reloading(needed: set<Text>) | Draining(todo: seq<Text>, taken: seq<Stamped>)

  datatype Fine = Fine(pump: Pump, phase: Phase)

  const Start := Fine(Fresh, Resting)

  datatype Move =
    | Publication(event: Event)
    | OtherSubscribes(pattern: Text, bound: Option<nat>)
    | OtherDrops(channel: nat)
    | OtherReceives(channel: nat)
    | BeginReload(patterns: seq<Text>)
    | DropOne(q: Text)
    | SubscribeOne(q: Text)
    | EndReload
    | BeginDrain(order: seq<Text>)
    | TakeOne
    | NextReceiver
    | EndDrain

  /** What others do, as a step of the pump's machine. */
  function Outside(m: Move): PumpDelivery.Step
    requires m.Publication? || m.OtherSubscribes? || m.OtherDrops? || m.OtherReceives?
  {
    match m
    case Publication(e) => DoPublish(e)
    case OtherSubscribes(pattern, bound) => DoSubscribe(pattern, bound)
    case OtherDrops(c) => DoDrop(c)
    case OtherReceives(c) => DoReceive(c)
  }

  predicate IsOutside(m: Move) { m.Publication? || m.OtherSubscribes? || m.OtherDrops? || m.OtherReceives? }

  ghost predicate MayMove(s: Fine, m: Move) {
    var p := s.pump;
    Shaped(p) &&
    match m
    case BeginReload(_) => s.phase.Resting?
    case DropOne(q) => s.phase.Reloading? && q in p.receivers && q !in s.phase.needed
    case SubscribeOne(q) =>
      s.phase.Reloading? && p.receivers.Keys <= s.phase.needed && q in s.phase.needed && q !in p.receivers
    case EndReload => s.phase.Reloading? && p.receivers.Keys == s.phase.needed
    case BeginDrain(order) => s.phase.Resting? && Lists(order, p.receivers.Keys)
    case TakeOne => s.phase.Draining? && s.phase.todo != [] && Queue(p, s.phase.todo[0]) != []
    case NextReceiver => s.phase.Draining? && s.phase.todo != [] && Queue(p, s.phase.todo[0]) == []
    case EndDrain => s.phase.Draining? && s.phase.todo == []
    case _ => Allowed(p, Outside(m))
  }

  /** One `try_recv` on the receiver of `q`. */
  function Popped(p: Pump, q: Text): Pump
    requires Queue(p, q) != []
  {
    var c := p.receivers[q];
    p.(bus := p.bus.(channels := p.bus.channels[c := p.bus.channels[c].(queue := p.bus.channels[c].queue[1..])]))
  }

  ghost function Moved(s: Fine, m: Move): Fine
    requires MayMove(s, m)
  {
    var p := s.pump;
    match m
    case BeginReload(patterns) => s.(phase := Reloading(Elements(Covering(patterns))))
    case DropOne(q) => s.(pump := Pruned(p, p.receivers.Keys - {q}))
    case SubscribeOne(q) => s.(pump := AddReceiver(p, q))
    case EndReload => s.(phase := Resting)
    case BeginDrain(order) => s.(phase := Draining(order, []))
    case TakeOne =>
      var q := s.phase.todo[0];
      Fine(Popped(p, q), s.phase.(taken := s.phase.taken + [Queue(p, q)[0]]))
    case NextReceiver => s.(phase := s.phase.(todo := s.phase.todo[1..]))
    case EndDrain => Fine(p.(delivered := p.delivered + Serials(Sorted(s.phase.taken))), Resting)
    case _ => s.(pump := Apply(p, Outside(m)))
  }

  // ---- Invariant -------------------------------------------------------------------------------

  function Taken(s: Fine): seq<Stamped> { if s.phase.Draining? then s.phase.taken else [] }

  /** What a drain has taken is genuine, new, and in no queue any more. */
  ghost predicate TakenOk(p: Pump, taken: seq<Stamped>) {
    && DistinctSerials(taken)
    && (forall x :: x in taken ==> x.serial < |p.log| && x.serial !in p.delivered && !Queued(p, x.serial))
  }

  predicate Different(todo: seq<Text>) { forall i, j :: 0 <= i < j < |todo| ==> todo[i] != todo[j] }

  ghost predicate PhaseOk(s: Fine) {
    match s.phase
    case Resting => true
    case Reloading(needed) => Apart(needed)
    case Draining(todo, _) => Different(todo) && forall q :: q in todo ==> q in s.pump.receivers
  }

  ghost predicate FineInv(s: Fine) { Inv(s.pump) && TakenOk(s.pump, Taken(s)) && PhaseOk(s) }

  lemma QueuedAny(p: Pump, n: nat)
    ensures Queued(p, n) <==> exists q :: QueuedFor(p, q, n)
  {
    if Queued(p, n) {
      var q, x :| q in p.receivers && x in Queue(p, q) && x.serial == n;
      assert QueuedFor(p, q, n);
    }
  }

  /** `n` stays in the queues it is in, and gets into no other. */
  ghost predicate QueuesKept(p: Pump, t: Pump, n: nat) { forall q :: QueuedFor(t, q, n) <==> QueuedFor(p, q, n) }

  lemma KeptQueued(p: Pump, t: Pump, n: nat)
    requires QueuesKept(p, t, n)
    ensures Queued(t, n) <==> Queued(p, n)
  {
    QueuedAny(p, n);
    QueuedAny(t, n);
  }

  /** A step of others leaves receivers and deliveries alone, and moves nothing old. */
  lemma OutsideKeeps(p: Pump, m: Move)
    requires Inv(p) && IsOutside(m) && Allowed(p, Outside(m))
    ensures var t := Apply(p, Outside(m));
      && Inv(t) && t.receivers == p.receivers && t.delivered == p.delivered && |p.log| <= |t.log|
      && forall n: nat :: n < |p.log| ==> QueuesKept(p, t, n)
  {
    var step := Outside(m);
    StepInv(p, step);
    forall n: nat | n < |p.log| ensures QueuesKept(p, Apply(p, step), n) {
      forall q ensures QueuedFor(Apply(p, step), q, n) <==> QueuedFor(p, q, n) { StepQueues(p, step, q, n); }
    }
  }

  /** Dropping one receiver takes its queue with it, and no other. */
  lemma DropKeeps(p: Pump, q: Text)
    requires Inv(p) && q in p.receivers
    ensures var t := Pruned(p, p.receivers.Keys - {q});
      && Inv(t) && t.receivers.Keys == p.receivers.Keys - {q} && t.delivered == p.delivered && t.log == p.log
      && forall r, n :: QueuedFor(t, r, n) <==> QueuedFor(p, r, n) && r != q
  {
    PruneInv(p, p.receivers.Keys - {q});
  }

  lemma SubscribeKeeps(p: Pump, q: Text, needed: set<Text>)
    requires Inv(p) && q in needed && q !in p.receivers && p.receivers.Keys <= needed && Apart(needed)
    ensures var t := AddReceiver(p, q);
      && Inv(t) && t.delivered == p.delivered && t.log == p.log
      && forall n: nat :: QueuesKept(p, t, n)
  {
    AddReceiverInv(p, q, needed);
    forall r, n | QueuedFor(AddReceiver(p, q), r, n) ensures QueuedFor(p, r, n) {
      assert r == q ==> Queue(AddReceiver(p, q), r) == [];
    }
  }

  /** One receive takes the head of one queue. */
  lemma PopQueues(p: Pump, q: Text)
    requires Inv(p) && Queue(p, q) != []
    ensures Queue(Popped(p, q), q) == Queue(p, q)[1..]
    ensures forall r :: r != q ==> Queue(Popped(p, q), r) == Queue(p, r)
  {
  }

  lemma PopInv(p: Pump, q: Text)
    requires Inv(p) && Queue(p, q) != []
    ensures Inv(Popped(p, q))
  {
    var t := Popped(p, q);
    PopQueues(p, q);
    PopShape(p, q);
    OverlapKept(p, t);
    forall r | r in t.receivers ensures QueueOk(t, r) {
      assert QueueOk(p, r);
      if r == q { TailOk(p, t, q); } else { SameQueueOk(p, t, r); }
    }
  }

  lemma PopShape(p: Pump, q: Text)
    requires Inv(p) && Queue(p, q) != []
    ensures var t := Popped(p, q);
      && WellFormed(t.bus) && t.bus.published == |t.log| && Subscribed(t) && Injective(t) && DeliveredOk(t)
      && t.receivers == p.receivers && t.log == p.log && t.delivered == p.delivered
  {
  }

  lemma TailOk(p: Pump, t: Pump, q: Text)
    requires QueueOk(p, q) && Queue(p, q) != [] && Queue(t, q) == Queue(p, q)[1..]
    requires t.log == p.log && t.delivered == p.delivered
    ensures QueueOk(t, q)
  {
    forall i | 0 <= i < |Queue(t, q)| ensures Queue(t, q)[i] == Queue(p, q)[i + 1] { }
  }

  /** The head, and it alone, is in no queue afterwards. */
  lemma PopKeeps(p: Pump, q: Text)
    requires Inv(p) && Queue(p, q) != []
    ensures var x := Queue(p, q)[0];
      && x.serial < |p.log| && x.serial !in p.delivered
      && (forall r, n :: QueuedFor(Popped(p, q), r, n) <==> QueuedFor(p, r, n) && n != x.serial)
  {
    var t, x := Popped(p, q), Queue(p, q)[0];
    PopQueues(p, q);
    HeadOk(p, q);
    hide Inv, QueueOk;
    forall r, n ensures QueuedFor(t, r, n) <==> QueuedFor(p, r, n) && n != x.serial {
      if r == q {
        TailQueued(p, t, q, n);
      } else if QueuedFor(p, r, n) && n == x.serial {
        OneQueue(p, q, r, n);
      }
    }
  }

  lemma HeadOk(p: Pump, q: Text)
    requires Inv(p) && Queue(p, q) != []
    ensures QueueOk(p, q) && QueuedFor(p, q, Queue(p, q)[0].serial)
    ensures var x := Queue(p, q)[0]; x.serial < |p.log| && x.serial !in p.delivered
  {
    assert QueueOk(p, q);
  }

  lemma TailQueued(p: Pump, t: Pump, q: Text, n: nat)
    requires QueueOk(p, q) && Queue(p, q) != [] && Queue(t, q) == Queue(p, q)[1..] && t.receivers == p.receivers
    ensures QueuedFor(t, q, n) <==> QueuedFor(p, q, n) && n != Queue(p, q)[0].serial
  {
    var x := Queue(p, q)[0];
    assert Queue(p, q) == [x] + Queue(t, q);
    forall y | y in Queue(t, q) ensures y.serial != x.serial && y in Queue(p, q) {
      var i :| 0 <= i < |Queue(t, q)| && Queue(t, q)[i] == y;
      assert Queue(p, q)[i + 1] == y;
    }
  }

  /** A publication is queued for one receiver at most, and then not delivered. */
  lemma OneQueue(p: Pump, q: Text, r: Text, n: nat)
    requires Inv(p) && QueuedFor(p, q, n) && QueuedFor(p, r, n)
    ensures q == r && n !in p.delivered && n < |p.log|
  {
    var x :| x in Queue(p, q) && x.serial == n;
    var y :| y in Queue(p, r) && y.serial == n;
    assert QueueOk(p, q) && QueueOk(p, r);
    assert PatternMatches(q, p.log[n].kind) && PatternMatches(r, p.log[n].kind);
  }

  // ---- Each move keeps it ----------------------------------------------------------------------

  lemma ReloadMoveKeeps(s: Fine, m: Move)
    requires FineInv(s) && MayMove(s, m) && (m.BeginReload? || m.DropOne? || m.SubscribeOne? || m.EndReload?)
    ensures FineInv(Moved(s, m))
  {
    match m
    case BeginReload(patterns) =>
      forall q, r, kind: Text | q in Covering(patterns) && r in Covering(patterns)
          && PatternMatches(q, kind) && PatternMatches(r, kind)
        ensures q == r
      {
        CoverDisjoint(patterns, q, r, kind);
      }
    case DropOne(q) => DropKeeps(s.pump, q);
    case SubscribeOne(q) => SubscribeKeeps(s.pump, q, s.phase.needed);
    case EndReload =>
  }

  lemma TakeKeeps(s: Fine)
    requires FineInv(s) && MayMove(s, TakeOne)
    ensures FineInv(Moved(s, TakeOne))
  {
    hide Inv;
    PopInv(s.pump, s.phase.todo[0]);
    TakenMore(s.pump, s.phase.todo[0], s.phase.taken);
  }

  lemma TakenMore(p: Pump, q: Text, taken: seq<Stamped>)
    requires Inv(p) && Queue(p, q) != [] && TakenOk(p, taken)
    ensures TakenOk(Popped(p, q), taken + [Queue(p, q)[0]])
  {
    hide Inv;
    var t, x := Popped(p, q), Queue(p, q)[0];
    PopKeeps(p, q);
    assert QueuedFor(p, q, x.serial) && Queued(p, x.serial);
    forall n | Queued(t, n) ensures Queued(p, n) && n != x.serial {
      QueuedAny(t, n);
      QueuedAny(p, n);
    }
  }

  lemma EndDrainKeeps(s: Fine)
    requires FineInv(s) && MayMove(s, EndDrain)
    ensures FineInv(Moved(s, EndDrain))
    ensures forall n :: n in Moved(s, EndDrain).pump.delivered <==> Got(s, n)
  {
    var p, t := s.pump, Moved(s, EndDrain).pump;
    var ys := Sorted(s.phase.taken);
    SortedOk(s.phase.taken);
    SerialsOk(ys);
    AppendDelivered(p, t, ys);
    OverlapKept(p, t);
    forall q | q in t.receivers ensures QueueOk(t, q) {
      assert QueueOk(p, q) && Queue(t, q) == Queue(p, q);
      forall x | x in Queue(p, q) ensures x.serial !in t.delivered { assert Queued(p, x.serial); }
    }
    assert Subscribed(t) && Injective(t);
  }

  lemma OutsideMoveKeeps(s: Fine, m: Move)
    requires FineInv(s) && MayMove(s, m) && IsOutside(m)
    ensures FineInv(Moved(s, m))
  {
    hide Inv;
    var p, t := s.pump, Apply(s.pump, Outside(m));
    OutsideKeeps(p, m);
    forall x | x in Taken(s) ensures !Queued(t, x.serial) { KeptQueued(p, t, x.serial); }
  }

  lemma MoveKeeps(s: Fine, m: Move)
    requires FineInv(s) && MayMove(s, m)
    ensures FineInv(Moved(s, m))
  {
    match m
    case BeginReload(_) => ReloadMoveKeeps(s, m);
    case DropOne(_) => ReloadMoveKeeps(s, m);
    case SubscribeOne(_) => ReloadMoveKeeps(s, m);
    case EndReload => ReloadMoveKeeps(s, m);
    case BeginDrain(order) => SameMembers2(order, s.pump.receivers.Keys);
    case TakeOne => TakeKeeps(s);
    case NextReceiver =>
      var todo := s.phase.todo;
      assert forall i :: 0 <= i < |todo[1..]| ==> todo[1..][i] == todo[i + 1];
    case EndDrain => EndDrainKeeps(s);
    case _ => OutsideMoveKeeps(s, m);
  }

  // ---- Where a publication is ------------------------------------------------------------------

  /** Handed over, or taken by the drain under way, which hands it over at its end. */
  ghost predicate Got(s: Fine, n: nat) {
    n in s.pump.delivered || exists x :: x in Taken(s) && x.serial == n
  }

  ghost predicate Gone(s: Fine, n: nat) { n < |s.pump.log| && !Got(s, n) && !Queued(s.pump, n) }

  /** The drain under way takes from the queue of `q`. */
  predicate TakesFrom(s: Fine, m: Move, q: Text) {
    m.TakeOne? && s.phase.Draining? && s.phase.todo != [] && s.phase.todo[0] == q
  }

  /** A move other than a receive: queues keep what is old but for the dropped one, and nothing is
      got. */
  lemma MoveQueues(s: Fine, m: Move, n: nat)
    requires FineInv(s) && MayMove(s, m) && !m.TakeOne? && n < |s.pump.log|
    ensures n < |Moved(s, m).pump.log| && (Got(Moved(s, m), n) <==> Got(s, n))
    ensures forall q :: QueuedFor(Moved(s, m).pump, q, n) <==> QueuedFor(s.pump, q, n) && m != DropOne(q)
  {
    hide Inv;
    match m
    case DropOne(q) => DropKeeps(s.pump, q);
    case SubscribeOne(q) => SubscribeKeeps(s.pump, q, s.phase.needed);
    case EndDrain =>
      EndDrainKeeps(s);
      forall q ensures Queue(Moved(s, m).pump, q) == Queue(s.pump, q) { }
    case BeginReload(_) =>
    case EndReload =>
    case BeginDrain(_) =>
    case NextReceiver =>
    case _ => OutsideQueues(s, m, n);
  }

  lemma OutsideQueues(s: Fine, m: Move, n: nat)
    requires FineInv(s) && MayMove(s, m) && IsOutside(m) && n < |s.pump.log|
    ensures n < |Moved(s, m).pump.log| && (Got(Moved(s, m), n) <==> Got(s, n))
    ensures forall q :: QueuedFor(Moved(s, m).pump, q, n) <==> QueuedFor(s.pump, q, n)
  {
    hide Inv;
    OutsideKeeps(s.pump, m);
    assert QueuesKept(s.pump, Moved(s, m).pump, n);
  }

  /** A receive moves one publication from the queue it looks at to what is got. */
  lemma TakeQueues(s: Fine, n: nat)
    requires FineInv(s) && MayMove(s, TakeOne) && n < |s.pump.log|
    ensures var t := Moved(s, TakeOne); var q := s.phase.todo[0];
      && n < |t.pump.log|
      && (Got(t, n) <==> Got(s, n) || n == Queue(s.pump, q)[0].serial)
      && (forall r :: QueuedFor(t.pump, r, n) <==> QueuedFor(s.pump, r, n) && n != Queue(s.pump, q)[0].serial)
      && QueuedFor(s.pump, q, Queue(s.pump, q)[0].serial)
  {
    PopKeeps(s.pump, s.phase.todo[0]);
  }

  /** What is queued is neither got nor queued twice. */
  lemma QueuedNotGot(s: Fine, q: Text, n: nat)
    requires FineInv(s) && QueuedFor(s.pump, q, n)
    ensures !Got(s, n) && n < |s.pump.log|
  {
    OneQueue(s.pump, q, q, n);
    assert Queued(s.pump, n);
  }

  lemma GoneStays(s: Fine, m: Move, n: nat)
    requires FineInv(s) && MayMove(s, m) && Gone(s, n)
    ensures Gone(Moved(s, m), n)
  {
    QueuedAny(s.pump, n);
    QueuedAny(Moved(s, m).pump, n);
    if m.TakeOne? { TakeQueues(s, n); } else { MoveQueues(s, m, n); }
  }

  /** Got, or still to be taken by the drain under way. */
  ghost predicate InHand(s: Fine, q: Text, n: nat) {
    n < |s.pump.log| && (Got(s, n) || (s.phase.Draining? && q in s.phase.todo && QueuedFor(s.pump, q, n)))
  }

  lemma InHandStays(s: Fine, m: Move, q: Text, n: nat)
    requires FineInv(s) && MayMove(s, m) && InHand(s, q, n)
    ensures InHand(Moved(s, m), q, n)
  {
    if m.TakeOne? { TakeQueues(s, n); } else { MoveQueues(s, m, n); }
  }

  // ---- Runs ------------------------------------------------------------------------------------

  ghost predicate RunMay(s: Fine, moves: seq<Move>)
    decreases |moves|
  {
    moves == [] || (MayMove(s, moves[0]) && RunMay(Moved(s, moves[0]), moves[1..]))
  }

  ghost function RunFine(s: Fine, moves: seq<Move>): Fine
    requires RunMay(s, moves)
    decreases |moves|
  {
    if moves == [] then s else RunFine(Moved(s, moves[0]), moves[1..])
  }

  lemma {:induction false} RunFineInv(s: Fine, moves: seq<Move>)
    requires FineInv(s) && RunMay(s, moves)
    ensures FineInv(RunFine(s, moves))
    decreases |moves|
  {
    if moves == [] {
    } else {
      MoveKeeps(s, moves[0]);
      RunFineInv(Moved(s, moves[0]), moves[1..]);
    }
  }

  /** However publications come between receives, no publication is handed over twice. */
  lemma FineAtMostOnce(moves: seq<Move>)
    requires RunMay(Start, moves)
    ensures AwaitMachine.Once(RunFine(Start, moves).pump.delivered)
  {
    RunFineInv(Start, moves);
  }

  lemma {:induction false} GoneForever(s: Fine, moves: seq<Move>, n: nat)
    requires FineInv(s) && RunMay(s, moves) && Gone(s, n)
    ensures Gone(RunFine(s, moves), n)
    decreases |moves|
  {
    if moves == [] {
    } else {
      MoveKeeps(s, moves[0]);
      GoneStays(s, moves[0], n);
      GoneForever(Moved(s, moves[0]), moves[1..], n);
    }
  }

  lemma {:induction false} InHandThrough(s: Fine, moves: seq<Move>, q: Text, n: nat)
    requires FineInv(s) && RunMay(s, moves) && InHand(s, q, n)
    ensures InHand(RunFine(s, moves), q, n)
    ensures EndDrain in moves || n in s.pump.delivered ==> n in RunFine(s, moves).pump.delivered
    decreases |moves|
  {
    if moves == [] {
    } else {
      var t := Moved(s, moves[0]);
      assert moves == [moves[0]] + moves[1..];
      MoveKeeps(s, moves[0]);
      InHandStays(s, moves[0], q, n);
      DeliveredGrows(s, moves[0], n);
      InHandThrough(t, moves[1..], q, n);
    }
  }

  lemma DeliveredGrows(s: Fine, m: Move, n: nat)
    requires FineInv(s) && MayMove(s, m)
    ensures n in s.pump.delivered ==> n in Moved(s, m).pump.delivered
    ensures m == EndDrain ==> (n in Moved(s, m).pump.delivered <==> Got(s, n))
  {
    if m == EndDrain { EndDrainKeeps(s); }
  }

  // ---- Delivery --------------------------------------------------------------------------------

  predicate NoDrainBegun(moves: seq<Move>) { forall m :: m in moves ==> !m.BeginDrain? }

  /** The drain under way, if any, has passed `q`. */
  predicate Passed(s: Fine, q: Text) { s.phase.Draining? ==> q !in s.phase.todo }

  /** Until the next drain begins, what is queued behind the drain under way stays exactly as long as its
      receiver. */
  lemma {:induction false} WaitsOrGone(s: Fine, moves: seq<Move>, q: Text, n: nat)
    requires FineInv(s) && RunMay(s, moves) && NoDrainBegun(moves) && Passed(s, q) && QueuedFor(s.pump, q, n)
    ensures var t := RunFine(s, moves);
      if DropOne(q) in moves then Gone(t, n) else QueuedFor(t.pump, q, n)
    decreases |moves|
  {
    hide FineInv;
    if moves == [] {
    } else {
      var m, t := moves[0], Moved(s, moves[0]);
      assert moves == [m] + moves[1..];
      MoveKeeps(s, m);
      WaitsOneMove(s, m, q, n);
      if m == DropOne(q) {
        GoneForever(t, moves[1..], n);
      } else {
        WaitsOrGone(t, moves[1..], q, n);
      }
    }
  }

  lemma WaitsOneMove(s: Fine, m: Move, q: Text, n: nat)
    requires FineInv(s) && MayMove(s, m) && !m.BeginDrain? && Passed(s, q) && QueuedFor(s.pump, q, n)
    ensures var t := Moved(s, m);
      Passed(t, q) && if m == DropOne(q) then Gone(t, n) else QueuedFor(t.pump, q, n)
  {
    QueuedNotGot(s, q, n);
    if m.TakeOne? {
      TakeQueues(s, n);
      if n == Queue(s.pump, s.phase.todo[0])[0].serial { OneQueue(s.pump, q, s.phase.todo[0], n); }
    } else {
      MoveQueues(s, m, n);
      if m == DropOne(q) {
        QueuedAny(Moved(s, m).pump, n);
        forall r ensures !QueuedFor(Moved(s, m).pump, r, n) {
          if QueuedFor(s.pump, r, n) { OneQueue(s.pump, q, r, n); }
        }
      }
    }
  }

  /** A receiver whose pattern matches is there at the publication, and the drain under way has yet to
      come to it, or no reload drops it. */
  ghost predicate Caught(s: Fine, e: Event, mid: seq<Move>) {
    exists q :: q in s.pump.receivers && PatternMatches(q, e.kind) && (!Passed(s, q) || DropOne(q) !in mid)
  }

  /** What becomes of a publication up to the next drain. */
  lemma CaughtOrGone(s: Fine, e: Event, mid: seq<Move>)
    requires FineInv(s) && MayMove(s, Publication(e)) && RunMay(Moved(s, Publication(e)), mid) && NoDrainBegun(mid)
    requires RunFine(Moved(s, Publication(e)), mid).phase.Resting?
    ensures var n, t := |s.pump.log|, RunFine(Moved(s, Publication(e)), mid);
      if Caught(s, e, mid) then n in t.pump.delivered || Queued(t.pump, n) else Gone(t, n)
  {
    hide Inv, FineInv;
    var n, u := |s.pump.log|, Moved(s, Publication(e));
    MoveKeeps(s, Publication(e));
    Lands(s, e);
    QueuedAny(u.pump, n);
    if q :| QueuedFor(u.pump, q, n) {
      MatchedFate(s, u, e, mid, q);
    } else {
      GoneForever(u, mid, n);
    }
  }

  /** A publication is queued for the receiver that matches it, if any, and not got yet. */
  lemma Lands(s: Fine, e: Event)
    requires FineInv(s) && MayMove(s, Publication(e))
    ensures var n, u := |s.pump.log|, Moved(s, Publication(e));
      && n < |u.pump.log| && !Got(u, n)
      && forall q :: QueuedFor(u.pump, q, n) <==> q in s.pump.receivers && PatternMatches(q, e.kind)
  {
    forall q ensures QueuedFor(Moved(s, Publication(e)).pump, q, |s.pump.log|)
        <==> q in s.pump.receivers && PatternMatches(q, e.kind)
    {
      PublishLands(s.pump, e, q);
    }
  }

  lemma MatchedFate(s: Fine, u: Fine, e: Event, mid: seq<Move>, q: Text)
    requires FineInv(s) && MayMove(s, Publication(e)) && u == Moved(s, Publication(e)) && FineInv(u)
    requires RunMay(u, mid) && NoDrainBegun(mid) && RunFine(u, mid).phase.Resting?
    requires q in s.pump.receivers && PatternMatches(q, e.kind) && QueuedFor(u.pump, q, |s.pump.log|)
    ensures var n, t := |s.pump.log|, RunFine(u, mid);
      if Caught(s, e, mid) then n in t.pump.delivered || Queued(t.pump, n) else Gone(t, n)
  {
    var n := |s.pump.log|;
    forall r | r in s.pump.receivers && PatternMatches(r, e.kind) ensures r == q {
      assert NoOverlap(s.pump);
    }
    assert Caught(s, e, mid) <==> !Passed(s, q) || DropOne(q) !in mid;
    if Passed(s, q) {
      WaitsOrGone(u, mid, q, n);
    } else {
      InHandThrough(u, mid, q, n);
    }
  }

  /** Delivery with every channel operation apart, from any reachable state `s`, in the middle of a
      reload or a drain or between them: the publication of `e`, then anything up to the next drain,
      then that drain, done once its end is among `rest`.  The event has been handed over if and only if
      it was caught, and no event is ever handed over twice. */
  lemma DeliveredIffCaught(before: seq<Move>, s: Fine, e: Event, mid: seq<Move>, t: Fine, order: seq<Text>,
      rest: seq<Move>)
    requires RunMay(Start, before) && s == RunFine(Start, before) && MayMove(s, Publication(e))
    requires RunMay(Moved(s, Publication(e)), mid) && t == RunFine(Moved(s, Publication(e)), mid)
    requires NoDrainBegun(mid) && MayMove(t, BeginDrain(order))
    requires RunMay(Moved(t, BeginDrain(order)), rest) && EndDrain in rest
    ensures var done := RunFine(Moved(t, BeginDrain(order)), rest).pump.delivered;
      (|s.pump.log| in done <==> Caught(s, e, mid)) && AwaitMachine.Once(done)
  {
    var n, u := |s.pump.log|, Moved(t, BeginDrain(order));
    RunFineInv(Start, before);
    MoveKeeps(s, Publication(e));
    RunFineInv(Moved(s, Publication(e)), mid);
    MoveKeeps(t, BeginDrain(order));
    RunFineInv(u, rest);
    CaughtOrGone(s, e, mid);
    if Caught(s, e, mid) {
      DrainFinishes(t, order, rest, n);
    } else {
      GoneStays(t, BeginDrain(order), n);
      GoneForever(u, rest, n);
    }
  }

  /** A drain hands over by its end whatever was queued at its beginning. */
  lemma DrainFinishes(t: Fine, order: seq<Text>, rest: seq<Move>, n: nat)
    requires FineInv(t) && MayMove(t, BeginDrain(order)) && FineInv(Moved(t, BeginDrain(order)))
    requires RunMay(Moved(t, BeginDrain(order)), rest) && EndDrain in rest
    requires n in t.pump.delivered || Queued(t.pump, n)
    ensures n in RunFine(Moved(t, BeginDrain(order)), rest).pump.delivered
  {
    var u := Moved(t, BeginDrain(order));
    SameMembers2(order, t.pump.receivers.Keys);
    QueuedAny(t.pump, n);
    if q :| QueuedFor(t.pump, q, n) {
      OneQueue(t.pump, q, q, n);
      InHandThrough(u, rest, q, n);
    } else {
      assert DeliveredOk(t.pump);
      InHandThrough(u, rest, [], n);
    }
  }

  // ---- A reload and a drain can be done --------------------------------------------------------

  lemma RunCons(s: Fine, m: Move, rest: seq<Move>)
    requires MayMove(s, m) && RunMay(Moved(s, m), rest)
    ensures RunMay(s, [m] + rest) && RunFine(s, [m] + rest) == RunFine(Moved(s, m), rest)
  {
    assert ([m] + rest)[1..] == rest;
  }

  /** What a reload leaves of the pump: exactly the needed receivers, and in those it keeps their queues. */
  ghost predicate Reloaded(p: Pump, t: Pump, needed: set<Text>) {
    && t.receivers.Keys == needed && t.log == p.log && t.delivered == p.delivered
    && forall q, n: nat :: q in needed ==> (QueuedFor(t, q, n) <==> QueuedFor(p, q, n))
  }

  lemma ReloadMove(s: Fine, m: Move)
    requires FineInv(s) && MayMove(s, m) && (m.DropOne? || m.SubscribeOne?)
    ensures var t := Moved(s, m);
      && t.phase == s.phase && t.pump.log == s.pump.log && t.pump.delivered == s.pump.delivered
      && t.pump.receivers.Keys == (if m.DropOne? then s.pump.receivers.Keys - {m.q} else s.pump.receivers.Keys + {m.q})
      && forall q, n: nat :: q in s.phase.needed ==> (QueuedFor(t.pump, q, n) <==> QueuedFor(s.pump, q, n))
  {
    if m.DropOne? {
      DropKeeps(s.pump, m.q);
    } else {
      SubscribeKeeps(s.pump, m.q, s.phase.needed);
      forall q, n: nat ensures QueuedFor(Moved(s, m).pump, q, n) <==> QueuedFor(s.pump, q, n) {
        assert QueuesKept(s.pump, Moved(s, m).pump, n);
      }
    }
  }

  /** How many receivers a reload has yet to drop or to subscribe. */
  function LeftToDo(keys: set<Text>, needed: set<Text>): nat { |keys - needed| + |needed - keys| }

  lemma DropLess(keys: set<Text>, needed: set<Text>, q: Text)
    requires q in keys && q !in needed
    ensures LeftToDo(keys - {q}, needed) < LeftToDo(keys, needed)
  {
    assert (keys - {q}) - needed == (keys - needed) - {q} && needed - (keys - {q}) == needed - keys;
  }

  lemma SubscribeLess(keys: set<Text>, needed: set<Text>, q: Text)
    requires q !in keys && q in needed
    ensures LeftToDo(keys + {q}, needed) < LeftToDo(keys, needed)
  {
    assert needed - (keys + {q}) == (needed - keys) - {q} && (keys + {q}) - needed == keys - needed;
  }

  lemma PickReload(keys: set<Text>, needed: set<Text>) returns (m: Move)
    requires keys != needed
    ensures if m.DropOne? then m.q in keys && m.q !in needed && LeftToDo(keys - {m.q}, needed) < LeftToDo(keys, needed)
      else m.SubscribeOne? && m.q !in keys && m.q in needed && keys <= needed
           && LeftToDo(keys + {m.q}, needed) < LeftToDo(keys, needed)
  {
    hide LeftToDo;
    if q :| q in keys && q !in needed {
      m := DropOne(q);
      DropLess(keys, needed, q);
    } else {
      assert keys <= needed;
      var q :| q in needed && q !in keys;
      m := SubscribeOne(q);
      SubscribeLess(keys, needed, q);
    }
  }

  lemma ShapedOf(s: Fine)
    requires FineInv(s)
    ensures Shaped(s.pump)
  {
  }

  lemma ReloadNext(s: Fine) returns (m: Move)
    requires FineInv(s) && s.phase.Reloading? && s.pump.receivers.Keys != s.phase.needed
    ensures MayMove(s, m) && (m.DropOne? || m.SubscribeOne?)
    ensures LeftToDo(if m.DropOne? then s.pump.receivers.Keys - {m.q} else s.pump.receivers.Keys + {m.q}, s.phase.needed)
      < LeftToDo(s.pump.receivers.Keys, s.phase.needed)
  {
    hide FineInv, LeftToDo, Shaped;
    ShapedOf(s);
    m := PickReload(s.pump.receivers.Keys, s.phase.needed);
  }

  lemma EndReloadRuns(s: Fine)
    requires FineInv(s) && s.phase.Reloading? && s.pump.receivers.Keys == s.phase.needed
    ensures RunMay(s, [EndReload]) && RunFine(s, [EndReload]) == s.(phase := Resting)
    ensures Reloaded(s.pump, s.pump, s.phase.needed)
  {
    assert Shaped(s.pump) && RunMay(Moved(s, EndReload), []);
    RunCons(s, EndReload, []);
    assert [EndReload] + [] == [EndReload];
  }

  /** The pump's own moves, none of others between them, bring a reload to its end. */
  lemma {:induction false} FinishReload(s: Fine) returns (moves: seq<Move>)
    requires FineInv(s) && s.phase.Reloading?
    ensures RunMay(s, moves) && RunFine(s, moves).phase == Resting
    ensures Reloaded(s.pump, RunFine(s, moves).pump, s.phase.needed)
    decreases LeftToDo(s.pump.receivers.Keys, s.phase.needed)
  {
    hide FineInv, QueuedFor, MayMove, Moved, RunMay, RunFine, LeftToDo;
    if s.pump.receivers.Keys == s.phase.needed {
      moves := [EndReload];
      EndReloadRuns(s);
    } else {
      var m := ReloadNext(s);
      ReloadMove(s, m);
      MoveKeeps(s, m);
      var rest := FinishReload(Moved(s, m));
      moves := [m] + rest;
      RunCons(s, m, rest);
    }
  }

  /** A reload by single moves does what `ReconcileInv` says of a whole one. */
  lemma ReloadRuns(s: Fine, patterns: seq<Text>) returns (moves: seq<Move>)
    requires FineInv(s) && s.phase.Resting?
    ensures moves != [] && moves[0] == BeginReload(patterns) && RunMay(s, moves) && RunFine(s, moves).phase == Resting
    ensures Reloaded(s.pump, RunFine(s, moves).pump, Elements(Covering(patterns)))
  {
    assert MayMove(s, BeginReload(patterns));
    MoveKeeps(s, BeginReload(patterns));
    var rest := FinishReload(Moved(s, BeginReload(patterns)));
    moves := [BeginReload(patterns)] + rest;
    RunCons(s, BeginReload(patterns), rest);
  }

  /** Got, or queued for a receiver that the drain under way has yet to come to. */
  ghost predicate Comes(s: Fine, n: nat)
    requires s.phase.Draining?
  {
    Got(s, n) || exists q :: q in s.phase.todo && QueuedFor(s.pump, q, n)
  }

  lemma DrainMove(s: Fine, m: Move, n: nat)
    requires FineInv(s) && s.phase.Draining? && MayMove(s, m) && (m == TakeOne || m == NextReceiver) && n < |s.pump.log|
    ensures var t := Moved(s, m);
      t.phase.Draining? && t.pump.log == s.pump.log && t.pump.receivers == s.pump.receivers && (Comes(t, n) <==> Comes(s, n))
  {
    var todo := s.phase.todo;
    if m == TakeOne {
      TakeQueues(s, n);
      assert todo[0] in todo;
    } else {
      MoveQueues(s, m, n);
      assert todo == [todo[0]] + todo[1..];
      assert !QueuedFor(s.pump, todo[0], n);
    }
  }

  /** And a drain to its end, with everything handed over that was queued for a receiver still to come to. */
  lemma {:induction false} FinishDrain(s: Fine) returns (moves: seq<Move>)
    requires FineInv(s) && s.phase.Draining?
    ensures RunMay(s, moves) && RunFine(s, moves).phase == Resting
    ensures var t := RunFine(s, moves).pump;
      && t.log == s.pump.log && t.receivers == s.pump.receivers
      && forall n: nat :: n < |s.pump.log| ==> (n in t.delivered <==> Comes(s, n))
    decreases |s.phase.todo|, if s.phase.todo == [] then 0 else |Queue(s.pump, s.phase.todo[0])|
  {
    var todo := s.phase.todo;
    assert Shaped(s.pump);
    if todo == [] {
      EndDrainKeeps(s);
      moves := [EndDrain];
      assert RunMay(Moved(s, EndDrain), []);
      RunCons(s, EndDrain, []);
      assert [EndDrain] + [] == moves;
    } else {
      var m := if Queue(s.pump, todo[0]) == [] then NextReceiver else TakeOne;
      if m == TakeOne { PopQueues(s.pump, todo[0]); }
      forall n: nat | n < |s.pump.log| ensures Comes(Moved(s, m), n) <==> Comes(s, n) { DrainMove(s, m, n); }
      MoveKeeps(s, m);
      hide FineInv, Comes, RunMay, RunFine;
      var rest := FinishDrain(Moved(s, m));
      moves := [m] + rest;
      RunCons(s, m, rest);
    }
  }

  /** A drain by single moves hands over exactly what was queued at its beginning, when nothing comes in
      between. */
  lemma DrainRuns(s: Fine, order: seq<Text>) returns (moves: seq<Move>)
    requires FineInv(s) && s.phase.Resting? && PumpDelivery.Lists(order, s.pump.receivers.Keys)
    ensures moves != [] && moves[0] == BeginDrain(order) && RunMay(s, moves) && RunFine(s, moves).phase == Resting
    ensures var t := RunFine(s, moves).pump;
      forall n: nat :: n < |s.pump.log| ==> (n in t.delivered <==> n in s.pump.delivered || Queued(s.pump, n))
  {
    var begin := BeginDrain(order);
    SameMembers2(order, s.pump.receivers.Keys);
    assert MayMove(s, begin);
    MoveKeeps(s, begin);
    var u := Moved(s, begin);
    forall n: nat ensures Comes(u, n) <==> n in s.pump.delivered || Queued(s.pump, n) {
      QueuedAny(s.pump, n);
    }
    var rest := FinishDrain(u);
    moves := [begin] + rest;
    RunCons(s, begin, rest);
  }
}
