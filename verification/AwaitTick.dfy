/** One pump tick on the await machine: exactly when a reply drained in the same batch as the completion
    it answers resolves its await, and which replies do so whatever order they are drained in. */
module AwaitTick {
  import opened ConditionSyntax
  import opened Events
  import opened Ordering
  import opened EventPattern
  import opened AwaitMachine

  /** A dispatched event with the entries that the triggers it fires register. */
  datatype Arrival = Arrival(event: Event, registered: seq<Preflight>)

  function RegisterAll(s: System, entries: seq<Preflight>): System
    decreases |entries|
  {
    if entries == [] then s else Register(RegisterAll(s, entries[..|entries| - 1]), entries[|entries| - 1])
  }

  function Dispatch(s: System, a: Arrival, show: Json -> Text): System {
    RegisterAll(Intake(s, a.event, show), a.registered)
  }

  function Tick(s: System, batch: seq<Arrival>, show: Json -> Text): System
    decreases |batch|
  {
    if batch == [] then s else Dispatch(Tick(s, batch[..|batch| - 1], show), batch[|batch| - 1], show)
  }

  function ArrivalEvents(batch: seq<Arrival>): seq<Event> {
    seq(|batch|, i requires 0 <= i < |batch| => batch[i].event)
  }

  /** New entries are numbered on from the history. */
  predicate Numbered(s: System, entries: seq<Preflight>) {
    forall k :: 0 <= k < |entries| ==> entries[k].firing == |s.history| + k
  }

  ghost predicate TickNumbered(s: System, batch: seq<Arrival>, show: Json -> Text)
    decreases |batch|
  {
    batch == [] || (TickNumbered(s, batch[..|batch| - 1], show)
                    && Numbered(Tick(s, batch[..|batch| - 1], show), batch[|batch| - 1].registered))
  }

  // ---- What a tick keeps -----------------------------------------------------------------------

  lemma IntakeConserves(s: System, e: Event, show: Json -> Text)
    requires Conserved(s)
    ensures Conserved(Intake(s, e, show))
  {
    StepConserves(s, DoPromote(e.(origin := Internal)), show);
    if e.origin == Internal {
      assert e.(origin := Internal) == e;
      StepConserves(Promote(s, e, show), DoMatch(e), show);
    }
  }

  lemma {:induction false} RegisterAllKeeps(s: System, entries: seq<Preflight>)
    requires Conserved(s) && Numbered(s, entries)
    ensures var t := RegisterAll(s, entries);
      && Conserved(t) && t.history == s.history + entries
      && t.preflight == s.preflight + entries && t.pending == s.pending && t.fates == s.fates
      && t.emitted == s.emitted
    decreases |entries|
  {
    hide Conserved;
    if entries == [] {
      assert s.preflight + entries == s.preflight && s.history + entries == s.history;
    } else {
      var front, last := entries[..|entries| - 1], entries[|entries| - 1];
      RegisterAllKeeps(s, front);
      RegisterConserves(RegisterAll(s, front), last);
      assert entries == front + [last];
    }
  }

  /** Fates are final. */
  ghost predicate FatesKept(s: System, t: System) {
    s.fates.Keys <= t.fates.Keys && forall f :: f in s.fates ==> t.fates[f] == s.fates[f]
  }

  lemma PromoteIsNarrow(s: System, e: Event, show: Json -> Text)
    requires Located(s)
    ensures var t := Promote(s, e, show);
      && FatesKept(s, t) && t.history == s.history && t.emitted == s.emitted
      && |s.preflight| <= |t.preflight| + 1 && s.pending <= t.pending
  {
    var c := Completes(e);
    if c.Completion? && Oldest(s.preflight, c.action) < |s.preflight| {
      var f := s.preflight[Oldest(s.preflight, c.action)].firing;
      assert InPreflight(s, f);
      InIds(s, f);
      Whereabouts(s, f);
    }
  }

  lemma MatchIsNarrow(s: System, e: Event)
    requires Located(s)
    ensures var t := MatchPending(s, e);
      && FatesKept(s, t) && t.history == s.history && t.preflight == s.preflight
      && |t.emitted| <= |s.emitted| + 1 && |s.pending| <= |t.pending| + 1
  {
    var i := FirstClaim(s.pending, e);
    if i < |s.pending| {
      assert InPending(s, s.pending[i].firing);
      InIds(s, s.pending[i].firing);
      Whereabouts(s, s.pending[i].firing);
    }
  }

  /** An event moves the await machine little: it takes at most one preflight and resolves at most one
      pending entry, and an event from outside the daemon does nothing at all. */
  lemma IntakeIsNarrow(s: System, e: Event, show: Json -> Text)
    requires Conserved(s)
    ensures var t := Intake(s, e, show);
      && Conserved(t) && FatesKept(s, t) && t.history == s.history
      && (e.origin == External ==> t == s)
      && |s.preflight| <= |t.preflight| + 1 && |t.emitted| <= |s.emitted| + 1 && |s.pending| <= |t.pending| + 1
  {
    IntakeConserves(s, e, show);
    if e.origin == Internal {
      PromoteIsNarrow(s, e, show);
      PromoteLocates(s, e, show);
      MatchIsNarrow(Promote(s, e, show), e);
    }
  }

  lemma {:induction false} TickKeeps(s: System, batch: seq<Arrival>, show: Json -> Text)
    requires Conserved(s) && TickNumbered(s, batch, show)
    ensures var t := Tick(s, batch, show);
      Conserved(t) && s.history <= t.history && FatesKept(s, t)
    decreases |batch|
  {
    if batch == [] {
    } else {
      var front, last := batch[..|batch| - 1], batch[|batch| - 1];
      TickKeeps(s, front, show);
      var u := Tick(s, front, show);
      IntakeIsNarrow(u, last.event, show);
      RegisterAllKeeps(Intake(u, last.event, show), last.registered);
    }
  }

  // ---- Following one await through a tick ------------------------------------------------------

  /** The entry of firing `f` heads the preflights of its action. */
  ghost predicate Waiting(s: System, f: nat, x: Text) {
    Oldest(s.preflight, x) < |s.preflight| && s.preflight[Oldest(s.preflight, x)].firing == f
  }

  ghost predicate MatchedIn(s: System, f: nat) { f in s.fates && s.fates[f] == Matched }

  /** An event from inside the daemon that completes action `x`, well or not. */
  predicate CompletesFor(e: Event, x: Text) {
    e.origin == Internal && IsCompletion(e) && Completes(e).action == x
  }

  /** An event from inside the daemon that meets the criteria of `q`. */
  predicate Answers(q: Pending, e: Event) { e.origin == Internal && Claims(q, e) }

  /** No pending entry ahead of that of `f`, or none at all while `f` has no entry there, claims the
      event. */
  ghost predicate Foremost(s: System, f: nat, e: Event) {
    forall k :: 0 <= k < |s.pending| && Ahead(s, f, k) ==> !Claims(s.pending[k], e)
  }

  predicate Ahead(s: System, f: nat, k: nat)
    requires k < |s.pending|
  {
    forall l :: 0 <= l <= k ==> s.pending[l].firing != f
  }

  /** The passing of an event that completes some other action, or nothing. */
  lemma PromoteStaysWaiting(s: System, e: Event, f: nat, x: Text, show: Json -> Text)
    requires Waiting(s, f, x)
    requires Completes(e).Completion? ==> Completes(e).action != x
    ensures Waiting(Promote(s, e, show), f, x)
  {
    var c := Completes(e);
    if c.Completion? && Oldest(s.preflight, c.action) < |s.preflight| {
      OldestAfterRemoval(s.preflight, Oldest(s.preflight, c.action), x);
    }
  }

  lemma StaysWaiting(s: System, a: Arrival, f: nat, x: Text, show: Json -> Text)
    requires Conserved(s) && Waiting(s, f, x)
    requires Numbered(s, a.registered)
    requires !CompletesFor(a.event, x)
    ensures Waiting(Dispatch(s, a, show), f, x)
  {
    IntakeIsNarrow(s, a.event, show);
    var u := Intake(s, a.event, show);
    RegisterAllKeeps(u, a.registered);
    if a.event.origin == Internal { PromoteStaysWaiting(s, a.event, f, x, show); }
    OldestAppend(u.preflight, a.registered, x);
  }

  lemma OldestIs(pre: seq<Preflight>, x: Text, i: nat)
    requires i < |pre| && pre[i].action == x && forall k :: 0 <= k < i ==> pre[k].action != x
    ensures Oldest(pre, x) == i
  {
  }

  lemma OldestAfterRemoval(pre: seq<Preflight>, i: nat, x: Text)
    requires i < |pre| && pre[i].action != x && Oldest(pre, x) < |pre|
    ensures Oldest(Without(pre, i), x) < |Without(pre, i)|
    ensures Without(pre, i)[Oldest(Without(pre, i), x)] == pre[Oldest(pre, x)]
  {
    var o := Oldest(pre, x);
    OldestIs(Without(pre, i), x, if i < o then o - 1 else o);
  }

  lemma OldestAppend(pre: seq<Preflight>, more: seq<Preflight>, x: Text)
    requires Oldest(pre, x) < |pre|
    ensures Oldest(pre + more, x) == Oldest(pre, x)
  {
    OldestIs(pre + more, x, Oldest(pre, x));
  }

  lemma {:induction false} TickStaysWaiting(s: System, batch: seq<Arrival>, f: nat, x: Text, show: Json -> Text)
    requires Conserved(s) && Waiting(s, f, x) && TickNumbered(s, batch, show)
    requires forall k :: 0 <= k < |batch| ==> !CompletesFor(batch[k].event, x)
    ensures Waiting(Tick(s, batch, show), f, x)
    decreases |batch|
  {
    if batch == [] {
    } else {
      var front := batch[..|batch| - 1];
      TickStaysWaiting(s, front, f, x, show);
      TickKeeps(s, front, show);
      StaysWaiting(Tick(s, front, show), batch[|batch| - 1], f, x, show);
    }
  }

  /** A preflight has no fate yet, and no pending entry. */
  lemma WaitingIsOpen(s: System, f: nat, x: Text)
    requires Located(s) && Waiting(s, f, x)
    ensures f !in s.fates && forall k :: 0 <= k < |s.pending| ==> s.pending[k].firing != f
  {
    assert InPreflight(s, f);
    InIds(s, f);
    Whereabouts(s, f);
    forall k | 0 <= k < |s.pending| ensures s.pending[k].firing != f {
      if s.pending[k].firing == f { assert InPending(s, f); }
    }
  }

  /** A pending entry has no fate yet, and no other entry has its firing. */
  lemma PendingIsOpen(s: System, k: nat)
    requires Located(s) && k < |s.pending|
    ensures s.pending[k].firing !in s.fates
    ensures forall l :: 0 <= l < |s.pending| && s.pending[l].firing == s.pending[k].firing ==> l == k
  {
    var f, ids := s.pending[k].firing, PendIds(s.pending);
    assert InPending(s, f);
    InIds(s, f);
    Whereabouts(s, f);
    forall g ensures multiset(ids)[g] <= 1 { Whereabouts(s, g); }
    OnceFromCounts(ids);
    assert forall l :: 0 <= l < |ids| ==> ids[l] == s.pending[l].firing;
  }

  /** The pass over the pending entries resolves the one at `k` if that claims the event and none ahead
      of it does, and otherwise leaves it. */
  lemma MatchFate(s: System, e: Event, k: nat)
    requires k < |s.pending|
    ensures var q, t := s.pending[k], MatchPending(s, e);
      if Claims(q, e) && forall i :: 0 <= i < k ==> !Claims(s.pending[i], e) then MatchedIn(t, q.firing)
      else q in t.pending
  {
    var i := FirstClaim(s.pending, e);
    if i < |s.pending| && i != k {
      var rest := Without(s.pending, i);
      assert rest[if k < i then k else k - 1] == s.pending[k];
    }
  }

  lemma RegisterAllLeaves(s: System, a: Arrival, show: Json -> Text)
    requires Conserved(s) && Numbered(s, a.registered)
    ensures var u, t := Intake(s, a.event, show), Dispatch(s, a, show); t.fates == u.fates && t.pending == u.pending
  {
    IntakeIsNarrow(s, a.event, show);
    RegisterAllKeeps(Intake(s, a.event, show), a.registered);
  }

  /** What a dispatched event does to a pending entry. */
  lemma PendingFate(s: System, a: Arrival, q: Pending, show: Json -> Text)
    requires Conserved(s) && q in s.pending && Numbered(s, a.registered)
    ensures var t := Dispatch(s, a, show);
      if Answers(q, a.event) && Foremost(s, q.firing, a.event) then MatchedIn(t, q.firing) else q in t.pending
  {
    hide PreflightFaithful, PendingFaithful, EmittedFaithful, EmittedOnce;
    RegisterAllLeaves(s, a, show);
    if a.event.origin == Internal {
      var k :| 0 <= k < |s.pending| && s.pending[k] == q;
      PendingIsOpen(s, k);
      PromoteIsNarrow(s, a.event, show);
      var u := Promote(s, a.event, show);
      assert forall i :: 0 <= i <= k ==> u.pending[i] == s.pending[i];
      AheadOf(s, k, a.event);
      MatchFate(u, a.event, k);
    }
  }

  /** What stands ahead of the entry at `k`. */
  lemma AheadOf(s: System, k: nat, e: Event)
    requires k < |s.pending|
    requires forall l :: 0 <= l < |s.pending| && s.pending[l].firing == s.pending[k].firing ==> l == k
    ensures Foremost(s, s.pending[k].firing, e) <==> forall i :: 0 <= i < k ==> !Claims(s.pending[i], e)
  {
    var f := s.pending[k].firing;
    forall i | 0 <= i < |s.pending| ensures i < k <==> Ahead(s, f, i) { }
  }

  /** The first completion of its action settles a preflight: a failure ends it, a success makes it
      pending, or matched at once when the completion itself answers it. */
  lemma CompletionFate(s: System, a: Arrival, f: nat, x: Text, show: Json -> Text)
    requires Conserved(s) && Waiting(s, f, x) && f < |s.history| && Numbered(s, a.registered)
    requires CompletesFor(a.event, x)
    ensures var q, t := Promoted(s.history[f], a.event.payload, show), Dispatch(s, a, show);
      if !Completes(a.event).success then f in t.fates && t.fates[f] == ActionFailed
      else if Answers(q, a.event) && Foremost(s, f, a.event) then MatchedIn(t, f)
      else q in t.pending
  {
    hide PendingFaithful, EmittedFaithful, EmittedOnce;
    RegisterAllLeaves(s, a, show);
    WaitingIsOpen(s, f, x);
    var u := Promote(s, a.event, show);
    if Completes(a.event).success {
      assert u.pending == s.pending + [Promoted(s.history[f], a.event.payload, show)];
      MatchFate(u, a.event, |s.pending|);
    } else {
      PromoteLocates(s, a.event, show);
      MatchIsNarrow(u, a.event);
    }
  }

  lemma {:induction false} TickNumberedPrefix(s: System, batch: seq<Arrival>, n: nat, show: Json -> Text)
    requires TickNumbered(s, batch, show) && n <= |batch|
    ensures TickNumbered(s, batch[..n], show)
    ensures n < |batch| ==> Numbered(Tick(s, batch[..n], show), batch[n].registered)
    decreases |batch|
  {
    if n == |batch| {
      assert batch[..n] == batch;
    } else {
      var front := batch[..|batch| - 1];
      assert front[..n] == batch[..n];
      TickNumberedPrefix(s, front, n, show);
      if n == |batch| - 1 { assert batch[..n] == front; }
    }
  }

  lemma {:induction false} FatePersists(s: System, batch: seq<Arrival>, n: nat, f: nat, show: Json -> Text)
    requires Conserved(s) && TickNumbered(s, batch, show) && n <= |batch|
    requires f in Tick(s, batch[..n], show).fates
    ensures f in Tick(s, batch, show).fates && Tick(s, batch, show).fates[f] == Tick(s, batch[..n], show).fates[f]
    decreases |batch|
  {
    if n == |batch| {
      assert batch[..n] == batch;
    } else {
      var front, last := batch[..|batch| - 1], batch[|batch| - 1];
      assert front[..n] == batch[..n];
      FatePersists(s, front, n, f, show);
      TickKeeps(s, front, show);
      IntakeIsNarrow(Tick(s, front, show), last.event, show);
      RegisterAllKeeps(Intake(Tick(s, front, show), last.event, show), last.registered);
    }
  }

  // ---- Exactly when a firing is matched within a tick ------------------------------------------

  /** Index of the first completion of `x`, or the length when there is none. */
  function FirstCompletion(batch: seq<Arrival>, x: Text): (m: nat)
    ensures m <= |batch|
    ensures forall k :: 0 <= k < m ==> !CompletesFor(batch[k].event, x)
    ensures m < |batch| ==> CompletesFor(batch[m].event, x)
  {
    if batch == [] then 0
    else if CompletesFor(batch[0].event, x) then 0
    else 1 + FirstCompletion(batch[1..], x)
  }

  /** The event at `n` answers `q`, and gets to it. */
  ghost predicate AnsweredAt(s: System, batch: seq<Arrival>, q: Pending, n: nat, show: Json -> Text)
    requires n < |batch|
  {
    Answers(q, batch[n].event) && Foremost(Tick(s, batch[..n], show), q.firing, batch[n].event)
  }

  /** The first completion of `x` is a success, and it or something after it answers the entry that `f`
      gets then. */
  ghost predicate AnsweredInTick(s: System, batch: seq<Arrival>, f: nat, x: Text, show: Json -> Text)
    requires f < |s.history|
  {
    var m := FirstCompletion(batch, x);
    && m < |batch| && Completes(batch[m].event).success
    && exists n :: m <= n < |batch| && AnsweredAt(s, batch, Promoted(s.history[f], batch[m].event.payload, show), n, show)
  }

  lemma TickLast(s: System, batch: seq<Arrival>, show: Json -> Text)
    requires batch != []
    ensures Tick(s, batch, show) == Dispatch(Tick(s, batch[..|batch| - 1], show), batch[|batch| - 1], show)
  {
  }

  /** From where `q` is pending, either something answers it and it is matched, or it stays. */
  lemma {:induction false} PendingThrough(s: System, batch: seq<Arrival>, from: nat, q: Pending, show: Json -> Text)
    requires Conserved(s) && TickNumbered(s, batch, show) && from <= |batch|
    requires q in Tick(s, batch[..from], show).pending
    ensures var t := Tick(s, batch, show);
      if exists n :: from <= n < |batch| && AnsweredAt(s, batch, q, n, show) then MatchedIn(t, q.firing)
      else q in t.pending
    decreases |batch|
  {
    hide Conserved, TickNumbered, MatchedIn, Tick, Foremost, Answers;
    if from == |batch| {
      assert batch[..from] == batch;
    } else {
      var front, last := batch[..|batch| - 1], batch[|batch| - 1];
      assert front[..from] == batch[..from] && batch[..|front|] == front;
      TickNumberedPrefix(s, batch, |front|, show);
      TickLast(s, batch, show);
      PendingThrough(s, front, from, q, show);
      TickKeeps(s, front, show);
      forall n | from <= n < |front| ensures AnsweredAt(s, front, q, n, show) <==> AnsweredAt(s, batch, q, n, show) {
        assert front[..n] == batch[..n];
      }
      assert AnsweredAt(s, batch, q, |front|, show)
        <==> Answers(q, last.event) && Foremost(Tick(s, front, show), q.firing, last.event);
      if n :| from <= n < |front| && AnsweredAt(s, front, q, n, show) {
        MatchedStays(s, batch, |front|, q.firing, show);
      } else {
        PendingFate(Tick(s, front, show), last, q, show);
      }
    }
  }

  lemma MatchedStays(s: System, batch: seq<Arrival>, n: nat, f: nat, show: Json -> Text)
    requires Conserved(s) && TickNumbered(s, batch, show) && n <= |batch| && MatchedIn(Tick(s, batch[..n], show), f)
    ensures MatchedIn(Tick(s, batch, show), f)
  {
    FatePersists(s, batch, n, f, show);
  }

  /** Exactly when the oldest preflight of `x` is matched by the end of a tick, whatever the batch: its
      first completion of `x` is a success, and that event or one after it answers the promoted entry
      and is claimed by none ahead of it. */
  lemma TickMatchedIff(s: System, batch: seq<Arrival>, f: nat, x: Text, show: Json -> Text)
    requires Conserved(s) && TickNumbered(s, batch, show) && Waiting(s, f, x) && f < |s.history|
    ensures MatchedIn(Tick(s, batch, show), f) <==> AnsweredInTick(s, batch, f, x, show)
  {
    hide Conserved, TickNumbered, Tick, Waiting;
    var m := FirstCompletion(batch, x);
    TickKeeps(s, batch, show);
    if m == |batch| {
      TickStaysWaiting(s, batch, f, x, show);
      NotMatchedWaiting(Tick(s, batch, show), f, x);
    } else {
      MatchedFrom(s, batch, m, f, x, show);
    }
  }

  lemma NotMatchedWaiting(s: System, f: nat, x: Text)
    requires Conserved(s) && Waiting(s, f, x)
    ensures !MatchedIn(s, f)
  {
    WaitingIsOpen(s, f, x);
  }

  lemma NotMatchedPending(s: System, q: Pending)
    requires Conserved(s) && q in s.pending
    ensures q.firing !in s.fates
  {
    var k :| 0 <= k < |s.pending| && s.pending[k] == q;
    PendingIsOpen(s, k);
  }

  lemma MatchedFrom(s: System, batch: seq<Arrival>, m: nat, f: nat, x: Text, show: Json -> Text)
    requires Conserved(s) && TickNumbered(s, batch, show) && Waiting(s, f, x) && f < |s.history|
    requires m < |batch| && m == FirstCompletion(batch, x)
    ensures MatchedIn(Tick(s, batch, show), f) <==> AnsweredInTick(s, batch, f, x, show)
  {
    hide Conserved, TickNumbered, Waiting, Foremost, Answers, FirstCompletion, Completes, Promoted;
    var before, q := batch[..m], Promoted(s.history[f], batch[m].event.payload, show);
    TickNumberedPrefix(s, batch, m, show);
    TickNumberedPrefix(s, batch, m + 1, show);
    TickStaysWaiting(s, before, f, x, show);
    TickKeeps(s, before, show);
    PromotedFiring(s, f, x, batch[m].event.payload, show);
    CompletionFate(Tick(s, before, show), batch[m], f, x, show);
    assert batch[..m + 1][..m] == before;
    SettledFrom(s, batch, m, q, show);
  }

  /** From the first completion on: a failure or an answer settles `q`'s firing there and then, and
      otherwise what comes later does. */
  lemma SettledFrom(s: System, batch: seq<Arrival>, m: nat, q: Pending, show: Json -> Text)
    requires Conserved(s) && TickNumbered(s, batch, show) && m < |batch| && Completes(batch[m].event).Completion?
    requires var u, good := Tick(s, batch[..m + 1], show), Completes(batch[m].event).success;
      if !good then q.firing in u.fates && u.fates[q.firing] == ActionFailed
      else if AnsweredAt(s, batch, q, m, show) then MatchedIn(u, q.firing)
      else q in u.pending
    ensures MatchedIn(Tick(s, batch, show), q.firing) <==>
      Completes(batch[m].event).success && exists n :: m <= n < |batch| && AnsweredAt(s, batch, q, n, show)
  {
    hide Conserved, TickNumbered, AnsweredAt, Completes, Tick;
    var u := Tick(s, batch[..m + 1], show);
    if !Completes(batch[m].event).success || AnsweredAt(s, batch, q, m, show) {
      FatePersists(s, batch, m + 1, q.firing, show);
    } else {
      PendingThrough(s, batch, m + 1, q, show);
      TickKeeps(s, batch, show);
      if q in Tick(s, batch, show).pending { NotMatchedPending(Tick(s, batch, show), q); }
    }
  }

  // ---- Where events stand in dispatch order ----------------------------------------------------

  lemma {:induction false} SelectMembers(events: seq<Event>, completions: bool)
    ensures forall e :: e in Select(events, IsCompletion, completions) <==> e in events && IsCompletion(e) == completions
    decreases |events|
  {
    if events == [] {
    } else {
      var front, last := events[..|events| - 1], events[|events| - 1];
      assert events == front + [last];
      SelectMembers(front, completions);
    }
  }

  lemma {:induction false} SelectConcat(a: seq<Event>, b: seq<Event>, completions: bool)
    ensures Select(a + b, IsCompletion, completions)
      == Select(a, IsCompletion, completions) + Select(b, IsCompletion, completions)
    decreases |b|
  {
    if b == [] {
      assert a + b == a;
    } else {
      var front, last := b[..|b| - 1], b[|b| - 1];
      assert a + b == (a + front) + [last];
      SelectConcat(a, front, completions);
    }
  }

  /** Around a completion stand, in dispatch order, the completions before it, those after it, and then
      all else. */
  lemma PrioritizedAround(raw: seq<Event>, i: nat)
    requires i < |raw| && IsCompletion(raw[i])
    ensures Prioritized(raw) == Select(raw[..i], IsCompletion, true) + [raw[i]]
      + Select(raw[i + 1..], IsCompletion, true) + Select(raw, IsCompletion, false)
  {
    hide IsCompletion, Select;
    var a, e, b := raw[..i], raw[i], raw[i + 1..];
    assert raw == a + ([e] + b);
    SelectConcat(a, [e] + b, true);
    SelectConcat([e], b, true);
    SelectOne(e, true);
  }

  lemma SelectOne(e: Event, completions: bool)
    ensures Select([e], IsCompletion, completions) == if IsCompletion(e) == completions then [e] else []
  {
    assert [e][..0] == [];
  }

  /** In dispatch order, what stands at or behind the first completion of `x`: itself, the completions
      drained after it, and everything that is no completion. */
  ghost predicate NotAhead(raw: seq<Event>, i: nat, j: nat)
    requires i < |raw| && j < |raw|
  {
    !IsCompletion(raw[j]) || i <= j
  }

  lemma FirstInOrder(raw: seq<Event>, i: nat, batch: seq<Arrival>, x: Text)
    requires ArrivalEvents(batch) == Prioritized(raw) && i < |raw| && CompletesFor(raw[i], x)
    requires forall l :: 0 <= l < i ==> !CompletesFor(raw[l], x)
    ensures var m := |Select(raw[..i], IsCompletion, true)|;
      m == FirstCompletion(batch, x) && m < |batch| && batch[m].event == raw[i]
  {
    var before := Select(raw[..i], IsCompletion, true);
    PrioritizedAround(raw, i);
    SelectMembers(raw[..i], true);
    assert forall k :: 0 <= k < |batch| ==> batch[k].event == ArrivalEvents(batch)[k];
    forall k | 0 <= k < |before| ensures !CompletesFor(batch[k].event, x) {
      assert batch[k].event == before[k] && before[k] in raw[..i];
    }
    assert batch[|before|].event == raw[i];
  }

  /** An event that is not ahead of the completion at `i` is dispatched with it or after it. */
  lemma StandsBehind(raw: seq<Event>, i: nat, j: nat) returns (n: nat)
    requires i < |raw| && IsCompletion(raw[i]) && j < |raw| && NotAhead(raw, i, j)
    ensures |Select(raw[..i], IsCompletion, true)| <= n < |Prioritized(raw)| && Prioritized(raw)[n] == raw[j]
  {
    hide Prioritized, Completes;
    var a, b, c := Select(raw[..i], IsCompletion, true), Select(raw[i + 1..], IsCompletion, true), Select(raw, IsCompletion, false);
    PrioritizedAround(raw, i);
    if !IsCompletion(raw[j]) {
      SelectMembers(raw, false);
      var k :| 0 <= k < |c| && c[k] == raw[j];
      n := |a| + 1 + |b| + k;
    } else if i == j {
      n := |a|;
    } else {
      SelectMembers(raw[i + 1..], true);
      assert raw[i + 1..][j - i - 1] == raw[j];
      var k :| 0 <= k < |b| && b[k] == raw[j];
      n := |a| + 1 + k;
    }
  }

  /** And what is dispatched with it or after it is not ahead of it. */
  lemma ComesFrom(raw: seq<Event>, i: nat, n: nat) returns (j: nat)
    requires i < |raw| && IsCompletion(raw[i])
    requires |Select(raw[..i], IsCompletion, true)| <= n < |Prioritized(raw)|
    ensures j < |raw| && Prioritized(raw)[n] == raw[j] && NotAhead(raw, i, j)
  {
    hide Prioritized, Completes;
    var a, b, c := Select(raw[..i], IsCompletion, true), Select(raw[i + 1..], IsCompletion, true), Select(raw, IsCompletion, false);
    PrioritizedAround(raw, i);
    if n == |a| {
      j := i;
    } else if n <= |a| + |b| {
      SelectMembers(raw[i + 1..], true);
      var e := b[n - |a| - 1];
      assert e in raw[i + 1..];
      var k :| 0 <= k < |raw[i + 1..]| && raw[i + 1..][k] == e;
      j := i + 1 + k;
    } else {
      SelectMembers(raw, false);
      var e := c[n - |a| - |b| - 1];
      assert e in c && e in raw;
      j :| 0 <= j < |raw| && raw[j] == e;
    }
  }

  // ---- Main results ----------------------------------------------------------------------------

  /** The successful completion of `x` at `i` is the first of `x` drained. */
  predicate FirstSuccess(raw: seq<Event>, i: nat, x: Text) {
    && i < |raw| && CompletesFor(raw[i], x) && Completes(raw[i]).success
    && forall l :: 0 <= l < i ==> !CompletesFor(raw[l], x)
  }

  /** One event that answers, not ahead of the completion and claimed by none ahead of `f`, is enough. */
  lemma ReplyInTime(s: System, raw: seq<Event>, i: nat, j: nat, batch: seq<Arrival>, f: nat, x: Text, show: Json -> Text)
    requires Conserved(s) && TickNumbered(s, batch, show) && ArrivalEvents(batch) == Prioritized(raw)
    requires FirstSuccess(raw, i, x) && Waiting(s, f, x) && f < |s.history|
    requires j < |raw| && Answers(Promoted(s.history[f], raw[i].payload, show), raw[j]) && NotAhead(raw, i, j)
    requires forall n :: 0 <= n < |batch| && batch[n].event == raw[j] ==> Foremost(Tick(s, batch[..n], show), f, raw[j])
    ensures MatchedIn(Tick(s, batch, show), f)
  {
    hide Conserved, TickNumbered, Tick, Waiting, Foremost, Answers, Promoted, Prioritized;
    PromotedFiring(s, f, x, raw[i].payload, show);
    FirstInOrder(raw, i, batch, x);
    var n := StandsBehind(raw, i, j);
    assert batch[n].event == ArrivalEvents(batch)[n];
    assert AnsweredAt(s, batch, Promoted(s.history[f], raw[i].payload, show), n, show);
    TickMatchedIff(s, batch, f, x, show);
  }

  /** And without one there is no match. */
  lemma NoReplyInTime(s: System, raw: seq<Event>, i: nat, batch: seq<Arrival>, f: nat, x: Text, show: Json -> Text)
    requires Conserved(s) && TickNumbered(s, batch, show) && ArrivalEvents(batch) == Prioritized(raw)
    requires FirstSuccess(raw, i, x) && Waiting(s, f, x) && f < |s.history|
    requires forall j :: 0 <= j < |raw| && NotAhead(raw, i, j) ==>
      !Answers(Promoted(s.history[f], raw[i].payload, show), raw[j])
    ensures !MatchedIn(Tick(s, batch, show), f)
  {
    hide Conserved, TickNumbered, Tick, Waiting, Foremost, Answers, Promoted, Prioritized;
    FirstInOrder(raw, i, batch, x);
    TickMatchedIff(s, batch, f, x, show);
    var m, q := FirstCompletion(batch, x), Promoted(s.history[f], raw[i].payload, show);
    forall n | m <= n < |batch| ensures !AnsweredAt(s, batch, q, n, show) {
      assert batch[n].event == ArrivalEvents(batch)[n];
      var j := ComesFrom(raw, i, n);
    }
  }

  /** `raw` is any drain order, with the successful completion of `x` at `i` (the first of `x` in the
      batch) and a reply at `j`, possibly a completion too, or the same event.  If `f` is the oldest
      preflight of `x`, and the reply meets the criteria `f` gets on promotion while no entry ahead of it
      claims the reply, then `f` is matched by the end of the tick unless the reply is a completion
      drained earlier; if nothing else answers, exactly then. */
  lemma SameTickReply(s: System, raw: seq<Event>, i: nat, j: nat, batch: seq<Arrival>, f: nat, x: Text,
      show: Json -> Text)
    requires Conserved(s) && TickNumbered(s, batch, show) && ArrivalEvents(batch) == Prioritized(raw)
    requires FirstSuccess(raw, i, x) && Waiting(s, f, x) && f < |s.history|
    requires j < |raw| && Answers(Promoted(s.history[f], raw[i].payload, show), raw[j])
    requires forall n :: 0 <= n < |batch| && batch[n].event == raw[j] ==> Foremost(Tick(s, batch[..n], show), f, raw[j])
    ensures !IsCompletion(raw[j]) || i <= j ==> MatchedIn(Tick(s, batch, show), f)
    ensures (forall l :: 0 <= l < |raw| && l != j ==> !Answers(Promoted(s.history[f], raw[i].payload, show), raw[l]))
      ==> (MatchedIn(Tick(s, batch, show), f) <==> !IsCompletion(raw[j]) || i <= j)
  {
    hide Conserved, TickNumbered, Tick, Waiting, Foremost, Answers, Promoted, Prioritized, MatchedIn;
    if NotAhead(raw, i, j) {
      ReplyInTime(s, raw, i, j, batch, f, x, show);
    } else if forall l :: 0 <= l < |raw| && l != j ==> !Answers(Promoted(s.history[f], raw[i].payload, show), raw[l]) {
      NoReplyInTime(s, raw, i, batch, f, x, show);
    }
  }

  lemma PromotedFiring(s: System, f: nat, x: Text, result: Json, show: Json -> Text)
    requires Conserved(s) && Waiting(s, f, x) && f < |s.history|
    ensures Promoted(s.history[f], result, show).firing == f
  {
    assert PreflightFaithful(s);
  }

  lemma ForemostAt(s: System, batch: seq<Arrival>, f: nat, reply: Event, n: nat, show: Json -> Text)
    requires Conserved(s) && TickNumbered(s, batch, show) && n <= |batch|
    requires OnlyAwaitedBy(Tick(s, batch, show).history, s.fates.Keys, f, reply.kind)
    ensures Foremost(Tick(s, batch[..n], show), f, reply)
  {
    hide TickNumbered, Tick;
    var t := Tick(s, batch[..n], show);
    TickNumberedPrefix(s, batch, n, show);
    TickKeeps(s, batch[..n], show);
    HistoryGrows(s, batch, n, show);
    forall k | 0 <= k < |t.pending| && t.pending[k].firing != f ensures !Claims(t.pending[k], reply) {
      PendingIsOpen(t, k);
      assert StemsFrom(t.pending[k], t.history[t.pending[k].firing]);
    }
  }

  lemma {:induction false} HistoryGrows(s: System, batch: seq<Arrival>, n: nat, show: Json -> Text)
    requires Conserved(s) && TickNumbered(s, batch, show) && n <= |batch|
    ensures Tick(s, batch[..n], show).history <= Tick(s, batch, show).history
    decreases |batch|
  {
    if n == |batch| {
      assert batch[..n] == batch;
    } else {
      var front, last := batch[..|batch| - 1], batch[|batch| - 1];
      assert front[..n] == batch[..n];
      HistoryGrows(s, front, n, show);
      TickKeeps(s, front, show);
      IntakeIsNarrow(Tick(s, front, show), last.event, show);
      RegisterAllKeeps(Intake(Tick(s, front, show), last.event, show), last.registered);
    }
  }

  /** Of the firings not already gone, only `f` awaits events of this kind. */
  ghost predicate OnlyAwaitedBy(history: seq<Preflight>, gone: set<nat>, f: nat, kind: Text) {
    forall g: nat :: g < |history| && g != f && g !in gone ==> !PatternMatches(history[g].awaitKind, kind)
  }

  /** The same with a condition on kinds alone: no other firing in play, nor any that the tick itself
      registers, awaits the reply's kind.  Nothing is then said about intermediate states. */
  lemma SameTickReplyByKind(s: System, raw: seq<Event>, i: nat, j: nat, batch: seq<Arrival>, f: nat, x: Text,
      show: Json -> Text)
    requires Conserved(s) && TickNumbered(s, batch, show) && ArrivalEvents(batch) == Prioritized(raw)
    requires FirstSuccess(raw, i, x) && Waiting(s, f, x) && f < |s.history|
    requires j < |raw| && Answers(Promoted(s.history[f], raw[i].payload, show), raw[j])
    requires OnlyAwaitedBy(Tick(s, batch, show).history, s.fates.Keys, f, raw[j].kind)
    ensures !IsCompletion(raw[j]) || i <= j ==> MatchedIn(Tick(s, batch, show), f)
    ensures (forall l :: 0 <= l < |raw| && l != j ==> !Answers(Promoted(s.history[f], raw[i].payload, show), raw[l]))
      ==> (MatchedIn(Tick(s, batch, show), f) <==> !IsCompletion(raw[j]) || i <= j)
  {
    hide Conserved, TickNumbered, Tick, Waiting, Foremost, Answers, Promoted, Prioritized, MatchedIn, FirstSuccess;
    hide OnlyAwaitedBy;
    forall n | 0 <= n < |batch| && batch[n].event == raw[j]
      ensures Foremost(Tick(s, batch[..n], show), f, raw[j])
    {
      ForemostAt(s, batch, f, raw[j], n, show);
    }
    SameTickReply(s, raw, i, j, batch, f, x, show);
  }

  // ---- Which replies are safe in every drain order ---------------------------------------------

  /** A tick of the events of `es`, drained in the order `raw`. */
  ghost predicate TickOf(s: System, es: seq<Event>, raw: seq<Event>, batch: seq<Arrival>, show: Json -> Text) {
    multiset(raw) == multiset(es) && ArrivalEvents(batch) == Prioritized(raw) && TickNumbered(s, batch, show)
  }

  /** Among the events, `c` alone completes `x`, with success, and `r` alone answers what `f` becomes. */
  ghost predicate OneReply(s: System, es: seq<Event>, c: Event, r: Event, f: nat, x: Text, show: Json -> Text)
    requires f < |s.history|
  {
    && multiset(es)[c] == 1 && CompletesFor(c, x) && Completes(c).success
    && (forall e :: e in es && CompletesFor(e, x) ==> e == c)
    && r in es && (forall e :: e in es ==> (Answers(Promoted(s.history[f], c.payload, show), e) <==> e == r))
  }

  /** Exactly which replies resolve the await whatever order a hash table gives the receivers: those that
      are no registry completion, and the completion of `x` itself. */
  lemma EveryOrderIff(s: System, es: seq<Event>, c: Event, r: Event, f: nat, x: Text, show: Json -> Text)
    requires Conserved(s) && Waiting(s, f, x) && f < |s.history| && OneReply(s, es, c, r, f, x, show)
    requires OnlyAwaitedBy(s.history, s.fates.Keys, f, r.kind)
    ensures (!IsCompletion(r) || r == c) <==> forall raw, batch ::
      (TickOf(s, es, raw, batch, show) && OnlyAwaitedBy(Tick(s, batch, show).history, s.fates.Keys, f, r.kind)
       ==> MatchedIn(Tick(s, batch, show), f))
  {
    hide Conserved, Waiting, OnlyAwaitedBy, MatchedIn;
    if !IsCompletion(r) || r == c {
      forall raw, batch | TickOf(s, es, raw, batch, show)
          && OnlyAwaitedBy(Tick(s, batch, show).history, s.fates.Keys, f, r.kind)
        ensures MatchedIn(Tick(s, batch, show), f)
      {
        AnyOrder(s, es, c, r, raw, batch, f, x, show);
      }
    } else {
      var raw, batch := CompletionLast(s, es, c, r, f, x, show);
    }
  }

  lemma SameMembers(a: seq<Event>, b: seq<Event>)
    requires multiset(a) == multiset(b)
    ensures forall e :: e in a <==> e in b
  {
    forall e ensures e in a <==> e in b { assert e in multiset(a) <==> e in multiset(b); }
  }

  lemma AnyOrder(s: System, es: seq<Event>, c: Event, r: Event, raw: seq<Event>, batch: seq<Arrival>, f: nat, x: Text,
      show: Json -> Text)
    requires Conserved(s) && Waiting(s, f, x) && f < |s.history| && OneReply(s, es, c, r, f, x, show)
    requires TickOf(s, es, raw, batch, show) && (!IsCompletion(r) || r == c)
    requires OnlyAwaitedBy(Tick(s, batch, show).history, s.fates.Keys, f, r.kind)
    ensures MatchedIn(Tick(s, batch, show), f)
  {
    hide Conserved, Waiting, OnlyAwaitedBy, MatchedIn, Tick, TickNumbered, Prioritized;
    SameMembers(raw, es);
    var i := Find(raw, c);
    var j := Find(raw, r);
    forall l | 0 <= l < i ensures !CompletesFor(raw[l], x) { assert raw[l] in raw[..i] && raw[l] in raw; }
    SameTickReplyByKind(s, raw, i, j, batch, f, x, show);
  }

  lemma {:induction false} Find(es: seq<Event>, e: Event) returns (i: nat)
    requires e in es
    ensures i < |es| && es[i] == e && e !in es[..i]
  {
    if es[0] == e {
      i := 0;
    } else {
      assert es == [es[0]] + es[1..];
      i := Find(es[1..], e);
      i := i + 1;
      assert es[..i] == [es[0]] + es[1..][..i - 1];
    }
  }

  /** A tick whose events register nothing. */
  function Plain(events: seq<Event>): seq<Arrival> { seq(|events|, i requires 0 <= i < |events| => Arrival(events[i], [])) }

  lemma {:induction false} PlainTick(s: System, events: seq<Event>, show: Json -> Text)
    requires Conserved(s)
    ensures ArrivalEvents(Plain(events)) == events && TickNumbered(s, Plain(events), show)
    ensures Tick(s, Plain(events), show).history == s.history
    decreases |events|
  {
    if events == [] {
    } else {
      var front := events[..|events| - 1];
      assert Plain(events)[..|events| - 1] == Plain(front);
      PlainTick(s, front, show);
      TickKeeps(s, Plain(front), show);
      var u := Tick(s, Plain(front), show);
      IntakeIsNarrow(u, events[|events| - 1], show);
    }
  }

  /** An order in which a reply that is another completion comes too early: the completion of `x` last. */
  lemma CompletionLast(s: System, es: seq<Event>, c: Event, r: Event, f: nat, x: Text, show: Json -> Text)
    returns (raw: seq<Event>, batch: seq<Arrival>)
    requires Conserved(s) && Waiting(s, f, x) && f < |s.history| && OneReply(s, es, c, r, f, x, show)
    requires OnlyAwaitedBy(s.history, s.fates.Keys, f, r.kind) && IsCompletion(r) && r != c
    ensures TickOf(s, es, raw, batch, show) && !MatchedIn(Tick(s, batch, show), f)
    ensures OnlyAwaitedBy(Tick(s, batch, show).history, s.fates.Keys, f, r.kind)
  {
    hide Conserved, Waiting, OnlyAwaitedBy, MatchedIn, Tick, TickNumbered, Prioritized, Promoted, Answers;
    var others := Others(es, c);
    raw, batch := others + [c], Plain(Prioritized(others + [c]));
    SameMembers(raw, es);
    PlainTick(s, Prioritized(raw), show);
    forall l | 0 <= l < |others| ensures !CompletesFor(raw[l], x) { assert raw[l] in others; }
    forall j | 0 <= j < |raw| && NotAhead(raw, |others|, j)
      ensures !Answers(Promoted(s.history[f], c.payload, show), raw[j])
    {
      assert raw[j] in raw;
    }
    NoReplyInTime(s, raw, |others|, batch, f, x, show);
  }

  lemma Others(es: seq<Event>, c: Event) returns (others: seq<Event>)
    requires multiset(es)[c] == 1
    ensures multiset(others + [c]) == multiset(es) && forall e :: e in others ==> e in es && e != c
  {
    SameMembers(es, es);
    var i := Find(es, c);
    others := es[..i] + es[i + 1..];
    assert es == es[..i] + [c] + es[i + 1..];
    assert multiset(es) == multiset(others) + multiset{c};
    forall e | e in others ensures e in es && e != c { assert e in multiset(others); }
  }

  const APPROVE: Event := Event("b.completed", COMPLETION_EVENT_SOURCE, 0, JNull, None, Internal)
  const DONE: Event := Event("a.completed", COMPLETION_EVENT_SOURCE, 0, JNull, None, Internal)

  /** A failing input: one firing of the action `a` awaits `b.completed`, and both completions are drained
      in one batch.  The await is lost when that of `b` is drained first, and kept when it is second. */
  lemma CompletionReplyLost(p: Preflight, show: Json -> Text) returns (s: System)
    requires p.firing == 0 && p.action == "a" && p.awaitKind == "b.completed" && p.template == map[]
    ensures s == Register(Idle, p) && Conserved(s) && Waiting(s, 0, "a") && OnlyAwaitedBy(s.history, {}, 0, APPROVE.kind)
    ensures FirstSuccess([APPROVE, DONE], 1, "a") && Answers(Promoted(p, DONE.payload, show), APPROVE)
    ensures ArrivalEvents(Plain([APPROVE, DONE])) == Prioritized([APPROVE, DONE])
    ensures !MatchedIn(Tick(s, Plain([APPROVE, DONE]), show), 0)
    ensures ArrivalEvents(Plain([DONE, APPROVE])) == Prioritized([DONE, APPROVE])
    ensures MatchedIn(Tick(s, Plain([DONE, APPROVE]), show), 0)
  {
    hide MatchedIn, Tick, TickNumbered, Prioritized, Foremost;
    s := Register(Idle, p);
    IdleConserved();
    RegisterConserves(Idle, p);
    CompletionOf(DONE, "a");
    CompletionOf(APPROVE, "b");
    assert Answers(Promoted(p, JNull, show), APPROVE) && !Answers(Promoted(p, JNull, show), DONE);
    BothCompletions(APPROVE, DONE);
    BothCompletions(DONE, APPROVE);
    PlainTick(s, [APPROVE, DONE], show);
    PlainTick(s, [DONE, APPROVE], show);
    SameTickReplyByKind(s, [APPROVE, DONE], 1, 0, Plain([APPROVE, DONE]), 0, "a", show);
    SameTickReplyByKind(s, [DONE, APPROVE], 0, 1, Plain([DONE, APPROVE]), 0, "a", show);
  }

  lemma CompletionOf(e: Event, x: Text)
    requires e.source == COMPLETION_EVENT_SOURCE && e.kind == x + COMPLETED
    ensures Completes(e) == Completion(x, true)
  {
  }

  lemma BothCompletions(a: Event, b: Event)
    requires IsCompletion(a) && IsCompletion(b)
    ensures Prioritized([a, b]) == [a, b]
  {
    assert [a, b] == [a] + [b];
    SelectConcat([a], [b], true);
    SelectConcat([a], [b], false);
    SelectOne(a, true);
    SelectOne(b, true);
    SelectOne(a, false);
    SelectOne(b, false);
  }

  lemma IdleConserved()
    ensures Conserved(Idle)
  {
    RunConserves([], (j: Json) => []);
    assert Run(Idle, [], (j: Json) => []) == Idle;
  }
}
