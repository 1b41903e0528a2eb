/** The await state machine of the trigger engine, one function per critical section, with a ledger
    that says where every await-bearing firing is.  A firing is numbered by its position in `history`;
    the number travels with its entry and nothing in the engine looks at it. */
module AwaitMachine {
  import opened ConditionSyntax
  import opened Events
  import opened Ordering
  import opened EventPattern
  import opened Interpolation

  datatype TimeoutPolicy = Abort | FireWithDefault

  datatype Preflight = Preflight(
    firing: nat, triggerName: Text, action: Text, awaitKind: Text, template: map<Text, Json>,
    event: Event, context: Option<Context>, deadline: nat, onTimeout: TimeoutPolicy)

  datatype Pending = Pending(
    firing: nat, triggerName: Text, awaitKind: Text, criteria: map<Text, Json>,
    originalPayload: Json, actionResult: Option<Json>, deadline: nat, onTimeout: TimeoutPolicy)

  /** How a firing left the engine. */
  datatype Fate = ActionFailed | Matched | Expired | Cleared

  /** A synthesized `<trigger>.awaited` event (source `nestty.trigger.await`, origin internal). */
  datatype Emission = Emission(firing: nat, kind: Text, payload: Json)

  datatype System = System(
    preflight: seq<Preflight>, pending: seq<Pending>,
    history: seq<Preflight>, fates: map<nat, Fate>, emitted: seq<Emission>)

  const COMPLETED: Text := ".completed"
  const FAILED: Text := ".failed"
  const AWAITED: Text := ".awaited"

  const Idle := System([], [], [], map[], [])

  // ---- The critical sections -------------------------------------------------------------------

  datatype Completion = NoCompletion | Completion(action: Text, success: bool)

  /** Only events from the action registry itself advance preflights. */
  function Completes(e: Event): Completion {
    if e.source != COMPLETION_EVENT_SOURCE then NoCompletion
    else if HasSuffix(e.kind, COMPLETED) then Completion(StripSuffix(e.kind, COMPLETED), true)
    else if HasSuffix(e.kind, FAILED) then Completion(StripSuffix(e.kind, FAILED), false)
    else NoCompletion
  }

  /** Index of the first preflight for `action`, or the length when there is none. */
  function Oldest(pre: seq<Preflight>, action: Text): (i: nat)
    ensures i <= |pre|
    ensures forall k :: 0 <= k < i ==> pre[k].action != action
    ensures i < |pre| ==> pre[i].action == action
  {
    if pre == [] then 0
    else if pre[0].action == action then 0
    else 1 + Oldest(pre[1..], action)
  }

  function Promoted(p: Preflight, result: Json, show: Json -> Text): Pending {
    Pending(p.firing, p.triggerName, p.awaitKind,
            map k | k in p.template :: InterpolateTyped(p.template[k], Scope(p.event, p.context, Some(result), show)),
            p.event.payload, Some(result), p.deadline, p.onTimeout)
  }

  function Without<T>(s: seq<T>, i: nat): seq<T>
    requires i < |s|
  {
    s[..i] + s[i + 1..]
  }

  function Promote(s: System, e: Event, show: Json -> Text): System {
    match Completes(e)
    case NoCompletion => s
    case Completion(action, success) =>
      var i := Oldest(s.preflight, action);
      if i == |s.preflight| then s
      else
        var p := s.preflight[i];
        var rest := s.(preflight := Without(s.preflight, i));
        if success then rest.(pending := s.pending + [Promoted(p, e.payload, show)])
        else rest.(fates := s.fates[p.firing := ActionFailed])
  }

  predicate PayloadMatches(expected: map<Text, Json>, payload: Json) {
    forall k :: k in expected ==> Member(payload, k) == Some(expected[k])
  }

  predicate Claims(p: Pending, e: Event) {
    PatternMatches(p.awaitKind, e.kind) && PayloadMatches(p.criteria, e.payload)
  }

  /** Index of the first pending entry that claims the event, or the length when none does. */
  function FirstClaim(pending: seq<Pending>, e: Event): (i: nat)
    ensures i <= |pending|
    ensures forall k :: 0 <= k < i ==> !Claims(pending[k], e)
    ensures i < |pending| ==> Claims(pending[i], e)
  {
    if pending == [] then 0
    else if Claims(pending[0], e) then 0
    else 1 + FirstClaim(pending[1..], e)
  }

  const AWAIT_KEY: Text := "await"
  const ACTION_RESULT_KEY: Text := "action_result"

  function AwaitedPayload(original: Json, awaited: Json, result: Option<Json>): Json {
    var fields := if original.JObject? then original.members else map[];
    var nested := fields[AWAIT_KEY := awaited];
    JObject(if result.Some? then nested[ACTION_RESULT_KEY := result.value] else nested - {ACTION_RESULT_KEY})
  }

  function MatchPending(s: System, e: Event): System {
    var i := FirstClaim(s.pending, e);
    if i == |s.pending| then s
    else
      var p := s.pending[i];
      s.(pending := Without(s.pending, i), fates := s.fates[p.firing := Matched],
         emitted := s.emitted + [Emission(p.firing, p.triggerName + AWAITED,
                                          AwaitedPayload(p.originalPayload, e.payload, p.actionResult))])
  }

  /** The two await passes with which `dispatch` begins; events from outside the daemon skip both. */
  function Intake(s: System, e: Event, show: Json -> Text): System {
    if e.origin == External then s else MatchPending(Promote(s, e, show), e)
  }

  function Register(s: System, p: Preflight): System {
    s.(preflight := s.preflight + [p], history := s.history + [p])
  }

  function KeptPreflight(pre: seq<Preflight>, now: nat): seq<Preflight> {
    if pre == [] then []
    else
      var last := pre[|pre| - 1];
      KeptPreflight(pre[..|pre| - 1], now) + (if now < last.deadline then [last] else [])
  }

  function LapsedPreflight(pre: seq<Preflight>, now: nat): seq<Preflight> {
    if pre == [] then []
    else
      var last := pre[|pre| - 1];
      LapsedPreflight(pre[..|pre| - 1], now) + (if now < last.deadline then [] else [last])
  }

  function PreflightDefaults(lapsed: seq<Preflight>): seq<Emission> {
    if lapsed == [] then []
    else
      var p := lapsed[|lapsed| - 1];
      PreflightDefaults(lapsed[..|lapsed| - 1])
      + if p.onTimeout == FireWithDefault
        then [Emission(p.firing, p.triggerName + AWAITED, AwaitedPayload(p.event.payload, JNull, None))] else []
  }

  function KeptPending(pending: seq<Pending>, now: nat): seq<Pending> {
    if pending == [] then []
    else
      var last := pending[|pending| - 1];
      KeptPending(pending[..|pending| - 1], now) + (if now < last.deadline then [last] else [])
  }

  function LapsedPending(pending: seq<Pending>, now: nat): seq<Pending> {
    if pending == [] then []
    else
      var last := pending[|pending| - 1];
      LapsedPending(pending[..|pending| - 1], now) + (if now < last.deadline then [] else [last])
  }

  function PendingDefaults(lapsed: seq<Pending>): seq<Emission> {
    if lapsed == [] then []
    else
      var p := lapsed[|lapsed| - 1];
      PendingDefaults(lapsed[..|lapsed| - 1])
      + if p.onTimeout == FireWithDefault
        then [Emission(p.firing, p.triggerName + AWAITED,
                       AwaitedPayload(p.originalPayload, JNull, p.actionResult))] else []
  }

  function PreIds(pre: seq<Preflight>): seq<nat> { seq(|pre|, i requires 0 <= i < |pre| => pre[i].firing) }

  function PendIds(pending: seq<Pending>): seq<nat> {
    seq(|pending|, i requires 0 <= i < |pending| => pending[i].firing)
  }

  function EmittedIds(emitted: seq<Emission>): seq<nat> {
    seq(|emitted|, i requires 0 <= i < |emitted| => emitted[i].firing)
  }

  function Fated(fates: map<nat, Fate>, ids: seq<nat>, fate: Fate): map<nat, Fate> {
    fates + map f | f in ids :: fate
  }

  function SweepPreflight(s: System, now: nat): System {
    var lapsed := LapsedPreflight(s.preflight, now);
    s.(preflight := KeptPreflight(s.preflight, now), fates := Fated(s.fates, PreIds(lapsed), Expired),
       emitted := s.emitted + PreflightDefaults(lapsed))
  }

  function SweepPending(s: System, now: nat): System {
    var lapsed := LapsedPending(s.pending, now);
    s.(pending := KeptPending(s.pending, now), fates := Fated(s.fates, PendIds(lapsed), Expired),
       emitted := s.emitted + PendingDefaults(lapsed))
  }

  function ClearPreflight(s: System): System {
    s.(preflight := [], fates := Fated(s.fates, PreIds(s.preflight), Cleared))
  }

  function ClearPending(s: System): System {
    s.(pending := [], fates := Fated(s.fates, PendIds(s.pending), Cleared))
  }

  // ---- One drained batch -----------------------------------------------------------------------

  predicate IsCompletion(e: Event) { Completes(e).Completion? }

  /** The drained events in dispatch order: stably sorted, registry completions first. */
  function Prioritized(events: seq<Event>): seq<Event> { SortedFirst(events, IsCompletion) }

  // ---- Runs: any interleaving of critical sections ---------------------------------------------

  datatype Step =
    | DoPromote(event: Event)
    | DoMatch(event: Event)
    | DoRegister(entry: Preflight)
    | DoSweepPreflight(now: nat)
    | DoSweepPending(now: nat)
    | DoClearPreflight
    | DoClearPending

  /** What the callers of each section guarantee: the await passes see internal events only, and a
      new entry is numbered by its place in the history. */
  predicate Allowed(s: System, step: Step) {
    match step
    case DoPromote(e) => e.origin == Internal
    case DoMatch(e) => e.origin == Internal
    case DoRegister(p) => p.firing == |s.history|
    case _ => true
  }

  function Apply(s: System, step: Step, show: Json -> Text): System {
    match step
    case DoPromote(e) => Promote(s, e, show)
    case DoMatch(e) => MatchPending(s, e)
    case DoRegister(p) => Register(s, p)
    case DoSweepPreflight(now) => SweepPreflight(s, now)
    case DoSweepPending(now) => SweepPending(s, now)
    case DoClearPreflight => ClearPreflight(s)
    case DoClearPending => ClearPending(s)
  }

  function Run(s: System, steps: seq<Step>, show: Json -> Text): System
    decreases |steps|
  {
    if steps == [] then s
    else Apply(Run(s, steps[..|steps| - 1], show), steps[|steps| - 1], show)
  }

  predicate RunAllowed(s: System, steps: seq<Step>, show: Json -> Text)
    decreases |steps|
  {
    steps == [] || (RunAllowed(s, steps[..|steps| - 1], show)
                    && Allowed(Run(s, steps[..|steps| - 1], show), steps[|steps| - 1]))
  }

  // ---- Conservation ----------------------------------------------------------------------------

  function Firings(n: nat): (r: set<nat>)
    ensures forall f: nat :: f in r <==> f < n
  {
    if n == 0 then {} else Firings(n - 1) + {n - 1}
  }

  /** Does leaving this way publish an `.awaited` event? */
  predicate Emits(fate: Fate, policy: TimeoutPolicy) {
    fate == Matched || (fate == Expired && policy == FireWithDefault)
  }

  ghost function Emitters(s: System): set<nat>
    requires s.fates.Keys <= Firings(|s.history|)
  {
    set f | f in s.fates && Emits(s.fates[f], s.history[f].onTimeout)
  }

  /** Entries are what their firing registered, and the timeout window is never renewed. */
  ghost predicate PreflightFaithful(s: System) {
    forall i :: 0 <= i < |s.preflight| ==>
      s.preflight[i].firing < |s.history| && s.preflight[i] == s.history[s.preflight[i].firing]
  }

  ghost predicate StemsFrom(q: Pending, p: Preflight) {
    && q.triggerName == p.triggerName && q.awaitKind == p.awaitKind && q.originalPayload == p.event.payload
    && q.deadline == p.deadline && q.onTimeout == p.onTimeout && q.actionResult.Some?
  }

  ghost predicate PendingFaithful(s: System) {
    forall i :: 0 <= i < |s.pending| ==>
      s.pending[i].firing < |s.history| && StemsFrom(s.pending[i], s.history[s.pending[i].firing])
  }

  ghost predicate Speaks(m: Emission, p: Preflight) {
    m.kind == p.triggerName + AWAITED
    && exists awaited, result :: m.payload == AwaitedPayload(p.event.payload, awaited, result)
  }

  ghost predicate EmittedFaithful(s: System) {
    forall i :: 0 <= i < |s.emitted| ==>
      s.emitted[i].firing < |s.history| && Speaks(s.emitted[i], s.history[s.emitted[i].firing])
  }

  /** Every firing is in exactly one place: a preflight, a pending entry, or a fate. */
  ghost predicate Located(s: System) {
    multiset(PreIds(s.preflight)) + multiset(PendIds(s.pending)) + multiset(s.fates.Keys)
    == multiset(Firings(|s.history|))
  }

  /** Exactly the firings whose fate calls for it have published, once each. */
  ghost predicate EmittedOnce(s: System) {
    s.fates.Keys <= Firings(|s.history|) && multiset(EmittedIds(s.emitted)) == multiset(Emitters(s))
  }

  ghost predicate Conserved(s: System) {
    Located(s) && EmittedOnce(s) && PreflightFaithful(s) && PendingFaithful(s) && EmittedFaithful(s)
  }

  lemma WithoutIds<T>(s: seq<T>, i: nat, ids: seq<nat>)
    requires i < |s| == |ids|
    ensures multiset(ids) == multiset(Without(ids, i)) + multiset{ids[i]}
  {
    assert ids == ids[..i] + [ids[i]] + ids[i + 1..];
  }

  lemma PreWithout(pre: seq<Preflight>, i: nat)
    requires i < |pre|
    ensures multiset(PreIds(pre)) == multiset(PreIds(Without(pre, i))) + multiset{pre[i].firing}
  {
    WithoutIds(pre, i, PreIds(pre));
    assert PreIds(Without(pre, i)) == Without(PreIds(pre), i);
  }

  lemma PendWithout(pending: seq<Pending>, i: nat)
    requires i < |pending|
    ensures multiset(PendIds(pending)) == multiset(PendIds(Without(pending, i))) + multiset{pending[i].firing}
  {
    WithoutIds(pending, i, PendIds(pending));
    assert PendIds(Without(pending, i)) == Without(PendIds(pending), i);
  }

  /** Counting form of `Located`: how often a number occurs in the three places together. */
  lemma Whereabouts(s: System, f: nat)
    requires Located(s)
    ensures multiset(PreIds(s.preflight))[f] + multiset(PendIds(s.pending))[f] + multiset(s.fates.Keys)[f]
         == if f < |s.history| then 1 else 0
  {
    var all := multiset(PreIds(s.preflight)) + multiset(PendIds(s.pending)) + multiset(s.fates.Keys);
    assert all[f] == multiset(Firings(|s.history|))[f];
  }

  lemma FateKeys(fates: map<nat, Fate>, f: nat, fate: Fate)
    requires f !in fates
    ensures multiset(fates[f := fate].Keys) == multiset(fates.Keys) + multiset{f}
  {
    assert fates[f := fate].Keys == fates.Keys + {f};
  }

  lemma PromoteLocates(s: System, e: Event, show: Json -> Text)
    requires Located(s) && EmittedOnce(s)
    ensures Located(Promote(s, e, show)) && EmittedOnce(Promote(s, e, show))
  {
    var t := Promote(s, e, show);
    var c := Completes(e);
    if c.Completion? && Oldest(s.preflight, c.action) < |s.preflight| {
      var i := Oldest(s.preflight, c.action);
      var p := s.preflight[i];
      PreWithout(s.preflight, i);
      Whereabouts(s, p.firing);
      if c.success {
        assert PendIds(t.pending) == PendIds(s.pending) + [p.firing];
      } else {
        FateKeys(s.fates, p.firing, ActionFailed);
        assert Emitters(t) == Emitters(s);
      }
    }
  }

  lemma PromoteFaithful(s: System, e: Event, show: Json -> Text)
    requires PreflightFaithful(s) && PendingFaithful(s) && EmittedFaithful(s)
    ensures var t := Promote(s, e, show);
      PreflightFaithful(t) && PendingFaithful(t) && EmittedFaithful(t)
  {
  }

  lemma MatchLocates(s: System, e: Event)
    requires Located(s) && EmittedOnce(s)
    ensures Located(MatchPending(s, e)) && EmittedOnce(MatchPending(s, e))
  {
    hide EmittedOnce, FirstClaim;
    MatchEmits(s, e);
    var i := FirstClaim(s.pending, e);
    if i < |s.pending| {
      var p := s.pending[i];
      PendWithout(s.pending, i);
      Whereabouts(s, p.firing);
      FateKeys(s.fates, p.firing, Matched);
    }
  }

  /** One firing leaves matched and publishes once. */
  lemma EmitOne(s: System, t: System, f: nat)
    requires EmittedOnce(s) && f < |s.history| && f !in s.fates
    requires t.history == s.history && t.fates == s.fates[f := Matched]
    requires EmittedIds(t.emitted) == EmittedIds(s.emitted) + [f]
    ensures EmittedOnce(t)
  {
    EmittersAddOne(s, t, f);
    assert multiset(Emitters(s) + {f}) == multiset(Emitters(s)) + multiset{f};
  }

  lemma EmittersAddOne(s: System, t: System, f: nat)
    requires s.fates.Keys <= Firings(|s.history|) && f < |s.history| && f !in s.fates
    requires t.history == s.history && t.fates == s.fates[f := Matched]
    ensures t.fates.Keys <= Firings(|t.history|)
    ensures f !in Emitters(s) && Emitters(t) == Emitters(s) + {f}
  {
  }

  lemma MatchEmits(s: System, e: Event)
    requires Located(s) && EmittedOnce(s)
    ensures EmittedOnce(MatchPending(s, e))
  {
    hide Located, FirstClaim, EmittedOnce;
    var t := MatchPending(s, e);
    var i := FirstClaim(s.pending, e);
    if i < |s.pending| {
      var p := s.pending[i];
      PendWithout(s.pending, i);
      Whereabouts(s, p.firing);
      EmitOne(s, t, p.firing);
    }
  }

  lemma MatchFaithful(s: System, e: Event)
    requires PreflightFaithful(s) && PendingFaithful(s) && EmittedFaithful(s)
    ensures var t := MatchPending(s, e);
      PreflightFaithful(t) && PendingFaithful(t) && EmittedFaithful(t)
  {
    var i := FirstClaim(s.pending, e);
    if i < |s.pending| {
      var q := s.pending[i];
      var m := MatchPending(s, e).emitted[|s.emitted|];
      assert m.payload == AwaitedPayload(s.history[q.firing].event.payload, e.payload, q.actionResult);
      assert Speaks(m, s.history[m.firing]);
    }
  }

  lemma RegisterConserves(s: System, p: Preflight)
    requires Conserved(s) && p.firing == |s.history|
    ensures Conserved(Register(s, p))
  {
    var t := Register(s, p);
    assert PreIds(t.preflight) == PreIds(s.preflight) + [p.firing];
    assert multiset(Firings(|t.history|)) == multiset(Firings(|s.history|)) + multiset{p.firing};
    assert Emitters(t) == Emitters(s);
  }

  // A sweep or a clear moves a whole sub-sequence of ids into the fates.

  lemma {:induction false} PreflightSplits(pre: seq<Preflight>, now: nat)
    ensures multiset(PreIds(pre))
         == multiset(PreIds(KeptPreflight(pre, now))) + multiset(PreIds(LapsedPreflight(pre, now)))
    ensures forall p :: p in KeptPreflight(pre, now) ==> p in pre && now < p.deadline
    ensures forall p :: p in LapsedPreflight(pre, now) ==> p in pre && p.deadline <= now
  {
    if pre == [] {
    } else {
      var front, last := pre[..|pre| - 1], pre[|pre| - 1];
      PreflightSplits(front, now);
      assert pre == front + [last];
      assert PreIds(pre) == PreIds(front) + [last.firing];
      PreIdsSnoc(KeptPreflight(front, now), last);
      PreIdsSnoc(LapsedPreflight(front, now), last);
      assert KeptPreflight(front, now) + [] == KeptPreflight(front, now);
      assert LapsedPreflight(front, now) + [] == LapsedPreflight(front, now);
    }
  }

  lemma PreIdsSnoc(pre: seq<Preflight>, p: Preflight)
    ensures PreIds(pre + [p]) == PreIds(pre) + [p.firing]
  {
  }

  lemma {:induction false} PendingSplits(pending: seq<Pending>, now: nat)
    ensures multiset(PendIds(pending))
         == multiset(PendIds(KeptPending(pending, now))) + multiset(PendIds(LapsedPending(pending, now)))
    ensures forall p :: p in KeptPending(pending, now) ==> p in pending && now < p.deadline
    ensures forall p :: p in LapsedPending(pending, now) ==> p in pending && p.deadline <= now
  {
    if pending == [] {
    } else {
      var front, last := pending[..|pending| - 1], pending[|pending| - 1];
      PendingSplits(front, now);
      assert pending == front + [last];
      assert PendIds(pending) == PendIds(front) + [last.firing];
      PendIdsSnoc(KeptPending(front, now), last);
      PendIdsSnoc(LapsedPending(front, now), last);
      assert KeptPending(front, now) + [] == KeptPending(front, now);
      assert LapsedPending(front, now) + [] == LapsedPending(front, now);
    }
  }

  lemma PendIdsSnoc(pending: seq<Pending>, p: Pending)
    ensures PendIds(pending + [p]) == PendIds(pending) + [p.firing]
  {
  }

  ghost predicate Once(ids: seq<nat>) { forall i, j :: 0 <= i < j < |ids| ==> ids[i] != ids[j] }

  lemma {:induction false} OnceFromCounts(ids: seq<nat>)
    requires forall f :: multiset(ids)[f] <= 1
    ensures Once(ids) && multiset(ids) == multiset(set f | f in ids)
  {
    forall i, j | 0 <= i < j < |ids| ensures ids[i] != ids[j] {
      assert ids == ids[..i] + [ids[i]] + ids[i + 1..j] + [ids[j]] + ids[j + 1..];
      assert multiset(ids)[ids[i]] >= 1 + if ids[i] == ids[j] then 1 else 0;
    }
    var distinct := set f | f in ids;
    forall f ensures multiset(ids)[f] == multiset(distinct)[f] {
      assert f in distinct <==> f in ids;
      assert f in ids <==> f in multiset(ids);
    }
  }

  /** The ids of `lapsed` leave one of the pools and become fates. */
  lemma FatesAbsorb(fates: map<nat, Fate>, ids: seq<nat>, fate: Fate)
    requires forall f :: multiset(ids)[f] + multiset(fates.Keys)[f] <= 1
    ensures multiset(Fated(fates, ids, fate).Keys) == multiset(fates.Keys) + multiset(ids)
    ensures Fated(fates, ids, fate).Keys == fates.Keys + set f | f in ids
    ensures forall f :: f in ids ==> f !in fates
    ensures forall f :: f in fates ==> Fated(fates, ids, fate)[f] == fates[f]
    ensures forall f :: f in ids ==> Fated(fates, ids, fate)[f] == fate
  {
    OnceFromCounts(ids);
    var distinct := set f | f in ids;
    forall f | f in ids ensures f !in fates { assert multiset(ids)[f] >= 1; }
    assert Fated(fates, ids, fate).Keys == fates.Keys + distinct;
    assert fates.Keys !! distinct;
    assert multiset(fates.Keys + distinct) == multiset(fates.Keys) + multiset(distinct);
  }

  /** The entries among `ids` whose firing asked for a default event. */
  ghost function Defaulting(ids: seq<nat>, history: seq<Preflight>): set<nat>
    requires forall f :: f in ids ==> f < |history|
  {
    set f | f in ids && history[f].onTimeout == FireWithDefault
  }

  lemma {:induction false} PreflightDefaultsOnce(lapsed: seq<Preflight>, history: seq<Preflight>)
    requires forall p :: p in lapsed ==> p.firing < |history| && p == history[p.firing]
    requires Once(PreIds(lapsed))
    ensures forall f :: f in PreIds(lapsed) ==> f < |history|
    ensures multiset(EmittedIds(PreflightDefaults(lapsed))) == multiset(Defaulting(PreIds(lapsed), history))
    ensures forall m :: m in PreflightDefaults(lapsed) ==> m.firing < |history| && Speaks(m, history[m.firing])
  {
    if lapsed == [] {
    } else {
      var front, last := lapsed[..|lapsed| - 1], lapsed[|lapsed| - 1];
      assert lapsed == front + [last] && last in lapsed;
      PreIdsSnoc(front, last);
      OnceFront(PreIds(front), last.firing);
      PreflightDefaultsOnce(front, history);
      DefaultingSnoc(PreIds(front), last.firing, history);
      if last.onTimeout == FireWithDefault {
        var m := Emission(last.firing, last.triggerName + AWAITED, AwaitedPayload(last.event.payload, JNull, None));
        EmittedSnoc(PreflightDefaults(front), m);
        assert Speaks(m, history[m.firing]);
      } else {
        assert PreflightDefaults(front) + [] == PreflightDefaults(front);
      }
    }
  }

  lemma {:induction false} PendingDefaultsOnce(lapsed: seq<Pending>, history: seq<Preflight>)
    requires forall p :: p in lapsed ==> p.firing < |history| && StemsFrom(p, history[p.firing])
    requires Once(PendIds(lapsed))
    ensures forall f :: f in PendIds(lapsed) ==> f < |history|
    ensures multiset(EmittedIds(PendingDefaults(lapsed))) == multiset(Defaulting(PendIds(lapsed), history))
    ensures forall m :: m in PendingDefaults(lapsed) ==> m.firing < |history| && Speaks(m, history[m.firing])
  {
    if lapsed == [] {
    } else {
      var front, last := lapsed[..|lapsed| - 1], lapsed[|lapsed| - 1];
      assert lapsed == front + [last] && last in lapsed;
      PendIdsSnoc(front, last);
      OnceFront(PendIds(front), last.firing);
      PendingDefaultsOnce(front, history);
      DefaultingSnoc(PendIds(front), last.firing, history);
      if last.onTimeout == FireWithDefault {
        var m := Emission(last.firing, last.triggerName + AWAITED,
                          AwaitedPayload(last.originalPayload, JNull, last.actionResult));
        EmittedSnoc(PendingDefaults(front), m);
        assert Speaks(m, history[m.firing]);
      } else {
        assert PendingDefaults(front) + [] == PendingDefaults(front);
      }
    }
  }

  lemma EmittedSnoc(emitted: seq<Emission>, m: Emission)
    ensures EmittedIds(emitted + [m]) == EmittedIds(emitted) + [m.firing]
  {
  }

  lemma OnceFront(front: seq<nat>, last: nat)
    requires Once(front + [last])
    ensures Once(front) && last !in front
  {
    var ids := front + [last];
    forall i, j | 0 <= i < j < |front| ensures front[i] != front[j] { assert ids[i] != ids[j]; }
    forall i | 0 <= i < |front| ensures front[i] != last { assert ids[i] != ids[|front|]; }
  }

  lemma DefaultingSnoc(front: seq<nat>, last: nat, history: seq<Preflight>)
    requires forall f :: f in front + [last] ==> f < |history|
    requires last !in front && last < |history|
    ensures forall f :: f in front ==> f < |history|
    ensures Defaulting(front + [last], history)
         == Defaulting(front, history) + if history[last].onTimeout == FireWithDefault then {last} else {}
    ensures last !in Defaulting(front, history)
  {
    assert last in front + [last];
    forall f | f in front ensures f < |history| { assert f in front + [last]; }
  }

  /** A sweep or a clear, seen on the ledger: `lapsed` left the pools with `fate`. */
  lemma LapseLocates(s: System, t: System, lapsed: seq<nat>, fate: Fate)
    requires Located(s)
    requires t.history == s.history && t.fates == Fated(s.fates, lapsed, fate)
    requires multiset(PreIds(s.preflight)) + multiset(PendIds(s.pending))
          == multiset(PreIds(t.preflight)) + multiset(PendIds(t.pending)) + multiset(lapsed)
    ensures Located(t)
    ensures t.fates.Keys == s.fates.Keys + set f | f in lapsed
    ensures forall f :: f in lapsed ==> f !in s.fates && t.fates[f] == fate
    ensures forall f :: f in s.fates ==> t.fates[f] == s.fates[f]
  {
    var pools := multiset(PreIds(s.preflight)) + multiset(PendIds(s.pending));
    forall f ensures multiset(lapsed)[f] + multiset(s.fates.Keys)[f] <= 1 {
      Whereabouts(s, f);
      assert multiset(lapsed)[f] <= pools[f];
    }
    FatesAbsorb(s.fates, lapsed, fate);
  }

  lemma EmittersGrow(s: System, t: System, lapsed: seq<nat>, fate: Fate)
    requires s.fates.Keys <= Firings(|s.history|) && t.history == s.history
    requires forall f :: f in lapsed ==> f < |s.history|
    requires t.fates.Keys == s.fates.Keys + set f | f in lapsed
    requires forall f :: f in lapsed ==> f !in s.fates && t.fates[f] == fate
    requires forall f :: f in s.fates ==> t.fates[f] == s.fates[f]
    requires fate == Expired || fate == Cleared
    ensures t.fates.Keys <= Firings(|t.history|)
    ensures Emitters(t) == Emitters(s) + if fate == Expired then Defaulting(lapsed, s.history) else {}
    ensures Emitters(s) !! Defaulting(lapsed, s.history)
  {
  }

  /** The same, with `more` published on the way. */
  lemma LapseLedger(s: System, t: System, lapsed: seq<nat>, fate: Fate, more: seq<Emission>)
    requires Located(s) && EmittedOnce(s)
    requires t.history == s.history && t.fates == Fated(s.fates, lapsed, fate) && t.emitted == s.emitted + more
    requires multiset(PreIds(s.preflight)) + multiset(PendIds(s.pending))
          == multiset(PreIds(t.preflight)) + multiset(PendIds(t.pending)) + multiset(lapsed)
    requires forall f :: f in lapsed ==> f < |s.history|
    requires (fate == Expired && multiset(EmittedIds(more)) == multiset(Defaulting(lapsed, s.history)))
          || (fate == Cleared && more == [])
    ensures Located(t) && EmittedOnce(t)
  {
    LapseLocates(s, t, lapsed, fate);
    EmittersGrow(s, t, lapsed, fate);
    EmittedConcat(s.emitted, more);
    assert fate == Cleared ==> EmittedIds(more) == [];
  }

  lemma EmittedConcat(a: seq<Emission>, b: seq<Emission>)
    ensures EmittedIds(a + b) == EmittedIds(a) + EmittedIds(b)
  {
  }

  lemma LapsedOnce(s: System, lapsed: seq<nat>, kept: multiset<nat>)
    requires Located(s)
    requires multiset(PreIds(s.preflight)) + multiset(PendIds(s.pending)) == kept + multiset(lapsed)
    ensures Once(lapsed)
  {
    var pools := multiset(PreIds(s.preflight)) + multiset(PendIds(s.pending));
    forall f ensures multiset(lapsed)[f] <= 1 {
      Whereabouts(s, f);
      assert multiset(lapsed)[f] <= pools[f];
    }
    OnceFromCounts(lapsed);
  }

  lemma SweepPreflightLedger(s: System, now: nat)
    requires Conserved(s)
    ensures Located(SweepPreflight(s, now)) && EmittedOnce(SweepPreflight(s, now))
  {
    hide PendingFaithful, EmittedFaithful, Located, EmittedOnce;
    var t := SweepPreflight(s, now);
    var lapsed := LapsedPreflight(s.preflight, now);
    PreflightSplits(s.preflight, now);
    LapsedOnce(s, PreIds(lapsed), multiset(PreIds(t.preflight)) + multiset(PendIds(t.pending)));
    PreflightDefaultsOnce(lapsed, s.history);
    LapseLedger(s, t, PreIds(lapsed), Expired, PreflightDefaults(lapsed));
  }

  lemma SweepPreflightConserves(s: System, now: nat)
    requires Conserved(s)
    ensures Conserved(SweepPreflight(s, now))
  {
    hide Located, EmittedOnce, Speaks;
    var t := SweepPreflight(s, now);
    var lapsed := LapsedPreflight(s.preflight, now);
    SweepPreflightLedger(s, now);
    PreflightSplits(s.preflight, now);
    LapsedPreflightOnce(s, now);
    PreflightDefaultsOnce(lapsed, s.history);
    assert forall i :: 0 <= i < |t.preflight| ==> t.preflight[i] in s.preflight;
    SpokenConcat(s, PreflightDefaults(lapsed));
  }

  lemma LapsedPreflightOnce(s: System, now: nat)
    requires Located(s)
    ensures Once(PreIds(LapsedPreflight(s.preflight, now)))
  {
    hide Located, Once;
    var t := SweepPreflight(s, now);
    PreflightSplits(s.preflight, now);
    LapsedOnce(s, PreIds(LapsedPreflight(s.preflight, now)), multiset(PreIds(t.preflight)) + multiset(PendIds(t.pending)));
  }

  lemma LapsedPendingOnce(s: System, now: nat)
    requires Located(s)
    ensures Once(PendIds(LapsedPending(s.pending, now)))
  {
    hide Located, Once;
    var t := SweepPending(s, now);
    PendingSplits(s.pending, now);
    LapsedOnce(s, PendIds(LapsedPending(s.pending, now)), multiset(PreIds(t.preflight)) + multiset(PendIds(t.pending)));
  }

  lemma SweepPendingLedger(s: System, now: nat)
    requires Conserved(s)
    ensures Located(SweepPending(s, now)) && EmittedOnce(SweepPending(s, now))
  {
    hide PreflightFaithful, EmittedFaithful, Located, EmittedOnce;
    var t := SweepPending(s, now);
    var lapsed := LapsedPending(s.pending, now);
    PendingSplits(s.pending, now);
    LapsedPendingOnce(s, now);
    PendingDefaultsOnce(lapsed, s.history);
    LapseLedger(s, t, PendIds(lapsed), Expired, PendingDefaults(lapsed));
  }

  lemma SweepPendingConserves(s: System, now: nat)
    requires Conserved(s)
    ensures Conserved(SweepPending(s, now))
  {
    hide Located, EmittedOnce, Speaks, StemsFrom;
    var t := SweepPending(s, now);
    var lapsed := LapsedPending(s.pending, now);
    SweepPendingLedger(s, now);
    PendingSplits(s.pending, now);
    LapsedPendingOnce(s, now);
    PendingDefaultsOnce(lapsed, s.history);
    assert forall i :: 0 <= i < |t.pending| ==> t.pending[i] in s.pending;
    SpokenConcat(s, PendingDefaults(lapsed));
  }

  lemma SpokenConcat(s: System, more: seq<Emission>)
    requires EmittedFaithful(s)
    requires forall m :: m in more ==> m.firing < |s.history| && Speaks(m, s.history[m.firing])
    ensures EmittedFaithful(s.(emitted := s.emitted + more))
  {
    forall i | 0 <= i < |s.emitted + more|
      ensures (s.emitted + more)[i].firing < |s.history|
      ensures Speaks((s.emitted + more)[i], s.history[(s.emitted + more)[i].firing])
    {
      if |s.emitted| <= i { assert (s.emitted + more)[i] in more; }
    }
  }

  lemma ClearPreflightConserves(s: System)
    requires Conserved(s)
    ensures Conserved(ClearPreflight(s))
  {
    hide Located, EmittedOnce, Speaks, StemsFrom;
    forall f | f in PreIds(s.preflight) ensures f < |s.history| { Whereabouts(s, f); }
    assert PreIds([]) == [] && s.emitted + [] == s.emitted;
    LapseLedger(s, ClearPreflight(s), PreIds(s.preflight), Cleared, []);
  }

  lemma ClearPendingConserves(s: System)
    requires Conserved(s)
    ensures Conserved(ClearPending(s))
  {
    hide Located, EmittedOnce, Speaks, StemsFrom;
    forall f | f in PendIds(s.pending) ensures f < |s.history| { Whereabouts(s, f); }
    assert PendIds([]) == [] && s.emitted + [] == s.emitted;
    LapseLedger(s, ClearPending(s), PendIds(s.pending), Cleared, []);
  }

  lemma StepConserves(s: System, step: Step, show: Json -> Text)
    requires Conserved(s) && Allowed(s, step)
    ensures Conserved(Apply(s, step, show))
  {
    match step
    case DoPromote(e) => PromoteLocates(s, e, show); PromoteFaithful(s, e, show);
    case DoMatch(e) => MatchLocates(s, e); MatchFaithful(s, e);
    case DoRegister(p) => RegisterConserves(s, p);
    case DoSweepPreflight(now) => SweepPreflightConserves(s, now);
    case DoSweepPending(now) => SweepPendingConserves(s, now);
    case DoClearPreflight => ClearPreflightConserves(s);
    case DoClearPending => ClearPendingConserves(s);
  }

  // ---- Main results on conservation ------------------------------------------------------------

  /** Whatever the interleaving of promotions, matches, registrations, sweeps and clears. */
  lemma {:induction false} RunConserves(steps: seq<Step>, show: Json -> Text)
    requires RunAllowed(Idle, steps, show)
    ensures Conserved(Run(Idle, steps, show))
    decreases |steps|
  {
    if steps == [] {
      assert PreIds([]) == [] && PendIds([]) == [] && EmittedIds([]) == [];
      assert Emitters(Idle) == {};
    } else {
      RunConserves(steps[..|steps| - 1], show);
      StepConserves(Run(Idle, steps[..|steps| - 1], show), steps[|steps| - 1], show);
    }
  }

  ghost predicate InPreflight(s: System, f: nat) { exists i :: 0 <= i < |s.preflight| && s.preflight[i].firing == f }

  ghost predicate InPending(s: System, f: nat) { exists i :: 0 <= i < |s.pending| && s.pending[i].firing == f }

  ghost predicate HasEmitted(s: System, f: nat) { exists i :: 0 <= i < |s.emitted| && s.emitted[i].firing == f }

  lemma InIds(s: System, f: nat)
    ensures InPreflight(s, f) <==> f in PreIds(s.preflight)
    ensures InPending(s, f) <==> f in PendIds(s.pending)
    ensures HasEmitted(s, f) <==> f in EmittedIds(s.emitted)
  {
    forall i | 0 <= i < |s.preflight| ensures PreIds(s.preflight)[i] == s.preflight[i].firing {}
    forall i | 0 <= i < |s.pending| ensures PendIds(s.pending)[i] == s.pending[i].firing {}
    forall i | 0 <= i < |s.emitted| ensures EmittedIds(s.emitted)[i] == s.emitted[i].firing {}
  }

  /** Read off the ledger: each firing is in exactly one of the pools and fates; it has published
      exactly when it was matched, or expired asking for a default; and never twice. */
  lemma EachFiringOnce(steps: seq<Step>, show: Json -> Text, f: nat)
    requires RunAllowed(Idle, steps, show)
    ensures var s := Run(Idle, steps, show);
      && (f < |s.history| <==> InPreflight(s, f) || InPending(s, f) || f in s.fates)
      && !(InPreflight(s, f) && InPending(s, f))
      && (InPreflight(s, f) || InPending(s, f) ==> f !in s.fates)
      && (HasEmitted(s, f) <==> f < |s.history| && f in s.fates && Emits(s.fates[f], s.history[f].onTimeout))
      && Once(EmittedIds(s.emitted))
  {
    RunConserves(steps, show);
    var s := Run(Idle, steps, show);
    Whereabouts(s, f);
    InIds(s, f);
    var emitters := Emitters(s);
    forall g ensures multiset(EmittedIds(s.emitted))[g] <= 1 {
      assert multiset(EmittedIds(s.emitted))[g] == multiset(emitters)[g];
    }
    OnceFromCounts(EmittedIds(s.emitted));
    assert f in EmittedIds(s.emitted) <==> f in multiset(EmittedIds(s.emitted));
  }
}
