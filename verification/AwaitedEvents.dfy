/** What an `.awaited` event says, over every run: the reply that matched it, or null when it expired, the
    action's result if there was one, and otherwise the payload that the trigger fired on. */
module AwaitedEvents {
  import opened ConditionSyntax
  import opened Events
  import opened EventPattern
  import opened Interpolation
  import opened AwaitMachine

  /** The payload as its readers see it, member by member. */
  ghost predicate Tells(payload: Json, original: Json, awaited: Json, result: Option<Json>) {
    && Member(payload, "await") == Some(awaited) && Member(payload, "action_result") == result
    && forall key: Text :: key != "await" && key != "action_result" ==> Member(payload, key) == Member(original, key)
  }

  lemma AwaitedPayloadTells(original: Json, awaited: Json, result: Option<Json>)
    ensures Tells(AwaitedPayload(original, awaited, result), original, awaited, result)
  {
    var fields := if original.JObject? then original.members else map[];
    forall key: Text | key != "await" && key != "action_result"
      ensures Member(AwaitedPayload(original, awaited, result), key) == Member(original, key)
    {
      assert key in fields <==> Member(original, key).Some?;
    }
  }

  /** What a firing's reply must carry: the template with the action's result `r` filled in. */
  ghost predicate Meets(e: Event, p: Preflight, r: Json, show: Json -> Text) {
    && PatternMatches(p.awaitKind, e.kind)
    && forall key :: key in p.template ==>
         Member(e.payload, key) == Some(InterpolateTyped(p.template[key], Scope(p.event, p.context, Some(r), show)))
  }

  /** The step at `j` is the completion that promoted `f`, and it carried `r`. */
  ghost predicate PromotedAt(steps: seq<Step>, j: nat, f: nat, r: Json, show: Json -> Text) {
    && j < |steps| && steps[j].DoPromote? && steps[j].event.payload == r
    && InPreflight(Run(Idle, steps[..j], show), f) && InPending(Run(Idle, steps[..j + 1], show), f)
  }

  ghost predicate PromotedWith(steps: seq<Step>, f: nat, r: Json, show: Json -> Text) {
    exists j: nat :: PromotedAt(steps, j, f, r, show)
  }

  ghost predicate ToldReply(promoting: seq<Step>, e: Event, m: Emission, p: Preflight, r: Json, show: Json -> Text) {
    PromotedWith(promoting, m.firing, r, show) && Meets(e, p, r, show) && Tells(m.payload, p.event.payload, e.payload, Some(r))
  }

  ghost predicate ToldExpiry(promoting: seq<Step>, m: Emission, p: Preflight, r: Json, show: Json -> Text) {
    PromotedWith(promoting, m.firing, r, show) && Tells(m.payload, p.event.payload, JNull, Some(r))
  }

  /** The step at `k` gives the firing its fate and publishes `m`, which tells it: the matching event and
      the result, or null, with the result if the action had completed. */
  ghost predicate ToldAt(steps: seq<Step>, k: nat, m: Emission, p: Preflight, show: Json -> Text) {
    && k < |steps|
    && var before, after := Run(Idle, steps[..k], show), Run(Idle, steps[..k + 1], show);
    && m.firing !in before.fates && m.firing in after.fates
    && match steps[k]
       case DoMatch(e) =>
         after.fates[m.firing] == Matched && (exists r :: ToldReply(steps[..k], e, m, p, r, show))
       case DoSweepPreflight(now) =>
         after.fates[m.firing] == Expired && p.deadline <= now && InPreflight(before, m.firing)
         && Tells(m.payload, p.event.payload, JNull, None)
       case DoSweepPending(now) =>
         after.fates[m.firing] == Expired && p.deadline <= now && (exists r :: ToldExpiry(steps[..k], m, p, r, show))
       case _ => false
  }

  ghost predicate Told(steps: seq<Step>, s: System, m: Emission, show: Json -> Text) {
    && m.firing < |s.history| && m.kind == s.history[m.firing].triggerName + ".awaited"
    && exists k: nat :: ToldAt(steps, k, m, s.history[m.firing], show)
  }

  /** What a pending entry was promoted with, and what it therefore waits for. */
  ghost predicate PendingTold(steps: seq<Step>, s: System, q: Pending, show: Json -> Text) {
    && q.firing < |s.history| && q.actionResult.Some? && PromotedWith(steps, q.firing, q.actionResult.value, show)
    && var p := s.history[q.firing];
    && q.awaitKind == p.awaitKind && q.originalPayload == p.event.payload && q.deadline == p.deadline
    && q.triggerName == p.triggerName && q.criteria.Keys == p.template.Keys
    && forall key :: key in q.criteria ==>
         q.criteria[key] == InterpolateTyped(p.template[key], Scope(p.event, p.context, q.actionResult, show))
  }

  ghost predicate AllTold(steps: seq<Step>, s: System, show: Json -> Text) {
    && (forall i :: 0 <= i < |s.pending| ==> PendingTold(steps, s, s.pending[i], show))
    && (forall i :: 0 <= i < |s.emitted| ==> Told(steps, s, s.emitted[i], show))
  }

  // ---- It stays so as the run goes on ----------------------------------------------------------

  /** The run `steps` is `front` and one step more. */
  ghost predicate OneMore(front: seq<Step>, steps: seq<Step>) { front != steps && |steps| == |front| + 1 && front <= steps }

  lemma PromotedExtends(front: seq<Step>, steps: seq<Step>, f: nat, r: Json, show: Json -> Text)
    requires OneMore(front, steps) && PromotedWith(front, f, r, show)
    ensures PromotedWith(steps, f, r, show)
  {
    var j: nat :| PromotedAt(front, j, f, r, show);
    assert steps[..j] == front[..j] && steps[..j + 1] == front[..j + 1];
    assert PromotedAt(steps, j, f, r, show);
  }

  lemma ToldExtends(front: seq<Step>, steps: seq<Step>, s: System, t: System, m: Emission, show: Json -> Text)
    requires OneMore(front, steps) && Told(front, s, m, show) && s.history <= t.history
    ensures Told(steps, t, m, show)
  {
    var p := s.history[m.firing];
    hide Run, Tells, Meets, PromotedWith;
    var k: nat :| ToldAt(front, k, m, p, show);
    assert steps[..k] == front[..k] && steps[..k + 1] == front[..k + 1];
    assert ToldAt(steps, k, m, p, show);
  }

  lemma PendingExtends(front: seq<Step>, steps: seq<Step>, s: System, t: System, q: Pending, show: Json -> Text)
    requires OneMore(front, steps) && PendingTold(front, s, q, show) && s.history <= t.history
    ensures PendingTold(steps, t, q, show)
  {
    PromotedExtends(front, steps, q.firing, q.actionResult.value, show);
  }

  lemma Open(s: System, f: nat)
    requires Located(s) && (InPreflight(s, f) || InPending(s, f))
    ensures f !in s.fates && f < |s.history|
  {
    Whereabouts(s, f);
    InIds(s, f);
  }

  lemma HistoryGrows(s: System, step: Step, show: Json -> Text)
    ensures s.history <= Apply(s, step, show).history
  {
  }

  // ---- Pending entries -------------------------------------------------------------------------

  /** The entry that a promotion adds. */
  lemma PromoteAdds(s: System, e: Event, show: Json -> Text)
    requires Conserved(s) && |s.pending| < |Promote(s, e, show).pending|
    ensures var t := Promote(s, e, show); var q := t.pending[|s.pending|];
      && |t.pending| == |s.pending| + 1 && t.history == s.history
      && q.firing < |s.history| && InPreflight(s, q.firing) && InPending(t, q.firing)
      && q == Promoted(s.history[q.firing], e.payload, show)
  {
    hide Located, EmittedOnce, PendingFaithful, EmittedFaithful, Promoted, Completes;
    var p := s.preflight[Oldest(s.preflight, Completes(e).action)];
    assert p == s.history[p.firing] && InPreflight(s, p.firing);
    PromotedFor(p, e.payload, show);
  }

  lemma PromotedFor(p: Preflight, result: Json, show: Json -> Text)
    ensures var q := Promoted(p, result, show);
      && q.firing == p.firing && q.actionResult == Some(result) && q.awaitKind == p.awaitKind
      && q.originalPayload == p.event.payload && q.deadline == p.deadline && q.triggerName == p.triggerName
      && q.criteria.Keys == p.template.Keys
      && forall key :: key in q.criteria ==>
           q.criteria[key] == InterpolateTyped(p.template[key], Scope(p.event, p.context, Some(result), show))
  {
  }

  lemma PromoteTold(front: seq<Step>, steps: seq<Step>, s: System, e: Event, show: Json -> Text)
    requires OneMore(front, steps) && steps[|front|] == DoPromote(e) && s == Run(Idle, front, show) && Conserved(s)
    requires Run(Idle, steps, show) == Promote(s, e, show)
    ensures var t := Promote(s, e, show);
      forall i :: |s.pending| <= i < |t.pending| ==> PendingTold(steps, t, t.pending[i], show)
  {
    hide Conserved, Run, Promote, Promoted, InPreflight, InPending;
    var t := Promote(s, e, show);
    if |s.pending| < |t.pending| {
      PromoteAdds(s, e, show);
      var q := t.pending[|s.pending|];
      PromotedFor(s.history[q.firing], e.payload, show);
      assert steps[..|front|] == front && steps[..|front| + 1] == steps;
      assert PromotedAt(steps, |front|, q.firing, e.payload, show);
    }
  }

  lemma OthersKeepPending(s: System, step: Step, show: Json -> Text)
    ensures var t := Apply(s, step, show);
      forall i :: 0 <= i < |t.pending| && (i < |s.pending| || !step.DoPromote?) ==> t.pending[i] in s.pending
  {
    var t := Apply(s, step, show);
    if step.DoSweepPending? {
      PendingSplits(s.pending, step.now);
      forall i | 0 <= i < |t.pending| ensures t.pending[i] in s.pending { }
    }
  }

  lemma StepPending(front: seq<Step>, steps: seq<Step>, s: System, t: System, show: Json -> Text)
    requires OneMore(front, steps) && s == Run(Idle, front, show) && Conserved(s) && AllTold(front, s, show)
    requires t == Run(Idle, steps, show) && t == Apply(s, steps[|front|], show)
    ensures forall i :: 0 <= i < |t.pending| ==> PendingTold(steps, t, t.pending[i], show)
  {
    hide Conserved, PendingTold, Told;
    var step := steps[|front|];
    HistoryGrows(s, step, show);
    OthersKeepPending(s, step, show);
    if step.DoPromote? { PromoteTold(front, steps, s, step.event, show); }
    forall i | 0 <= i < |t.pending| && t.pending[i] in s.pending ensures PendingTold(steps, t, t.pending[i], show) {
      var k :| 0 <= k < |s.pending| && s.pending[k] == t.pending[i];
      PendingExtends(front, steps, s, t, s.pending[k], show);
    }
  }

  // ---- Published events ------------------------------------------------------------------------

  lemma MatchTold(front: seq<Step>, steps: seq<Step>, s: System, e: Event, show: Json -> Text)
    requires OneMore(front, steps) && steps[|front|] == DoMatch(e) && s == Run(Idle, front, show)
    requires Conserved(s) && AllTold(front, s, show) && Run(Idle, steps, show) == MatchPending(s, e)
    ensures var t := MatchPending(s, e);
      forall i :: |s.emitted| <= i < |t.emitted| ==> Told(steps, t, t.emitted[i], show)
  {
    var t, i := MatchPending(s, e), FirstClaim(s.pending, e);
    if i < |s.pending| {
      var q := s.pending[i];
      var m, p := t.emitted[|s.emitted|], s.history[q.firing];
      assert PendingTold(front, s, q, show);
      assert InPending(s, q.firing);
      Open(s, q.firing);
      AwaitedPayloadTells(q.originalPayload, e.payload, q.actionResult);
      assert Meets(e, p, q.actionResult.value, show) by { MeetsClaim(q, e, p, show); }
      assert steps[..|front|] == front && steps[..|front| + 1] == steps;
      assert ToldReply(front, e, m, p, q.actionResult.value, show);
      assert ToldAt(steps, |front|, m, p, show);
    }
  }

  /** An entry claims exactly the events that meet what its firing waits for. */
  lemma MeetsClaim(q: Pending, e: Event, p: Preflight, show: Json -> Text)
    requires q.awaitKind == p.awaitKind && q.criteria.Keys == p.template.Keys && q.actionResult.Some?
    requires forall key :: key in q.criteria ==>
      q.criteria[key] == InterpolateTyped(p.template[key], Scope(p.event, p.context, q.actionResult, show))
    ensures Claims(q, e) <==> Meets(e, p, q.actionResult.value, show)
  {
    forall key | key in p.template
      ensures q.criteria[key] == InterpolateTyped(p.template[key], Scope(p.event, p.context, q.actionResult, show))
    {
      assert key in q.criteria;
    }
  }

  lemma {:induction false} PreflightDefaultsAre(lapsed: seq<Preflight>, m: Emission) returns (p: Preflight)
    requires m in PreflightDefaults(lapsed)
    ensures p in lapsed
    ensures m == Emission(p.firing, p.triggerName + AWAITED, AwaitedPayload(p.event.payload, JNull, None))
  {
    var front, last := lapsed[..|lapsed| - 1], lapsed[|lapsed| - 1];
    if m in PreflightDefaults(front) {
      p := PreflightDefaultsAre(front, m);
    } else {
      p := last;
    }
  }

  lemma {:induction false} PendingDefaultsAre(lapsed: seq<Pending>, m: Emission) returns (q: Pending)
    requires m in PendingDefaults(lapsed)
    ensures q in lapsed
    ensures m == Emission(q.firing, q.triggerName + AWAITED, AwaitedPayload(q.originalPayload, JNull, q.actionResult))
  {
    var front, last := lapsed[..|lapsed| - 1], lapsed[|lapsed| - 1];
    if m in PendingDefaults(front) {
      q := PendingDefaultsAre(front, m);
    } else {
      q := last;
    }
  }

  lemma LapsedPreflightOpen(s: System, now: nat, p: Preflight)
    requires Conserved(s) && p in LapsedPreflight(s.preflight, now)
    ensures InPreflight(s, p.firing) && p.firing < |s.history| && s.history[p.firing] == p && p.deadline <= now
    ensures p.firing !in s.fates
    ensures p.firing in SweepPreflight(s, now).fates && SweepPreflight(s, now).fates[p.firing] == Expired
  {
    var lapsed := LapsedPreflight(s.preflight, now);
    PreflightSplits(s.preflight, now);
    var k :| 0 <= k < |s.preflight| && s.preflight[k] == p;
    assert InPreflight(s, p.firing) && PreflightFaithful(s);
    Open(s, p.firing);
    var j :| 0 <= j < |lapsed| && lapsed[j] == p;
    assert PreIds(lapsed)[j] == p.firing;
  }

  lemma LapsedPendingOpen(s: System, now: nat, q: Pending)
    requires Conserved(s) && q in LapsedPending(s.pending, now)
    ensures q in s.pending && q.deadline <= now && q.firing !in s.fates
    ensures q.firing in SweepPending(s, now).fates && SweepPending(s, now).fates[q.firing] == Expired
  {
    var lapsed := LapsedPending(s.pending, now);
    PendingSplits(s.pending, now);
    var k :| 0 <= k < |s.pending| && s.pending[k] == q;
    assert InPending(s, q.firing);
    Open(s, q.firing);
    var j :| 0 <= j < |lapsed| && lapsed[j] == q;
    assert PendIds(lapsed)[j] == q.firing;
  }

  lemma SweepPreflightTold(front: seq<Step>, steps: seq<Step>, s: System, now: nat, i: nat, show: Json -> Text)
    requires OneMore(front, steps) && steps[|front|] == DoSweepPreflight(now) && s == Run(Idle, front, show)
    requires Conserved(s) && Run(Idle, steps, show) == SweepPreflight(s, now)
    requires |s.emitted| <= i < |SweepPreflight(s, now).emitted|
    ensures Told(steps, SweepPreflight(s, now), SweepPreflight(s, now).emitted[i], show)
  {
    hide Run, Conserved, Tells, PreflightDefaults, LapsedPreflight, KeptPreflight, Fated, InPreflight;
    var t, lapsed := SweepPreflight(s, now), LapsedPreflight(s.preflight, now);
    var m := t.emitted[i];
    assert m in PreflightDefaults(lapsed);
    var p := PreflightDefaultsAre(lapsed, m);
    LapsedPreflightOpen(s, now, p);
    AwaitedPayloadTells(p.event.payload, JNull, None);
    assert steps[..|front|] == front && steps[..|front| + 1] == steps;
    assert ToldAt(steps, |front|, m, p, show);
  }

  lemma SweepPendingTold(front: seq<Step>, steps: seq<Step>, s: System, now: nat, i: nat, show: Json -> Text)
    requires OneMore(front, steps) && steps[|front|] == DoSweepPending(now) && s == Run(Idle, front, show)
    requires Conserved(s) && AllTold(front, s, show) && Run(Idle, steps, show) == SweepPending(s, now)
    requires |s.emitted| <= i < |SweepPending(s, now).emitted|
    ensures Told(steps, SweepPending(s, now), SweepPending(s, now).emitted[i], show)
  {
    hide Run, Conserved, Tells, PendingDefaults, LapsedPending, KeptPending, Fated, PromotedWith, Told;
    var t, lapsed := SweepPending(s, now), LapsedPending(s.pending, now);
    var m := t.emitted[i];
    assert m in PendingDefaults(lapsed);
    var q := PendingDefaultsAre(lapsed, m);
    LapsedPendingOpen(s, now, q);
    var k :| 0 <= k < |s.pending| && s.pending[k] == q;
    assert PendingTold(front, s, s.pending[k], show);
    AwaitedPayloadTells(q.originalPayload, JNull, q.actionResult);
    assert steps[..|front|] == front && steps[..|front| + 1] == steps;
    SweptToldAt(front, steps, s, now, q, m, show);
  }

  lemma SweptToldAt(front: seq<Step>, steps: seq<Step>, s: System, now: nat, q: Pending, m: Emission, show: Json -> Text)
    requires OneMore(front, steps) && steps[|front|] == DoSweepPending(now) && s == Run(Idle, front, show)
    requires Run(Idle, steps, show) == SweepPending(s, now) && PendingTold(front, s, q, show) && q.deadline <= now
    requires q.firing !in s.fates && q.firing in SweepPending(s, now).fates
    requires SweepPending(s, now).fates[q.firing] == Expired
    requires m.firing == q.firing && m.kind == q.triggerName + AWAITED
    requires Tells(m.payload, q.originalPayload, JNull, q.actionResult)
    ensures Told(steps, SweepPending(s, now), m, show)
  {
    hide Run, Tells, LapsedPending, KeptPending, Fated, PromotedWith;
    assert steps[..|front|] == front && steps[..|front| + 1] == steps;
    assert ToldExpiry(front, m, s.history[q.firing], q.actionResult.value, show);
    assert ToldAt(steps, |front|, m, s.history[q.firing], show);
  }

  lemma StepEmitted(front: seq<Step>, steps: seq<Step>, s: System, t: System, show: Json -> Text)
    requires OneMore(front, steps) && s == Run(Idle, front, show) && Conserved(s) && AllTold(front, s, show)
    requires t == Run(Idle, steps, show) && t == Apply(s, steps[|front|], show)
    ensures forall i :: 0 <= i < |t.emitted| ==> Told(steps, t, t.emitted[i], show)
  {
    hide Conserved, PendingTold, Told;
    var step := steps[|front|];
    HistoryGrows(s, step, show);
    assert s.emitted <= t.emitted;
    forall i | 0 <= i < |t.emitted| ensures Told(steps, t, t.emitted[i], show) {
      if i < |s.emitted| {
        ToldExtends(front, steps, s, t, s.emitted[i], show);
      } else {
        match step
        case DoMatch(e) => MatchTold(front, steps, s, e, show);
        case DoSweepPreflight(now) => SweepPreflightTold(front, steps, s, now, i, show);
        case DoSweepPending(now) => SweepPendingTold(front, steps, s, now, i, show);
        case _ =>
      }
    }
  }

  lemma {:induction false} RunTells(steps: seq<Step>, show: Json -> Text)
    requires RunAllowed(Idle, steps, show)
    ensures AllTold(steps, Run(Idle, steps, show), show)
    decreases |steps|
  {
    if steps == [] {
    } else {
      var front := steps[..|steps| - 1];
      RunTells(front, show);
      RunConserves(front, show);
      var s, t := Run(Idle, front, show), Run(Idle, steps, show);
      StepPending(front, steps, s, t, show);
      StepEmitted(front, steps, s, t, show);
    }
  }

  /** Over every run, each published event is its firing's `.awaited`, and was published by the very step
      that settled the firing: a match, then with the payload of the matching event, which met what the
      trigger asked for with the action's result filled in; or an expiry after the deadline, then with
      null.  It has the action's result if and only if the action had completed, and else what the trigger
      fired on. */
  lemma AwaitedTells(steps: seq<Step>, i: nat, show: Json -> Text)
    requires RunAllowed(Idle, steps, show) && i < |Run(Idle, steps, show).emitted|
    ensures var s := Run(Idle, steps, show); var m := s.emitted[i];
      && m.firing < |s.history| && m.kind == s.history[m.firing].triggerName + ".awaited"
      && exists k: nat :: ToldAt(steps, k, m, s.history[m.firing], show)
  {
    RunTells(steps, show);
    assert Told(steps, Run(Idle, steps, show), Run(Idle, steps, show).emitted[i], show);
  }

  /** The entry at `i` waits for this event. */
  ghost predicate WaitsFor(s: System, i: nat, e: Event, show: Json -> Text)
    requires i < |s.pending|
  {
    && s.pending[i].firing < |s.history| && s.pending[i].actionResult.Some?
    && Meets(e, s.history[s.pending[i].firing], s.pending[i].actionResult.value, show)
  }

  /** Conversely, in every state of every run: the pass over the pending entries resolves the first one that
      waits for the event, publishes for it, and leaves all others; and does nothing when none does. */
  lemma FirstWaitingIsMatched(steps: seq<Step>, e: Event, show: Json -> Text) returns (i: nat)
    requires RunAllowed(Idle, steps, show)
    ensures var s, t := Run(Idle, steps, show), Apply(Run(Idle, steps, show), DoMatch(e), show);
      && i <= |s.pending| && (forall k :: 0 <= k < i ==> !WaitsFor(s, k, e, show))
      && (i == |s.pending| ==> t == s)
      && (i < |s.pending| ==>
            && WaitsFor(s, i, e, show) && t.pending == s.pending[..i] + s.pending[i + 1..]
            && t.fates == s.fates[s.pending[i].firing := Matched] && t.preflight == s.preflight
            && |t.emitted| == |s.emitted| + 1 && t.emitted[..|s.emitted|] == s.emitted
            && t.emitted[|s.emitted|].firing == s.pending[i].firing)
  {
    hide Conserved, PromotedWith;
    RunTells(steps, show);
    var s := Run(Idle, steps, show);
    forall k | 0 <= k < |s.pending| ensures Claims(s.pending[k], e) <==> WaitsFor(s, k, e, show) {
      assert PendingTold(steps, s, s.pending[k], show);
      MeetsClaim(s.pending[k], e, s.history[s.pending[k].firing], show);
    }
    i := FirstClaim(s.pending, e);
  }
}
