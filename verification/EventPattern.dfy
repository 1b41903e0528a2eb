/** Event-kind patterns: the matcher, the covering test, and the reduction of a pattern list to an
    exact, disjoint and minimal cover. */
module EventPattern {
  import opened ConditionSyntax
  import opened Events
  import opened Ordering

  const STAR: Text := "*"
  const GLOB: Text := ".*"

  /** `kind` is `prefix` followed by a dot and anything. */
  predicate Under(prefix: Text, kind: Text) {
    |prefix| < |kind| && prefix <= kind && kind[|prefix|] == '.'
  }

  function Prefix(pattern: Text): Text
    requires HasSuffix(pattern, GLOB)
  {
    StripSuffix(pattern, GLOB)
  }

  predicate PatternMatches(pattern: Text, kind: Text) {
    if pattern == STAR then true
    else if HasSuffix(pattern, GLOB) then Under(Prefix(pattern), kind)
    else pattern == kind
  }

  predicate PatternCovers(broader: Text, narrower: Text) {
    if broader == STAR then true
    else if !HasSuffix(broader, GLOB) then false
    else if HasSuffix(narrower, GLOB) then Under(Prefix(broader), Prefix(narrower))
    else Under(Prefix(broader), narrower)
  }

  /** Inclusion of the languages that two patterns denote. */
  ghost predicate Includes(broader: Text, narrower: Text) {
    forall kind: Text :: PatternMatches(narrower, kind) ==> PatternMatches(broader, kind)
  }

  lemma PrefixOfGlob(pattern: Text)
    requires HasSuffix(pattern, GLOB)
    ensures pattern == Prefix(pattern) + GLOB
  {
  }

  /** What patterns mean: `*` any kind, `p.*` the kinds that go on after `p` and a dot, any other text
      itself. */
  lemma PatternsMean(pattern: Text, prefix: Text, kind: Text)
    ensures PatternMatches("*", kind)
    ensures PatternMatches(prefix + ".*", kind) <==> exists rest: Text :: kind == prefix + "." + rest
    ensures pattern != "*" && !HasSuffix(pattern, ".*") ==> (PatternMatches(pattern, kind) <==> pattern == kind)
  {
    var glob: Text := prefix + ".*";
    assert glob[|glob| - 2..] == GLOB && Prefix(glob) == prefix && glob != STAR;
    if Under(prefix, kind) {
      assert kind == prefix + "." + kind[|prefix| + 1..];
    }
    if rest: Text :| kind == prefix + "." + rest {
      assert kind[..|prefix|] == prefix && kind[|prefix|] == '.';
    }
  }

  /** The covering test is exactly language inclusion, for two different patterns. */
  lemma CoversIsInclusion(broader: Text, narrower: Text)
    requires broader != narrower
    ensures PatternCovers(broader, narrower) <==> Includes(broader, narrower)
  {
    if broader != STAR {
      var kind := Witness(narrower, broader);
      WitnessMatches(narrower, broader);
      if PatternCovers(broader, narrower) {
        CoversSound(broader, narrower);
      } else if Includes(broader, narrower) {
        assert PatternMatches(broader, kind);
        WitnessRefutes(broader, narrower);
      }
    }
  }

  lemma CoversSound(broader: Text, narrower: Text)
    requires PatternCovers(broader, narrower)
    ensures Includes(broader, narrower)
  {
    forall kind | PatternMatches(narrower, kind) ensures PatternMatches(broader, kind) {
      if broader != STAR && HasSuffix(narrower, GLOB) {
        assert kind[|Prefix(broader)|] == Prefix(narrower)[|Prefix(broader)|];
      }
    }
  }

  /** A kind in the language of `narrower` that a different pattern matches only by covering it. */
  function Witness(narrower: Text, broader: Text): Text {
    if narrower == STAR then broader + "x"
    else if HasSuffix(narrower, GLOB) then Prefix(narrower) + (if broader == Prefix(narrower) + "." then ".x" else ".")
    else narrower
  }

  lemma WitnessMatches(narrower: Text, broader: Text)
    ensures PatternMatches(narrower, Witness(narrower, broader))
  {
  }

  lemma WitnessRefutes(broader: Text, narrower: Text)
    requires broader != narrower && broader != STAR && !PatternCovers(broader, narrower)
    ensures Includes(broader, narrower) ==> false
  {
    var kind := Witness(narrower, broader);
    WitnessMatches(narrower, broader);
    if PatternMatches(broader, kind) {
      if narrower == STAR {
        assert PatternMatches(narrower, "x") && !Under(Prefix(broader), "x");
      } else if HasSuffix(narrower, GLOB) {
        PrefixOfGlob(narrower);
        PrefixOfGlob(broader);
      }
    }
  }

  // ---- The reduction ---------------------------------------------------------------------------

  predicate Uncovered(p: Text, patterns: seq<Text>) {
    forall other :: other in patterns && other != p ==> !PatternCovers(other, p)
  }

  /** Those of the first `n` patterns that no other pattern covers, in order. */
  function Survivors(patterns: seq<Text>, n: nat): (r: seq<Text>)
    requires n <= |patterns|
  {
    if n == 0 then []
    else Survivors(patterns, n - 1) + if Uncovered(patterns[n - 1], patterns) then [patterns[n - 1]] else []
  }

  function Covering(patterns: seq<Text>): seq<Text> {
    var listed := SortDedup(patterns);
    if STAR in listed then [STAR] else Survivors(listed, |listed|)
  }

  /** The `any` over the other patterns. */
  method CoveredByOther(p: Text, listed: seq<Text>) returns (covered: bool)
    ensures covered <==> !Uncovered(p, listed)
  {
    hide PatternCovers;
    covered := false;
    var j := 0;
    while j < |listed| && !covered
      invariant j <= |listed| && (!covered ==> Uncovered(p, listed[..j])) && (covered ==> !Uncovered(p, listed))
    {
      covered := listed[j] != p && PatternCovers(listed[j], p);
      assert listed[j] in listed && listed[..j + 1] == listed[..j] + [listed[j]];
      j := j + 1;
    }
    assert !covered ==> listed[..j] == listed;
  }

  method CoveringPatterns(patterns: seq<Text>) returns (result: seq<Text>)
    ensures result == Covering(patterns)
  {
    hide Uncovered;
    var listed := SortDedup(patterns);
    if STAR in listed { return [STAR]; }
    result := [];
    var i := 0;
    while i < |listed|
      invariant i <= |listed| && result == Survivors(listed, i)
    {
      var covered := CoveredByOther(listed[i], listed);
      if !covered { result := result + [listed[i]]; }
      i := i + 1;
    }
  }

  lemma {:induction false} SurvivorElements(patterns: seq<Text>, n: nat)
    requires n <= |patterns|
    ensures forall p :: p in Survivors(patterns, n) <==> p in patterns[..n] && Uncovered(p, patterns)
    decreases n
  {
    hide Uncovered;
    if n == 0 {
    } else {
      SurvivorElements(patterns, n - 1);
      assert patterns[..n] == patterns[..n - 1] + [patterns[n - 1]];
    }
  }

  lemma {:induction false} SurvivorsIncreasing(patterns: seq<Text>, n: nat)
    requires n <= |patterns| && Increasing(patterns)
    ensures Increasing(Survivors(patterns, n))
    decreases n
  {
    if n == 0 {
    } else {
      SurvivorsIncreasing(patterns, n - 1);
      SurvivorElements(patterns, n - 1);
      var shorter := Survivors(patterns, n - 1);
      forall i | 0 <= i < |shorter| ensures Less(shorter[i], patterns[n - 1]) {
        assert shorter[i] in patterns[..n - 1];
      }
    }
  }

  /** Membership in the cover: `*` swallows all, otherwise exactly the uncovered patterns stay. */
  lemma CoverMembers(patterns: seq<Text>)
    ensures forall p :: p in Covering(patterns) <==> p in patterns && (STAR in patterns ==> p == STAR) && Uncovered(p, patterns)
  {
    var listed := SortDedup(patterns);
    SameMembers(listed, patterns);
    SurvivorElements(listed, |listed|);
    assert listed[..|listed|] == listed;
    if STAR in patterns {
      assert forall p :: p != STAR ==> !PatternCovers(p, STAR);
    }
  }

  /** Of two different patterns that match a common kind, one covers the other. */
  lemma OverlapCovers(p: Text, q: Text, kind: Text)
    requires p != q && PatternMatches(p, kind) && PatternMatches(q, kind)
    ensures PatternCovers(p, q) || PatternCovers(q, p)
  {
    if p != STAR && q != STAR && HasSuffix(p, GLOB) && HasSuffix(q, GLOB) {
      PrefixOfGlob(p);
      PrefixOfGlob(q);
      var a, b := Prefix(p), Prefix(q);
      if |a| < |b| { assert b[|a|] == kind[|a|] && a <= b; }
      else if |b| < |a| { assert a[|b|] == kind[|b|] && b <= a; }
    }
  }

  /** Every matching pattern leads, through broader ones, to a matching pattern that is uncovered. */
  lemma {:induction false} Broadest(patterns: seq<Text>, p: Text, kind: Text) returns (top: Text)
    requires p in patterns && PatternMatches(p, kind) && STAR !in patterns
    ensures top in patterns && PatternMatches(top, kind) && Uncovered(top, patterns)
    decreases if HasSuffix(p, GLOB) then |p| else |p| + 3
  {
    if Uncovered(p, patterns) { return p; }
    var other :| other in patterns && other != p && PatternCovers(other, p);
    CoversSound(other, p);
    top := Broadest(patterns, other, kind);
  }

  // ---- Main results ----------------------------------------------------------------------------

  /** Exact: the cover matches precisely the kinds that the given patterns match. */
  lemma CoverExact(patterns: seq<Text>, kind: Text)
    ensures (exists p :: p in Covering(patterns) && PatternMatches(p, kind))
       <==> (exists p :: p in patterns && PatternMatches(p, kind))
  {
    CoverMembers(patterns);
    if p :| p in patterns && PatternMatches(p, kind) {
      if STAR in patterns {
        assert STAR in Covering(patterns) && PatternMatches(STAR, kind);
      } else {
        var top := Broadest(patterns, p, kind);
        assert top in Covering(patterns);
      }
    }
  }

  /** Disjoint: no kind is matched by two patterns of the cover. */
  lemma CoverDisjoint(patterns: seq<Text>, p: Text, q: Text, kind: Text)
    requires p in Covering(patterns) && q in Covering(patterns)
    requires PatternMatches(p, kind) && PatternMatches(q, kind)
    ensures p == q
  {
    CoverMembers(patterns);
    if p != q { OverlapCovers(p, q, kind); }
  }

  /** Minimal: dropping any pattern of the cover loses a kind, so no smaller subset will do. */
  lemma CoverMinimal(patterns: seq<Text>, p: Text)
    requires p in Covering(patterns)
    ensures exists kind ::
      (PatternMatches(p, kind) && forall q :: q in Covering(patterns) && q != p ==> !PatternMatches(q, kind))
  {
    var kind := Witness(p, p);
    WitnessMatches(p, p);
    forall q | q in Covering(patterns) && q != p ensures !PatternMatches(q, kind) {
      if PatternMatches(q, kind) { CoverDisjoint(patterns, p, q, kind); }
    }
  }

  /** The cover depends only on the set of patterns, and lists a subset of it in increasing order. */
  lemma CoverDependsOnSet(a: seq<Text>, b: seq<Text>)
    requires Elements(a) == Elements(b)
    ensures Covering(a) == Covering(b) && Increasing(Covering(a)) && Elements(Covering(a)) <= Elements(a)
  {
    IncreasingUnique(SortDedup(a), SortDedup(b));
    var listed := SortDedup(a);
    SurvivorsIncreasing(listed, |listed|);
    CoverMembers(a);
  }
}
