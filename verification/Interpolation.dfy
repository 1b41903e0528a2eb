/** `{token}` interpolation of trigger parameters and await criteria: single-pass string substitution,
    and its type-preserving variant on JSON templates. */
module Interpolation {
  import opened ConditionSyntax
  import opened Events

  /** What tokens resolve against.  `show` prints a JSON value that is neither a string nor null. */
  datatype Scope = Scope(event: Event, context: Option<Context>, actionResult: Option<Json>, show: Json -> Text)

  // ---- Token resolution ------------------------------------------------------------------------

  function Find(s: Text, b: Byte): (r: Option<nat>)
    ensures r.Some? ==> r.value < |s| && s[r.value] == b && b !in s[..r.value]
    ensures r.None? ==> b !in s
  {
    if s == [] then None
    else if s[0] == b then Some(0)
    else
      var rest := Find(s[1..], b);
      assert s == [s[0]] + s[1..];
      if rest.Some? then
        assert s[..rest.value + 1] == [s[0]] + s[1..][..rest.value];
        Some(rest.value + 1)
      else None
  }

  /** `str::split('.')`: always at least one piece. */
  function Pieces(s: Text): (r: seq<Text>)
    ensures r != []
    decreases |s|
  {
    match Find(s, '.')
    case None => [s]
    case Some(i) => [s[..i]] + Pieces(s[i + 1..])
  }

  function Descend(v: Json, path: seq<Text>): Option<Json> {
    if path == [] then Some(v) else
    match Member(v, path[0])
    case None => None
    case Some(w) => Descend(w, path[1..])
  }

  function DotPath(root: Json, path: Text): Option<Json> { Descend(root, Pieces(path)) }

  function TopLevel(field: Text, e: Event): Option<Json> {
    if field == "kind" then Some(JString(e.kind))
    else if field == "source" then Some(JString(e.source))
    else if field == "timestamp_ms" then Some(JNumber(Integer(e.timestampMs)))
    else None
  }

  const EVENT_DOT: Text := "event."
  const RESULT_DOT: Text := "action_result."
  const CONTEXT_DOT: Text := "context."

  function ResolveValue(token: Text, scope: Scope): Option<Json> {
    if EVENT_DOT <= token then
      var field := token[|EVENT_DOT|..];
      var found := DotPath(scope.event.payload, field);
      if found.Some? then found else TopLevel(field, scope.event)
    else if RESULT_DOT <= token && scope.actionResult.Some? then
      DotPath(scope.actionResult.value, token[|RESULT_DOT|..])
    else None
  }

  function Scalar(v: Json, show: Json -> Text): Text {
    match v
    case JString(s) => s
    case JNull => "null"
    case other => show(other)
  }

  function ContextField(field: Text, context: Option<Context>): Option<Text> {
    if context.None? then None
    else if field == "active_panel" then context.value.activePanel
    else if field == "active_cwd" then context.value.activeCwd
    else None
  }

  function ResolveText(token: Text, scope: Scope): Option<Text> {
    if EVENT_DOT <= token then
      var field := token[|EVENT_DOT|..];
      match DotPath(scope.event.payload, field)
      case Some(v) => Some(Scalar(v, scope.show))
      case None =>
        match TopLevel(field, scope.event)
        case Some(v) => Some(Scalar(v, scope.show))
        case None => None
    else if RESULT_DOT <= token && scope.actionResult.Some?
      && DotPath(scope.actionResult.value, token[|RESULT_DOT|..]).Some? then
      Some(Scalar(DotPath(scope.actionResult.value, token[|RESULT_DOT|..]).value, scope.show))
    else if CONTEXT_DOT <= token then ContextField(token[|CONTEXT_DOT|..], scope.context)
    else None
  }

  // ---- What each token yields ------------------------------------------------------------------

  /** A name with no dot in it names a member; before a dot, the member to go on from. */
  lemma DotPathMeans(root: Json, name: Text, rest: Text)
    requires '.' !in name
    ensures DotPath(root, name) == Member(root, name)
    ensures DotPath(root, name + "." + rest) ==
      match Member(root, name) case None => None case Some(v) => DotPath(v, rest)
  {
    assert Find(name, '.').None?;
    var all := name + "." + rest;
    assert all == name + (['.'] + rest);
    FindAround(name, '.', rest);
    assert all[..|name|] == name && all[|name| + 1..] == rest;
    assert Pieces(name) == [name];
    assert Pieces(all) == [name] + Pieces(rest);
    assert ([name] + Pieces(rest))[1..] == Pieces(rest) && [name][1..] == [];
    if Member(root, name).Some? { assert Descend(Member(root, name).value, []) == Member(root, name); }
  }

  /** What `text` shows of a value: strings bare, null as such, all else printed. */
  ghost predicate ShownAs(v: Json, text: Text, show: Json -> Text) {
    (v.JString? ==> text == v.s) && (v.JNull? ==> text == "null") && (!v.JString? && !v.JNull? ==> text == show(v))
  }

  /** `{event.field}`: the payload's own member first, and only without one the event's kind, source or
      time. */
  lemma EventTokenMeans(field: Text, scope: Scope)
    ensures var got, text := ResolveValue("event." + field, scope), ResolveText("event." + field, scope);
      && (got.Some? <==> text.Some?) && (got.Some? ==> ShownAs(got.value, text.value, scope.show))
      && (DotPath(scope.event.payload, field).Some? ==> got == DotPath(scope.event.payload, field))
      && (DotPath(scope.event.payload, field).None? ==>
            && (field == "kind" ==> got == Some(JString(scope.event.kind)))
            && (field == "source" ==> got == Some(JString(scope.event.source)))
            && (field == "timestamp_ms" ==> got == Some(JNumber(Integer(scope.event.timestampMs))))
            && (field !in {"kind", "source", "timestamp_ms"} ==> got == None))
  {
    assert ("event." + field)[|EVENT_DOT|..] == field;
  }

  /** `{action_result.field}` and `{context.field}`. */
  lemma OtherTokensMean(field: Text, scope: Scope)
    ensures var got, text := ResolveValue("action_result." + field, scope), ResolveText("action_result." + field, scope);
      && got == (match scope.actionResult case None => None case Some(result) => DotPath(result, field))
      && (got.Some? <==> text.Some?) && (got.Some? ==> ShownAs(got.value, text.value, scope.show))
    ensures ResolveText("context.active_panel", scope) == (if scope.context.Some? then scope.context.value.activePanel else None)
    ensures ResolveText("context.active_cwd", scope) == (if scope.context.Some? then scope.context.value.activeCwd else None)
    ensures field !in {"active_panel", "active_cwd"} ==> ResolveText("context." + field, scope) == None
  {
    var token := "action_result." + field;
    assert token[|RESULT_DOT|..] == field && token[0] == 'a';
    assert ("context." + field)[|CONTEXT_DOT|..] == field && ("context." + field)[0] == 'c';
    assert "context.active_panel" == "context." + "active_panel" && "context.active_cwd" == "context." + "active_cwd";
    assert ("context." + "active_panel")[|CONTEXT_DOT|..] == "active_panel";
    assert ("context." + "active_cwd")[|CONTEXT_DOT|..] == "active_cwd";
  }

  /** Any other token yields nothing. */
  lemma UnknownTokens(token: Text, scope: Scope)
    requires !HasPrefix(token, "event.") && !HasPrefix(token, "action_result.")
    ensures ResolveValue(token, scope) == None
    ensures !HasPrefix(token, "context.") ==> ResolveText(token, scope) == None
  {
  }

  // ---- Segmentation: fixed by the template alone -----------------------------------------------

  /** A template read as text: plain runs, tokens, and possibly a last brace that is never closed. */
  datatype Template =
    | Plain(text: Text)
    | Unclosed(text: Text, rest: Text)
    | Hole(text: Text, name: Text, next: Template)

  /** `a`, the byte `b`, then `c`. */
  function Around(a: Text, b: Byte, c: Text): Text { a + ([b] + c) }

  function Source(t: Template): Text {
    match t
    case Plain(text) => text
    case Unclosed(text, rest) => Around(text, '{', rest)
    case Hole(text, name, next) => Around(text, '{', Around(name, '}', Source(next)))
  }

  /** Plain runs hold no `{`; token names, and what follows an unclosed brace, hold no `}`. */
  predicate WellCut(t: Template) {
    match t
    case Plain(text) => '{' !in text
    case Unclosed(text, rest) => '{' !in text && '}' !in rest
    case Hole(text, name, next) => '{' !in text && '}' !in name && WellCut(next)
  }

  function Before(s: Text, b: Byte): Text
    requires Find(s, b).Some?
  {
    s[..Find(s, b).value]
  }

  function After(s: Text, b: Byte): (r: Text)
    requires Find(s, b).Some?
    ensures |r| < |s|
  {
    s[Find(s, b).value + 1..]
  }

  function Read(s: Text): Template
    decreases |s|
  {
    if Find(s, '{').None? then Plain(s)
    else
      var tail := After(s, '{');
      if Find(tail, '}').None? then Unclosed(Before(s, '{'), tail)
      else Hole(Before(s, '{'), Before(tail, '}'), Read(After(tail, '}')))
  }

  function FillHole(name: Text, scope: Scope): Text {
    match ResolveText(name, scope)
    case Some(v) => v
    case None => "{" + name + "}"
  }

  function Fill(t: Template, scope: Scope): Text {
    match t
    case Plain(text) => text
    case Unclosed(text, rest) => Around(text, '{', rest)
    case Hole(text, name, next) => text + (FillHole(name, scope) + Fill(next, scope))
  }

  function Interpolated(s: Text, scope: Scope): Text { Fill(Read(s), scope) }

  method InterpolateString(s: Text, scope: Scope) returns (result: Text)
    ensures result == Interpolated(s, scope)
  {
    result := [];
    var rest: Text := s;
    while Find(rest, '{').Some?
      invariant Interpolated(s, scope) == result + Interpolated(rest, scope)
      decreases |rest|
    {
      var afterOpen := After(rest, '{');
      if Find(afterOpen, '}').None? {
        UnclosedTurn(rest, scope);
        return result + rest;
      }
      HoleTurn(result, rest, scope);
      result := result + Before(rest, '{') + FillHole(Before(afterOpen, '}'), scope);
      rest := After(afterOpen, '}');
    }
    result := result + rest;
  }

  lemma UnclosedTurn(rest: Text, scope: Scope)
    requires Find(rest, '{').Some? && Find(After(rest, '{'), '}').None?
    ensures Interpolated(rest, scope) == rest
  {
    AroundFind(rest, '{');
  }

  lemma HoleTurn(done: Text, rest: Text, scope: Scope)
    requires Find(rest, '{').Some? && Find(After(rest, '{'), '}').Some?
    ensures var tail := After(rest, '{');
      done + Interpolated(rest, scope)
      == done + Before(rest, '{') + FillHole(Before(tail, '}'), scope) + Interpolated(After(tail, '}'), scope)
  {
    hide FillHole, Before, After;
    var tail := After(rest, '{');
    assert Read(rest) == Hole(Before(rest, '{'), Before(tail, '}'), Read(After(tail, '}')));
    hide Read, Find;
    var a, b, c := Before(rest, '{'), FillHole(Before(tail, '}'), scope), Interpolated(After(tail, '}'), scope);
    assert Interpolated(rest, scope) == a + (b + c);
    assert done + (a + (b + c)) == done + a + b + c;
  }

  // ---- Properties of string interpolation ------------------------------------------------------

  lemma FindAround(a: Text, b: Byte, c: Text)
    requires b !in a
    ensures Find(Around(a, b, c), b) == Some(|a|)
    ensures Before(Around(a, b, c), b) == a && After(Around(a, b, c), b) == c
  {
    var s := Around(a, b, c);
    assert s[|a|] == b && s[..|a|] == a;
    FindFirst(s, b, |a|);
  }

  lemma FindFirst(s: Text, b: Byte, i: nat)
    requires i < |s| && s[i] == b && b !in s[..i]
    ensures Find(s, b) == Some(i)
  {
    var r := Find(s, b);
    assert r.Some?;
    assert s[r.value] == b && b !in s[..r.value];
  }

  lemma AroundFind(s: Text, b: Byte)
    requires Find(s, b).Some?
    ensures Around(Before(s, b), b, After(s, b)) == s
  {
  }

  /** Segmentation is the inverse of concatenation: it loses nothing, and no other reading exists. */
  lemma ReadingUnique(s: Text, t: Template)
    ensures WellCut(t) && Source(t) == s <==> t == Read(s)
  {
    ReadOk(s);
    if WellCut(t) && Source(t) == s { ReadSource(t); }
  }

  lemma {:induction false} ReadOk(s: Text)
    ensures WellCut(Read(s)) && Source(Read(s)) == s
    decreases |s|
  {
    if Find(s, '{').Some? {
      AroundFind(s, '{');
      var tail := After(s, '{');
      if Find(tail, '}').Some? {
        AroundFind(tail, '}');
        ReadOk(After(tail, '}'));
      }
    }
  }

  lemma {:induction false} ReadSource(t: Template)
    requires WellCut(t)
    ensures Read(Source(t)) == t
  {
    match t
    case Plain(text) =>
    case Unclosed(text, rest) => FindAround(text, '{', rest);
    case Hole(text, name, next) =>
      FindAround(text, '{', Around(name, '}', Source(next)));
      FindAround(name, '}', Source(next));
      ReadSource(next);
  }

  predicate NoTokenResolves(t: Template, scope: Scope) {
    t.Hole? ==> ResolveText(t.name, scope).None? && NoTokenResolves(t.next, scope)
  }

  /** A template none of whose tokens resolves comes out unchanged, byte for byte. */
  lemma IdentityWhenUnresolved(s: Text, scope: Scope)
    requires NoTokenResolves(Read(s), scope)
    ensures Interpolated(s, scope) == s
  {
    ReadOk(s);
    FillUnresolved(Read(s), scope);
  }

  lemma {:induction false} FillUnresolved(t: Template, scope: Scope)
    requires NoTokenResolves(t, scope)
    ensures Fill(t, scope) == Source(t)
  {
    if t.Hole? {
      FillUnresolved(t.next, scope);
      var rest := Source(t.next);
      assert ("{" + t.name + "}") + rest == ['{'] + Around(t.name, '}', rest);
    }
  }

  predicate Closed(t: Template) {
    match t case Plain(_) => true case Unclosed(_, _) => false case Hole(_, _, next) => Closed(next)
  }

  /** The reading of a concatenation whose left part leaves no brace open. */
  function Append(t: Template, u: Template): Template
    requires Closed(t)
  {
    match t
    case Hole(text, name, next) => Hole(text, name, Append(next, u))
    case Plain(text) =>
      match u
      case Plain(more) => Plain(text + more)
      case Unclosed(more, rest) => Unclosed(text + more, rest)
      case Hole(more, name, next) => Hole(text + more, name, next)
  }

  lemma {:induction false} AppendOk(t: Template, u: Template, scope: Scope)
    requires Closed(t) && WellCut(t) && WellCut(u)
    ensures WellCut(Append(t, u))
    ensures Source(Append(t, u)) == Source(t) + Source(u)
    ensures Fill(Append(t, u), scope) == Fill(t, scope) + Fill(u, scope)
  {
    match t
    case Hole(text, name, next) =>
      AppendOk(next, u, scope);
      AroundAssoc(name, '}', Source(next), Source(u));
      AroundAssoc(text, '{', Around(name, '}', Source(next)), Source(u));
    case Plain(text) => PlainAppendOk(text, u, scope);
  }

  lemma AroundAssoc(a: Text, b: Byte, c: Text, d: Text)
    ensures Around(a, b, c) + d == Around(a, b, c + d)
  {
  }

  lemma PlainAppendOk(text: Text, u: Template, scope: Scope)
    requires '{' !in text && WellCut(u)
    ensures var t := Append(Plain(text), u);
      WellCut(t) && Source(t) == text + Source(u) && Fill(t, scope) == text + Fill(u, scope)
  {
    match u
    case Plain(more) =>
    case Unclosed(more, rest) => AroundFront(text, more, '{', rest);
    case Hole(more, name, next) => AroundFront(text, more, '{', Around(name, '}', Source(next)));
  }

  lemma AroundFront(a: Text, b: Text, c: Byte, d: Text)
    ensures Around(a + b, c, d) == a + Around(b, c, d)
  {
  }

  /** Interpolation distributes over concatenation when the left part leaves no brace open. */
  lemma DistributesOverConcat(a: Text, b: Text, scope: Scope)
    requires Closed(Read(a))
    ensures Interpolated(a + b, scope) == Interpolated(a, scope) + Interpolated(b, scope)
  {
    ReadOk(a);
    ReadOk(b);
    AppendOk(Read(a), Read(b), scope);
    ReadingUnique(a + b, Append(Read(a), Read(b)));
  }

  // ---- JSON templates --------------------------------------------------------------------------

  function Interpolate(template: Json, scope: Scope): Json {
    match template
    case JString(s) => JString(Interpolated(s, scope))
    case JArray(items) => JArray(seq(|items|, i requires 0 <= i < |items| => Interpolate(items[i], scope)))
    case JObject(members) => JObject(map k | k in members :: Interpolate(members[k], scope))
    case _ => template
  }

  function SingleToken(s: Text): Option<Text> {
    if 2 <= |s| && s[0] == '{' && s[|s| - 1] == '}' && '{' !in s[1..|s| - 1] && '}' !in s[1..|s| - 1]
    then Some(s[1..|s| - 1])
    else None
  }

  function TypedLeaf(s: Text, scope: Scope): Json {
    var token := SingleToken(s);
    var value := if token.Some? then ResolveValue(token.value, scope) else None;
    if value.Some? then value.value else JString(Interpolated(s, scope))
  }

  /** Keeps the JSON type of a leaf that is exactly one token. */
  function InterpolateTyped(template: Json, scope: Scope): Json {
    match template
    case JString(s) => TypedLeaf(s, scope)
    case JArray(items) => JArray(seq(|items|, i requires 0 <= i < |items| => InterpolateTyped(items[i], scope)))
    case JObject(members) => JObject(map k | k in members :: InterpolateTyped(members[k], scope))
    case _ => template
  }

  /** `v` has the template's shape down to the template's string leaves. */
  predicate Fits(template: Json, v: Json) {
    match template
    case JString(_) => true
    case JArray(items) =>
      v.JArray? && |v.items| == |items| && forall i :: 0 <= i < |items| ==> Fits(items[i], v.items[i])
    case JObject(members) =>
      v.JObject? && v.members.Keys == members.Keys && forall k :: k in members ==> Fits(members[k], v.members[k])
    case _ => v == template
  }

  /** `v` with what stands at the template's string leaves turned into strings. */
  function Stringified(template: Json, v: Json, show: Json -> Text): Json
    requires Fits(template, v)
  {
    match template
    case JString(_) => JString(Scalar(v, show))
    case JArray(items) =>
      JArray(seq(|items|, i requires 0 <= i < |items| => Stringified(items[i], v.items[i], show)))
    case JObject(members) => JObject(map k | k in members :: Stringified(members[k], v.members[k], show))
    case _ => v
  }

  lemma ResolversAgree(token: Text, scope: Scope)
    ensures ResolveValue(token, scope).Some? ==>
      ResolveText(token, scope) == Some(Scalar(ResolveValue(token, scope).value, scope.show))
  {
  }

  lemma LeafAgrees(s: Text, scope: Scope)
    ensures Scalar(TypedLeaf(s, scope), scope.show) == Interpolated(s, scope)
  {
    var token := SingleToken(s);
    if token.Some? && ResolveValue(token.value, scope).Some? {
      ResolversAgree(token.value, scope);
      var t := Hole([], token.value, Plain([]));
      assert s == Source(t);
      ReadingUnique(s, t);
      assert Fill(t, scope) == FillHole(token.value, scope);
    }
  }

  /** Over whole templates, the typed form is the untyped one with types kept at single-token
      leaves: stringifying those leaves gives the untyped form back. */
  lemma {:induction false} TypedAgreesWithUntyped(template: Json, scope: Scope)
    ensures Fits(template, InterpolateTyped(template, scope))
    ensures Stringified(template, InterpolateTyped(template, scope), scope.show) == Interpolate(template, scope)
  {
    match template
    case JString(s) => LeafAgrees(s, scope);
    case JArray(items) =>
      forall i | 0 <= i < |items|
        ensures Fits(items[i], InterpolateTyped(items[i], scope))
        ensures Stringified(items[i], InterpolateTyped(items[i], scope), scope.show) == Interpolate(items[i], scope)
      {
        TypedAgreesWithUntyped(items[i], scope);
      }
    case JObject(members) =>
      forall k | k in members
        ensures Fits(members[k], InterpolateTyped(members[k], scope))
        ensures Stringified(members[k], InterpolateTyped(members[k], scope), scope.show) == Interpolate(members[k], scope)
      {
        TypedAgreesWithUntyped(members[k], scope);
      }
    case _ =>
  }

  /** A template that is a single token keeps the type of what the token yields; any other text, and one whose
      token yields nothing, is filled in as text; and the shape of arrays and objects is kept. */
  lemma TypedMeans(name: Text, text: Text, items: seq<Json>, members: map<Text, Json>, scope: Scope)
    requires '{' !in name && '}' !in name
    ensures InterpolateTyped(JString("{" + name + "}"), scope) ==
      (if ResolveValue(name, scope).Some? then ResolveValue(name, scope).value
       else JString(Interpolated("{" + name + "}", scope)))
    ensures (forall inner :: '{' !in inner && '}' !in inner ==> text != "{" + inner + "}") ==>
      InterpolateTyped(JString(text), scope) == JString(Interpolated(text, scope))
    ensures Interpolate(JString(text), scope) == JString(Interpolated(text, scope))
    ensures InterpolateTyped(JArray(items), scope).JArray? && |InterpolateTyped(JArray(items), scope).items| == |items|
    ensures forall i :: 0 <= i < |items| ==>
      InterpolateTyped(JArray(items), scope).items[i] == InterpolateTyped(items[i], scope)
    ensures InterpolateTyped(JObject(members), scope).JObject?
    ensures InterpolateTyped(JObject(members), scope).members.Keys == members.Keys
    ensures forall k :: k in members ==>
      InterpolateTyped(JObject(members), scope).members[k] == InterpolateTyped(members[k], scope)
  {
    var whole := "{" + name + "}";
    assert whole[1..|whole| - 1] == name;
    if SingleToken(text).Some? {
      var inner := SingleToken(text).value;
      assert text == "{" + inner + "}";
    }
  }
}
