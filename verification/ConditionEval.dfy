/** The short-circuit evaluator of conditions and the rewrites that preserve both its answer and
    whether it fails. */
module ConditionEval {
  import opened ConditionSyntax
  import opened ConditionParser
  import opened ConditionLexer
  import opened Events

  /** What an evaluation sees.  `number` is what a numeral denotes; `None` when it is not finite. */
  datatype Env = Env(event: Event, context: Option<Context>, number: Text -> Option<real>)

  datatype EvalError = ExpectedBool(got: Json) | ExpectedNumber(got: Json) | TopLevelNotBool(got: Json)

  datatype Value<+T> = Got(value: T) | Fails(error: EvalError)

  function AsBool(v: Json): Value<bool> {
    if v.JBool? then Got(v.b) else Fails(ExpectedBool(v))
  }

  function AsF64(v: Json): Option<real> {
    match v
    case JNumber(Integer(i)) => Some(i as real)
    case JNumber(Float(r)) => Some(r)
    case _ => None
  }

  function ValuesEq(a: Json, b: Json): bool {
    match (AsF64(a), AsF64(b))
    case (Some(x), Some(y)) => x == y
    case _ => a == b
  }

  function EvalCmp(op: CmpOp, lhs: Json, rhs: Json): Value<bool> {
    if op == Eq then Got(ValuesEq(lhs, rhs))
    else if op == Neq then Got(!ValuesEq(lhs, rhs))
    else
      match (AsF64(lhs), AsF64(rhs))
      case (None, _) => Fails(ExpectedNumber(lhs))
      case (_, None) => Fails(ExpectedNumber(rhs))
      case (Some(l), Some(r)) =>
        Got(match op case Lt => l < r case Le => l <= r case Gt => l > r case _ => l >= r)
  }

  function Walk(v: Json, path: seq<Text>): Json {
    if path == [] then v else
    match Member(v, path[0])
    case None => JNull
    case Some(w) => Walk(w, path[1..])
  }

  function OrNull(s: Option<Text>): Json {
    if s.Some? then JString(s.value) else JNull
  }

  function ResolveRef(path: seq<Text>, env: Env): Json {
    if |path| < 2 then JNull
    else if path[0] == EVENT then Walk(env.event.payload, path[1..])
    else if path[0] == CONTEXT then
      if env.context.None? || |path| != 2 then JNull
      else if path[1] == "active_panel" then OrNull(env.context.value.activePanel)
      else if path[1] == "active_cwd" then OrNull(env.context.value.activeCwd)
      else JNull
    else JNull
  }

  function EvalExpr(e: Expr, env: Env): Value<Json>
    decreases e, 0
  {
    match e
    case Either(a, b) =>
      (match BoolOf(a, env)
       case Fails(err) => Fails(err)
       case Got(true) => Got(JBool(true))
       case Got(false) =>
         match BoolOf(b, env)
         case Fails(err) => Fails(err)
         case Got(y) => Got(JBool(y)))
    case Both(a, b) =>
      (match BoolOf(a, env)
       case Fails(err) => Fails(err)
       case Got(false) => Got(JBool(false))
       case Got(true) =>
         match BoolOf(b, env)
         case Fails(err) => Fails(err)
         case Got(y) => Got(JBool(y)))
    case Negation(a) =>
      (match BoolOf(a, env)
       case Fails(err) => Fails(err)
       case Got(x) => Got(JBool(!x)))
    case Comparison(op, lhs, rhs) =>
      (match EvalAtom(lhs, env)
       case Fails(err) => Fails(err)
       case Got(l) =>
         match EvalAtom(rhs, env)
         case Fails(err) => Fails(err)
         case Got(r) =>
           match EvalCmp(op, l, r)
           case Fails(err) => Fails(err)
           case Got(b) => Got(JBool(b)))
    case Bare(atom) => EvalAtom(atom, env)
  }

  /** An operand of `||`, `&&` or `!`: evaluated, then required to be a bool. */
  function BoolOf(e: Expr, env: Env): Value<bool>
    decreases e, 1
  {
    match EvalExpr(e, env)
    case Fails(err) => Fails(err)
    case Got(v) => AsBool(v)
  }

  function EvalAtom(a: Atom, env: Env): Value<Json>
    decreases a, 0
  {
    match a
    case Literal(text) => Got(JString(text))
    case Number(numeral) =>
      (match env.number(numeral)
       case Some(r) => Got(JNumber(Float(r)))
       case None => Got(JNull))
    case Truth(value) => Got(JBool(value))
    case Nil => Got(JNull)
    case Ref(path) => Got(ResolveRef(path, env))
    case Group(inner) => EvalExpr(inner, env)
  }

  /** The public entry point: the whole condition must come out a bool. */
  function Eval(e: Expr, env: Env): Value<bool> {
    match EvalExpr(e, env)
    case Fails(err) => Fails(err)
    case Got(JBool(b)) => Got(b)
    case Got(other) => Fails(TopLevelNotBool(other))
  }

  // ---- Observational outcome -------------------------------------------------------------------

  /** What a trigger observes of a condition: its truth, or that it failed. */
  function Outcome(v: Value<bool>): Option<bool> {
    if v.Got? then Some(v.value) else None
  }

  function Holds(e: Expr, env: Env): Option<bool> { Outcome(Eval(e, env)) }

  function Flipped(o: Option<bool>, negate: bool): Option<bool> {
    if o.Some? then Some(o.value != negate) else None
  }

  // ---- What comparisons and references mean ----------------------------------------------------

  /** The value is a number, integer or not, of this size. */
  ghost predicate Measures(v: Json, x: real) {
    v == JNumber(Float(x)) || exists i: int :: v == JNumber(Integer(i)) && x == i as real
  }

  predicate Related(op: CmpOp, x: real, y: real) {
    match op case Eq => x == y case Neq => x != y case Lt => x < y case Le => x <= y case Gt => x > y case Ge => x >= y
  }

  /** Numbers compare by size under every operator, whether integers or not. */
  lemma NumbersCompare(op: CmpOp, a: Atom, b: Atom, env: Env, x: real, y: real)
    requires EvalAtom(a, env).Got? && Measures(EvalAtom(a, env).value, x)
    requires EvalAtom(b, env).Got? && Measures(EvalAtom(b, env).value, y)
    ensures Holds(Comparison(op, a, b), env) == Some(Related(op, x, y))
  {
    assert EvalExpr(Comparison(op, a, b), env) == Got(JBool(Related(op, x, y)));
  }

  /** Exactly one of smaller, equal and greater holds of two numbers. */
  lemma Trichotomy(a: Atom, b: Atom, env: Env, x: real, y: real)
    requires EvalAtom(a, env).Got? && Measures(EvalAtom(a, env).value, x)
    requires EvalAtom(b, env).Got? && Measures(EvalAtom(b, env).value, y)
    ensures forall op, other :: op in {Lt, Eq, Gt} && other in {Lt, Eq, Gt} && op != other ==>
      !(Holds(Comparison(op, a, b), env) == Some(true) && Holds(Comparison(other, a, b), env) == Some(true))
    ensures exists op :: op in {Lt, Eq, Gt} && Holds(Comparison(op, a, b), env) == Some(true)
  {
    NumbersCompare(Lt, a, b, env, x, y);
    NumbersCompare(Eq, a, b, env, x, y);
    NumbersCompare(Gt, a, b, env, x, y);
    var op := if x < y then Lt else if x == y then Eq else Gt;
    assert Holds(Comparison(op, a, b), env) == Some(true);
  }

  /** With an operand that is no number, equality is that of the values, and an ordering fails
      for the first such operand. */
  lemma OthersCompare(op: CmpOp, a: Atom, b: Atom, env: Env)
    requires EvalAtom(a, env).Got? && EvalAtom(b, env).Got?
    requires !EvalAtom(a, env).value.JNumber? || !EvalAtom(b, env).value.JNumber?
    ensures Holds(Comparison(op, a, b), env) == match op
      case Eq => Some(EvalAtom(a, env).value == EvalAtom(b, env).value)
      case Neq => Some(EvalAtom(a, env).value != EvalAtom(b, env).value)
      case _ => None
    ensures op != Eq && op != Neq ==>
      Eval(Comparison(op, a, b), env)
        == Fails(ExpectedNumber(if EvalAtom(a, env).value.JNumber? then EvalAtom(b, env).value else EvalAtom(a, env).value))
  {
    var v, w := EvalAtom(a, env).value, EvalAtom(b, env).value;
    match EvalCmp(op, v, w)
    case Got(x) => assert EvalExpr(Comparison(op, a, b), env) == Got(JBool(x));
    case Fails(err) => assert EvalExpr(Comparison(op, a, b), env) == Fails(err);
  }

  /** What literals stand for. */
  lemma LiteralsMean(env: Env)
    ensures forall text :: EvalAtom(Literal(text), env) == Got(JString(text))
    ensures forall b :: EvalAtom(Truth(b), env) == Got(JBool(b))
    ensures EvalAtom(Nil, env) == Got(JNull)
    ensures forall numeral, x :: env.number(numeral) == Some(x) ==> EvalAtom(Number(numeral), env) == Got(JNumber(Float(x)))
    ensures forall numeral :: env.number(numeral) == None ==> EvalAtom(Number(numeral), env) == Got(JNull)
  {
  }

  function MemberOrNull(v: Json, key: Text): Json {
    if Member(v, key).Some? then Member(v, key).value else JNull
  }

  lemma {:induction false} WalkSnoc(v: Json, path: seq<Text>, key: Text)
    ensures Walk(v, path + [key]) == MemberOrNull(Walk(v, path), key)
    decreases |path|
  {
    if path == [] {
      assert [key][1..] == [];
    } else {
      assert (path + [key])[1..] == path[1..] + [key];
      match Member(v, path[0])
      case None =>
      case Some(w) => WalkSnoc(w, path[1..], key);
    }
  }

  /** What references give: `event` and a path walk down the payload, a member at a time and null from where
      there is none; `context` has two fields; all else is null. */
  lemma ReferencesMean(env: Env, path: seq<Text>, key: Text)
    ensures ResolveRef(["event", key], env) == MemberOrNull(env.event.payload, key)
    ensures path != [] ==>
      ResolveRef(["event"] + path + [key], env) == MemberOrNull(ResolveRef(["event"] + path, env), key)
    ensures ResolveRef(["context", "active_panel"], env) ==
      (if env.context.Some? && env.context.value.activePanel.Some? then JString(env.context.value.activePanel.value) else JNull)
    ensures ResolveRef(["context", "active_cwd"], env) ==
      (if env.context.Some? && env.context.value.activeCwd.Some? then JString(env.context.value.activeCwd.value) else JNull)
    ensures |path| != 2 || path[0] != "context" || path[1] !in {"active_panel", "active_cwd"} ==>
      (|path| < 2 || path[0] != "event" ==> ResolveRef(path, env) == JNull)
  {
    assert ["event", key][1..] == [key] && [] + [key] == [key];
    WalkSnoc(env.event.payload, [], key);
    if path != [] {
      assert (["event"] + path)[1..] == path && (["event"] + path + [key])[1..] == path + [key];
      WalkSnoc(env.event.payload, path, key);
    }
  }

  // ---- Negation normal form --------------------------------------------------------------------

  function FlipOp(op: CmpOp): CmpOp {
    match op case Eq => Neq case Neq => Eq case Lt => Ge case Le => Gt case Gt => Le case Ge => Lt
  }

  /** Negations pushed to the leaves, and groups in boolean position removed. */
  function Nnf(e: Expr, negate: bool): Expr {
    match e
    case Either(a, b) =>
      if negate then Both(Nnf(a, true), Nnf(b, true)) else Either(Nnf(a, false), Nnf(b, false))
    case Both(a, b) =>
      if negate then Either(Nnf(a, true), Nnf(b, true)) else Both(Nnf(a, false), Nnf(b, false))
    case Negation(a) => Nnf(a, !negate)
    case Comparison(op, lhs, rhs) => if negate then Comparison(FlipOp(op), lhs, rhs) else e
    case Bare(Group(inner)) => Nnf(inner, negate)
    case Bare(Truth(value)) => Bare(Truth(value != negate))
    case Bare(_) => if negate then Negation(e) else e
  }

  /** Negation stands only on a bare reference or non-boolean literal; no group is left in boolean
      position (operands of comparisons are values and are not touched). */
  predicate InNnf(e: Expr) {
    match e
    case Either(a, b) => InNnf(a) && InNnf(b)
    case Both(a, b) => InNnf(a) && InNnf(b)
    case Negation(a) => a.Bare? && !a.atom.Group? && !a.atom.Truth?
    case Comparison(_, _, _) => true
    case Bare(atom) => !atom.Group?
  }

  lemma FlipOpNegates(op: CmpOp, l: Json, r: Json)
    ensures Outcome(EvalCmp(FlipOp(op), l, r)) == Flipped(Outcome(EvalCmp(op, l, r)), true)
  {
  }

  lemma {:induction false} NnfNormal(e: Expr, negate: bool)
    ensures InNnf(Nnf(e, negate))
  {
    match e
    case Either(a, b) => NnfNormal(a, negate); NnfNormal(b, negate);
    case Both(a, b) => NnfNormal(a, negate); NnfNormal(b, negate);
    case Negation(a) => NnfNormal(a, !negate);
    case Bare(Group(inner)) => NnfNormal(inner, negate);
    case _ =>
  }

  lemma HoldsConnectives(a: Expr, b: Expr, env: Env)
    ensures Holds(Either(a, b), env) == (if Holds(a, env) == Some(false) then Holds(b, env) else Holds(a, env))
    ensures Holds(Both(a, b), env) == (if Holds(a, env) == Some(true) then Holds(b, env) else Holds(a, env))
    ensures Holds(Negation(a), env) == Flipped(Holds(a, env), true)
  {
    HoldsIsBoolOf(a, env);
    HoldsIsBoolOf(b, env);
    HoldsIsBoolOf(Either(a, b), env);
    HoldsIsBoolOf(Both(a, b), env);
    HoldsIsBoolOf(Negation(a), env);
  }

  lemma HoldsIsBoolOf(e: Expr, env: Env)
    ensures Holds(e, env) == Outcome(BoolOf(e, env))
  {
  }

  /** Normalising preserves the answer (negated when asked) and whether there is one. */
  lemma {:induction false} NnfPreserves(e: Expr, negate: bool, env: Env)
    ensures Holds(Nnf(e, negate), env) == Flipped(Holds(e, env), negate)
  {
    match e
    case Either(a, b) =>
      NnfPreserves(a, negate, env); NnfPreserves(b, negate, env);
      HoldsConnectives(a, b, env);
      HoldsConnectives(Nnf(a, negate), Nnf(b, negate), env);
    case Both(a, b) =>
      NnfPreserves(a, negate, env); NnfPreserves(b, negate, env);
      HoldsConnectives(a, b, env);
      HoldsConnectives(Nnf(a, negate), Nnf(b, negate), env);
    case Negation(a) =>
      NnfPreserves(a, !negate, env);
      HoldsConnectives(a, a, env);
    case Bare(Group(inner)) =>
      NnfPreserves(inner, negate, env);
      assert EvalExpr(e, env) == EvalExpr(inner, env);
    case Comparison(op, lhs, rhs) =>
      var l, r := EvalAtom(lhs, env), EvalAtom(rhs, env);
      if l.Got? && r.Got? { FlipOpNegates(op, l.value, r.value); }
    case Bare(_) =>
      HoldsConnectives(e, e, env);
  }

  // ---- Regrouping: any tree as a canonical one, with the same value ----------------------------

  function RegroupOr(e: Expr): Expr
    decreases e, 2
  {
    if e.Either? then Either(RegroupOr(e.left), RegroupAnd(e.right)) else RegroupAnd(e)
  }

  function RegroupAnd(e: Expr): Expr
    decreases e, 1
  {
    if e.Both? then Both(RegroupAnd(e.left), RegroupNot(e.right)) else RegroupNot(e)
  }

  function RegroupNot(e: Expr): Expr
    decreases e, 0
  {
    match e
    case Negation(a) => Negation(RegroupNot(a))
    case Either(a, b) => Bare(Group(Either(RegroupOr(a), RegroupAnd(b))))
    case Both(a, b) => Bare(Group(Both(RegroupAnd(a), RegroupNot(b))))
    case _ => e
  }

  /** Every leaf is one that some source text can denote. */
  ghost predicate LeavesOk(e: Expr) {
    match e
    case Either(a, b) => LeavesOk(a) && LeavesOk(b)
    case Both(a, b) => LeavesOk(a) && LeavesOk(b)
    case Negation(a) => LeavesOk(a)
    case Comparison(_, lhs, rhs) => AtomOk(lhs) && AtomOk(rhs)
    case Bare(atom) => AtomOk(atom)
  }

  ghost predicate AtomOk(a: Atom) { AtomForm(a) && AllLexable(PrintAtom(a)) }

  lemma {:induction false} LexableParts(a: seq<Token>, t: Token, b: seq<Token>)
    ensures AllLexable(a + [t] + b) <==> AllLexable(a) && Lexable(t) && AllLexable(b)
  {
    var all := a + [t] + b;
    if AllLexable(all) {
      assert forall k :: 0 <= k < |a| ==> a[k] == all[k];
      assert t == all[|a|];
      assert forall k :: 0 <= k < |b| ==> b[k] == all[|a| + 1 + k];
    }
  }

  lemma GroupedLexable(e: Expr)
    ensures AllLexable(PrintExpr(Bare(Group(e)))) <==> AllLexable(PrintExpr(e))
  {
    LexableParts([], LParen, PrintExpr(e));
    LexableParts([] + [LParen] + PrintExpr(e), RParen, []);
    assert [] + [LParen] + PrintExpr(e) + [RParen] + [] == PrintExpr(Bare(Group(e)));
  }

  lemma FormsNest(e: Expr)
    ensures NotForm(e) ==> AndForm(e) && !e.Both?
    ensures AndForm(e) ==> OrForm(e) && !e.Either?
    ensures OrForm(e) && !e.Either? ==> AndForm(e)
    ensures AndForm(e) && !e.Both? ==> NotForm(e)
  {
    if e.Either? || e.Both? { assert !NotForm(e); }
    if e.Either? { assert !AndForm(e); }
  }

  lemma {:induction false} CanonicalLeaves(e: Expr)
    requires OrForm(e) && AllLexable(PrintExpr(e))
    ensures LeavesOk(e)
  {
    FormsNest(e);
    match e
    case Either(a, b) =>
      LexableParts(PrintExpr(a), Or, PrintExpr(b));
      FormsNest(b);
      CanonicalLeaves(a); CanonicalLeaves(b);
    case Both(a, b) =>
      LexableParts(PrintExpr(a), And, PrintExpr(b));
      FormsNest(e); FormsNest(a); FormsNest(b);
      CanonicalLeaves(a); CanonicalLeaves(b);
    case Negation(a) =>
      FormsNest(e); FormsNest(a);
      LexableParts([], Not, PrintExpr(a));
      assert [] + [Not] + PrintExpr(a) == PrintExpr(e);
      CanonicalLeaves(a);
    case Comparison(op, lhs, rhs) =>
      LexableParts(PrintAtom(lhs), Compare(op), PrintAtom(rhs));
    case Bare(_) =>
  }

  lemma {:induction false} NnfLeaves(e: Expr, negate: bool)
    requires LeavesOk(e)
    ensures LeavesOk(Nnf(e, negate))
  {
    match e
    case Either(a, b) => NnfLeaves(a, negate); NnfLeaves(b, negate);
    case Both(a, b) => NnfLeaves(a, negate); NnfLeaves(b, negate);
    case Negation(a) => NnfLeaves(a, !negate);
    case Bare(Group(inner)) =>
      GroupedLexable(inner);
      CanonicalLeaves(inner);
      NnfLeaves(inner, negate);
    case _ =>
  }

  lemma {:induction false} RegroupOrOk(e: Expr, env: Env)
    requires LeavesOk(e)
    ensures OrForm(RegroupOr(e)) && AllLexable(PrintExpr(RegroupOr(e)))
    ensures EvalExpr(RegroupOr(e), env) == EvalExpr(e, env)
    decreases e, 2
  {
    if e.Either? {
      RegroupOrOk(e.left, env);
      RegroupAndOk(e.right, env);
      LexableParts(PrintExpr(RegroupOr(e.left)), Or, PrintExpr(RegroupAnd(e.right)));
    } else {
      RegroupAndOk(e, env);
    }
  }

  lemma {:induction false} RegroupAndOk(e: Expr, env: Env)
    requires LeavesOk(e)
    ensures AndForm(RegroupAnd(e)) && AllLexable(PrintExpr(RegroupAnd(e)))
    ensures EvalExpr(RegroupAnd(e), env) == EvalExpr(e, env)
    decreases e, 1
  {
    if e.Both? {
      RegroupAndOk(e.left, env);
      RegroupNotOk(e.right, env);
      LexableParts(PrintExpr(RegroupAnd(e.left)), And, PrintExpr(RegroupNot(e.right)));
    } else {
      RegroupNotOk(e, env);
    }
  }

  lemma GroupedOr(a: Expr, b: Expr)
    requires OrForm(a) && AndForm(b) && AllLexable(PrintExpr(a)) && AllLexable(PrintExpr(b))
    ensures NotForm(Bare(Group(Either(a, b)))) && AllLexable(PrintExpr(Bare(Group(Either(a, b)))))
  {
    LexableParts(PrintExpr(a), Or, PrintExpr(b));
    GroupedLexable(Either(a, b));
  }

  lemma GroupedAnd(a: Expr, b: Expr)
    requires AndForm(a) && NotForm(b) && AllLexable(PrintExpr(a)) && AllLexable(PrintExpr(b))
    ensures NotForm(Bare(Group(Both(a, b)))) && AllLexable(PrintExpr(Bare(Group(Both(a, b)))))
  {
    LexableParts(PrintExpr(a), And, PrintExpr(b));
    GroupedLexable(Both(a, b));
    FormsNest(Both(a, b));
  }

  lemma {:induction false} RegroupNotOk(e: Expr, env: Env)
    requires LeavesOk(e)
    ensures NotForm(RegroupNot(e)) && AllLexable(PrintExpr(RegroupNot(e)))
    ensures EvalExpr(RegroupNot(e), env) == EvalExpr(e, env)
    decreases e, 0
  {
    match e
    case Negation(a) =>
      RegroupNotOk(a, env);
      LexableParts([], Not, PrintExpr(RegroupNot(a)));
      assert [] + [Not] + PrintExpr(RegroupNot(a)) == PrintExpr(RegroupNot(e));
    case Either(a, b) =>
      RegroupOrOk(a, env); RegroupAndOk(b, env);
      GroupedOr(RegroupOr(a), RegroupAnd(b));
      assert EvalExpr(Either(RegroupOr(a), RegroupAnd(b)), env) == EvalExpr(e, env);
    case Both(a, b) =>
      RegroupAndOk(a, env); RegroupNotOk(b, env);
      GroupedAnd(RegroupAnd(a), RegroupNot(b));
      assert EvalExpr(Both(RegroupAnd(a), RegroupNot(b)), env) == EvalExpr(e, env);
    case Comparison(op, lhs, rhs) =>
      LexableParts(PrintAtom(lhs), Compare(op), PrintAtom(rhs));
    case Bare(_) =>
  }

  // ---- Main results ----------------------------------------------------------------------------

  /** Negation stands only on a bare reference or non-boolean literal, and a group in boolean position
      only around a connective. */
  predicate Normal(e: Expr) {
    match e
    case Either(a, b) => Normal(a) && Normal(b)
    case Both(a, b) => Normal(a) && Normal(b)
    case Negation(a) => a.Bare? && !a.atom.Group? && !a.atom.Truth?
    case Comparison(_, _, _) => true
    case Bare(Group(inner)) => (inner.Either? || inner.Both?) && Normal(inner)
    case Bare(_) => true
  }

  lemma {:induction false} RegroupNormal(e: Expr)
    requires InNnf(e)
    ensures Normal(RegroupOr(e)) && Normal(RegroupAnd(e)) && Normal(RegroupNot(e))
  {
    match e
    case Either(a, b) =>
      RegroupNormal(a); RegroupNormal(b);
      assert RegroupAnd(e) == RegroupNot(e) == Bare(Group(Either(RegroupOr(a), RegroupAnd(b))));
      assert Normal(Either(RegroupOr(a), RegroupAnd(b)));
    case Both(a, b) =>
      RegroupNormal(a); RegroupNormal(b);
      assert RegroupOr(e) == RegroupAnd(e) == Both(RegroupAnd(a), RegroupNot(b));
      assert RegroupNot(e) == Bare(Group(Both(RegroupAnd(a), RegroupNot(b))));
      assert Normal(Both(RegroupAnd(a), RegroupNot(b)));
    case Negation(a) =>
      assert RegroupNot(a) == a;
      assert RegroupOr(e) == RegroupAnd(e) == RegroupNot(e) == e;
    case _ =>
      assert RegroupOr(e) == RegroupAnd(e) == RegroupNot(e) == e;
  }

  /** Any condition text can be rewritten, as text, into one that parses to a normal form: negations
      stand only on references and non-boolean literals, groups only around connectives or inside the
      operands of comparisons; and in every environment it holds, fails to hold, or fails to evaluate
      exactly as the original does. */
  lemma NormalFormText(src: seq<Byte>, env: Env)
    requires ParseText(src).Parses?
    ensures var e := ParseText(src).expr;
      var rewritten := ParseText(Render(RegroupOr(Nnf(e, false))));
      && rewritten.Parses?
      && Holds(rewritten.expr, env) == Holds(e, env)
      && Normal(rewritten.expr)
  {
    var e := ParseText(src).expr;
    DenotedTrees(e);
    CanonicalLeaves(e);
    NnfLeaves(e, false);
    RegroupOrOk(Nnf(e, false), env);
    TextRoundTrip(RegroupOr(Nnf(e, false)));
    NnfPreserves(e, false, env);
    NnfNormal(e, false);
    RegroupNormal(Nnf(e, false));
  }

  /** De Morgan with errors: the negation of a disjunction fails exactly when the conjunction of the
      negations does, although each side short-circuits on its own. */
  lemma DeMorgan(a: Expr, b: Expr, env: Env)
    ensures Holds(Negation(Either(a, b)), env) == Holds(Both(Negation(a), Negation(b)), env)
    ensures Holds(Negation(Both(a, b)), env) == Holds(Either(Negation(a), Negation(b)), env)
    ensures Holds(Negation(Negation(a)), env) == Holds(a, env)
  {
    NnfPreserves(Negation(Either(a, b)), false, env);
    NnfPreserves(Both(Negation(a), Negation(b)), false, env);
    NnfPreserves(Negation(Both(a, b)), false, env);
    NnfPreserves(Either(Negation(a), Negation(b)), false, env);
    NnfPreserves(Negation(Negation(a)), false, env);
    NnfPreserves(a, false, env);
  }

  // ---- Double negation in operands -------------------------------------------------------------

  /** A condition that compares the group around `inner` with another operand, on either side. */
  function Compared(inner: Expr, op: CmpOp, other: Atom, onLeft: bool): Expr {
    if onLeft then Comparison(op, Group(inner), other) else Comparison(op, other, Group(inner))
  }

  /** Dropping the double negation of `a` changes no comparison. */
  ghost predicate Droppable(a: Expr, env: Env) {
    forall op, other, onLeft ::
      Holds(Compared(Negation(Negation(a)), op, other, onLeft), env) == Holds(Compared(a, op, other, onLeft), env)
  }

  /** Once the groups around it are taken off, it is no bare operand but a bool literal, or a reference
      that stands for a bool here. */
  predicate BoolHere(e: Expr, env: Env) {
    match e
    case Bare(Group(inner)) => BoolHere(inner, env)
    case Bare(Truth(_)) => true
    case Bare(Ref(path)) => ResolveRef(path, env).JBool?
    case Bare(_) => false
    case _ => true
  }

  /** The same by shape alone. */
  predicate BoolByShape(e: Expr) {
    match e
    case Bare(Group(inner)) => BoolByShape(inner)
    case Bare(atom) => atom.Truth?
    case _ => true
  }

  lemma {:induction false} BoolHereValue(e: Expr, env: Env)
    ensures BoolHere(e, env) <==> (EvalExpr(e, env).Got? ==> EvalExpr(e, env).value.JBool?)
  {
    if e.Bare? && e.atom.Group? {
      BoolHereValue(e.atom.inner, env);
      assert EvalExpr(e, env) == EvalExpr(e.atom.inner, env);
    } else if e.Bare? {
      assert EvalExpr(e, env) == EvalAtom(e.atom, env);
    }
  }

  /** What the double negation of `a` evaluates to. */
  lemma TwiceNegated(a: Expr, env: Env)
    ensures match EvalExpr(a, env)
      case Fails(err) => EvalExpr(Negation(Negation(a)), env) == Fails(err)
      case Got(JBool(b)) => EvalExpr(Negation(Negation(a)), env) == Got(JBool(b))
      case Got(v) => EvalExpr(Negation(Negation(a)), env) == Fails(ExpectedBool(v))
  {
    match EvalExpr(a, env)
    case Got(JBool(b)) =>
      assert BoolOf(a, env) == Got(b);
      assert EvalExpr(Negation(a), env) == Got(JBool(!b));
      assert BoolOf(Negation(a), env) == Got(!b);
    case _ =>
      assert BoolOf(a, env).Fails? && EvalExpr(Negation(a), env).Fails?;
      assert BoolOf(Negation(a), env).Fails?;
  }

  /** A comparison sees of a group only what is inside evaluates to. */
  lemma ComparedByValue(a: Expr, b: Expr, op: CmpOp, other: Atom, onLeft: bool, env: Env)
    requires EvalExpr(a, env) == EvalExpr(b, env)
    ensures Holds(Compared(a, op, other, onLeft), env) == Holds(Compared(b, op, other, onLeft), env)
  {
    assert EvalAtom(Group(a), env) == EvalAtom(Group(b), env);
    assert EvalExpr(Compared(a, op, other, onLeft), env) == EvalExpr(Compared(b, op, other, onLeft), env);
  }

  /** Exactly when dropping a double negation inside a compared group is sound in an environment: what
      it stands on is a bool there, whatever the operator, the other operand and the side. */
  lemma DroppableIff(a: Expr, env: Env)
    ensures Droppable(a, env) <==> BoolHere(a, env)
  {
    BoolHereValue(a, env);
    TwiceNegated(a, env);
    if BoolHere(a, env) {
      forall op, other, onLeft
        ensures Holds(Compared(Negation(Negation(a)), op, other, onLeft), env) == Holds(Compared(a, op, other, onLeft), env)
      {
        ComparedByValue(Negation(Negation(a)), a, op, other, onLeft, env);
      }
    } else {
      var kept, dropped := Compared(Negation(Negation(a)), Eq, Nil, true), Compared(a, Eq, Nil, true);
      assert EvalAtom(Group(Negation(Negation(a))), env).Fails? && EvalExpr(kept, env).Fails?;
      assert EvalAtom(Group(a), env) == EvalExpr(a, env);
      assert EvalExpr(dropped, env).Got?;
      assert Holds(kept, env) == None && Holds(dropped, env).Some?;
    }
  }

  /** And exactly when it is sound in every environment: by the shape of what it stands on. */
  lemma DroppableEverywhereIff(a: Expr)
    ensures (forall env :: Droppable(a, env)) <==> BoolByShape(a)
  {
    forall env ensures Droppable(a, env) <==> BoolHere(a, env) { DroppableIff(a, env); }
    forall env ensures BoolByShape(a) ==> BoolHere(a, env) { ShapeSuffices(a, env); }
    var bare := Env(Event("k", "s", 0, JNull, None, Internal), None, _ => None);
    ShapeNeeded(a, bare);
  }

  lemma {:induction false} ShapeSuffices(a: Expr, env: Env)
    ensures BoolByShape(a) ==> BoolHere(a, env)
  {
    if a.Bare? && a.atom.Group? { ShapeSuffices(a.atom.inner, env); }
  }

  /** With no payload and no context no reference is a bool. */
  lemma {:induction false} ShapeNeeded(a: Expr, env: Env)
    requires env.event.payload == JNull && env.context == None
    ensures BoolHere(a, env) ==> BoolByShape(a)
  {
    if a.Bare? && a.atom.Group? {
      ShapeNeeded(a.atom.inner, env);
    } else if a.Bare? && a.atom.Ref? && 2 <= |a.atom.path| {
      assert Member(env.event.payload, a.atom.path[1..][0]) == None;
    }
  }

  /** A failing input, in any environment. */
  lemma DoubleNegationMattersInOperands(env: Env)
    ensures Holds(Compared(Negation(Negation(Bare(Literal("x")))), Eq, Nil, true), env) == None
    ensures Holds(Compared(Bare(Literal("x")), Eq, Nil, true), env) == Some(false)
  {
    var a := Bare(Literal("x"));
    TwiceNegated(a, env);
    assert EvalAtom(Group(Negation(Negation(a))), env).Fails?;
    assert EvalAtom(Group(a), env) == Got(JString("x"));
  }

  // ---- Conditions that cannot fail -------------------------------------------------------------

  predicate IsOrdering(op: CmpOp) { op != Eq && op != Neq }

  /** No ordering operator, and whatever stands where a bool is needed is one by its shape. */
  predicate SafeBool(e: Expr)
    decreases e, 1
  {
    match e
    case Bare(Truth(_)) => true
    case Bare(Group(inner)) => SafeBool(inner)
    case Bare(_) => false
    case _ => SafeValue(e)
  }

  predicate SafeValue(e: Expr)
    decreases e, 0
  {
    match e
    case Either(a, b) => SafeBool(a) && SafeBool(b)
    case Both(a, b) => SafeBool(a) && SafeBool(b)
    case Negation(a) => SafeBool(a)
    case Comparison(op, lhs, rhs) => !IsOrdering(op) && SafeOperand(lhs) && SafeOperand(rhs)
    case Bare(atom) => SafeOperand(atom)
  }

  predicate SafeOperand(a: Atom)
    decreases a, 0
  {
    a.Group? ==> SafeValue(a.inner)
  }

  lemma {:induction false} SafeBoolEvaluates(e: Expr, env: Env)
    requires SafeBool(e)
    ensures BoolOf(e, env).Got?
    decreases e, 1
  {
    if e.Bare? && e.atom.Group? {
      SafeBoolEvaluates(e.atom.inner, env);
      assert EvalExpr(e, env) == EvalExpr(e.atom.inner, env);
    } else if !e.Bare? {
      SafeValueEvaluates(e, env);
      assert BoolOf(e, env) == AsBool(EvalExpr(e, env).value);
    } else {
      assert EvalExpr(e, env) == Got(JBool(e.atom.value));
    }
  }

  lemma {:induction false} SafeValueEvaluates(e: Expr, env: Env)
    requires SafeValue(e)
    ensures EvalExpr(e, env).Got? && (!e.Bare? ==> EvalExpr(e, env).value.JBool?)
    decreases e, 0
  {
    match e
    case Either(a, b) => SafeBoolEvaluates(a, env); SafeBoolEvaluates(b, env);
    case Both(a, b) => SafeBoolEvaluates(a, env); SafeBoolEvaluates(b, env);
    case Negation(a) => SafeBoolEvaluates(a, env);
    case Comparison(op, lhs, rhs) =>
      if lhs.Group? { SafeValueEvaluates(lhs.inner, env); }
      if rhs.Group? { SafeValueEvaluates(rhs.inner, env); }
    case Bare(atom) =>
      if atom.Group? { SafeValueEvaluates(atom.inner, env); }
  }

  lemma SafeConditionsNeverFail(e: Expr, env: Env)
    requires SafeBool(e)
    ensures Holds(e, env).Some?
  {
    SafeBoolEvaluates(e, env);
  }
}
