/** The recursive-descent parser of trigger conditions, and the proof that it is the exact inverse of
    printing: it accepts a token sequence iff some canonical tree prints to it, and returns that tree. */
module ConditionParser {
  import opened ConditionSyntax

  datatype ParseError =
    | UnexpectedEnd
    | UnexpectedToken(token: Token)
    | ExpectedRParen
    | ExpectedIdentAfterDot
    | BareIdentifier(name: Text)
    | UnknownRoot(name: Text)
    | TrailingInput(position: nat)

  /** What a production leaves behind: its result and the cursor, on failure as well. */
  datatype Outcome<+T> =
    | Parsed(value: T, next: nat)
    | Failed(error: ParseError, next: nat)

  datatype Result<+T> = Ok(value: T) | Err(error: ParseError)

  // ---- Specification of the productions --------------------------------------------------------

  function ParseOr(ts: seq<Token>, pos: nat): (r: Outcome<Expr>)
    requires pos <= |ts|
    ensures pos <= r.next <= |ts| && (r.Parsed? ==> pos < r.next)
    decreases |ts| - pos, 5
  {
    match ParseAnd(ts, pos)
    case Failed(e, n) => Failed(e, n)
    case Parsed(lhs, n) => OrTail(lhs, ts, n)
  }

  function OrTail(lhs: Expr, ts: seq<Token>, pos: nat): (r: Outcome<Expr>)
    requires pos <= |ts|
    ensures pos <= r.next <= |ts|
    decreases |ts| - pos, 4
  {
    if pos < |ts| && ts[pos] == Or then
      match ParseAnd(ts, pos + 1)
      case Failed(e, n) => Failed(e, n)
      case Parsed(rhs, n) => OrTail(Either(lhs, rhs), ts, n)
    else Parsed(lhs, pos)
  }

  function ParseAnd(ts: seq<Token>, pos: nat): (r: Outcome<Expr>)
    requires pos <= |ts|
    ensures pos <= r.next <= |ts| && (r.Parsed? ==> pos < r.next)
    decreases |ts| - pos, 3
  {
    match ParseNot(ts, pos)
    case Failed(e, n) => Failed(e, n)
    case Parsed(lhs, n) => AndTail(lhs, ts, n)
  }

  function AndTail(lhs: Expr, ts: seq<Token>, pos: nat): (r: Outcome<Expr>)
    requires pos <= |ts|
    ensures pos <= r.next <= |ts|
    decreases |ts| - pos, 2
  {
    if pos < |ts| && ts[pos] == And then
      match ParseNot(ts, pos + 1)
      case Failed(e, n) => Failed(e, n)
      case Parsed(rhs, n) => AndTail(Both(lhs, rhs), ts, n)
    else Parsed(lhs, pos)
  }

  function ParseNot(ts: seq<Token>, pos: nat): (r: Outcome<Expr>)
    requires pos <= |ts|
    ensures pos <= r.next <= |ts| && (r.Parsed? ==> pos < r.next)
    decreases |ts| - pos, 2
  {
    if pos < |ts| && ts[pos] == Not then
      match ParseNot(ts, pos + 1)
      case Failed(e, n) => Failed(e, n)
      case Parsed(operand, n) => Parsed(Negation(operand), n)
    else ParseCmp(ts, pos)
  }

  function ParseCmp(ts: seq<Token>, pos: nat): (r: Outcome<Expr>)
    requires pos <= |ts|
    ensures pos <= r.next <= |ts| && (r.Parsed? ==> pos < r.next)
    decreases |ts| - pos, 1
  {
    match ParseAtom(ts, pos)
    case Failed(e, n) => Failed(e, n)
    case Parsed(lhs, n) =>
      if n < |ts| && ts[n].Compare? then
        match ParseAtom(ts, n + 1)
        case Failed(e, m) => Failed(e, m)
        case Parsed(rhs, m) => Parsed(Comparison(ts[n].op, lhs, rhs), m)
      else Parsed(Bare(lhs), n)
  }

  function ParseAtom(ts: seq<Token>, pos: nat): (r: Outcome<Atom>)
    requires pos <= |ts|
    ensures pos <= r.next <= |ts| && (r.Parsed? ==> pos < r.next)
    decreases |ts| - pos, 0
  {
    if pos == |ts| then Failed(UnexpectedEnd, pos) else
    match ts[pos]
    case Str(s) => Parsed(Literal(s), pos + 1)
    case Num(n) => Parsed(Number(n), pos + 1)
    case True => Parsed(Truth(true), pos + 1)
    case False => Parsed(Truth(false), pos + 1)
    case Null => Parsed(Nil, pos + 1)
    case LParen =>
      (match ParseOr(ts, pos + 1)
       case Failed(e, n) => Failed(e, n)
       case Parsed(inner, n) =>
         if n == |ts| then Failed(ExpectedRParen, n)
         else if ts[n] == RParen then Parsed(Group(inner), n + 1)
         else Failed(ExpectedRParen, n + 1))
    case Ident(first) =>
      (match PathTail([first], ts, pos + 1)
       case Failed(e, n) => Failed(e, n)
       case Parsed(path, n) =>
         if |path| < 2 then Failed(BareIdentifier(first), n)
         else if !RootOk(path[0]) then Failed(UnknownRoot(path[0]), n)
         else Parsed(Ref(path), n))
    case other => Failed(UnexpectedToken(other), pos + 1)
  }

  function PathTail(path: seq<Text>, ts: seq<Token>, pos: nat): (r: Outcome<seq<Text>>)
    requires pos <= |ts|
    ensures pos <= r.next <= |ts| && (r.Parsed? ==> path <= r.value)
    decreases |ts| - pos
  {
    if pos < |ts| && ts[pos] == Dot then
      if pos + 1 == |ts| then Failed(ExpectedIdentAfterDot, pos + 1)
      else if ts[pos + 1].Ident? then PathTail(path + [ts[pos + 1].name], ts, pos + 2)
      else Failed(ExpectedIdentAfterDot, pos + 2)
    else Parsed(path, pos)
  }

  function ParseTokens(ts: seq<Token>): Result<Expr> {
    match ParseOr(ts, 0)
    case Failed(e, _) => Err(e)
    case Parsed(e, n) => if n < |ts| then Err(TrailingInput(n)) else Ok(e)
  }

  // ---- The parser object -----------------------------------------------------------------------

  class Parser {
    const tokens: seq<Token>
    var pos: nat

    constructor (tokens: seq<Token>)
      ensures this.tokens == tokens && pos == 0
    {
      this.tokens := tokens;
      pos := 0;
    }

    predicate Peek(t: Token)
      reads this
    {
      pos < |tokens| && tokens[pos] == t
    }

    method Or() returns (r: Outcome<Expr>)
      requires pos <= |tokens|
      modifies this
      ensures r == ParseOr(tokens, old(pos)) && pos == r.next
      decreases |tokens| - pos, 5
    {
      r := this.And();
      if r.Failed? { return; }
      var lhs := r.value;
      while Peek(Token.Or)
        invariant old(pos) < pos <= |tokens|
        invariant ParseOr(tokens, old(pos)) == OrTail(lhs, tokens, pos)
        decreases |tokens| - pos
      {
        pos := pos + 1;
        r := this.And();
        if r.Failed? { return; }
        lhs := Either(lhs, r.value);
      }
      r := Parsed(lhs, pos);
    }

    method And() returns (r: Outcome<Expr>)
      requires pos <= |tokens|
      modifies this
      ensures r == ParseAnd(tokens, old(pos)) && pos == r.next
      decreases |tokens| - pos, 3
    {
      r := this.Not();
      if r.Failed? { return; }
      var lhs := r.value;
      while Peek(Token.And)
        invariant old(pos) < pos <= |tokens|
        invariant ParseAnd(tokens, old(pos)) == AndTail(lhs, tokens, pos)
        decreases |tokens| - pos
      {
        pos := pos + 1;
        r := this.Not();
        if r.Failed? { return; }
        lhs := Both(lhs, r.value);
      }
      r := Parsed(lhs, pos);
    }

    method Not() returns (r: Outcome<Expr>)
      requires pos <= |tokens|
      modifies this
      ensures r == ParseNot(tokens, old(pos)) && pos == r.next
      decreases |tokens| - pos, 2
    {
      if Peek(Token.Not) {
        pos := pos + 1;
        r := this.Not();
        if r.Parsed? { r := Parsed(Negation(r.value), pos); }
      } else {
        r := Cmp();
      }
    }

    method Cmp() returns (r: Outcome<Expr>)
      requires pos <= |tokens|
      modifies this
      ensures r == ParseCmp(tokens, old(pos)) && pos == r.next
      decreases |tokens| - pos, 1
    {
      var lhs := this.Atom();
      if lhs.Failed? { return Failed(lhs.error, pos); }
      if pos < |tokens| && tokens[pos].Compare? {
        var op := tokens[pos].op;
        pos := pos + 1;
        var rhs := this.Atom();
        if rhs.Failed? { return Failed(rhs.error, pos); }
        r := Parsed(Comparison(op, lhs.value, rhs.value), pos);
      } else {
        r := Parsed(Bare(lhs.value), pos);
      }
    }

    method Atom() returns (r: Outcome<ConditionSyntax.Atom>)
      requires pos <= |tokens|
      modifies this
      ensures r == ParseAtom(tokens, old(pos)) && pos == r.next
      decreases |tokens| - pos, 0
    {
      if pos == |tokens| { return Failed(UnexpectedEnd, pos); }
      var token := tokens[pos];
      pos := pos + 1;
      match token {
        case Str(s) => r := Parsed(Literal(s), pos);
        case Num(n) => r := Parsed(Number(n), pos);
        case True => r := Parsed(Truth(true), pos);
        case False => r := Parsed(Truth(false), pos);
        case Null => r := Parsed(Nil, pos);
        case LParen =>
          var inner := this.Or();
          if inner.Failed? { return Failed(inner.error, pos); }
          if pos == |tokens| { return Failed(ExpectedRParen, pos); }
          pos := pos + 1;
          r := if tokens[pos - 1] == RParen then Parsed(Group(inner.value), pos) else Failed(ExpectedRParen, pos);
        case Ident(first) => r := Path(first);
        case other => r := Failed(UnexpectedToken(other), pos);
      }
    }

    /** The `.`-separated rest of a reference whose first identifier has just been consumed. */
    method Path(first: Text) returns (r: Outcome<ConditionSyntax.Atom>)
      requires 0 < pos <= |tokens| && tokens[pos - 1] == Ident(first)
      modifies this
      ensures r == ParseAtom(tokens, old(pos) - 1) && pos == r.next
      decreases |tokens| - pos
    {
      var path := [first];
      var hadDot := false;
      while Peek(Dot)
        invariant old(pos) <= pos <= |tokens|
        invariant 0 < |path| && path[0] == first && (hadDot <==> 2 <= |path|)
        invariant PathTail([first], tokens, old(pos)) == PathTail(path, tokens, pos)
        decreases |tokens| - pos
      {
        pos := pos + 1;
        hadDot := true;
        if pos == |tokens| { return Failed(ExpectedIdentAfterDot, pos); }
        pos := pos + 1;
        if !tokens[pos - 1].Ident? { return Failed(ExpectedIdentAfterDot, pos); }
        path := path + [tokens[pos - 1].name];
      }
      if !hadDot { return Failed(BareIdentifier(first), pos); }
      if !RootOk(path[0]) { return Failed(UnknownRoot(path[0]), pos); }
      r := Parsed(Ref(path), pos);
    }
  }

  method Parse(ts: seq<Token>) returns (r: Result<Expr>)
    ensures r == ParseTokens(ts)
  {
    var p := new Parser(ts);
    var e := p.Or();
    match e {
      case Failed(error, _) => r := Err(error);
      case Parsed(value, _) => r := if p.pos < |ts| then Err(TrailingInput(p.pos)) else Ok(value);
    }
  }

  // ---- Occurrences of a printed phrase ---------------------------------------------------------

  ghost predicate Occurs(phrase: seq<Token>, ts: seq<Token>, pos: nat) {
    pos + |phrase| <= |ts| && ts[pos..pos + |phrase|] == phrase
  }

  lemma OccursSplit(a: seq<Token>, b: seq<Token>, ts: seq<Token>, pos: nat)
    ensures Occurs(a + b, ts, pos) <==> Occurs(a, ts, pos) && Occurs(b, ts, pos + |a|)
  {
    if Occurs(a + b, ts, pos) {
      assert a == (a + b)[..|a|] == ts[pos..pos + |a|];
      assert b == (a + b)[|a|..] == ts[pos + |a|..pos + |a| + |b|];
    }
  }

  lemma OccursAt(t: Token, ts: seq<Token>, pos: nat)
    ensures Occurs([t], ts, pos) <==> pos < |ts| && ts[pos] == t
  {
    if pos < |ts| { assert ts[pos..pos + 1] == [ts[pos]]; }
  }

  lemma OccursAround(a: seq<Token>, t: Token, b: seq<Token>, ts: seq<Token>, pos: nat)
    ensures Occurs(a + [t] + b, ts, pos)
       <==> Occurs(a, ts, pos) && pos + |a| < |ts| && ts[pos + |a|] == t && Occurs(b, ts, pos + |a| + 1)
  {
    OccursSplit(a + [t], b, ts, pos);
    OccursSplit(a, [t], ts, pos);
    OccursAt(t, ts, pos + |a|);
  }

  // ---- Soundness: what is returned is canonical and prints to what was consumed ----------------

  lemma {:induction false} OrSound(ts: seq<Token>, pos: nat)
    requires pos <= |ts|
    ensures var r := ParseOr(ts, pos);
      r.Parsed? ==> OrForm(r.value) && Occurs(PrintExpr(r.value), ts, pos) && r.next == pos + |PrintExpr(r.value)|
    decreases |ts| - pos, 5
  {
    AndSound(ts, pos);
    var r := ParseAnd(ts, pos);
    if r.Parsed? { OrTailSound(r.value, ts, pos, r.next); }
  }

  lemma {:induction false} OrTailSound(lhs: Expr, ts: seq<Token>, start: nat, pos: nat)
    requires pos <= |ts|
    requires OrForm(lhs) && Occurs(PrintExpr(lhs), ts, start) && pos == start + |PrintExpr(lhs)|
    ensures var r := OrTail(lhs, ts, pos);
      r.Parsed? ==> OrForm(r.value) && Occurs(PrintExpr(r.value), ts, start) && r.next == start + |PrintExpr(r.value)|
    decreases |ts| - pos, 4
  {
    hide Occurs, ParseAnd;
    if pos < |ts| && ts[pos] == Or {
      AndSound(ts, pos + 1);
      var rhs := ParseAnd(ts, pos + 1);
      if rhs.Parsed? {
        OccursAround(PrintExpr(lhs), Or, PrintExpr(rhs.value), ts, start);
        assert PrintExpr(Either(lhs, rhs.value)) == PrintExpr(lhs) + [Or] + PrintExpr(rhs.value);
        OrTailSound(Either(lhs, rhs.value), ts, start, rhs.next);
      }
    }
  }

  lemma {:induction false} AndSound(ts: seq<Token>, pos: nat)
    requires pos <= |ts|
    ensures var r := ParseAnd(ts, pos);
      r.Parsed? ==> AndForm(r.value) && Occurs(PrintExpr(r.value), ts, pos) && r.next == pos + |PrintExpr(r.value)|
    decreases |ts| - pos, 3
  {
    NotSound(ts, pos);
    var r := ParseNot(ts, pos);
    if r.Parsed? { AndTailSound(r.value, ts, pos, r.next); }
  }

  lemma {:induction false} AndTailSound(lhs: Expr, ts: seq<Token>, start: nat, pos: nat)
    requires pos <= |ts|
    requires AndForm(lhs) && Occurs(PrintExpr(lhs), ts, start) && pos == start + |PrintExpr(lhs)|
    ensures var r := AndTail(lhs, ts, pos);
      r.Parsed? ==> AndForm(r.value) && Occurs(PrintExpr(r.value), ts, start) && r.next == start + |PrintExpr(r.value)|
    decreases |ts| - pos, 2
  {
    hide Occurs, ParseNot;
    if pos < |ts| && ts[pos] == And {
      NotSound(ts, pos + 1);
      var rhs := ParseNot(ts, pos + 1);
      if rhs.Parsed? {
        OccursAround(PrintExpr(lhs), And, PrintExpr(rhs.value), ts, start);
        AndTailSound(Both(lhs, rhs.value), ts, start, rhs.next);
      }
    }
  }

  lemma {:induction false} NotSound(ts: seq<Token>, pos: nat)
    requires pos <= |ts|
    ensures var r := ParseNot(ts, pos);
      r.Parsed? ==> NotForm(r.value) && Occurs(PrintExpr(r.value), ts, pos) && r.next == pos + |PrintExpr(r.value)|
    decreases |ts| - pos, 2
  {
    if pos < |ts| && ts[pos] == Not {
      NotSound(ts, pos + 1);
      var r := ParseNot(ts, pos + 1);
      if r.Parsed? {
        OccursAt(Not, ts, pos);
        OccursSplit([Not], PrintExpr(r.value), ts, pos);
      }
    } else {
      CmpSound(ts, pos);
    }
  }

  lemma {:induction false} CmpSound(ts: seq<Token>, pos: nat)
    requires pos <= |ts|
    ensures var r := ParseCmp(ts, pos);
      r.Parsed? ==> NotForm(r.value) && Occurs(PrintExpr(r.value), ts, pos) && r.next == pos + |PrintExpr(r.value)|
    decreases |ts| - pos, 1
  {
    hide Occurs, ParseAtom;
    AtomSound(ts, pos);
    var lhs := ParseAtom(ts, pos);
    if lhs.Parsed? {
      if lhs.next < |ts| && ts[lhs.next].Compare? {
        AtomSound(ts, lhs.next + 1);
        var rhs := ParseAtom(ts, lhs.next + 1);
        if rhs.Parsed? {
          OccursAround(PrintAtom(lhs.value), ts[lhs.next], PrintAtom(rhs.value), ts, pos);
          assert ParseCmp(ts, pos) == Parsed(Comparison(ts[lhs.next].op, lhs.value, rhs.value), rhs.next);
        }
      } else {
        assert ParseCmp(ts, pos) == Parsed(Bare(lhs.value), lhs.next);
      }
    }
  }

  lemma {:induction false} AtomSound(ts: seq<Token>, pos: nat)
    requires pos <= |ts|
    ensures var r := ParseAtom(ts, pos);
      r.Parsed? ==> AtomForm(r.value) && Occurs(PrintAtom(r.value), ts, pos) && r.next == pos + |PrintAtom(r.value)|
    decreases |ts| - pos, 0
  {
    hide Occurs, ParseOr, PathTail;
    if pos < |ts| {
      OccursAt(ts[pos], ts, pos);
      match ts[pos]
      case LParen =>
        OrSound(ts, pos + 1);
        var r := ParseOr(ts, pos + 1);
        if r.Parsed? && r.next < |ts| && ts[r.next] == RParen {
          OccursSplit([LParen], PrintExpr(r.value), ts, pos);
          OccursAt(RParen, ts, r.next);
          OccursSplit([LParen] + PrintExpr(r.value), [RParen], ts, pos);
        }
      case Ident(first) => PathTailSound([first], ts, pos, pos + 1);
      case _ =>
    }
  }

  lemma {:induction false} PathTailSound(path: seq<Text>, ts: seq<Token>, start: nat, pos: nat)
    requires pos <= |ts| && 0 < |path|
    requires Occurs(PrintPath(path), ts, start) && pos == start + |PrintPath(path)|
    ensures var r := PathTail(path, ts, pos);
      r.Parsed? ==> Occurs(PrintPath(r.value), ts, start) && r.next == start + |PrintPath(r.value)|
    decreases |ts| - pos
  {
    if pos + 1 < |ts| && ts[pos] == Dot && ts[pos + 1].Ident? {
      var longer := path + [ts[pos + 1].name];
      assert longer[..|longer| - 1] == path;
      assert ts[pos..pos + 2] == [Dot, ts[pos + 1]];
      OccursSplit(PrintPath(path), [Dot, ts[pos + 1]], ts, start);
      PathTailSound(longer, ts, start, pos + 2);
    }
  }

  // ---- Completeness: a printed canonical tree is read back, up to its follow set ---------------

  /** No token of this kind extends a complete `not_expr`. */
  ghost predicate Ends(ts: seq<Token>, pos: nat) {
    pos < |ts| ==> ts[pos] != Dot && !ts[pos].Compare?
  }

  lemma {:induction false} OrComplete(e: Expr, ts: seq<Token>, pos: nat)
    requires OrForm(e) && Occurs(PrintExpr(e), ts, pos)
    requires Ends(ts, pos + |PrintExpr(e)|) && (pos + |PrintExpr(e)| < |ts| ==> ts[pos + |PrintExpr(e)|] != And)
    ensures ParseOr(ts, pos) == OrTail(e, ts, pos + |PrintExpr(e)|)
    decreases e, 5
  {
    hide Occurs, ParseAnd;
    if e.Either? {
      OccursAround(PrintExpr(e.left), Or, PrintExpr(e.right), ts, pos);
      OrComplete(e.left, ts, pos);
      AndCompleteExactly(e.right, ts, pos + |PrintExpr(e.left)| + 1);
    } else {
      AndCompleteExactly(e, ts, pos);
    }
  }

  lemma {:induction false} AndCompleteExactly(e: Expr, ts: seq<Token>, pos: nat)
    requires AndForm(e) && Occurs(PrintExpr(e), ts, pos)
    requires Ends(ts, pos + |PrintExpr(e)|) && (pos + |PrintExpr(e)| < |ts| ==> ts[pos + |PrintExpr(e)|] != And)
    ensures ParseAnd(ts, pos) == Parsed(e, pos + |PrintExpr(e)|)
    decreases e, 4
  {
    AndComplete(e, ts, pos);
  }

  lemma {:induction false} AndComplete(e: Expr, ts: seq<Token>, pos: nat)
    requires AndForm(e) && Occurs(PrintExpr(e), ts, pos)
    requires Ends(ts, pos + |PrintExpr(e)|)
    ensures ParseAnd(ts, pos) == AndTail(e, ts, pos + |PrintExpr(e)|)
    decreases e, 3
  {
    hide Occurs, ParseNot;
    if e.Both? {
      OccursAround(PrintExpr(e.left), And, PrintExpr(e.right), ts, pos);
      AndComplete(e.left, ts, pos);
      NotComplete(e.right, ts, pos + |PrintExpr(e.left)| + 1);
    } else {
      NotComplete(e, ts, pos);
    }
  }

  lemma {:induction false} NotComplete(e: Expr, ts: seq<Token>, pos: nat)
    requires NotForm(e) && Occurs(PrintExpr(e), ts, pos)
    requires Ends(ts, pos + |PrintExpr(e)|)
    ensures ParseNot(ts, pos) == Parsed(e, pos + |PrintExpr(e)|)
    decreases e, 2
  {
    hide Occurs, ParseAtom;
    match e
    case Negation(operand) =>
      OccursSplit([Not], PrintExpr(operand), ts, pos);
      OccursAt(Not, ts, pos);
      NotComplete(operand, ts, pos + 1);
    case Comparison(op, lhs, rhs) =>
      OccursAround(PrintAtom(lhs), Compare(op), PrintAtom(rhs), ts, pos);
      AtomComplete(lhs, ts, pos);
      AtomComplete(rhs, ts, pos + |PrintAtom(lhs)| + 1);
    case Bare(atom) =>
      AtomComplete(atom, ts, pos);
  }

  lemma {:induction false} AtomComplete(a: Atom, ts: seq<Token>, pos: nat)
    requires AtomForm(a) && Occurs(PrintAtom(a), ts, pos)
    requires pos + |PrintAtom(a)| < |ts| ==> ts[pos + |PrintAtom(a)|] != Dot
    ensures ParseAtom(ts, pos) == Parsed(a, pos + |PrintAtom(a)|)
    ensures pos < |ts| && ts[pos] != Not
    decreases a, 2
  {
    match a
    case Group(inner) => GroupComplete(inner, ts, pos);
    case Ref(path) => RefComplete(path, ts, pos);
    case Literal(text) => OccursAt(Str(text), ts, pos);
    case Number(numeral) => OccursAt(Num(numeral), ts, pos);
    case Truth(value) => OccursAt(if value then True else False, ts, pos);
    case Nil => OccursAt(Null, ts, pos);
  }

  lemma {:induction false} GroupComplete(inner: Expr, ts: seq<Token>, pos: nat)
    requires OrForm(inner) && Occurs(PrintAtom(Group(inner)), ts, pos)
    ensures ParseAtom(ts, pos) == Parsed(Group(inner), pos + |PrintAtom(Group(inner))|)
    ensures pos < |ts| && ts[pos] == LParen
    decreases inner, 6
  {
    OccursSplit([LParen] + PrintExpr(inner), [RParen], ts, pos);
    OccursSplit([LParen], PrintExpr(inner), ts, pos);
    OccursAt(LParen, ts, pos);
    OccursAt(RParen, ts, pos + 1 + |PrintExpr(inner)|);
    OrComplete(inner, ts, pos + 1);
    assert ParseOr(ts, pos + 1) == Parsed(inner, pos + 1 + |PrintExpr(inner)|);
  }

  lemma RefComplete(path: seq<Text>, ts: seq<Token>, pos: nat)
    requires 2 <= |path| && RootOk(path[0]) && Occurs(PrintPath(path), ts, pos)
    requires pos + |PrintPath(path)| < |ts| ==> ts[pos + |PrintPath(path)|] != Dot
    ensures ParseAtom(ts, pos) == Parsed(Ref(path), pos + |PrintPath(path)|)
    ensures pos < |ts| && ts[pos].Ident?
  {
    PathComplete(path, ts, pos);
    assert PathTail([path[0]], ts, pos + 1) == Parsed(path, pos + |PrintPath(path)|);
  }

  lemma {:induction false} PathComplete(path: seq<Text>, ts: seq<Token>, pos: nat)
    requires 0 < |path| && Occurs(PrintPath(path), ts, pos)
    ensures pos < |ts| && ts[pos] == Ident(path[0])
    ensures PathTail([path[0]], ts, pos + 1) == PathTail(path, ts, pos + |PrintPath(path)|)
    decreases |path|
  {
    if |path| == 1 {
      hide PathTail;
      OccursAt(Ident(path[0]), ts, pos);
      assert path == [path[0]];
    } else {
      var shorter := path[..|path| - 1];
      var last := path[|path| - 1];
      var n := pos + |PrintPath(shorter)|;
      OccursSplit(PrintPath(shorter), [Dot, Ident(last)], ts, pos);
      PathComplete(shorter, ts, pos);
      assert ts[n..n + 2] == [Dot, Ident(last)];
      assert ts[n] == ts[n..n + 2][0] && ts[n + 1] == ts[n..n + 2][1];
      assert shorter + [last] == path;
    }
  }

  // ---- Main results ----------------------------------------------------------------------------

  /** The parser is the inverse of the printer: it returns `e` on exactly one token sequence, the
      printed form of `e`, and only for canonical `e`. */
  lemma ParseInvertsPrint(ts: seq<Token>, e: Expr)
    ensures ParseTokens(ts) == Ok(e) <==> OrForm(e) && PrintExpr(e) == ts
  {
    if ParseTokens(ts) == Ok(e) {
      OrSound(ts, 0);
      assert ts[0..|ts|] == ts;
    }
    if OrForm(e) && PrintExpr(e) == ts {
      assert ts[0..|ts|] == ts;
      OrComplete(e, ts, 0);
    }
  }

  /** The grammar is unambiguous. */
  lemma GrammarUnambiguous(a: Expr, b: Expr)
    requires OrForm(a) && OrForm(b) && PrintExpr(a) == PrintExpr(b)
    ensures a == b
  {
    ParseInvertsPrint(PrintExpr(a), a);
    ParseInvertsPrint(PrintExpr(b), b);
  }

  /** A token sequence is rejected exactly when it is not the printed form of any canonical tree. */
  lemma RejectedIffUnprintable(ts: seq<Token>)
    ensures ParseTokens(ts).Err? <==> forall e :: OrForm(e) ==> PrintExpr(e) != ts
  {
    forall e ensures OrForm(e) && PrintExpr(e) == ts <==> ParseTokens(ts) == Ok(e) {
      ParseInvertsPrint(ts, e);
    }
    var r := ParseTokens(ts);
    if r.Ok? { assert OrForm(r.value) && PrintExpr(r.value) == ts; }
  }
}
