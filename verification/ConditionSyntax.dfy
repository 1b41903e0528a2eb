/** The condition language of trigger clauses: tokens, abstract syntax, and the printer that the
    parser is proved to invert.  A string is the sequence of its UTF-8 bytes, one `Byte` each. */
module ConditionSyntax {
  type Byte = c: char | c as int < 0x100
  type Text = seq<Byte>

  datatype CmpOp = Eq | Neq | Lt | Le | Gt | Ge

  datatype Token =
    | Ident(name: Text)
    | Str(text: Text)
    | Num(numeral: Text)
    | True | False | Null
    | Compare(op: CmpOp)
    | And | Or | Not | Dot | LParen | RParen

  datatype Expr =
    | Either(left: Expr, right: Expr)
    | Both(left: Expr, right: Expr)
    | Negation(operand: Expr)
    | Comparison(op: CmpOp, lhs: Atom, rhs: Atom)
    | Bare(atom: Atom)

  /** A number literal is kept as its numeral: what it denotes is the evaluator's business. */
  datatype Atom =
    | Ref(path: seq<Text>)
    | Literal(text: Text)
    | Number(numeral: Text)
    | Truth(value: bool)
    | Nil
    | Group(inner: Expr)

  const EVENT: Text := "event"
  const CONTEXT: Text := "context"

  // ---- Canonical (left-associative, precedence-respecting) trees --------------------------------

  ghost predicate OrForm(e: Expr)
    decreases e, 2
  {
    if e.Either? then OrForm(e.left) && AndForm(e.right) else AndForm(e)
  }

  ghost predicate AndForm(e: Expr)
    decreases e, 1
  {
    if e.Both? then AndForm(e.left) && NotForm(e.right) else NotForm(e)
  }

  ghost predicate NotForm(e: Expr)
    decreases e, 0
  {
    match e
    case Negation(operand) => NotForm(operand)
    case Comparison(_, lhs, rhs) => AtomForm(lhs) && AtomForm(rhs)
    case Bare(atom) => AtomForm(atom)
    case _ => false
  }

  ghost predicate AtomForm(a: Atom)
    decreases a, 0
  {
    match a
    case Ref(path) => 2 <= |path| && RootOk(path[0])
    case Group(inner) => OrForm(inner)
    case _ => true
  }

  predicate RootOk(root: Text) { root == EVENT || root == CONTEXT }

  // ---- Printing --------------------------------------------------------------------------------

  function PrintExpr(e: Expr): seq<Token> {
    match e
    case Either(l, r) => PrintExpr(l) + [Or] + PrintExpr(r)
    case Both(l, r) => PrintExpr(l) + [And] + PrintExpr(r)
    case Negation(operand) => [Not] + PrintExpr(operand)
    case Comparison(op, lhs, rhs) => PrintAtom(lhs) + [Compare(op)] + PrintAtom(rhs)
    case Bare(atom) => PrintAtom(atom)
  }

  function PrintAtom(a: Atom): seq<Token> {
    match a
    case Ref(path) => PrintPath(path)
    case Literal(text) => [Str(text)]
    case Number(numeral) => [Num(numeral)]
    case Truth(value) => [if value then True else False]
    case Nil => [Null]
    case Group(inner) => [LParen] + PrintExpr(inner) + [RParen]
  }

  function PrintPath(path: seq<Text>): seq<Token> {
    if |path| == 0 then []
    else if |path| == 1 then [Ident(path[0])]
    else PrintPath(path[..|path| - 1]) + [Dot, Ident(path[|path| - 1])]
  }
}
