/** The byte lexer of the condition language, the text renderer, and their round trip. */
module ConditionLexer {
  import opened ConditionSyntax
  import opened ConditionParser
  import opened Utf8

  datatype StringError = UnterminatedEscape | UnknownEscape(escape: Byte) | UnterminatedString | InvalidUtf8

  datatype NumberError = NoDigits | NotANumber

  datatype LexError =
    | ExpectedDouble(symbol: Byte, position: nat)
    | BadString(position: nat, why: StringError)
    | BadNumber(position: nat, reason: NumberError)
    | UnexpectedCharacter(character: Byte, position: nat)

  /** A sub-lexer's answer: what it read and how many bytes that took. */
  datatype Lexed<+E> = Lexed(text: Text, consumed: nat) | Rejected(error: E)

  datatype Step = Skip(next: nat) | Emit(token: Token, next: nat) | Stop(error: LexError)

  datatype Tokens = Tokens(tokens: seq<Token>) | LexFailed(error: LexError)

  const SPACE: Text := " "

  predicate IsDigit(b: Byte) { '0' <= b <= '9' }

  predicate IsIdentStart(b: Byte) { 'a' <= b <= 'z' || 'A' <= b <= 'Z' || b == '_' }

  predicate IsIdentByte(b: Byte) { IsIdentStart(b) || IsDigit(b) }

  predicate IsSpace(b: Byte) { b == ' ' || b == '\t' || b == '\n' || b == '\r' }

  /** The character classes by their code points. */
  lemma ClassesAre(b: Byte)
    ensures IsDigit(b) <==> 0x30 <= b as int <= 0x39
    ensures IsIdentStart(b) <==> 0x41 <= b as int <= 0x5A || b as int == 0x5F || 0x61 <= b as int <= 0x7A
    ensures IsIdentByte(b) <==> IsIdentStart(b) || 0x30 <= b as int <= 0x39
    ensures IsSpace(b) <==> b as int in {0x20, 0x09, 0x0A, 0x0D}
  {
  }

  // ---- String literals -------------------------------------------------------------------------

  /** What the byte after a backslash stands for. */
  function Unescape(b: Byte): seq<Byte> {
    match b
    case '\"' => ['\"']
    case '\\' => ['\\']
    case 'n' => ['\n']
    case 't' => ['\t']
    case 'r' => ['\r']
    case _ => []
  }

  function StringBody(bytes: seq<Byte>, i: nat, out: Text): (r: Lexed<StringError>)
    requires i <= |bytes|
    ensures r.Lexed? ==> i < r.consumed <= |bytes| && ValidUtf8(r.text)
    decreases |bytes| - i
  {
    if i == |bytes| then Rejected(UnterminatedString)
    else if bytes[i] == '\"' then
      if ValidUtf8(out) then Lexed(out, i + 1) else Rejected(InvalidUtf8)
    else if bytes[i] == '\\' then
      if i + 1 == |bytes| then Rejected(UnterminatedEscape)
      else if Unescape(bytes[i + 1]) == [] then Rejected(UnknownEscape(bytes[i + 1]))
      else StringBody(bytes, i + 2, out + Unescape(bytes[i + 1]))
    else StringBody(bytes, i + 1, out + [bytes[i]])
  }

  method LexString(bytes: seq<Byte>) returns (r: Lexed<StringError>)
    requires 0 < |bytes| && bytes[0] == '\"'
    ensures r == StringBody(bytes, 1, [])
  {
    var out: Text := [];
    var i := 1;
    while i < |bytes|
      invariant 1 <= i <= |bytes|
      invariant StringBody(bytes, 1, []) == StringBody(bytes, i, out)
    {
      match bytes[i] {
        case '\"' =>
          return if ValidUtf8(out) then Lexed(out, i + 1) else Rejected(InvalidUtf8);
        case '\\' =>
          if i + 1 >= |bytes| { return Rejected(UnterminatedEscape); }
          var c: Byte;
          match bytes[i + 1] {
            case '\"' => c := '\"';
            case '\\' => c := '\\';
            case 'n' => c := '\n';
            case 't' => c := '\t';
            case 'r' => c := '\r';
            case other => return Rejected(UnknownEscape(other));
          }
          out := out + [c];
          i := i + 2;
        case other =>
          out := out + [other];
          i := i + 1;
      }
    }
    r := Rejected(UnterminatedString);
  }

  // ---- Numbers and identifiers -----------------------------------------------------------------

  function DigitsEnd(bytes: seq<Byte>, i: nat): (e: nat)
    requires i <= |bytes|
    ensures i <= e <= |bytes|
    ensures forall k :: i <= k < e ==> IsDigit(bytes[k])
    ensures e < |bytes| ==> !IsDigit(bytes[e])
    decreases |bytes| - i
  {
    if i < |bytes| && IsDigit(bytes[i]) then DigitsEnd(bytes, i + 1) else i
  }

  function FractionEnd(bytes: seq<Byte>, whole: nat): (e: nat)
    requires whole <= |bytes|
    ensures whole <= e <= |bytes|
  {
    if whole < |bytes| && bytes[whole] == '.' then DigitsEnd(bytes, whole + 1) else whole
  }

  function Number(bytes: seq<Byte>): Lexed<NumberError>
    requires 0 < |bytes|
  {
    var start := if bytes[0] == '-' then 1 else 0;
    var whole := DigitsEnd(bytes, start);
    var end := FractionEnd(bytes, whole);
    if end == start then Rejected(NoDigits)
    else if whole == start && end == start + 1 then Rejected(NotANumber)
    else Lexed(bytes[..end], end)
  }

  method LexNumber(bytes: seq<Byte>) returns (r: Lexed<NumberError>)
    requires 0 < |bytes|
    ensures r == Number(bytes)
  {
    var i := 0;
    if bytes[0] == '-' { i := i + 1; }
    var start := i;
    while i < |bytes| && IsDigit(bytes[i])
      invariant start <= i <= |bytes| && DigitsEnd(bytes, start) == DigitsEnd(bytes, i)
    {
      i := i + 1;
    }
    var whole := i;
    if i < |bytes| && bytes[i] == '.' {
      i := i + 1;
      while i < |bytes| && IsDigit(bytes[i])
        invariant whole < i <= |bytes| && DigitsEnd(bytes, whole + 1) == DigitsEnd(bytes, i)
      {
        i := i + 1;
      }
    }
    if i == start { return Rejected(NoDigits); }
    // A sign and a lone dot pass the scan but no float parser takes them.
    if whole == start && i == start + 1 { return Rejected(NotANumber); }
    r := Lexed(bytes[..i], i);
  }

  function IdentEnd(bytes: seq<Byte>, i: nat): (e: nat)
    requires i <= |bytes|
    ensures i <= e <= |bytes|
    ensures forall k :: i <= k < e ==> IsIdentByte(bytes[k])
    ensures e < |bytes| ==> !IsIdentByte(bytes[e])
    decreases |bytes| - i
  {
    if i < |bytes| && IsIdentByte(bytes[i]) then IdentEnd(bytes, i + 1) else i
  }

  method LexIdent(bytes: seq<Byte>) returns (ident: Text, consumed: nat)
    ensures consumed == IdentEnd(bytes, 0) && ident == bytes[..consumed]
  {
    consumed := 0;
    while consumed < |bytes| && IsIdentByte(bytes[consumed])
      invariant consumed <= |bytes| && IdentEnd(bytes, 0) == IdentEnd(bytes, consumed)
    {
      consumed := consumed + 1;
    }
    ident := bytes[..consumed];
  }

  function Word(ident: Text): Token {
    if ident == "true" then True
    else if ident == "false" then False
    else if ident == "null" then Null
    else Ident(ident)
  }

  // ---- The main loop ---------------------------------------------------------------------------

  /** Either `two` when the next byte is `second`, or what the single byte means. */
  function Double(src: seq<Byte>, i: nat, second: Byte, two: Token, one: Step): Step {
    if i + 1 < |src| && src[i + 1] == second then Emit(two, i + 2) else one
  }

  function NextToken(src: seq<Byte>, i: nat): (s: Step)
    requires i < |src|
    ensures s.Skip? || s.Emit? ==> i < s.next <= |src|
  {
    var c := src[i];
    if IsSpace(c) then Skip(i + 1)
    else if c == '(' then Emit(LParen, i + 1)
    else if c == ')' then Emit(RParen, i + 1)
    else if c == '.' then Emit(Dot, i + 1)
    else if c == '=' then Double(src, i, '=', Compare(Eq), Stop(ExpectedDouble(c, i)))
    else if c == '!' then Double(src, i, '=', Compare(Neq), Emit(Not, i + 1))
    else if c == '<' then Double(src, i, '=', Compare(Le), Emit(Compare(Lt), i + 1))
    else if c == '>' then Double(src, i, '=', Compare(Ge), Emit(Compare(Gt), i + 1))
    else if c == '&' then Double(src, i, '&', And, Stop(ExpectedDouble(c, i)))
    else if c == '|' then Double(src, i, '|', Or, Stop(ExpectedDouble(c, i)))
    else if c == '\"' then
      match StringBody(src[i..], 1, [])
      case Lexed(text, n) => Emit(Str(text), i + n)
      case Rejected(why) => Stop(BadString(i, why))
    else if c == '-' || IsDigit(c) then
      match Number(src[i..])
      case Lexed(text, n) => Emit(Num(text), i + n)
      case Rejected(reason) => Stop(BadNumber(i, reason))
    else if IsIdentStart(c) then
      var n := IdentEnd(src[i..], 0);
      Emit(Word(src[i..i + n]), i + n)
    else Stop(UnexpectedCharacter(c, i))
  }

  function LexFrom(src: seq<Byte>, i: nat): Tokens
    requires i <= |src|
    decreases |src| - i
  {
    if i == |src| then Tokens([]) else
    match NextToken(src, i)
    case Stop(e) => LexFailed(e)
    case Skip(n) => LexFrom(src, n)
    case Emit(t, n) =>
      Prepend([t], LexFrom(src, n))
  }

  /** `before` followed by whatever the rest lexes to. */
  function Prepend(before: seq<Token>, rest: Tokens): Tokens {
    if rest.Tokens? then Tokens(before + rest.tokens) else rest
  }

  method Next(src: seq<Byte>, i: nat) returns (s: Step)
    requires i < |src|
    ensures s == NextToken(src, i)
  {
    var c := src[i];
    if c == '\"' {
      var text := LexString(src[i..]);
      s := if text.Lexed? then Emit(Str(text.text), i + text.consumed) else Stop(BadString(i, text.error));
    } else if c == '-' || IsDigit(c) {
      var n := LexNumber(src[i..]);
      s := if n.Lexed? then Emit(Num(n.text), i + n.consumed) else Stop(BadNumber(i, n.error));
    } else if IsIdentStart(c) {
      var ident, consumed := LexIdent(src[i..]);
      assert ident == src[i..i + consumed];
      s := Emit(Word(ident), i + consumed);
    } else {
      s := Symbol(src, i);
    }
  }

  /** The arms of the loop that look at one or two bytes. */
  method Symbol(src: seq<Byte>, i: nat) returns (s: Step)
    requires i < |src|
    requires src[i] != '\"' && src[i] != '-' && !IsDigit(src[i]) && !IsIdentStart(src[i])
    ensures s == NextToken(src, i)
  {
    var c := src[i];
    var doubled := i + 1 < |src| && src[i + 1] == c;
    var equals := i + 1 < |src| && src[i + 1] == '=';
    if c == ' ' || c == '\t' || c == '\n' || c == '\r' {
      return Skip(i + 1);
    } else if c == '(' {
      return Emit(LParen, i + 1);
    } else if c == ')' {
      return Emit(RParen, i + 1);
    } else if c == '.' {
      return Emit(Dot, i + 1);
    } else if c == '=' {
      return if equals then Emit(Compare(Eq), i + 2) else Stop(ExpectedDouble(c, i));
    } else if c == '!' {
      return if equals then Emit(Compare(Neq), i + 2) else Emit(Not, i + 1);
    } else if c == '<' {
      return if equals then Emit(Compare(Le), i + 2) else Emit(Compare(Lt), i + 1);
    } else if c == '>' {
      return if equals then Emit(Compare(Ge), i + 2) else Emit(Compare(Gt), i + 1);
    } else if c == '&' {
      return if doubled then Emit(And, i + 2) else Stop(ExpectedDouble(c, i));
    } else if c == '|' {
      return if doubled then Emit(Or, i + 2) else Stop(ExpectedDouble(c, i));
    } else {
      return Stop(UnexpectedCharacter(c, i));
    }
  }

  method Lex(src: seq<Byte>) returns (r: Tokens)
    ensures r == LexFrom(src, 0)
  {
    var tokens: seq<Token> := [];
    var i := 0;
    while i < |src|
      invariant i <= |src| && LexFrom(src, 0) == Prepend(tokens, LexFrom(src, i))
    {
      var s := Next(src, i);
      match s {
        case Stop(error) => return LexFailed(error);
        case Skip(next) => i := next;
        case Emit(t, next) =>
          PrependEmit(tokens, t, LexFrom(src, next));
          tokens := tokens + [t];
          i := next;
      }
    }
    r := Tokens(tokens);
  }

  lemma PrependEmit(before: seq<Token>, t: Token, rest: Tokens)
    ensures Prepend(before, Prepend([t], rest)) == Prepend(before + [t], rest)
  {
    if rest.Tokens? { assert before + ([t] + rest.tokens) == before + [t] + rest.tokens; }
  }

  /** `parse` on source text. */
  datatype Condition = Parses(expr: Expr) | LexError(lexError: LexError) | SyntaxError(parseError: ParseError)

  function ParseText(src: seq<Byte>): Condition {
    match LexFrom(src, 0)
    case LexFailed(e) => LexError(e)
    case Tokens(ts) =>
      match ParseTokens(ts)
      case Ok(e) => Parses(e)
      case Err(e) => SyntaxError(e)
  }

  method ParseSource(src: seq<Byte>) returns (r: Condition)
    ensures r == ParseText(src)
  {
    var tokens := Lex(src);
    if tokens.LexFailed? { return LexError(tokens.error); }
    var e := Parse(tokens.tokens);
    r := if e.Ok? then Parses(e.value) else SyntaxError(e.error);
  }

  // ---- Rendering -------------------------------------------------------------------------------

  function Escape(s: Text): Text {
    if s == [] then []
    else (if s[0] == '\"' || s[0] == '\\' then ['\\', s[0]] else [s[0]]) + Escape(s[1..])
  }

  function RenderOp(op: CmpOp): Text {
    match op case Eq => "==" case Neq => "!=" case Lt => "<" case Le => "<=" case Gt => ">" case Ge => ">="
  }

  function RenderToken(t: Token): Text {
    match t
    case Ident(name) => name
    case Str(text) => ['\"'] + Escape(text) + ['\"']
    case Num(numeral) => numeral
    case True => "true"
    case False => "false"
    case Null => "null"
    case Compare(op) => RenderOp(op)
    case And => "&&"
    case Or => "||"
    case Not => "!"
    case Dot => "."
    case LParen => "("
    case RParen => ")"
  }

  function RenderTokens(ts: seq<Token>): Text {
    if ts == [] then [] else RenderToken(ts[0]) + SPACE + RenderTokens(ts[1..])
  }

  function Render(e: Expr): Text { RenderTokens(PrintExpr(e)) }

  // ---- Which tokens a source text can hold -----------------------------------------------------

  predicate IsNumeral(t: Text) {
    var digits := if t != [] && t[0] == '-' then t[1..] else t;
    && t != [] && t[0] != '.'
    && (forall k :: 0 <= k < |digits| ==> IsDigit(digits[k]) || digits[k] == '.')
    && (forall j, k :: 0 <= j < k < |digits| ==> digits[j] != '.' || digits[k] != '.')
    && (exists k :: 0 <= k < |digits| && IsDigit(digits[k]))
  }

  predicate IsIdent(t: Text) {
    t != [] && IsIdentStart(t[0]) && forall k :: 0 <= k < |t| ==> IsIdentByte(t[k])
  }

  predicate Lexable(t: Token) {
    match t
    case Ident(name) => IsIdent(name) && Word(name).Ident?
    case Str(text) => ValidUtf8(text)
    case Num(numeral) => IsNumeral(numeral)
    case _ => true
  }

  predicate AllLexable(ts: seq<Token>) { forall k :: 0 <= k < |ts| ==> Lexable(ts[k]) }

  // ---- Each token is read back from its rendering ----------------------------------------------

  ghost predicate At(text: Text, src: seq<Byte>, i: nat) {
    i + |text| <= |src| && src[i..i + |text|] == text
  }

  lemma AtByte(text: Text, src: seq<Byte>, i: nat, k: nat)
    requires At(text, src, i) && k < |text|
    ensures src[i + k] == text[k]
  {
    assert src[i..i + |text|][k] == text[k];
  }

  lemma AtSplit(a: Text, b: Text, src: seq<Byte>, i: nat)
    requires At(a + b, src, i)
    ensures At(a, src, i) && At(b, src, i + |a|)
  {
    assert src[i..i + |a|] == src[i..i + |a + b|][..|a|];
    assert src[i + |a|..i + |a| + |b|] == src[i..i + |a + b|][|a|..];
  }

  lemma AtTail(text: Text, src: seq<Byte>, i: nat)
    requires At(text, src, i)
    ensures At(text, src[i..], 0)
  {
    assert src[i..][0..|text|] == src[i..i + |text|];
  }

  /** `lex_string` undoes escaping. */
  lemma {:induction false} UnescapesEscape(s: Text, bytes: seq<Byte>, i: nat, out: Text)
    requires At(Escape(s) + ['\"'], bytes, i)
    ensures StringBody(bytes, i, out)
         == if ValidUtf8(out + s) then Lexed(out + s, i + |Escape(s)| + 1) else Rejected(InvalidUtf8)
    decreases |s|
  {
    var body := Escape(s) + ['\"'];
    AtByte(body, bytes, i, 0);
    if s == [] {
      assert out + s == out;
    } else {
      var width := if s[0] == '\"' || s[0] == '\\' then 2 else 1;
      AtByte(body, bytes, i, width - 1);
      assert body == body[..width] + (Escape(s[1..]) + ['\"']);
      AtSplit(body[..width], Escape(s[1..]) + ['\"'], bytes, i);
      UnescapesEscape(s[1..], bytes, i + width, out + [s[0]]);
      assert out + [s[0]] + s[1..] == out + s;
      assert StringBody(bytes, i, out) == StringBody(bytes, i + width, out + [s[0]]);
    }
  }

  /** One way of writing a byte in a literal: as it is, or by one of the five escapes. */
  datatype Spelling = Raw(b: Byte) | Quote | Backslash | Newline | Tab | Return

  predicate Sound(x: Spelling) { x.Raw? ==> x.b != '\"' && x.b != '\\' }

  function Written(x: Spelling): Text {
    match x
    case Raw(b) => [b]
    case Quote => "\\\""
    case Backslash => "\\\\"
    case Newline => "\\n"
    case Tab => "\\t"
    case Return => "\\r"
  }

  function Spelt(x: Spelling): Byte {
    match x
    case Raw(b) => b
    case Quote => '\"'
    case Backslash => '\\'
    case Newline => '\n'
    case Tab => '\t'
    case Return => '\r'
  }

  function AllWritten(xs: seq<Spelling>): Text { if xs == [] then [] else Written(xs[0]) + AllWritten(xs[1..]) }

  function AllSpelt(xs: seq<Spelling>): Text { if xs == [] then [] else [Spelt(xs[0])] + AllSpelt(xs[1..]) }

  lemma SpellingRead(x: Spelling, bytes: seq<Byte>, i: nat, out: Text)
    requires Sound(x) && At(Written(x), bytes, i)
    ensures i + |Written(x)| <= |bytes|
    ensures StringBody(bytes, i, out) == StringBody(bytes, i + |Written(x)|, out + [Spelt(x)])
  {
    AtByte(Written(x), bytes, i, 0);
    AtByte(Written(x), bytes, i, |Written(x)| - 1);
  }

  lemma ClosingRead(bytes: seq<Byte>, i: nat, out: Text)
    requires At(['\"'], bytes, i)
    ensures StringBody(bytes, i, out) == if ValidUtf8(out) then Lexed(out, i + 1) else Rejected(InvalidUtf8)
  {
    AtByte(['\"'], bytes, i, 0);
  }

  /** A literal is read as what it spells, however each of its bytes is written. */
  lemma {:induction false} EverySpellingRead(xs: seq<Spelling>, bytes: seq<Byte>, i: nat, out: Text)
    requires (forall k :: 0 <= k < |xs| ==> Sound(xs[k])) && At(AllWritten(xs) + ['\"'], bytes, i)
    ensures StringBody(bytes, i, out)
         == if ValidUtf8(out + AllSpelt(xs)) then Lexed(out + AllSpelt(xs), i + |AllWritten(xs)| + 1)
            else Rejected(InvalidUtf8)
    decreases |xs|
  {
    hide StringBody, Written, Spelt, Sound, At;
    if xs == [] {
      assert out + AllSpelt(xs) == out && AllWritten(xs) + ['\"'] == ['\"'];
      ClosingRead(bytes, i, out);
    } else {
      var w, tail := Written(xs[0]), AllWritten(xs[1..]) + ['\"'];
      assert AllWritten(xs) + ['\"'] == w + tail;
      AtSplit(w, tail, bytes, i);
      SpellingRead(xs[0], bytes, i, out);
      EverySpellingRead(xs[1..], bytes, i + |w|, out + [Spelt(xs[0])]);
      assert out + [Spelt(xs[0])] + AllSpelt(xs[1..]) == out + AllSpelt(xs);
    }
  }

  lemma SpellingAt(bytes: seq<Byte>, i: nat, out: Text) returns (x: Spelling)
    requires i < |bytes| && StringBody(bytes, i, out).Lexed? && bytes[i] != '\"'
    ensures Sound(x) && At(Written(x), bytes, i) && 0 < |Written(x)| && i + |Written(x)| <= |bytes|
    ensures StringBody(bytes, i, out) == StringBody(bytes, i + |Written(x)|, out + [Spelt(x)])
  {
    if bytes[i] != '\\' {
      x := Raw(bytes[i]);
    } else {
      x := match bytes[i + 1] case '\"' => Quote case '\\' => Backslash case 'n' => Newline case 't' => Tab case _ => Return;
      assert bytes[i..i + 2] == Written(x);
    }
  }

  lemma AtJoin(a: Text, b: Text, src: seq<Byte>, i: nat)
    requires At(a, src, i) && At(b, src, i + |a|)
    ensures At(a + b, src, i)
  {
    assert src[i..i + |a + b|] == src[i..i + |a|] + src[i + |a|..i + |a| + |b|];
  }

  lemma SpellingCons(x: Spelling, rest: seq<Spelling>, out: Text)
    ensures AllWritten([x] + rest) == Written(x) + AllWritten(rest)
    ensures out + AllSpelt([x] + rest) == out + [Spelt(x)] + AllSpelt(rest)
  {
    assert ([x] + rest)[1..] == rest;
  }

  /** And there is no other way: what a literal is read from is such a spelling of it, up to the quote. */
  lemma {:induction false} ReadIsSpelling(bytes: seq<Byte>, i: nat, out: Text) returns (xs: seq<Spelling>)
    requires i <= |bytes| && StringBody(bytes, i, out).Lexed?
    ensures forall k :: 0 <= k < |xs| ==> Sound(xs[k])
    ensures At(AllWritten(xs) + ['\"'], bytes, i) && StringBody(bytes, i, out).text == out + AllSpelt(xs)
    ensures StringBody(bytes, i, out).consumed == i + |AllWritten(xs)| + 1
    decreases |bytes| - i
  {
    if bytes[i] == '\"' {
      xs := [];
      assert bytes[i..i + 1] == ['\"'];
      assert out + AllSpelt(xs) == out;
    } else {
      var x := SpellingAt(bytes, i, out);
      hide StringBody, Written, Spelt, At, Sound, AllWritten, AllSpelt;
      var rest := ReadIsSpelling(bytes, i + |Written(x)|, out + [Spelt(x)]);
      xs := [x] + rest;
      SpellingCons(x, rest, out);
      AtJoin(Written(x), AllWritten(rest) + ['\"'], bytes, i);
      assert AllWritten(xs) + ['\"'] == Written(x) + (AllWritten(rest) + ['\"']);
    }
  }

  lemma DigitsEndIs(bytes: seq<Byte>, i: nat, e: nat)
    requires i <= e <= |bytes| && (forall k :: i <= k < e ==> IsDigit(bytes[k]))
    requires e < |bytes| ==> !IsDigit(bytes[e])
    ensures DigitsEnd(bytes, i) == e
  {
    var d := DigitsEnd(bytes, i);
  }

  ghost predicate DigitsAndDot(digits: Text) {
    && (forall k :: 0 <= k < |digits| ==> IsDigit(digits[k]) || digits[k] == '.')
    && (forall j, k :: 0 <= j < k < |digits| ==> digits[j] != '.' || digits[k] != '.')
  }

  lemma UnsignedReadBack(digits: Text, bytes: seq<Byte>, start: nat)
    requires DigitsAndDot(digits) && At(digits + SPACE, bytes, start)
    ensures FractionEnd(bytes, DigitsEnd(bytes, start)) == start + |digits|
  {
    forall k | 0 <= k < |digits| ensures bytes[start + k] == digits[k] { AtByte(digits + SPACE, bytes, start, k); }
    AtByte(digits + SPACE, bytes, start, |digits|);
    var whole := DigitsEnd(bytes, start);
    if whole < start + |digits| {
      assert digits[whole - start] == '.';
      forall k | whole < k < start + |digits| ensures IsDigit(bytes[k]) {
        assert digits[k - start] != '.';
      }
      DigitsEndIs(bytes, whole + 1, start + |digits|);
    }
  }

  lemma NumberReadBack(numeral: Text, bytes: seq<Byte>)
    requires IsNumeral(numeral) && At(numeral + SPACE, bytes, 0)
    ensures Number(bytes) == Lexed(numeral, |numeral|)
  {
    AtByte(numeral + SPACE, bytes, 0, 0);
    AtSplit(numeral, SPACE, bytes, 0);
    var start := if numeral[0] == '-' then 1 else 0;
    var digits := numeral[start..];
    assert numeral + SPACE == numeral[..start] + (digits + SPACE);
    AtSplit(numeral[..start], digits + SPACE, bytes, 0);
    UnsignedReadBack(digits, bytes, start);
    var d :| 0 <= d < |digits| && IsDigit(digits[d]);
    AtByte(digits + SPACE, bytes, start, d);
    NumberEndsAt(bytes, start, |numeral|, d);
  }

  lemma NumberEndsAt(bytes: seq<Byte>, start: nat, end: nat, digit: nat)
    requires 0 < |bytes| && start == (if bytes[0] == '-' then 1 else 0)
    requires FractionEnd(bytes, DigitsEnd(bytes, start)) == end
    requires start + digit < end && IsDigit(bytes[start + digit])
    ensures Number(bytes) == Lexed(bytes[..end], end)
  {
  }

  lemma WordReadBack(name: Text, src: seq<Byte>, i: nat)
    requires IsIdent(name) && At(name + SPACE, src, i)
    ensures NextToken(src, i) == Emit(Word(name), i + |name|)
  {
    var tail := src[i..];
    AtTail(name + SPACE, src, i);
    forall k | 0 <= k < |name| ensures tail[k] == name[k] { AtByte(name + SPACE, tail, 0, k); }
    AtByte(name + SPACE, tail, 0, |name|);
    assert IdentEnd(tail, 0) == |name|;
    AtSplit(name, SPACE, src, i);
    assert src[i] == tail[0] == name[0];
  }

  lemma StringReadBack(text: Text, src: seq<Byte>, i: nat)
    requires ValidUtf8(text) && At(RenderToken(Str(text)) + SPACE, src, i)
    ensures NextToken(src, i) == Emit(Str(text), i + |RenderToken(Str(text))|)
  {
    AtTail(RenderToken(Str(text)) + SPACE, src, i);
    LiteralReadBack(text, src[i..]);
  }

  lemma LiteralReadBack(text: Text, bytes: seq<Byte>)
    requires ValidUtf8(text) && At(RenderToken(Str(text)) + SPACE, bytes, 0)
    ensures 0 < |bytes| && bytes[0] == '\"'
    ensures StringBody(bytes, 1, []) == Lexed(text, |RenderToken(Str(text))|)
  {
    hide Escape, CharLength, ValidUtf8, StringBody, At;
    var quote: Text := ['\"'];
    var body: Text := Escape(text) + quote;
    assert RenderToken(Str(text)) + SPACE == quote + (body + SPACE);
    AtSplit(quote, body + SPACE, bytes, 0);
    AtSplit(body, SPACE, bytes, 1);
    AtByte(quote, bytes, 0, 0);
    UnescapesEscape(text, bytes, 1, []);
    assert [] + text == text;
  }

  lemma SymbolReadBack(t: Token, src: seq<Byte>, i: nat)
    requires t.Compare? || t.And? || t.Or? || t.Not? || t.Dot? || t.LParen? || t.RParen?
    requires At(RenderToken(t) + SPACE, src, i)
    ensures NextToken(src, i) == Emit(t, i + |RenderToken(t)|)
  {
    AtByte(RenderToken(t) + SPACE, src, i, 0);
    AtByte(RenderToken(t) + SPACE, src, i, 1);
  }

  lemma NumeralReadBack(numeral: Text, src: seq<Byte>, i: nat)
    requires IsNumeral(numeral) && At(numeral + SPACE, src, i)
    ensures NextToken(src, i) == Emit(Num(numeral), i + |numeral|)
  {
    hide StringBody;
    AtByte(numeral + SPACE, src, i, 0);
    AtTail(numeral + SPACE, src, i);
    NumberReadBack(numeral, src[i..]);
  }

  lemma TokenReadBack(t: Token, src: seq<Byte>, i: nat)
    requires Lexable(t) && At(RenderToken(t) + SPACE, src, i)
    ensures NextToken(src, i) == Emit(t, i + |RenderToken(t)|)
  {
    hide At;
    match t
    case Ident(name) => WordReadBack(name, src, i);
    case True => WordReadBack("true", src, i);
    case False => WordReadBack("false", src, i);
    case Null => WordReadBack("null", src, i);
    case Str(text) => StringReadBack(text, src, i);
    case Num(numeral) => NumeralReadBack(numeral, src, i);
    case _ => SymbolReadBack(t, src, i);
  }

  lemma RenderedSome(t: Token)
    requires Lexable(t)
    ensures RenderToken(t) != []
  {
  }

  /** The first token and the space after it. */
  lemma FirstReadBack(ts: seq<Token>, src: seq<Byte>, i: nat) returns (n: nat)
    requires ts != [] && AllLexable(ts) && At(RenderTokens(ts), src, i) && i + |RenderTokens(ts)| == |src|
    ensures i < n < |src| && src[n] == ' ' && NextToken(src, i) == Emit(ts[0], n)
    ensures At(RenderTokens(ts[1..]), src, n + 1) && n + 1 + |RenderTokens(ts[1..])| == |src|
  {
    hide NextToken, RenderToken, At, Lexable;
    var lex: seq<Byte> := RenderToken(ts[0]) + SPACE;
    AtSplit(lex, RenderTokens(ts[1..]), src, i);
    RenderedSome(ts[0]);
    TokenReadBack(ts[0], src, i);
    AtByte(lex, src, i, |lex| - 1);
    n := i + |lex| - 1;
  }

  lemma {:induction false} TokensReadBack(ts: seq<Token>, src: seq<Byte>, i: nat)
    requires AllLexable(ts) && At(RenderTokens(ts), src, i) && i + |RenderTokens(ts)| == |src|
    ensures LexFrom(src, i) == Tokens(ts)
    decreases |ts|
  {
    hide NextToken, At, Lexable, RenderToken;
    if ts == [] {
      assert LexFrom(src, i) == Tokens([]);
    } else {
      hide LexFrom, RenderTokens;
      var n := FirstReadBack(ts, src, i);
      TokensReadBack(ts[1..], src, n + 1);
      EmitThenSkip(ts[0], src, i, n);
      assert [ts[0]] + ts[1..] == ts;
    }
  }

  lemma EmitThenSkip(t: Token, src: seq<Byte>, i: nat, n: nat)
    requires i < n < |src| && NextToken(src, i) == Emit(t, n) && src[n] == ' '
    ensures LexFrom(src, i) == Prepend([t], LexFrom(src, n + 1))
  {
    assert NextToken(src, n) == Skip(n + 1);
  }

  // ---- Every lexed token could have been rendered ----------------------------------------------

  lemma NumberIsNumeral(bytes: seq<Byte>)
    requires 0 < |bytes| && bytes[0] != '.' && Number(bytes).Lexed?
    ensures IsNumeral(Number(bytes).text)
  {
    var t := Number(bytes).text;
    var start := if bytes[0] == '-' then 1 else 0;
    var digits := if t[0] == '-' then t[1..] else t;
    assert forall k :: 0 <= k < |digits| ==> digits[k] == bytes[start + k];
    var whole := DigitsEnd(bytes, start);
    assert forall k :: 0 <= k < |digits| && start + k != whole ==> IsDigit(digits[k]);
    assert if start < whole then IsDigit(digits[0]) else IsDigit(digits[1]);
  }

  lemma NextTokenLexable(src: seq<Byte>, i: nat)
    requires i < |src| && NextToken(src, i).Emit?
    ensures Lexable(NextToken(src, i).token)
  {
    var tail := src[i..];
    if tail[0] == '-' || IsDigit(tail[0]) {
      NumberIsNumeral(tail);
    } else if IsIdentStart(tail[0]) {
      var n := IdentEnd(tail, 0);
      assert src[i..i + n] == tail[..n];
    }
  }

  lemma {:induction false} LexedAreLexable(src: seq<Byte>, i: nat)
    requires i <= |src|
    ensures LexFrom(src, i).Tokens? ==> AllLexable(LexFrom(src, i).tokens)
    decreases |src| - i
  {
    if i < |src| {
      match NextToken(src, i)
      case Emit(_, n) =>
        NextTokenLexable(src, i);
        LexedAreLexable(src, n);
      case Skip(n) => LexedAreLexable(src, n);
      case Stop(_) =>
    }
  }

  // ---- Valid sources never trip the UTF-8 check ------------------------------------------------

  lemma {:induction false} StringBodyKeepsUtf8(bytes: seq<Byte>, i: nat, out: Text)
    requires i <= |bytes| && ValidUtf8(bytes[i..]) && ValidUtf8(out)
    ensures StringBody(bytes, i, out) != Rejected(InvalidUtf8)
    decreases |bytes| - i
  {
    if i < |bytes| && bytes[i] != '\"' {
      var rest := bytes[i..];
      var n := CharLength(rest);
      CharBytes(rest);
      assert rest[n..] == bytes[i + n..];
      if bytes[i] == '\\' {
        if i + 1 < |bytes| && Unescape(bytes[i + 1]) != [] {
          assert CharLength(bytes[i + 1..]) == 1 && bytes[i + 1..][1..] == bytes[i + 2..];
          var c := Unescape(bytes[i + 1]);
          assert CharLength(c) == 1 && c[1..] == [];
          ValidConcat(out, c);
          StringBodyKeepsUtf8(bytes, i + 2, out + c);
        }
      } else {
        ValidConcat(out, rest[..n]);
        PlainBytes(bytes, i, n, out);
        StringBodyKeepsUtf8(bytes, i + n, out + rest[..n]);
      }
    }
  }

  lemma {:induction false} PlainBytes(bytes: seq<Byte>, i: nat, n: nat, out: Text)
    requires i + n <= |bytes|
    requires forall k :: i <= k < i + n ==> bytes[k] != '\"' && bytes[k] != '\\'
    ensures StringBody(bytes, i, out) == StringBody(bytes, i + n, out + bytes[i..][..n])
    decreases n
  {
    if n == 0 {
      assert out + bytes[i..][..n] == out;
    } else {
      PlainBytes(bytes, i + 1, n - 1, out + [bytes[i]]);
      assert out + [bytes[i]] + bytes[i + 1..][..n - 1] == out + bytes[i..][..n];
    }
  }

  // ---- Main results ----------------------------------------------------------------------------

  /** Rendering a canonical tree and parsing the text gives the tree back. */
  lemma TextRoundTrip(e: Expr)
    requires OrForm(e) && AllLexable(PrintExpr(e))
    ensures ParseText(Render(e)) == Parses(e)
  {
    var src := Render(e);
    assert src[0..|src|] == src;
    TokensReadBack(PrintExpr(e), src, 0);
    ParseInvertsPrint(PrintExpr(e), e);
  }

  /** So the trees that some source text denotes are exactly the canonical ones with lexable leaves,
      and re-rendering a parsed condition never changes what it parses to. */
  lemma DenotedTrees(e: Expr)
    ensures (exists src :: ParseText(src) == Parses(e)) <==> OrForm(e) && AllLexable(PrintExpr(e))
  {
    if OrForm(e) && AllLexable(PrintExpr(e)) { TextRoundTrip(e); }
    forall src | ParseText(src) == Parses(e) ensures OrForm(e) && AllLexable(PrintExpr(e)) {
      LexedAreLexable(src, 0);
      ParseInvertsPrint(LexFrom(src, 0).tokens, e);
    }
  }

  lemma ReparseIsStable(src: seq<Byte>)
    requires ParseText(src).Parses?
    ensures ParseText(Render(ParseText(src).expr)) == ParseText(src)
  {
    DenotedTrees(ParseText(src).expr);
    TextRoundTrip(ParseText(src).expr);
  }

  /** A string literal inside well-formed UTF-8 is never rejected as malformed UTF-8. */
  lemma LiteralNeverMalformed(bytes: seq<Byte>)
    requires 0 < |bytes| && bytes[0] == '\"' && ValidUtf8(bytes)
    ensures StringBody(bytes, 1, []) != Rejected(InvalidUtf8)
  {
    assert CharLength(bytes) == 1;
    StringBodyKeepsUtf8(bytes, 1, []);
  }
}
