/** Well-formed UTF-8, as `String::from_utf8` decides it (table 3-7 of the Unicode standard). */
module Utf8 {
  import opened ConditionSyntax

  predicate Between(b: Byte, lo: int, hi: int) { lo <= b as int <= hi }

  predicate Continuation(b: Byte) { Between(b, 0x80, 0xBF) }

  /** Length of the well-formed character at the front of `s`; 0 when there is none. */
  function CharLength(s: seq<Byte>): (n: nat)
    ensures n <= |s| && n <= 4
  {
    if |s| == 0 then 0
    else if Between(s[0], 0x00, 0x7F) then 1
    else if Between(s[0], 0xC2, 0xDF) && 2 <= |s| && Continuation(s[1]) then 2
    else if Between(s[0], 0xE0, 0xEF) && 3 <= |s| && SecondOk(s[0], s[1]) && Continuation(s[2]) then 3
    else if Between(s[0], 0xF0, 0xF4) && 4 <= |s| && SecondOk(s[0], s[1]) && Continuation(s[2]) && Continuation(s[3])
    then 4
    else 0
  }

  /** Overlong forms, surrogates and code points past U+10FFFF are told by the second byte. */
  predicate SecondOk(first: Byte, second: Byte) {
    match first as int
    case 0xE0 => Between(second, 0xA0, 0xBF)
    case 0xED => Between(second, 0x80, 0x9F)
    case 0xF0 => Between(second, 0x90, 0xBF)
    case 0xF4 => Between(second, 0x80, 0x8F)
    case _ => Continuation(second)
  }

  predicate ValidUtf8(s: seq<Byte>) {
    s == [] || (CharLength(s) != 0 && ValidUtf8(s[CharLength(s)..]))
  }

  /** What follows a character does not matter to it. */
  lemma CharLengthLocal(a: seq<Byte>, b: seq<Byte>)
    requires CharLength(a) != 0
    ensures CharLength(a + b) == CharLength(a)
  {
  }

  lemma FirstCharThenRest(s: seq<Byte>)
    requires s != []
    ensures ValidUtf8(s) <==> CharLength(s) != 0 && ValidUtf8(s[CharLength(s)..])
  {
  }

  lemma {:induction false} ValidConcat(a: seq<Byte>, b: seq<Byte>)
    requires ValidUtf8(a) && ValidUtf8(b)
    ensures ValidUtf8(a + b)
    decreases |a|
  {
    hide CharLength, ValidUtf8;
    if a == [] {
      assert a + b == b;
    } else {
      FirstCharThenRest(a);
      CharLengthLocal(a, b);
      var n := CharLength(a);
      ValidConcat(a[n..], b);
      assert (a + b)[n..] == a[n..] + b;
      FirstCharThenRest(a + b);
    }
  }

  /** The bytes of one character: a single ASCII byte, or bytes that are all outside ASCII. */
  lemma CharBytes(s: seq<Byte>)
    requires CharLength(s) != 0
    ensures ValidUtf8(s[..CharLength(s)])
    ensures CharLength(s) == 1 ==> s[0] as int < 0x80
    ensures 1 < CharLength(s) ==> forall k :: 0 <= k < CharLength(s) ==> 0x80 <= s[k] as int
  {
    var c := s[..CharLength(s)];
    assert CharLength(c) == |c|;
    assert c[|c|..] == [];
  }

  // ---- The encoding it recognises --------------------------------------------------------------

  /** A Unicode scalar value: any code point but a surrogate. */
  predicate Scalar(c: int) { 0 <= c <= 0x10FFFF && !(0xD800 <= c <= 0xDFFF) }

  function ByteOf(n: int): Byte
    requires 0 <= n < 0x100
  {
    n as char
  }

  function Trailing(c: int): Byte
    requires 0 <= c
  {
    ByteOf(0x80 + c % 64)
  }

  function Encode(c: int): seq<Byte>
    requires Scalar(c)
  {
    if c < 0x80 then [ByteOf(c)]
    else if c < 0x800 then [ByteOf(0xC0 + c / 64), Trailing(c)]
    else if c < 0x10000 then [ByteOf(0xE0 + c / 4096), Trailing(c / 64), Trailing(c)]
    else [ByteOf(0xF0 + c / 262144), Trailing(c / 4096), Trailing(c / 64), Trailing(c)]
  }

  predicate Scalars(cs: seq<int>) { forall k :: 0 <= k < |cs| ==> Scalar(cs[k]) }

  function EncodeAll(cs: seq<int>): seq<Byte>
    requires Scalars(cs)
  {
    if cs == [] then [] else Encode(cs[0]) + EncodeAll(cs[1..])
  }

  lemma EncodedLength(c: int, rest: seq<Byte>)
    requires Scalar(c)
    ensures CharLength(Encode(c) + rest) == |Encode(c)| != 0
  {
  }

  /** The last six bits of a code point, and the rest. */
  lemma SixBits(high: int, low: int)
    requires 0 <= high && 0 <= low < 64
    ensures (high * 64 + low) / 64 == high && (high * 64 + low) % 64 == low
  {
  }

  lemma TwiceSix(c: int)
    requires 0 <= c
    ensures c / 4096 == c / 64 / 64 && c / 262144 == c / 4096 / 64
  {
  }

  lemma TwoBytes(s: seq<Byte>) returns (c: int)
    requires CharLength(s) == 2
    ensures Scalar(c) && Encode(c) == s[..2]
  {
    var a, b := s[0] as int - 0xC0, s[1] as int - 0x80;
    c := a * 64 + b;
    SixBits(a, b);
    assert Encode(c) == [s[0], s[1]];
  }

  lemma ThreeBytes(s: seq<Byte>) returns (c: int)
    requires CharLength(s) == 3
    ensures Scalar(c) && Encode(c) == s[..3]
  {
    var a, b, d := s[0] as int - 0xE0, s[1] as int - 0x80, s[2] as int - 0x80;
    c := (a * 64 + b) * 64 + d;
    SixBits(a * 64 + b, d);
    SixBits(a, b);
    TwiceSix(c);
    assert Scalar(c) && 0x800 <= c < 0x10000;
    assert Encode(c) == [s[0], s[1], s[2]];
  }

  lemma FourBytes(s: seq<Byte>) returns (c: int)
    requires CharLength(s) == 4
    ensures Scalar(c) && Encode(c) == s[..4]
  {
    var a, b, d, e := s[0] as int - 0xF0, s[1] as int - 0x80, s[2] as int - 0x80, s[3] as int - 0x80;
    c := ((a * 64 + b) * 64 + d) * 64 + e;
    SixBits((a * 64 + b) * 64 + d, e);
    SixBits(a * 64 + b, d);
    SixBits(a, b);
    TwiceSix(c);
    assert Scalar(c) && 0x10000 <= c;
    assert Encode(c) == [s[0], s[1], s[2], s[3]];
  }

  /** The code point of the character at the front. */
  lemma CharDecodes(s: seq<Byte>) returns (c: int)
    requires CharLength(s) != 0
    ensures Scalar(c) && Encode(c) == s[..CharLength(s)]
  {
    match CharLength(s)
    case 1 =>
      c := s[0] as int;
      assert Encode(c) == [s[0]];
    case 2 => c := TwoBytes(s);
    case 3 => c := ThreeBytes(s);
    case _ =>
      hide Scalar, Encode;
      c := FourBytes(s);
  }

  lemma {:induction false} EncodedValid(cs: seq<int>)
    requires Scalars(cs)
    ensures ValidUtf8(EncodeAll(cs))
  {
    hide Encode, CharLength;
    if cs == [] {
    } else {
      var rest := EncodeAll(cs[1..]);
      EncodedValid(cs[1..]);
      EncodedLength(cs[0], rest);
      assert (Encode(cs[0]) + rest)[|Encode(cs[0])|..] == rest;
    }
  }

  lemma {:induction false} ValidDecodes(s: seq<Byte>) returns (cs: seq<int>)
    requires ValidUtf8(s)
    ensures Scalars(cs) && EncodeAll(cs) == s
    decreases |s|
  {
    hide Encode, Scalar;
    if s == [] {
      cs := [];
    } else {
      var c := CharDecodes(s);
      hide CharLength;
      var rest := ValidDecodes(s[CharLength(s)..]);
      cs := [c] + rest;
      assert cs[1..] == rest;
      assert s == s[..CharLength(s)] + s[CharLength(s)..];
    }
  }

  /** Well-formed is exactly what some sequence of scalar values is encoded as. */
  lemma ValidIffEncoded(s: seq<Byte>)
    ensures ValidUtf8(s) <==> exists cs :: Scalars(cs) && EncodeAll(cs) == s
  {
    if ValidUtf8(s) { var cs := ValidDecodes(s); }
    if cs :| Scalars(cs) && EncodeAll(cs) == s { EncodedValid(cs); }
  }
}
