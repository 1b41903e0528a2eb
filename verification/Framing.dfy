/** Newline-delimited frames on the daemon socket: `read_line_capped` over a buffered reader. */
module Framing {
  import opened ConditionSyntax
  import opened Utf8

  const MAX_FRAME_BYTES := 1024 * 1024

  const LF: Byte := '\n'
  const CR: Byte := '\r'

  /** What one fill of the reader's buffer brings. */
  datatype Arrival = Bytes(chunk: seq<Byte>) | Interrupt | Broken

  datatype Ending = Eof | IoError | TooLarge | BadUtf8

  datatype Read = Frame(text: seq<Byte>) | Ended(ending: Ending)

  // ---- Specification: on the bytes alone -------------------------------------------------------

  /** The bytes that arrive before the stream ends, and whether it ends in a failure. */
  function Content(a: seq<Arrival>): seq<Byte> {
    if a == [] || a[0].Broken? then []
    else (if a[0].Bytes? then a[0].chunk else []) + Content(a[1..])
  }

  predicate Fails(a: seq<Arrival>) {
    a != [] && (a[0].Broken? || Fails(a[1..]))
  }

  /** Index of the first newline, or the length. */
  function Newline(s: seq<Byte>): (n: nat)
    ensures n <= |s| && (n < |s| ==> s[n] == LF) && LF !in s[..n]
  {
    if s == [] || s[0] == LF then 0
    else
      assert s[..1 + Newline(s[1..])] == [s[0]] + s[1..][..Newline(s[1..])];
      1 + Newline(s[1..])
  }

  function Stripped(line: seq<Byte>): seq<Byte> {
    if line != [] && line[|line| - 1] == LF then
      var body := line[..|line| - 1];
      if body != [] && body[|body| - 1] == CR then body[..|body| - 1] else body
    else line
  }

  function Decoded(line: seq<Byte>): Read {
    if ValidUtf8(Stripped(line)) then Frame(Stripped(line)) else Ended(BadUtf8)
  }

  /** The first line with its newline, or all there is. */
  function FirstLine(s: seq<Byte>): seq<Byte> {
    s[..if Newline(s) < |s| then Newline(s) + 1 else |s|]
  }

  function ReadFrame(s: seq<Byte>, fails: bool): Read {
    var line := FirstLine(s);
    if MAX_FRAME_BYTES < |line| then Ended(TooLarge)
    else if Newline(s) == |s| && fails then Ended(IoError)
    else if s == [] then Ended(Eof)
    else Decoded(line)
  }

  /** All frames up to the end of the stream or the first error. */
  function Decode(s: seq<Byte>, fails: bool): (seq<seq<Byte>>, Ending)
    decreases |s|
  {
    match ReadFrame(s, fails)
    case Ended(e) => ([], e)
    case Frame(text) =>
      var (frames, e) := Decode(s[|FirstLine(s)|..], fails);
      ([text] + frames, e)
  }

  lemma ContentCons(c: seq<Byte>, rest: seq<Arrival>)
    ensures Content([Bytes(c)] + rest) == c + Content(rest)
    ensures Fails([Bytes(c)] + rest) == Fails(rest)
  {
  }

  /** `a` after `n` bytes of its first fill are consumed. */
  function Consumed(a: seq<Arrival>, n: nat): seq<Arrival>
    requires a != [] && a[0].Bytes? && n <= |a[0].chunk|
  {
    (if n < |a[0].chunk| then [Bytes(a[0].chunk[n..])] else []) + a[1..]
  }

  lemma ConsumedContent(a: seq<Arrival>, n: nat)
    requires a != [] && a[0].Bytes? && 0 < n <= |a[0].chunk|
    ensures Content(a) == a[0].chunk[..n] + Content(Consumed(a, n))
    ensures Fails(Consumed(a, n)) == Fails(a)
    ensures |Consumed(a, n)| <= |a| && a[0].chunk <= Content(a)
  {
    var c, rest := a[0].chunk, a[1..];
    assert a == [a[0]] + rest;
    ContentCons(c, rest);
    ContentCons(c[n..], rest);
    assert c == c[..n] + c[n..];
    assert n == |c| ==> Consumed(a, n) == rest;
  }

  /** A fill that brought no byte at all would mean the end of the stream. */
  predicate NoEmptyFill(a: seq<Arrival>) {
    forall i :: 0 <= i < |a| && a[i].Bytes? ==> a[i].chunk != []
  }

  // ---- The reader ------------------------------------------------------------------------------

  class Reader {
    var arrivals: seq<Arrival>

    predicate Valid()
      reads this
    {
      NoEmptyFill(arrivals)
    }

    constructor (arrivals: seq<Arrival>)
      requires NoEmptyFill(arrivals)
      ensures Valid() && this.arrivals == arrivals
    {
      this.arrivals := arrivals;
    }

    /** `fill_buf`: what is buffered stays until it is consumed; an interruption is gone once told. */
    method FillBuf() returns (r: Arrival)
      requires Valid()
      modifies this
      ensures Valid()
      ensures r == if old(arrivals) == [] then Bytes([]) else old(arrivals[0])
      ensures arrivals == if r.Interrupt? then old(arrivals)[1..] else old(arrivals)
    {
      if arrivals == [] { return Bytes([]); }
      r := arrivals[0];
      if r.Interrupt? { arrivals := arrivals[1..]; }
    }

    method Consume(n: nat)
      requires Valid() && arrivals != [] && arrivals[0].Bytes? && 0 < n <= |arrivals[0].chunk|
      modifies this
      ensures Valid() && arrivals == Consumed(old(arrivals), n)
    {
      arrivals := Consumed(arrivals, n);
    }
  }

  lemma {:induction false} NewlineIs(s: seq<Byte>, n: nat)
    requires n <= |s| && LF !in s[..n] && (n < |s| ==> s[n] == LF)
    ensures Newline(s) == n
  {
    assert 0 < n ==> s[0] == s[..n][0];
    if s != [] && s[0] != LF {
      assert s[1..][..n - 1] == s[..n][1..];
      NewlineIs(s[1..], n - 1);
    }
  }

  lemma NewlineOfConcat(a: seq<Byte>, b: seq<Byte>)
    requires LF !in a
    ensures Newline(a + b) == |a| + Newline(b)
  {
    assert (a + b)[..|a| + Newline(b)] == a + b[..Newline(b)];
    NewlineIs(a + b, |a| + Newline(b));
  }

  lemma NoNewline(a: seq<Byte>)
    ensures Newline(a) == |a| <==> LF !in a
  {
    assert a[..|a|] == a;
    if LF !in a { NewlineIs(a, |a|); }
  }

  /** What one fill tells about the first line, given what was read of it before. */
  lemma AfterFill(buf: seq<Byte>, avail: seq<Byte>, rest: seq<Byte>)
    requires LF !in buf && avail <= rest
    ensures var s, at := buf + rest, Newline(avail);
      && (at < |avail| ==> FirstLine(s) == buf + avail[..at + 1] && Newline(s) < |s|)
      && (at == |avail| ==> LF !in buf + avail && |buf + avail| <= |FirstLine(s)|)
  {
    NewlineOfConcat(buf, rest);
    NoNewline(avail);
    var at := Newline(avail);
    if at < |avail| {
      assert rest[..at] == avail[..at];
      NewlineIs(rest, at);
    } else {
      assert rest == avail + rest[|avail|..];
      NewlineOfConcat(avail, rest[|avail|..]);
    }
  }

  lemma AtEnd(buf: seq<Byte>)
    requires LF !in buf
    ensures FirstLine(buf) == buf && Newline(buf) == |buf|
  {
    NoNewline(buf);
  }

  datatype Progress = More | Line | Stop(r: Read)

  ghost predicate Partial(buf: seq<Byte>) { LF !in buf && |buf| <= MAX_FRAME_BYTES }

  /** What one turn of the loop owes: `buf` and `a` before it, `grown` and `b` after it. */
  ghost predicate TurnOk(buf: seq<Byte>, a: seq<Arrival>, p: Progress, grown: seq<Byte>, b: seq<Arrival>) {
    var s := buf + Content(a);
    match p
    case More =>
      && Partial(grown) && grown + Content(b) == s && Fails(b) == Fails(a)
      && |Content(b)| + |b| < |Content(a)| + |a|
    case Line =>
      && grown == FirstLine(s) && grown + Content(b) == s && Fails(b) == Fails(a)
      && ReadFrame(s, Fails(a)) == Decoded(grown)
    case Stop(r) =>
      && r == ReadFrame(s, Fails(a)) && b == a
      && (r.Frame? ==> s == FirstLine(s) && Content(a) == [])
  }

  lemma EndOk(buf: seq<Byte>, a: seq<Arrival>)
    requires Partial(buf)
    ensures a == [] ==> TurnOk(buf, a, Stop(if buf == [] then Ended(Eof) else Decoded(buf)), buf, a)
    ensures a != [] && a[0].Broken? ==> TurnOk(buf, a, Stop(Ended(IoError)), buf, a)
    ensures a != [] && a[0].Interrupt? ==> TurnOk(buf, a, More, buf, a[1..])
  {
    AtEnd(buf);
    assert buf + [] == buf;
  }

  lemma DataOk(buf: seq<Byte>, a: seq<Arrival>)
    requires Partial(buf) && a != [] && a[0].Bytes? && a[0].chunk != []
    ensures var avail := a[0].chunk;
      var found := Newline(avail) < |avail|;
      var take := if found then Newline(avail) + 1 else |avail|;
      if MAX_FRAME_BYTES < |buf| + take then TurnOk(buf, a, Stop(Ended(TooLarge)), buf, a)
      else TurnOk(buf, a, if found then Line else More, buf + avail[..take], Consumed(a, take))
  {
    hide ValidUtf8, FirstLine, Stripped;
    var avail, rest := a[0].chunk, Content(a);
    var found := Newline(avail) < |avail|;
    var take := if found then Newline(avail) + 1 else |avail|;
    ConsumedContent(a, take);
    AfterFill(buf, avail, rest);
    assert buf + rest == (buf + avail[..take]) + Content(Consumed(a, take));
    assert avail[..|avail|] == avail;
  }

  method ReadSome(reader: Reader, buf: seq<Byte>) returns (p: Progress, grown: seq<Byte>)
    requires reader.Valid() && Partial(buf)
    modifies reader
    ensures reader.Valid() && TurnOk(buf, old(reader.arrivals), p, grown, reader.arrivals)
  {
    EndOk(buf, reader.arrivals);
    var filled := reader.FillBuf();
    match filled {
      case Interrupt => return More, buf;
      case Broken => return Stop(Ended(IoError)), buf;
      case Bytes(avail) =>
        if avail == [] { return Stop(if buf == [] then Ended(Eof) else Decoded(buf)), buf; }
        DataOk(buf, reader.arrivals);
        var found := Newline(avail) < |avail|;
        var take := if found then Newline(avail) + 1 else |avail|;
        if MAX_FRAME_BYTES < |buf| + take { return Stop(Ended(TooLarge)), buf; }
        reader.Consume(take);
        return if found then Line else More, buf + avail[..take];
    }
  }

  /** The answer depends on the bytes of the stream and on how it ends, not on how the bytes are cut
      into fills or how often a fill is interrupted; and the reader is left at the next line. */
  method ReadLineCapped(reader: Reader) returns (r: Read)
    requires reader.Valid()
    modifies reader
    ensures reader.Valid()
    ensures r == ReadFrame(old(Content(reader.arrivals)), old(Fails(reader.arrivals)))
    ensures r.Frame? ==> Fails(reader.arrivals) == old(Fails(reader.arrivals))
    ensures r.Frame? ==>
      old(Content(reader.arrivals)) == FirstLine(old(Content(reader.arrivals))) + Content(reader.arrivals)
  {
    var buf: seq<Byte> := [];
    ghost var s, fails := Content(reader.arrivals), Fails(reader.arrivals);
    while true
      invariant reader.Valid() && Fails(reader.arrivals) == fails
      invariant s == buf + Content(reader.arrivals) && Partial(buf)
      decreases |Content(reader.arrivals)| + |reader.arrivals|
    {
      var p;
      p, buf := ReadSome(reader, buf);
      match p {
        case More =>
        case Line => return Decoded(buf);
        case Stop(answer) => return answer;
      }
    }
  }

  /** Decoding `s` gives `frames` and then what decoding `rest` gives. */
  ghost predicate Continues(s: seq<Byte>, fails: bool, frames: seq<seq<Byte>>, rest: seq<Byte>) {
    Decode(s, fails).0 == frames + Decode(rest, fails).0 && Decode(s, fails).1 == Decode(rest, fails).1
  }

  lemma DecodeStep(s: seq<Byte>, fails: bool, frames: seq<seq<Byte>>, rest: seq<Byte>)
    requires Continues(s, fails, frames, rest) && ReadFrame(rest, fails).Frame?
    ensures FirstLine(rest) != []
    ensures Continues(s, fails, frames + [ReadFrame(rest, fails).text], rest[|FirstLine(rest)|..])
  {
  }

  lemma DecodeEnd(s: seq<Byte>, fails: bool, frames: seq<seq<Byte>>, rest: seq<Byte>)
    requires Continues(s, fails, frames, rest) && ReadFrame(rest, fails).Ended?
    ensures Decode(s, fails) == (frames, ReadFrame(rest, fails).ending)
  {
    assert frames + [] == frames;
    assert Decode(s, fails) == (Decode(s, fails).0, Decode(s, fails).1);
  }

  /** One frame more, or the end of the whole. */
  method ReadNext(reader: Reader, frames: seq<seq<Byte>>, ghost s: seq<Byte>, ghost fails: bool)
    returns (r: Read, more: seq<seq<Byte>>)
    requires reader.Valid() && fails == Fails(reader.arrivals) && Continues(s, fails, frames, Content(reader.arrivals))
    modifies reader
    ensures reader.Valid()
    ensures r.Ended? ==> Decode(s, fails) == (more, r.ending)
    ensures r.Frame? ==> Fails(reader.arrivals) == fails && Continues(s, fails, more, Content(reader.arrivals))
    ensures r.Frame? ==> |Content(reader.arrivals)| < old(|Content(reader.arrivals)|)
  {
    ghost var rest := Content(reader.arrivals);
    r := ReadLineCapped(reader);
    match r {
      case Ended(_) =>
        DecodeEnd(s, fails, frames, rest);
        more := frames;
      case Frame(text) =>
        assert rest[|FirstLine(rest)|..] == Content(reader.arrivals);
        DecodeStep(s, fails, frames, rest);
        more := frames + [text];
    }
  }

  /** The connection loop: frames until the stream ends or the first error. */
  method ReadAll(reader: Reader) returns (frames: seq<seq<Byte>>, ending: Ending)
    requires reader.Valid()
    modifies reader
    ensures (frames, ending) == Decode(old(Content(reader.arrivals)), old(Fails(reader.arrivals)))
  {
    frames := [];
    ghost var s, fails := Content(reader.arrivals), Fails(reader.arrivals);
    while true
      invariant reader.Valid() && Fails(reader.arrivals) == fails
      invariant Continues(s, fails, frames, Content(reader.arrivals))
      decreases |Content(reader.arrivals)|
    {
      var r;
      r, frames := ReadNext(reader, frames, s, fails);
      if r.Ended? { return frames, r.ending; }
    }
  }

  // ---- Main results ----------------------------------------------------------------------------

  lemma {:induction false} ContentConcat(a: seq<Arrival>, b: seq<Arrival>)
    requires !Fails(a)
    ensures Content(a + b) == Content(a) + Content(b) && Fails(a + b) == Fails(b)
    decreases |a|
  {
    if a == [] {
      assert a + b == b;
    } else {
      assert (a + b)[1..] == a[1..] + b;
      ContentConcat(a[1..], b);
    }
  }

  lemma {:induction false} AfterFailure(a: seq<Arrival>, b: seq<Arrival>)
    requires Fails(a)
    ensures Content(a + b) == Content(a) && Fails(a + b)
    decreases |a|
  {
    if !a[0].Broken? {
      assert (a + b)[1..] == a[1..] + b;
      AfterFailure(a[1..], b);
    }
  }

  /** Two ways in which the same bytes arrive, put in the same place of a stream. */
  lemma Replaceable(before: seq<Arrival>, x: seq<Arrival>, y: seq<Arrival>, after: seq<Arrival>)
    requires Content(x) == Content(y) && !Fails(x) && !Fails(y)
    ensures Content(before + (x + after)) == Content(before + (y + after))
    ensures Fails(before + (x + after)) == Fails(before + (y + after))
  {
    ContentConcat(x, after);
    ContentConcat(y, after);
    if Fails(before) {
      AfterFailure(before, x + after);
      AfterFailure(before, y + after);
    } else {
      ContentConcat(before, x + after);
      ContentConcat(before, y + after);
    }
  }

  /** Cutting a fill in two, or an interruption anywhere, changes neither the bytes nor the ending, and so
      no answer of the reader. */
  lemma ChunkingIrrelevant(before: seq<Arrival>, x: seq<Byte>, y: seq<Byte>, after: seq<Arrival>)
    ensures Content(before + ([Bytes(x), Bytes(y)] + after)) == Content(before + ([Bytes(x + y)] + after))
    ensures Fails(before + ([Bytes(x), Bytes(y)] + after)) == Fails(before + ([Bytes(x + y)] + after))
    ensures Content(before + ([Interrupt] + after)) == Content(before + ([] + after))
    ensures Fails(before + ([Interrupt] + after)) == Fails(before + ([] + after))
  {
    assert [Bytes(x), Bytes(y)] == [Bytes(x)] + [Bytes(y)] && [Bytes(y)] == [Bytes(y)] + [];
    assert [Bytes(x + y)] == [Bytes(x + y)] + [];
    ContentCons(x, [Bytes(y)]);
    ContentCons(y, []);
    ContentCons(x + y, []);
    Replaceable(before, [Bytes(x), Bytes(y)], [Bytes(x + y)], after);
    assert [Interrupt][1..] == [];
    Replaceable(before, [Interrupt], [], after);
  }

  /** One frame per line, as `writeln!` writes them. */
  function Encode(frames: seq<seq<Byte>>): seq<Byte> {
    if frames == [] then [] else frames[0] + [LF] + Encode(frames[1..])
  }

  predicate FrameOk(text: seq<Byte>) {
    ValidUtf8(text) && LF !in text && (text != [] ==> text[|text| - 1] != CR) && |text| < MAX_FRAME_BYTES
  }

  lemma FirstOfEncoded(text: seq<Byte>, rest: seq<Byte>)
    requires LF !in text
    ensures FirstLine(text + [LF] + rest) == text + [LF]
    ensures (text + [LF] + rest)[|text + [LF]|..] == rest
    ensures Newline(text + [LF] + rest) < |text + [LF] + rest|
  {
    assert text + [LF] + rest == text + ([LF] + rest);
    NewlineOfConcat(text, [LF] + rest);
  }

  predicate FramesOk(frames: seq<seq<Byte>>) { forall i :: 0 <= i < |frames| ==> FrameOk(frames[i]) }

  lemma FramesOkCons(frames: seq<seq<Byte>>)
    requires frames != []
    ensures FramesOk(frames) <==> FrameOk(frames[0]) && FramesOk(frames[1..])
  {
    hide FrameOk;
    assert frames == [frames[0]] + frames[1..];
  }

  lemma DecodeHead(s: seq<Byte>, fails: bool)
    ensures Decode(s, fails).0 != [] ==> ReadFrame(s, fails) == Frame(Decode(s, fails).0[0])
    ensures ReadFrame(s, fails).Frame? ==>
      Decode(s, fails).0 == [ReadFrame(s, fails).text] + Decode(s[|FirstLine(s)|..], fails).0
      && Decode(s, fails).1 == Decode(s[|FirstLine(s)|..], fails).1
  {
    hide ReadFrame, FirstLine;
  }

  lemma ConsEqual(x: seq<Byte>, a: seq<seq<Byte>>, b: seq<seq<Byte>>)
    ensures [x] + a == [x] + b <==> a == b
  {
    assert ([x] + a)[1..] == a && ([x] + b)[1..] == b;
  }

  /** The first frame comes back and the others as before, or the whole is not what was written. */
  lemma RoundTripStep(text: seq<Byte>, more: seq<seq<Byte>>, rest: seq<Byte>)
    ensures Decode(text + [LF] + rest, false) == ([text] + more, Eof) <==>
      FrameOk(text) && Decode(rest, false) == (more, Eof)
  {
    hide FrameOk, ReadFrame, FirstLine, Decode, Newline;
    var s := text + [LF] + rest;
    FirstFrameBack(text, rest);
    DecodeHead(s, false);
    if FrameOk(text) {
      FrameOkHasNoNewline(text);
      FirstOfEncoded(text, rest);
      ConsEqual(text, Decode(rest, false).0, more);
    }
    assert ([text] + more)[0] == text;
  }

  /** Frames written one per line are read back exactly when each of them is UTF-8 below the cap, without
      a newline and not ending in a carriage return. */
  lemma {:induction false} FramesRoundTrip(frames: seq<seq<Byte>>)
    ensures Decode(Encode(frames), false) == (frames, Eof) <==> FramesOk(frames)
    decreases |frames|
  {
    if frames == [] {
    } else {
      hide FrameOk, FramesOk, Decode;
      var text, more := frames[0], frames[1..];
      FramesRoundTrip(more);
      FramesOkCons(frames);
      assert frames == [text] + more;
      RoundTripStep(text, more, Encode(more));
    }
  }

  lemma FrameOkHasNoNewline(text: seq<Byte>)
    requires FrameOk(text)
    ensures LF !in text
  {
  }

  /** The first frame comes back, in exactly the good case. */
  lemma FirstFrameBack(text: seq<Byte>, rest: seq<Byte>)
    ensures ReadFrame(text + [LF] + rest, false) == Frame(text) <==> FrameOk(text)
  {
    hide ValidUtf8, FirstLine, Newline;
    var s := text + [LF] + rest;
    StrippedHasNoNewline(s);
    if LF !in text {
      FirstOfEncoded(text, rest);
      assert (text + [LF])[..|text|] == text;
    }
  }

  lemma StrippedHasNoNewline(s: seq<Byte>)
    ensures LF !in Stripped(FirstLine(s))
  {
    var n := Newline(s);
    if n < |s| {
      assert FirstLine(s)[..n] == s[..n];
    } else {
      assert s[..n] == s;
    }
  }

  /** A line, given without its newline, that reading gets past. */
  predicate LineOk(line: seq<Byte>) {
    |line| < MAX_FRAME_BYTES && ValidUtf8(Stripped(line + [LF]))
  }

  /** Line `k` with its newline, or the unterminated tail, is over the cap; all lines before are good. */
  predicate OversizedAt(lines: seq<seq<Byte>>, tail: seq<Byte>, k: nat) {
    && k <= |lines|
    && MAX_FRAME_BYTES < (if k < |lines| then |lines[k]| + 1 else |tail|)
    && forall i :: 0 <= i < k ==> LineOk(lines[i])
  }

  lemma OversizedShift(lines: seq<seq<Byte>>, tail: seq<Byte>)
    requires lines != [] && LineOk(lines[0])
    ensures (exists k: nat :: OversizedAt(lines, tail, k)) <==> (exists k: nat :: OversizedAt(lines[1..], tail, k))
  {
    if k: nat :| OversizedAt(lines, tail, k) {
      assert k > 0;
      assert OversizedAt(lines[1..], tail, k - 1);
    }
    if k: nat :| OversizedAt(lines[1..], tail, k) {
      forall i | 0 <= i < k + 1 ensures LineOk(lines[i]) {
        if i > 0 { assert LineOk(lines[1..][i - 1]); }
      }
      assert OversizedAt(lines, tail, k + 1);
    }
  }

  lemma TailOutcome(tail: seq<Byte>, fails: bool)
    requires LF !in tail
    ensures Decode(tail, fails).1 == TooLarge <==> MAX_FRAME_BYTES < |tail|
  {
    AtEnd(tail);
    assert tail[|tail|..] == [];
    AtEnd([]);
  }

  /** Reading ends for size exactly when some line, with its newline, exceeds the cap and all lines
      before it decode. */
  lemma {:induction false} SizeFailureIff(lines: seq<seq<Byte>>, tail: seq<Byte>, fails: bool)
    requires forall i :: 0 <= i < |lines| ==> LF !in lines[i]
    requires LF !in tail
    ensures Decode(Encode(lines) + tail, fails).1 == TooLarge <==> exists k: nat :: OversizedAt(lines, tail, k)
    decreases |lines|
  {
    if lines == [] {
      assert Encode(lines) + tail == tail;
      TailOutcome(tail, fails);
      assert OversizedAt(lines, tail, 0) <==> MAX_FRAME_BYTES < |tail|;
    } else {
      var line, rest := lines[0], Encode(lines[1..]) + tail;
      assert Encode(lines) + tail == line + [LF] + rest;
      FirstOfEncoded(line, rest);
      SizeFailureIff(lines[1..], tail, fails);
      if LineOk(line) {
        OversizedShift(lines, tail);
      } else {
        assert OversizedAt(lines, tail, 0) <==> MAX_FRAME_BYTES < |line| + 1;
      }
    }
  }
}
