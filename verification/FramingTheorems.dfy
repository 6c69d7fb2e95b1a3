/** Reading undoes writing, whatever the other headers, and a cut stream never yields a false message. */
module FramingTheorems {
  import opened Wrappers
  import opened Decimal
  import opened Text
  import opened Framing

  // ----- One line of a header

  lemma {:induction false} LineLengthOf(line: Bytes, s: Bytes)
    requires NEWLINE !in line
    ensures LineLength(line) == |line|
    ensures LineLength(line + [NEWLINE] + s) == |line| + 1
  {
    if line == [] {
      assert line + [NEWLINE] + s == [NEWLINE] + s;
    } else {
      LineLengthOf(line[1..], s);
      assert (line + [NEWLINE] + s)[1..] == line[1..] + [NEWLINE] + s;
    }
  }

  lemma TrimEndOfEnding(t: string)
    ensures TrimEndOfLine(t + "\r") == TrimEndOfLine(t)
    ensures TrimEndOfLine(t + "\r\n") == TrimEndOfLine(t)
  {
    assert (t + "\r")[..|t|] == t;
    assert (t + "\r\n")[..|t| + 1] == t + "\r";
  }

  /** A line without its line end. */
  ghost predicate IsLine(line: Bytes) {
    NEWLINE !in line && DecodeUtf8(line).Some?
  }

  ghost function LineText(line: Bytes): string
    requires IsLine(line)
  {
    TrimEndOfLine(DecodeUtf8(line).value)
  }

  /** How a line may end: only the last line of a stream lacks its newline. */
  ghost predicate IsEnding(ending: Bytes, s: Bytes) {
    ending == CRLF || (s == [] && (ending == [] || ending == [0xD]))
  }

  lemma EndingDecodes(line: Bytes, ending: Bytes)
    requires IsLine(line) && (ending == CRLF || ending == [] || ending == [0xD])
    ensures DecodeUtf8(line + ending).Some?
    ensures TrimEndOfLine(DecodeUtf8(line + ending).value) == LineText(line)
  {
    var e := if ending == [] then "" else if ending == CRLF then "\r\n" else "\r";
    assert ending == Ascii(e);
    DecodeOfAscii(e);
    DecodeOfConcat(line, ending);
    TrimEndOfEnding(DecodeUtf8(line).value);
    assert DecodeUtf8(line).value + "" == DecodeUtf8(line).value;
  }

  lemma EndingLength(line: Bytes, ending: Bytes, s: Bytes)
    requires NEWLINE !in line && IsEnding(ending, s)
    ensures LineLength(line + ending + s) == |line + ending|
  {
    if ending == CRLF {
      assert line + ending + s == line + [0xD] + [NEWLINE] + s;
      LineLengthOf(line + [0xD], s);
    } else {
      assert line + ending + s == line + ending;
      LineLengthOf(line + ending, s);
    }
  }

  lemma OneLine(line: Bytes, ending: Bytes, s: Bytes, length: Option<nat>)
    requires IsLine(line) && IsEnding(ending, s) && line + ending != []
    ensures HeadersFrom(line + ending + s, length) ==
            if LineText(line) == "" then Complete(length, s)
            else
              match LengthIn(LineText(line))
              case None => HeadersFrom(s, length)
              case Some(None) => Invalid(BadLength, s)
              case Some(Some(v)) => HeadersFrom(s, Some(v))
  {
    var all := line + ending + s;
    EndingLength(line, ending, s);
    EndingDecodes(line, ending);
    assert all[..|line + ending|] == line + ending;
    assert all[|line + ending|..] == s;
  }

  // ----- A whole header

  ghost predicate IsHeader(line: Bytes) {
    IsLine(line) && LineText(line) != "" && LengthIn(LineText(line)) != Some(None)
  }

  ghost function Block(lines: seq<Bytes>): Bytes {
    if lines == [] then [] else lines[0] + CRLF + Block(lines[1..])
  }

  /** The last `Content-Length` of the lines. */
  ghost function LastLength(lines: seq<Bytes>, length: Option<nat>): Option<nat>
    requires forall l :: l in lines ==> IsHeader(l)
  {
    if lines == [] then length
    else
      assert IsHeader(lines[0]);
      var l := LengthIn(LineText(lines[0]));
      LastLength(lines[1..], if l.Some? then l.value else length)
  }

  /** A header ends at its first blank line; only its last `Content-Length` matters. */
  lemma {:induction false} HeaderBlock(lines: seq<Bytes>, s: Bytes, length: Option<nat>)
    requires forall l :: l in lines ==> IsHeader(l)
    ensures HeadersFrom(Block(lines) + CRLF + s, length) == Complete(LastLength(lines, length), s)
  {
    if lines == [] {
      OneLine([], CRLF, s, length);
      assert Block(lines) + CRLF + s == [] + CRLF + s;
    } else {
      assert lines[0] in lines;
      var l := LengthIn(LineText(lines[0]));
      var next := if l.Some? then l.value else length;
      HeaderBlock(lines[1..], s, next);
      OneLine(lines[0], CRLF, Block(lines[1..]) + CRLF + s, length);
      assert Block(lines) + CRLF + s == lines[0] + CRLF + (Block(lines[1..]) + CRLF + s);
    }
  }

  lemma {:induction false} LastLengthOfConcat(a: seq<Bytes>, b: seq<Bytes>, length: Option<nat>)
    requires forall l :: l in a + b ==> IsHeader(l)
    ensures forall l :: l in a || l in b ==> IsHeader(l)
    ensures LastLength(a + b, length) == LastLength(b, LastLength(a, length))
  {
    assert forall l :: l in a || l in b ==> l in a + b;
    if a == [] {
      assert a + b == b;
    } else {
      assert a[0] in a;
      var l := LengthIn(LineText(a[0]));
      assert (a + b)[1..] == a[1..] + b;
      LastLengthOfConcat(a[1..], b, if l.Some? then l.value else length);
    }
  }

  // ----- The Content-Length line

  lemma TrimOfDigits(digits: string)
    requires AllDigits(digits)
    ensures Trim(" " + digits) == digits && Trim(digits) == digits && TrimEndOfLine(digits) == digits
  {
    assert (" " + digits)[1..] == digits;
    if digits != "" {
      assert digits[0] in digits && digits[|digits| - 1] in digits;
    }
  }

  lemma AsciiHasNoNewline(t: string)
    requires IsAscii(t) && '\n' !in t
    ensures NEWLINE !in Ascii(t)
  {
    forall i | 0 <= i < |t| ensures Ascii(t)[i] != NEWLINE {
      assert t[i] in t;
    }
  }

  lemma LineOfAscii(t: string)
    requires IsAscii(t) && '\n' !in t
    ensures IsLine(Ascii(t)) && LineText(Ascii(t)) == TrimEndOfLine(t)
  {
    AsciiHasNoNewline(t);
    DecodeOfAscii(t);
  }

  lemma LengthLineParses(digits: string)
    requires AllDigits(digits)
    ensures var t := "Content-Length: " + digits;
            '\n' !in t && TrimEndOfLine(t) == t && LengthIn(t) == Some(ParseUsize(digits))
  {
    var t := "Content-Length: " + digits;
    TrimOfDigits(digits);
    assert t[|CONTENT_LENGTH|..] == " " + digits;
    assert CONTENT_LENGTH <= t;
    if digits != "" {
      assert t[|t| - 1] == digits[|digits| - 1] && digits[|digits| - 1] in digits;
    }
  }

  lemma LengthHeader(n: nat)
    requires n < TWO_TO_THE_64
    ensures IsHeader(Ascii(LengthLine(n)))
    ensures LengthIn(LineText(Ascii(LengthLine(n)))) == Some(Some(n))
  {
    LengthLineParses(Print(n));
    LineOfAscii(LengthLine(n));
    ParseOfPrint(n);
  }

  // ----- Round trips

  ghost function Outcome<V>(body: Bytes, s: Bytes, decode: Bytes -> Option<V>): Reading<V> {
    (if decode(body).Some? then Ok(decode(body)) else Err(BadPayload), s)
  }

  lemma BodyThenRest<V>(body: Bytes, s: Bytes, decode: Bytes -> Option<V>)
    ensures BodyFrom(body + s, |body|, decode) == Outcome(body, s, decode)
  {
    assert (body + s)[..|body|] == body && (body + s)[|body|..] == s;
  }

  /** Whatever the header, the body is as long as its last `Content-Length` says. */
  lemma FrameOfLines<V>(lines: seq<Bytes>, body: Bytes, s: Bytes, decode: Bytes -> Option<V>)
    requires forall l :: l in lines ==> IsHeader(l)
    requires LastLength(lines, None) == Some(|body|)
    ensures FrameFrom(Block(lines) + CRLF + (body + s), decode) == Outcome(body, s, decode)
  {
    HeaderBlock(lines, body + s, None);
    BodyThenRest(body, s, decode);
  }

  lemma {:induction false} NoLength(lines: seq<Bytes>, length: Option<nat>)
    requires forall l :: l in lines ==> IsHeader(l) && LengthIn(LineText(l)).None?
    ensures LastLength(lines, length) == length
  {
    if lines != [] {
      assert lines[0] in lines;
      NoLength(lines[1..], length);
    }
  }

  lemma OnlyLength(before: seq<Bytes>, line: Bytes, after: seq<Bytes>)
    requires forall l :: l in before || l in after ==> IsHeader(l) && LengthIn(LineText(l)).None?
    requires IsHeader(line) && LengthIn(LineText(line)).Some?
    ensures forall l :: l in before + [line] + after ==> IsHeader(l)
    ensures LastLength(before + [line] + after, None) == LengthIn(LineText(line)).value
  {
    LastLengthOfConcat(before + [line], after, None);
    LastLengthOfConcat(before, [line], None);
    NoLength(before, None);
    NoLength(after, LengthIn(LineText(line)).value);
  }

  lemma EncodedFrame(body: Bytes)
    ensures EncodeFrame(body) == Block([Ascii(LengthLine(|body|))]) + CRLF + body
  {
    var line := Ascii(LengthLine(|body|));
    assert Block([line]) == line + CRLF + Block([line][1..]);
    assert EncodeFrame(body) == line + CRLF + CRLF + body;
  }

  lemma FrameRoundTrip<V>(body: Bytes, s: Bytes, decode: Bytes -> Option<V>)
    requires |body| < TWO_TO_THE_64
    ensures FrameFrom(EncodeFrame(body) + s, decode) == Outcome(body, s, decode)
  {
    var line := Ascii(LengthLine(|body|));
    LengthHeader(|body|);
    OnlyLength([], line, []);
    assert [] + [line] + [] == [line];
    FrameOfLines([line], body, s, decode);
    EncodedFrame(body);
    assert EncodeFrame(body) + s == Block([line]) + CRLF + (body + s);
  }

  /** Other header lines, before or after, change nothing: the frame reads like the encoded one. */
  lemma OtherHeadersDoNotMatter<V>(before: seq<Bytes>, after: seq<Bytes>, body: Bytes, s: Bytes,
                                   decode: Bytes -> Option<V>)
    requires |body| < TWO_TO_THE_64
    requires forall l :: l in before || l in after ==> IsHeader(l) && LengthIn(LineText(l)).None?
    ensures FrameFrom(Block(before + [Ascii(LengthLine(|body|))] + after) + CRLF + (body + s), decode) ==
            FrameFrom(EncodeFrame(body) + s, decode)
  {
    var line := Ascii(LengthLine(|body|));
    LengthHeader(|body|);
    OnlyLength(before, line, after);
    FrameOfLines(before + [line] + after, body, s, decode);
    FrameRoundTrip(body, s, decode);
  }

  ghost function Frames(bodies: seq<Bytes>): Bytes {
    if bodies == [] then [] else EncodeFrame(bodies[0]) + Frames(bodies[1..])
  }

  /** Bodies that the decoder accepts and whose length a `usize` holds. */
  ghost predicate Readable<V>(bodies: seq<Bytes>, decode: Bytes -> Option<V>) {
    forall b :: b in bodies ==> decode(b).Some? && |b| < TWO_TO_THE_64
  }

  ghost function Values<V>(bodies: seq<Bytes>, decode: Bytes -> Option<V>): seq<V>
    requires Readable(bodies, decode)
  {
    if bodies == [] then [] else [decode(bodies[0]).value] + Values(bodies[1..], decode)
  }

  lemma OneMoreFrame<V>(body: Bytes, s: Bytes, decode: Bytes -> Option<V>)
    requires |body| < TWO_TO_THE_64 && decode(body).Some?
    ensures Received(EncodeFrame(body) + s, decode) ==
            ([decode(body).value] + Received(s, decode).0, Received(s, decode).1)
  {
    FrameRoundTrip(body, s, decode);
    ReceivedStep([], EncodeFrame(body) + s, decode);
    assert [] + Received(EncodeFrame(body) + s, decode).0 == Received(EncodeFrame(body) + s, decode).0;
  }

  /** Reading frames one after the other yields their bodies, then whatever follows them. */
  lemma {:induction false} StreamRoundTrip<V>(bodies: seq<Bytes>, s: Bytes, decode: Bytes -> Option<V>)
    requires Readable(bodies, decode)
    ensures Received(Frames(bodies) + s, decode).0 == Values(bodies, decode) + Received(s, decode).0
    ensures Received(Frames(bodies) + s, decode).1 == Received(s, decode).1
  {
    if bodies == [] {
      assert Frames(bodies) + s == s;
      assert Values(bodies, decode) == [];
    } else {
      var b, rest := bodies[0], bodies[1..];
      assert b in bodies;
      var tail := Frames(rest) + s;
      assert Frames(bodies) + s == EncodeFrame(b) + tail;
      OneMoreFrame(b, tail, decode);
      StreamRoundTrip(rest, s, decode);
      Regroup([decode(b).value], Values(rest, decode), Received(s, decode).0);
    }
  }

  // ----- From one end to the other

  /** The serializer's side of the bargain: it never writes nothing, and the reader undoes it. */
  ghost predicate IsCodec<V(!new)>(encode: V -> Option<Bytes>, decode: Bytes -> Option<V>) {
    && decode([]).None?
    && (forall v :: encode(v).Some? ==> |encode(v).value| < TWO_TO_THE_64 && decode(encode(v).value) == Some(v))
  }

  ghost function Serializable<V>(messages: seq<V>, encode: V -> Option<Bytes>): seq<V> {
    if messages == [] then []
    else
      var m := messages[|messages| - 1];
      Serializable(messages[..|messages| - 1], encode) + if encode(m).Some? then [m] else []
  }

  /** What one side writes the other side gets: each message that serializes, once and in order. */
  lemma {:induction false} WriterToReader<V(!new)>(messages: seq<V>, s: Bytes, encode: V -> Option<Bytes>,
                                                   decode: Bytes -> Option<V>)
    requires IsCodec(encode, decode)
    ensures Received(Written(messages, encode) + s, decode).0 ==
            Serializable(messages, encode) + Received(s, decode).0
    ensures Received(Written(messages, encode) + s, decode).1 == Received(s, decode).1
  {
    if messages == [] {
      assert Written(messages, encode) + s == s;
      assert Serializable(messages, encode) == [];
    } else {
      var before, m := messages[..|messages| - 1], messages[|messages| - 1];
      if encode(m).None? {
        assert Written(messages, encode) == Written(before, encode);
        WriterToReader(before, s, encode, decode);
      } else {
        var frame := EncodeFrame(encode(m).value);
        assert Written(messages, encode) + s == Written(before, encode) + (frame + s);
        WriterToReader(before, frame + s, encode, decode);
        OneMoreFrame(encode(m).value, s, decode);
        Regroup(Serializable(before, encode), [m], Received(s, decode).0);
      }
    }
  }

  // ----- A stream that is cut

  lemma {:induction false} ValueOfPrefix(s: string, k: nat)
    requires AllDigits(s) && k <= |s|
    ensures AllDigits(s[..k]) && Value(s[..k]) <= Value(s)
  {
    if k < |s| {
      assert s[..|s| - 1][..k] == s[..k];
      ValueOfPrefix(s[..|s| - 1], k);
    } else {
      assert s[..k] == s;
    }
  }

  const NAME := "Content-Length: "

  lemma NameChar(i: nat)
    requires i < |NAME|
    ensures !IsEndOfLine(NAME[i])
  {
  }

  lemma CutName(n: nat)
    requires n < |NAME|
    ensures '\n' !in NAME[..n] && TrimEndOfLine(NAME[..n]) == NAME[..n]
  {
    forall i | 0 <= i < n ensures !IsEndOfLine(NAME[..n][i]) {
      NameChar(i);
    }
  }

  lemma CutNameLength(n: nat)
    requires n < |NAME|
    ensures LengthIn(NAME[..n]) == if n == 15 then Some(None) else None
  {
    if n == 15 {
      assert NAME[..n] == CONTENT_LENGTH;
      assert CONTENT_LENGTH[|CONTENT_LENGTH|..] == "";
    }
  }

  lemma CutDigits(length: nat, k: nat)
    requires length < TWO_TO_THE_64 && k <= |Print(length)|
    ensures AllDigits(Print(length)[..k])
    ensures ParseUsize(Print(length)[..k]).Some? <==> k > 0
  {
    ValueOfPrint(length);
    ValueOfPrefix(Print(length), k);
    assert k > 0 ==> Print(length)[..k][0] in Print(length)[..k];
  }

  /** The text of a cut `Content-Length` line. */
  lemma CutLineText(length: nat, n: nat)
    requires n <= |LengthLine(length)| && length < TWO_TO_THE_64
    ensures var t := LengthLine(length)[..n];
            && '\n' !in t && TrimEndOfLine(t) == t
            && (if n < 15 then LengthIn(t).None?
                else LengthIn(t).Some? && (LengthIn(t).value.None? <==> n == 15 || n == 16))
  {
    if n < 16 {
      assert LengthLine(length)[..n] == NAME[..n];
      CutName(n);
      CutNameLength(n);
    } else {
      var k := n - 16;
      CutDigits(length, k);
      LengthLineParses(Print(length)[..k]);
      assert LengthLine(length)[..n] == "Content-Length: " + Print(length)[..k];
    }
  }

  /** The stream ends inside the first header line. */
  lemma CutInLine(length: nat, n: nat)
    requires n <= |LengthLine(length)| && length < TWO_TO_THE_64
    ensures HeadersFrom(Ascii(LengthLine(length))[..n], None) ==
            if n == 15 || n == 16 then Invalid(BadLength, []) else Closed
  {
    var t := LengthLine(length)[..n];
    assert Ascii(LengthLine(length))[..n] == Ascii(t);
    if n > 0 {
      CutLineText(length, n);
      LineOfAscii(t);
      assert Ascii(t) + [] + [] == Ascii(t);
      OneLine(Ascii(t), [], [], None);
    }
  }

  lemma CutAfterLine(line: Bytes, body: Bytes, n: nat)
    requires IsHeader(line) && LengthIn(LineText(line)) == Some(Some(|body|))
    requires |line| < n < |line| + 4 + |body|
    ensures HeadersFrom((line + CRLF + CRLF + body)[..n], None) ==
            if n < |line| + 3 then Closed
            else Complete(Some(|body|), body[..if n == |line| + 3 then 0 else n - |line| - 4])
  {
    var cut := (line + CRLF + CRLF + body)[..n];
    if n == |line| + 1 {
      assert cut == line + [0xD] + [];
      OneLine(line, [0xD], [], None);
    } else {
      var s := (CRLF + body)[..n - |line| - 2];
      assert cut == line + CRLF + s;
      OneLine(line, CRLF, s, None);
      if n == |line| + 2 {
      } else if n == |line| + 3 {
        assert s == [] + [0xD] + body[..0];
        OneLine([], [0xD], body[..0], Some(|body|));
      } else {
        assert s == [] + CRLF + body[..n - |line| - 4];
        OneLine([], CRLF, body[..n - |line| - 4], Some(|body|));
      }
    }
  }

  /**
   A frame cut anywhere never reads as a message.  A cut in the blank line or in the body is an error, and
   so is one right before or after the space of the first line; any other cut looks like the end.
   */
  lemma CutFrame<V>(body: Bytes, n: nat, decode: Bytes -> Option<V>)
    requires 0 < |body| < TWO_TO_THE_64 && n < |EncodeFrame(body)|
    ensures FrameFrom(EncodeFrame(body)[..n], decode).0 ==
            if n == 15 || n == 16 then Err(BadLength)
            else if n < |LengthLine(|body|)| + 3 then Ok(None)
            else Err(ShortBody)
  {
    var line := Ascii(LengthLine(|body|));
    assert EncodeFrame(body) == line + CRLF + CRLF + body;
    if n <= |line| {
      assert EncodeFrame(body)[..n] == line[..n];
      CutInLine(|body|, n);
    } else {
      LengthHeader(|body|);
      CutAfterLine(line, body, n);
    }
  }

  /** The bodies whose frames are complete in the first `n` bytes. */
  ghost function Whole(bodies: seq<Bytes>, n: nat): (w: seq<Bytes>)
    ensures w <= bodies
  {
    if bodies == [] || n < |EncodeFrame(bodies[0])| then []
    else [bodies[0]] + Whole(bodies[1..], n - |EncodeFrame(bodies[0])|)
  }

  lemma CutInFirstFrame<V>(body: Bytes, n: nat, decode: Bytes -> Option<V>)
    requires 0 < |body| < TWO_TO_THE_64 && n < |EncodeFrame(body)|
    ensures Received(EncodeFrame(body)[..n], decode).0 == []
  {
    CutFrame(body, n, decode);
    ReceivedStep([], EncodeFrame(body)[..n], decode);
  }

  lemma CutLater<V>(body: Bytes, s: Bytes, all: Bytes, n: nat, decode: Bytes -> Option<V>)
    requires |body| < TWO_TO_THE_64 && decode(body).Some? && all == EncodeFrame(body) + s
    requires |EncodeFrame(body)| <= n <= |all|
    ensures Received(all[..n], decode).0 ==
            [decode(body).value] + Received(s[..n - |EncodeFrame(body)|], decode).0
  {
    var m := n - |EncodeFrame(body)|;
    OneMoreFrame(body, s[..m], decode);
    assert all[..n] == EncodeFrame(body) + s[..m];
  }

  lemma WholeCons<V>(bodies: seq<Bytes>, n: nat, decode: Bytes -> Option<V>)
    requires bodies != [] && Readable(bodies, decode) && n >= |EncodeFrame(bodies[0])|
    ensures Readable(Whole(bodies, n), decode)
    ensures Values(Whole(bodies, n), decode) ==
            [decode(bodies[0]).value] + Values(Whole(bodies[1..], n - |EncodeFrame(bodies[0])|), decode)
  {
    var later := Whole(bodies[1..], n - |EncodeFrame(bodies[0])|);
    assert Whole(bodies, n) == [bodies[0]] + later;
    assert Whole(bodies, n)[1..] == later;
  }

  lemma CutEarly<V>(bodies: seq<Bytes>, n: nat, decode: Bytes -> Option<V>)
    requires Readable(bodies, decode) && decode([]).None? && bodies != [] && n < |EncodeFrame(bodies[0])|
    ensures n <= |Frames(bodies)| && Whole(bodies, n) == []
    ensures Received(Frames(bodies)[..n], decode).0 == []
  {
    assert bodies[0] in bodies;
    assert Frames(bodies)[..n] == EncodeFrame(bodies[0])[..n];
    CutInFirstFrame(bodies[0], n, decode);
  }

  lemma CutLate<V>(bodies: seq<Bytes>, n: nat, decode: Bytes -> Option<V>)
    requires Readable(bodies, decode) && bodies != [] && |EncodeFrame(bodies[0])| <= n <= |Frames(bodies)|
    ensures n - |EncodeFrame(bodies[0])| <= |Frames(bodies[1..])|
    ensures Received(Frames(bodies)[..n], decode).0 ==
            [decode(bodies[0]).value] + Received(Frames(bodies[1..])[..n - |EncodeFrame(bodies[0])|], decode).0
  {
    assert bodies[0] in bodies;
    CutLater(bodies[0], Frames(bodies[1..]), Frames(bodies), n, decode);
  }

  /** Cutting a stream of frames anywhere yields exactly the messages that arrived whole. */
  lemma {:induction false} CutStream<V>(bodies: seq<Bytes>, n: nat, decode: Bytes -> Option<V>)
    requires Readable(bodies, decode) && decode([]).None? && n <= |Frames(bodies)|
    ensures Readable(Whole(bodies, n), decode)
    ensures Received(Frames(bodies)[..n], decode).0 == Values(Whole(bodies, n), decode)
  {
    if bodies == [] {
      assert Frames(bodies)[..n] == [];
    } else if n < |EncodeFrame(bodies[0])| {
      CutEarly(bodies, n, decode);
    } else {
      CutLate(bodies, n, decode);
      CutStream(bodies[1..], n - |EncodeFrame(bodies[0])|, decode);
      WholeCons(bodies, n, decode);
    }
  }
}
