/**
 The wire format of the Language Server Protocol (crates/lspee_lsp/src/lib.rs): "Base Protocol" of the
 Language Server Protocol Specification 3.17, "Header Part" and "Content Part".
 */
module Framing {
  import opened Wrappers
  import opened Decimal
  import opened Text

  newtype Byte = n: int | 0 <= n < 0x100

  type Bytes = seq<Byte>

  const NEWLINE: Byte := 0xA
  const CRLF: Bytes := [0xD, 0xA]
  const CONTENT_LENGTH := "Content-Length:"

  // ----- Text as bytes

  predicate IsAscii(s: string) {
    forall i :: 0 <= i < |s| ==> s[i] as int < 0x80
  }

  function Ascii(s: string): (b: Bytes)
    requires IsAscii(s)
    ensures |b| == |s|
  {
    seq(|s|, i requires 0 <= i < |s| => s[i] as int as Byte)
  }

  /** The bytes that a character takes up whose first byte is `b`; 0 when none starts with it. */
  function Width(b: Byte): nat {
    if b < 0x80 then 1
    else if 0xC2 <= b < 0xE0 then 2
    else if 0xE0 <= b < 0xF0 then 3
    else if 0xF0 <= b < 0xF5 then 4
    else 0
  }

  /** The six bits of a continuation byte. */
  function Six(b: Byte): Option<nat> {
    if 0x80 <= b < 0xC0 then Some(b as nat - 0x80) else None
  }

  /** A Unicode scalar value in its shortest encoding, else nothing. */
  function AsChar(n: nat, least: nat): Option<char> {
    if least <= n && (n < 0xD800 || 0xE000 <= n < 0x110000) then Some(n as char) else None
  }

  /** The first character of UTF-8 text. */
  function FirstChar(s: Bytes): Option<char>
    requires s != []
  {
    var w, b := Width(s[0]), s[0] as nat;
    if w == 0 || |s| < w then None
    else if w == 1 then Some(b as char)
    else if Six(s[1]).None? then None
    else if w == 2 then AsChar(0x40 * (b - 0xC0) + Six(s[1]).value, 0x80)
    else if Six(s[2]).None? then None
    else if w == 3 then AsChar(0x40 * (0x40 * (b - 0xE0) + Six(s[1]).value) + Six(s[2]).value, 0x800)
    else if Six(s[3]).None? then None
    else AsChar(0x40 * (0x40 * (0x40 * (b - 0xF0) + Six(s[1]).value) + Six(s[2]).value) + Six(s[3]).value, 0x10000)
  }

  function DecodeUtf8(s: Bytes): Option<string> {
    if s == [] then Some("")
    else if FirstChar(s).None? then None
    else
      match DecodeUtf8(s[Width(s[0])..])
      case None => None
      case Some(t) => Some([FirstChar(s).value] + t)
  }

  lemma Regroup<T>(a: seq<T>, b: seq<T>, c: seq<T>)
    ensures a + (b + c) == (a + b) + c
  {
  }

  lemma FirstCharOfConcat(a: Bytes, b: Bytes)
    requires a != [] && FirstChar(a).Some?
    ensures FirstChar(a + b) == FirstChar(a) && (a + b)[0] == a[0]
  {
  }

  lemma {:induction false} DecodeOfConcat(a: Bytes, b: Bytes)
    requires DecodeUtf8(a).Some?
    ensures DecodeUtf8(a + b) ==
            if DecodeUtf8(b).None? then None else Some(DecodeUtf8(a).value + DecodeUtf8(b).value)
  {
    if a == [] {
      assert a + b == b;
      assert forall t: string :: "" + t == t;
    } else {
      var w := Width(a[0]);
      assert (a + b)[w..] == a[w..] + b;
      FirstCharOfConcat(a, b);
      DecodeOfConcat(a[w..], b);
      if DecodeUtf8(b).Some? {
        Regroup([FirstChar(a).value], DecodeUtf8(a[w..]).value, DecodeUtf8(b).value);
      }
    }
  }

  lemma {:induction false} DecodeOfAscii(s: string)
    requires IsAscii(s)
    ensures DecodeUtf8(Ascii(s)) == Some(s)
  {
    if s != "" {
      assert Ascii(s)[1..] == Ascii(s[1..]);
      DecodeOfAscii(s[1..]);
      assert s == [s[0]] + s[1..];
    }
  }

  // ----- Writing

  function LengthLine(n: nat): (s: string)
    ensures IsAscii(s)
  {
    assert forall i :: 0 <= i < |Print(n)| ==> IsDigit(Print(n)[i]) by {
      assert forall i :: 0 <= i < |Print(n)| ==> Print(n)[i] in Print(n);
    }
    "Content-Length: " + Print(n)
  }

  function EncodeFrame(body: Bytes): Bytes {
    var header := LengthLine(|body|) + "\r\n\r\n";
    Ascii(header) + body
  }

  /** What the writer task puts on the server's standard input; messages that do not serialize are dropped. */
  function Written<V>(inbox: seq<V>, encode: V -> Option<Bytes>): Bytes {
    if inbox == [] then []
    else
      var body := encode(inbox[|inbox| - 1]);
      Written(inbox[..|inbox| - 1], encode) + if body.Some? then EncodeFrame(body.value) else []
  }

  method RunWriter<V>(inbox: seq<V>, encode: V -> Option<Bytes>) returns (stdin: Bytes)
    ensures stdin == Written(inbox, encode)
  {
    stdin := [];
    for i := 0 to |inbox|
      invariant stdin == Written(inbox[..i], encode)
    {
      assert inbox[..i + 1][..i] == inbox[..i];
      var body := encode(inbox[i]);
      if body.None? {
        continue;
      }
      stdin := stdin + EncodeFrame(body.value);
    }
    assert inbox[..|inbox|] == inbox;
  }

  // ----- Reading

  /** The bytes of the next line with its newline; less at the end of the stream. */
  function LineLength(s: Bytes): (n: nat)
    ensures n <= |s| && (n == 0 <==> s == [])
  {
    if s == [] then 0 else if s[0] == NEWLINE then 1 else 1 + LineLength(s[1..])
  }

  datatype ReadError = NotUtf8 | BadLength | MissingLength | ShortBody | BadPayload

  datatype Headers = Closed | Invalid(error: ReadError, rest: Bytes) | Complete(length: Option<nat>, rest: Bytes)

  /** The value of a `Content-Length` line, if `line` is one. */
  function LengthIn(line: string): Option<Option<nat>> {
    if CONTENT_LENGTH <= line then Some(ParseUsize(Trim(line[|CONTENT_LENGTH|..]))) else None
  }

  function HeadersFrom(s: Bytes, length: Option<nat>): (h: Headers)
    ensures h.Complete? ==> |h.rest| < |s|
    decreases |s|
  {
    var n := LineLength(s);
    if n == 0 then Closed
    else if DecodeUtf8(s[..n]).None? then Invalid(NotUtf8, s[n..])
    else
      var line := TrimEndOfLine(DecodeUtf8(s[..n]).value);
      if line == "" then Complete(length, s[n..])
      else
        match LengthIn(line)
        case None => HeadersFrom(s[n..], length)
        case Some(None) => Invalid(BadLength, s[n..])
        case Some(Some(v)) => HeadersFrom(s[n..], Some(v))
  }

  type Reading<+V> = (Result<Option<V>, ReadError>, Bytes)

  function BodyFrom<V>(s: Bytes, length: nat, decode: Bytes -> Option<V>): Reading<V> {
    if |s| < length then (Err(ShortBody), [])
    else if decode(s[..length]).None? then (Err(BadPayload), s[length..])
    else (Ok(decode(s[..length])), s[length..])
  }

  /** What `read_lsp_frame` returns, and what it leaves of the stream; no message at the end of the stream. */
  function FrameFrom<V>(s: Bytes, decode: Bytes -> Option<V>): (r: Reading<V>)
    ensures r.0.Ok? && r.0.value.Some? ==> |r.1| < |s|
  {
    match HeadersFrom(s, None)
    case Closed => (Ok(None), [])
    case Invalid(error, rest) => (Err(error), rest)
    case Complete(None, rest) => (Err(MissingLength), rest)
    case Complete(Some(length), rest) => BodyFrom(rest, length, decode)
  }

  /** The messages the reader task gets from a stream, and the error it stops at, if any. */
  function Received<V>(s: Bytes, decode: Bytes -> Option<V>): (seq<V>, Option<ReadError>)
    decreases |s|
  {
    match FrameFrom(s, decode)
    case (Ok(Some(v)), rest) => var (more, error) := Received(rest, decode); ([v] + more, error)
    case (Ok(None), rest) => ([], None)
    case (Err(error), rest) => ([], Some(error))
  }

  lemma ReceivedStep<V>(before: seq<V>, s: Bytes, decode: Bytes -> Option<V>)
    ensures var (r, rest) := FrameFrom(s, decode);
            if r.Ok? && r.value.Some?
            then before + Received(s, decode).0 == before + [r.value.value] + Received(rest, decode).0 &&
                 Received(s, decode).1 == Received(rest, decode).1
            else before + Received(s, decode).0 == before &&
                 Received(s, decode).1 == if r.Err? then Some(r.error) else None
  {
    var (r, rest) := FrameFrom(s, decode);
    if r.Ok? && r.value.Some? {
      assert Received(s, decode).0 == [r.value.value] + Received(rest, decode).0;
    }
  }

  /** The reader task of a language server's runtime. */
  class FrameReader<V> {
    const decode: Bytes -> Option<V>
    var rest: Bytes
    var outbound: seq<V>

    constructor (stdout: Bytes, decode: Bytes -> Option<V>)
      ensures this.decode == decode && rest == stdout && outbound == []
    {
      this.decode, rest, outbound := decode, stdout, [];
    }

    /** Reads up to and including the next newline; zero bytes only at the end of the stream. */
    method ReadLine() returns (bytes: nat, line: Option<string>)
      modifies this`rest
      ensures bytes == LineLength(old(rest)) && rest == old(rest)[bytes..]
      ensures line == DecodeUtf8(old(rest)[..bytes])
    {
      bytes := 0;
      while bytes < |rest| && (bytes == 0 || rest[bytes - 1] != NEWLINE)
        invariant bytes <= |rest|
        invariant LineLength(rest) ==
                  if bytes > 0 && rest[bytes - 1] == NEWLINE then bytes else bytes + LineLength(rest[bytes..])
      {
        assert rest[bytes..][1..] == rest[bytes + 1..];
        bytes := bytes + 1;
      }
      line := DecodeUtf8(rest[..bytes]);
      rest := rest[bytes..];
    }

    method ReadFrame() returns (r: Result<Option<V>, ReadError>)
      modifies this`rest
      ensures (r, rest) == FrameFrom(old(rest), decode)
    {
      var contentLength: Option<nat> := None;
      while true
        invariant HeadersFrom(rest, contentLength) == HeadersFrom(old(rest), None)
        decreases |rest|
      {
        var bytes, text := ReadLine();
        if bytes == 0 {
          return Ok(None);
        }
        if text.None? {
          return Err(NotUtf8);
        }
        var line := TrimEndOfLine(text.value);
        if line == "" {
          break;
        }
        if CONTENT_LENGTH <= line {
          var parsed := ParseUsize(Trim(line[|CONTENT_LENGTH|..]));
          if parsed.None? {
            return Err(BadLength);
          }
          contentLength := parsed;
        }
      }
      if contentLength.None? {
        return Err(MissingLength);
      }
      if |rest| < contentLength.value {
        rest := [];
        return Err(ShortBody);
      }
      var body := rest[..contentLength.value];
      rest := rest[contentLength.value..];
      var payload := decode(body);
      r := if payload.None? then Err(BadPayload) else Ok(payload);
    }

    /** Sends every message out until the stream ends or a frame is bad. */
    method Run() returns (error: Option<ReadError>)
      modifies this
      ensures outbound == old(outbound) + Received(old(rest), decode).0
      ensures error == Received(old(rest), decode).1
    {
      while true
        invariant outbound + Received(rest, decode).0 == old(outbound) + Received(old(rest), decode).0
        invariant Received(rest, decode).1 == Received(old(rest), decode).1
        decreases |rest|
      {
        ReceivedStep(outbound, rest, decode);
        var payload := ReadFrame();
        match payload
        case Err(e) => return Some(e);
        case Ok(None) => return None;
        case Ok(Some(v)) => outbound := outbound + [v];
      }
    }
  }
}
