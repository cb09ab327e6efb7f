/**
 * Length-prefixed framing (utils.go: sendMessage, readMessage).
 *
 * A frame is the body's length as a 4-byte big-endian unsigned integer,
 * followed by the body, which is the JSON text of a Message. The JSON text
 * layer (encoding/json's byte syntax) is a parameter: a pair of functions
 * from objects to bytes and back, with the round-trip it must satisfy
 * stated as the predicate `Faithful`.
 *
 * A stream is an object holding the bytes the peer has sent and this side
 * has not yet read, how the inbound direction ends once they are used up
 * (an orderly end of data or a transport error), and the bytes written so
 * far. Whether each write is accepted by the transport is an input.
 */
module Framing {
  import opened Wrappers
  import opened Messages

  type byte = x: int | 0 <= x < 0x100

  type uint32 = x: int | 0 <= x < 0x1_0000_0000

  /** binary.BigEndian.PutUint32: most significant byte first. */
  function PutUint32(v: uint32): (b: seq<byte>)
    ensures |b| == 4
  {
    [v / 0x100_0000, v / 0x1_0000 % 0x100, v / 0x100 % 0x100, v % 0x100]
  }

  /** binary.BigEndian.Uint32: every 4-byte header is the encoding of the value it decodes to. */
  function GetUint32(b: seq<byte>): (v: uint32)
    requires |b| == 4
    ensures PutUint32(v) == b
  {
    var v := b[0] as int * 0x100_0000 + b[1] as int * 0x1_0000 + b[2] as int * 0x100 + b[3] as int;
    assert v / 0x100_0000 == b[0];
    assert v / 0x1_0000 == b[0] as int * 0x100 + b[1] as int;
    assert v / 0x100 == b[0] as int * 0x1_0000 + b[1] as int * 0x100 + b[2] as int;
    v
  }

  /** Decoding the big-endian header gives back every 32-bit value. */
  lemma {:induction false} GetPutUint32(v: uint32)
    ensures GetUint32(PutUint32(v)) == v
  {
    assert v == v / 0x100 * 0x100 + v % 0x100;
    assert v / 0x100 == v / 0x1_0000 * 0x100 + v / 0x100 % 0x100;
    assert v / 0x1_0000 == v / 0x100_0000 * 0x100 + v / 0x1_0000 % 0x100;
  }

  /** Go's conversion uint32(n): the low 32 bits. */
  function Low32(n: nat): uint32 {
    n % 0x1_0000_0000
  }

  /** The JSON byte syntax: encoding/json's writer and reader of objects. */
  datatype JsonText = JsonText(serialize: JsonObject -> seq<byte>, parse: seq<byte> -> Option<JsonObject>)

  /** The JSON reader accepts everything the writer produces and gives back the same object. */
  ghost predicate Faithful(json: JsonText) {
    forall o :: json.parse(json.serialize(o)) == Some(o)
  }

  /** json.Marshal(msg): with a faithful JSON syntax, the bytes read back as an object that decodes to `m`. */
  function Encode(json: JsonText, m: Message): (body: seq<byte>)
    ensures Faithful(json) ==> json.parse(body).Some? && FromObject(json.parse(body).value) == Success(m)
  {
    ObjectRoundTrip(m);
    json.serialize(ToObject(m))
  }

  /**
   * json.Unmarshal(body, &msg): bytes that are not a JSON object are
   * malformed; otherwise every field of the object must decode.
   */
  function Decode(json: JsonText, body: seq<byte>): (r: Result<Message, DecodeError>)
    ensures r == Failure(Malformed) <==> json.parse(body).None?
    ensures r.Success? ==> json.parse(body).Some? && Carries(json.parse(body).value, r.value)
  {
    match json.parse(body)
    case None => Failure(Malformed)
    case Some(o) => FromObject(o)
  }

  /** With a faithful JSON syntax, decoding an encoded message gives the message back. */
  lemma DecodeEncode(json: JsonText, m: Message)
    requires Faithful(json)
    ensures Decode(json, Encode(json, m)) == Success(m)
  {
    ObjectRoundTrip(m);
  }

  /** What sendMessage writes when every write succeeds. */
  function Frame(body: seq<byte>): (f: seq<byte>)
    ensures |f| == 4 + |body| && f[4..] == body
    ensures GetUint32(f[..4]) == |body| % 0x1_0000_0000
    ensures |body| < 0x1_0000_0000 ==> GetUint32(f[..4]) == |body|
  {
    GetPutUint32(Low32(|body|));
    assert (PutUint32(Low32(|body|)) + body)[..4] == PutUint32(Low32(|body|));
    PutUint32(Low32(|body|)) + body
  }

  /** Whether the transport accepts the length-prefix write and the body write. */
  datatype WriteOutcome = WriteOutcome(prefixAccepted: bool, bodyAccepted: bool)

  /** The bytes sendMessage puts on the stream: nothing once the prefix write fails. */
  function Transmitted(body: seq<byte>, w: WriteOutcome): (t: seq<byte>)
    ensures !w.prefixAccepted ==> t == []
    ensures w.prefixAccepted && w.bodyAccepted ==> t == Frame(body)
    ensures w.prefixAccepted && !w.bodyAccepted ==> t == Frame(body)[..4]
  {
    if !w.prefixAccepted then []
    else PutUint32(Low32(|body|)) + (if w.bodyAccepted then body else [])
  }

  /** How the inbound direction of a stream ends. */
  datatype StreamEnd = EndOfData | Reset(reason: string)

  /** The errors io.ReadFull reports. */
  datatype ReadFullError = EOF | UnexpectedEOF | TransportError(reason: string)

  /** The errors readMessage reports. */
  datatype ReadError =
    | EndOfStream                           // io.EOF, returned unchanged
    | LengthReadFailed(cause: ReadFullError) // "failed to read message length"
    | BodyReadFailed(cause: ReadFullError)   // "failed to read message body"
    | JsonDecodeFailed(reason: DecodeError)  // "failed to decode JSON message"

  /** The error io.ReadFull reports when the data ends after `got` bytes short of what was asked. */
  function ShortReadError(end: StreamEnd, got: nat): ReadFullError {
    match end
    case EndOfData => if got == 0 then EOF else UnexpectedEOF
    case Reset(reason) => TransportError(reason)
  }

  /** The outcome of io.ReadFull for `n` bytes and what is left to read afterwards. */
  datatype Taken = Taken(result: Result<seq<byte>, ReadFullError>, rest: seq<byte>)

  function TakeFull(avail: seq<byte>, end: StreamEnd, n: nat): (t: Taken)
    ensures t.result.Success? <==> n <= |avail|
    ensures t.result.Success? ==> |t.result.value| == n && t.result.value + t.rest == avail
    ensures t.result.Failure? ==> t.result.error == ShortReadError(end, |avail|) && t.rest == []
  {
    if n <= |avail| then Taken(Success(avail[..n]), avail[n..])
    else Taken(Failure(ShortReadError(end, |avail|)), [])
  }

  /** The outcome of readMessage and what is left to read afterwards. */
  datatype Received = Received(result: Result<Message, ReadError>, rest: seq<byte>)

  /**
   * readMessage on a stream holding `avail` and then ending with `end`:
   * read the 4-byte header, then exactly the length it declares, then
   * decode the body.
   */
  function ReadFrame(json: JsonText, avail: seq<byte>, end: StreamEnd): (rv: Received)
    ensures |avail| == 0 && end == EndOfData ==> rv == Received(Failure(EndOfStream), [])
    ensures |avail| == 0 && end.Reset? ==> rv == Received(Failure(LengthReadFailed(TransportError(end.reason))), [])
    ensures 0 < |avail| < 4 ==> rv == Received(Failure(LengthReadFailed(ShortReadError(end, |avail|))), [])
    ensures rv.result.Failure? && rv.result.error.LengthReadFailed? ==> rv.result.error.cause != EOF
    ensures |avail| >= 4 && |avail| < 4 + GetUint32(avail[..4]) ==>
              rv == Received(Failure(BodyReadFailed(ShortReadError(end, |avail| - 4))), [])
    ensures |avail| >= 4 && |avail| >= 4 + GetUint32(avail[..4]) ==>
              var length := GetUint32(avail[..4]);
              rv.rest == avail[4 + length..] &&
              match Decode(json, avail[4..4 + length])
              case Success(m) => rv.result == Success(m)
              case Failure(e) => rv.result == Failure(JsonDecodeFailed(e))
  {
    var header := TakeFull(avail, end, 4);
    if header.result.Failure? then
      var err := header.result.error;
      Received(Failure(if err == EOF then EndOfStream else LengthReadFailed(err)), header.rest)
    else
      var length := GetUint32(header.result.value);
      var body := TakeFull(header.rest, end, length);
      if body.result.Failure? then
        Received(Failure(BodyReadFailed(body.result.error)), body.rest)
      else
        assert body.result.value == avail[4..4 + length];
        match Decode(json, body.result.value)
        case Failure(e) => Received(Failure(JsonDecodeFailed(e)), body.rest)
        case Success(m) => Received(Success(m), body.rest)
  }

  /**
   * A frame is self-delimiting: reading one consumes exactly 4 + |body|
   * bytes, whatever follows it, and yields the decoded body.
   */
  lemma ReadFrameOfFrame(json: JsonText, body: seq<byte>, rest: seq<byte>, end: StreamEnd)
    requires |body| < 0x1_0000_0000
    ensures ReadFrame(json, Frame(body) + rest, end).rest == rest
    ensures ReadFrame(json, Frame(body) + rest, end).result ==
              match Decode(json, body)
              case Success(m) => Success(m)
              case Failure(e) => Failure(JsonDecodeFailed(e))
  {
    var avail := Frame(body) + rest;
    assert avail[..4] == Frame(body)[..4];
    assert avail[4..4 + |body|] == body;
    assert avail[4 + |body|..] == rest;
  }

  /** readMessage after a complete sendMessage yields the original message and leaves what follows. */
  lemma ReadAfterSend(json: JsonText, m: Message, rest: seq<byte>, end: StreamEnd)
    requires Faithful(json)
    requires |Encode(json, m)| < 0x1_0000_0000
    ensures ReadFrame(json, Transmitted(Encode(json, m), WriteOutcome(true, true)) + rest, end) == Received(Success(m), rest)
  {
    DecodeEncode(json, m);
    ReadFrameOfFrame(json, Encode(json, m), rest, end);
  }

  /**
   * A body of 2^32 bytes or more gets a header that declares fewer bytes
   * than were written, so the reader stops inside the body.
   */
  lemma OversizedBodyIsMisframed(body: seq<byte>)
    requires |body| >= 0x1_0000_0000
    ensures GetUint32(Frame(body)[..4]) < |body|
  {
  }

  /** One QUIC stream as this side sees it. */
  class Stream {
    /** Bytes the peer has sent that have not been read yet. */
    var inbound: seq<byte>
    /** How reading ends once `inbound` is used up. */
    const end: StreamEnd
    /** Bytes written to the stream so far. */
    var outbound: seq<byte>

    constructor (inbound: seq<byte>, end: StreamEnd)
      ensures this.inbound == inbound && this.end == end && outbound == []
    {
      this.inbound := inbound;
      this.end := end;
      outbound := [];
    }

    /**
     * io.ReadFull(stream, buf): fill `buf` completely, or report why not.
     * A short read still stores and consumes the bytes that were there.
     */
    method ReadFull(buf: array<byte>) returns (n: nat, err: Option<ReadFullError>)
      modifies this, buf
      ensures TakeFull(old(inbound), end, buf.Length).rest == inbound
      ensures TakeFull(old(inbound), end, buf.Length).result.Success? <==> err.None?
      ensures err.Some? ==> TakeFull(old(inbound), end, buf.Length).result.error == err.value
      ensures n == if buf.Length <= |old(inbound)| then buf.Length else |old(inbound)|
      ensures buf[..n] == old(inbound)[..n] && buf[n..] == old(buf[n..])
      ensures outbound == old(outbound)
    {
      n := if buf.Length <= |inbound| then buf.Length else |inbound|;
      forall i | 0 <= i < n {
        buf[i] := inbound[i];
      }
      if n == buf.Length {
        inbound := inbound[n..];
        err := None;
      } else {
        err := Some(ShortReadError(end, n));
        inbound := [];
      }
    }

    /** stream.Write(data): appends `data` when the transport accepts it, and otherwise writes nothing. */
    method Write(data: seq<byte>, accepted: bool) returns (ok: bool)
      modifies this
      ensures ok == accepted
      ensures outbound == old(outbound) + (if accepted then data else [])
      ensures inbound == old(inbound)
    {
      ok := accepted;
      if accepted {
        outbound := outbound + data;
      }
    }
  }

  /** sendMessage: write the length prefix, and the body only if the prefix was written. */
  method SendMessage(s: Stream, m: Message, json: JsonText, w: WriteOutcome)
    modifies s
    ensures s.outbound == old(s.outbound) + Transmitted(Encode(json, m), w)
    ensures s.inbound == old(s.inbound)
  {
    var body := Encode(json, m);
    var lengthPrefix := PutUint32(Low32(|body|));
    var ok := s.Write(lengthPrefix, w.prefixAccepted);
    if !ok {
      return;
    }
    ok := s.Write(body, w.bodyAccepted);
  }

  /** readMessage: fill a 4-byte header, then a body of the declared length, then decode it. */
  method ReadMessage(s: Stream, json: JsonText) returns (r: Result<Message, ReadError>)
    modifies s
    ensures r == ReadFrame(json, old(s.inbound), s.end).result
    ensures s.inbound == ReadFrame(json, old(s.inbound), s.end).rest
    ensures s.outbound == old(s.outbound)
  {
    var header := new byte[4];
    var n, err := s.ReadFull(header);
    if err.Some? {
      if err.value == EOF {
        return Failure(EndOfStream);
      }
      return Failure(LengthReadFailed(err.value));
    }
    assert header[..] == header[..n];
    var length := GetUint32(header[..]);
    var body := new byte[length];
    n, err := s.ReadFull(body);
    if err.Some? {
      return Failure(BodyReadFailed(err.value));
    }
    assert body[..] == body[..n];
    var decoded := Decode(json, body[..]);
    if decoded.Failure? {
      return Failure(JsonDecodeFailed(decoded.error));
    }
    return Success(decoded.value);
  }
}
