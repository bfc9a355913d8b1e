/**
 The framed stream (protocol.rs `MessageCodec`): "TUSH", a big-endian length, the payload.
 JSON is a parameter: `ser` writes a message's payload, `parse` pieces one.
 */
module Codec {
  import opened Outcomes

  type Byte = x: int | 0 <= x < 256

  const MAGIC: seq<Byte> := [0x54, 0x55, 0x53, 0x48]
  const MAX_MESSAGE_SIZE := 16 * 1024 * 1024
  const TWO_TO_THE_32 := 0x1_0000_0000

  datatype Decoded<+M> = NeedMore | Bad(rest: seq<Byte>) | Got(msg: M, rest: seq<Byte>)

  function BigEndian(n: nat): (b: seq<Byte>)
    ensures |b| == 4
  {
    [n / 256 / 256 / 256 % 256, n / 256 / 256 % 256, n / 256 % 256, n % 256]
  }

  function FromBigEndian(b: seq<Byte>): (n: nat)
    requires |b| == 4
  {
    var b0: nat, b1: nat, b2: nat, b3: nat := b[0], b[1], b[2], b[3];
    ((b0 * 256 + b1) * 256 + b2) * 256 + b3
  }

  lemma BigEndianRoundTrip(n: nat)
    ensures FromBigEndian(BigEndian(n)) == n % TWO_TO_THE_32
  {
    var low := FromBigEndian(BigEndian(n));
    var high := n / 256 / 256 / 256 / 256;
    assert n == high * TWO_TO_THE_32 + low && low < TWO_TO_THE_32;
    LowPart(high, low);
  }

  lemma LowPart(high: nat, low: nat)
    requires low < TWO_TO_THE_32
    ensures (high * TWO_TO_THE_32 + low) % TWO_TO_THE_32 == low
  {}

  /** The encoder does not look at the size; the length field keeps its low 32 bits. */
  function Frame(payload: seq<Byte>): (frame: seq<Byte>) {
    MAGIC + BigEndian(|payload|) + payload
  }

  function DecodeFrame<M>(parse: seq<Byte> -> Option<M>, buf: seq<Byte>): (r: Decoded<M>)
    ensures r.Got? ==> |r.rest| < |buf|
  {
    if |buf| < 8 then NeedMore
    else if buf[..4] != MAGIC then Bad(buf)
    else
      var length := FromBigEndian(buf[4..8]);
      if length > MAX_MESSAGE_SIZE then Bad(buf)
      else if |buf| < 8 + length then NeedMore
      else
        match parse(buf[8..8 + length])
        case None => Bad(buf[8 + length..])
        case Some(msg) => Got(msg, buf[8 + length..])
  }

  /** Decoding until the buffer holds no whole frame, or a bad one. */
  datatype Drained<+M> = Drained(msgs: seq<M>, rest: seq<Byte>, ok: bool)

  function Drain<M>(parse: seq<Byte> -> Option<M>, buf: seq<Byte>): (r: Drained<M>)
    decreases |buf|
  {
    match DecodeFrame(parse, buf)
    case NeedMore => Drained([], buf, true)
    case Bad(rest) => Drained([], rest, false)
    case Got(msg, rest) =>
      var more := Drain(parse, rest);
      Drained([msg] + more.msgs, more.rest, more.ok)
  }

  function Feed<M>(parse: seq<Byte> -> Option<M>, buf: seq<Byte>, pieces: seq<seq<Byte>>): (r: Drained<M>)
    decreases |pieces|
  {
    if pieces == [] then Drained([], buf, true)
    else
      var first := Drain(parse, buf + pieces[0]);
      if !first.ok then first
      else
        var more := Feed(parse, first.rest, pieces[1..]);
        Drained(first.msgs + more.msgs, more.rest, more.ok)
  }

  function Concat(parts: seq<seq<Byte>>): (bytes: seq<Byte>) {
    if parts == [] then [] else parts[0] + Concat(parts[1..])
  }

  function FrameAll<M>(ser: M -> seq<Byte>, msgs: seq<M>): (bytes: seq<Byte>) {
    if msgs == [] then [] else Frame(ser(msgs[0])) + FrameAll(ser, msgs[1..])
  }

  // ---------- one frame ----------

  lemma FrameParts(payload: seq<Byte>, rest: seq<Byte>)
    ensures var buf := Frame(payload) + rest;
            && |buf| == 8 + |payload| + |rest| && buf[..4] == MAGIC
            && FromBigEndian(buf[4..8]) == |payload| % TWO_TO_THE_32
            && buf[8..8 + |payload|] == payload && buf[8 + |payload|..] == rest
  {
    BigEndianRoundTrip(|payload|);
    var buf := Frame(payload) + rest;
    assert buf[4..8] == BigEndian(|payload|);
  }

  /** The four bytes 0 to 3 spell "TUSH". */
  predicate StartsRight(buf: seq<Byte>)
    requires 8 <= |buf|
  {
    buf[0] == 0x54 && buf[1] == 0x55 && buf[2] == 0x53 && buf[3] == 0x48
  }

  /** The bytes 4 to 7 as a number, the highest first. */
  function Announced(buf: seq<Byte>): (n: nat)
    requires 8 <= |buf|
  {
    var b4: nat, b5: nat, b6: nat, b7: nat := buf[4], buf[5], buf[6], buf[7];
    0x100_0000 * b4 + 0x1_0000 * b5 + 0x100 * b6 + b7
  }

  lemma HeaderRead(buf: seq<Byte>)
    requires 8 <= |buf|
    ensures buf[..4] == MAGIC <==> StartsRight(buf)
    ensures FromBigEndian(buf[4..8]) == Announced(buf)
  {
    assert buf[..4] == [buf[0], buf[1], buf[2], buf[3]];
  }

  /** A frame on the wire. */
  lemma FrameLayout(payload: seq<Byte>)
    ensures var frame := Frame(payload);
            && |frame| == 8 + |payload| && StartsRight(frame) && frame[8..] == payload
            && Announced(frame) == |payload| % 0x1_0000_0000
  {
    FrameParts(payload, []);
    var frame := Frame(payload);
    assert frame + [] == frame;
    HeaderRead(frame);
  }

  /**
   One decode call, for every buffer: less than a header waits; a wrong start or a length over 16 MiB is an error and
   consumes nothing; an incomplete frame waits; a complete one is consumed,
     and is an error if its payload is no message.
   */
  lemma DecodeSays<M>(parse: seq<Byte> -> Option<M>, buf: seq<Byte>)
    ensures var r := DecodeFrame(parse, buf);
            if |buf| < 8 then r == NeedMore
            else if !StartsRight(buf) || Announced(buf) > 16_777_216 then r == Bad(buf)
            else if |buf| < 8 + Announced(buf) then r == NeedMore
            else
              var payload, rest := buf[8..8 + Announced(buf)], buf[8 + Announced(buf)..];
              r == if parse(payload).Some? then Got(parse(payload).value, rest) else Bad(rest)
  {
    if 8 <= |buf| {
      HeaderRead(buf);
    }
  }

  /** A frame is read back, and exactly its 8 + length bytes are consumed, exactly when its payload fits the limit. */
  lemma RoundTripIff<M>(ser: M -> seq<Byte>, parse: seq<Byte> -> Option<M>, msg: M, rest: seq<Byte>)
    requires parse(ser(msg)) == Some(msg)
    ensures DecodeFrame(parse, Frame(ser(msg)) + rest) == Got(msg, rest) <==> |ser(msg)| <= MAX_MESSAGE_SIZE
  {
    FrameParts(ser(msg), rest);
  }

  /** Part of a frame is not consumed, wherever the read stopped. */
  lemma PartialFrameWaits<M>(ser: M -> seq<Byte>, parse: seq<Byte> -> Option<M>, msg: M, n: nat)
    requires |ser(msg)| <= MAX_MESSAGE_SIZE && n < |Frame(ser(msg))|
    ensures DecodeFrame(parse, Frame(ser(msg))[..n]) == NeedMore
  {
    FrameParts(ser(msg), []);
    var frame := Frame(ser(msg));
    assert frame + [] == frame;
    if 8 <= n {
      assert frame[..n][..4] == frame[..4] && frame[..n][4..8] == frame[4..8];
    }
  }

  // ---------- fragmentation ----------

  lemma DecodeIsStable<M>(parse: seq<Byte> -> Option<M>, buf: seq<Byte>, more: seq<Byte>)
    ensures match DecodeFrame(parse, buf)
            case NeedMore => true
            case Bad(_) => DecodeFrame(parse, buf + more).Bad?
            case Got(msg, rest) => DecodeFrame(parse, buf + more) == Got(msg, rest + more)
  {
    if 8 <= |buf| {
      assert (buf + more)[..4] == buf[..4] && (buf + more)[4..8] == buf[4..8];
      var length := FromBigEndian(buf[4..8]);
      if 8 + length <= |buf| {
        assert (buf + more)[8..8 + length] == buf[8..8 + length];
        assert (buf + more)[8 + length..] == buf[8 + length..] + more;
      }
    }
  }

  /** Two drains agree when they found the same messages and ended the same way. */
  predicate Agree<M(==)>(a: Drained<M>, b: Drained<M>) {
    a.msgs == b.msgs && a.ok == b.ok && (a.ok ==> a.rest == b.rest)
  }

  function Then<M>(a: Drained<M>, b: Drained<M>): (r: Drained<M>) {
    Drained(a.msgs + b.msgs, b.rest, b.ok)
  }

  lemma {:induction false} DrainInTwo<M>(parse: seq<Byte> -> Option<M>, buf: seq<Byte>, more: seq<Byte>)
    ensures var first := Drain(parse, buf);
            Agree(Drain(parse, buf + more), if first.ok then Then(first, Drain(parse, first.rest + more)) else first)
    decreases |buf|
  {
    hide DecodeFrame;
    DecodeIsStable(parse, buf, more);
    match DecodeFrame(parse, buf)
    case NeedMore =>
    case Bad(_) =>
    case Got(msg, rest) =>
      DrainInTwo(parse, rest, more);
      var d := Drain(parse, rest);
      var last := Drain(parse, d.rest + more);
      assert [msg] + (d.msgs + last.msgs) == ([msg] + d.msgs) + last.msgs;
  }

  lemma {:induction false} DrainLeavesPartial<M>(parse: seq<Byte> -> Option<M>, buf: seq<Byte>)
    requires Drain(parse, buf).ok
    ensures DecodeFrame(parse, Drain(parse, buf).rest) == NeedMore
    decreases |buf|
  {
    match DecodeFrame(parse, buf)
    case NeedMore =>
    case Bad(_) =>
    case Got(_, rest) => DrainLeavesPartial(parse, rest);
  }

  /** However a byte stream is cut into pieces by the reads, the decoder finds what it finds in the whole stream. */
  lemma {:induction false} FragmentationDoesNotMatter<M>(parse: seq<Byte> -> Option<M>, buf: seq<Byte>,
                                                         pieces: seq<seq<Byte>>)
    requires DecodeFrame(parse, buf) == NeedMore
    ensures Agree(Feed(parse, buf, pieces), Drain(parse, buf + Concat(pieces)))
    decreases |pieces|
  {
    if pieces == [] {
      assert buf + [] == buf;
    } else {
      var first := Drain(parse, buf + pieces[0]);
      var rest := Concat(pieces[1..]);
      assert buf + Concat(pieces) == (buf + pieces[0]) + rest;
      DrainInTwo(parse, buf + pieces[0], rest);
      if first.ok {
        DrainLeavesPartial(parse, buf + pieces[0]);
        FragmentationDoesNotMatter(parse, first.rest, pieces[1..]);
      }
    }
  }

  lemma {:induction false} WholeStreamDecodes<M>(ser: M -> seq<Byte>, parse: seq<Byte> -> Option<M>, msgs: seq<M>)
    requires forall i :: 0 <= i < |msgs| ==> parse(ser(msgs[i])) == Some(msgs[i]) && |ser(msgs[i])| <= MAX_MESSAGE_SIZE
    ensures Drain(parse, FrameAll(ser, msgs)) == Drained(msgs, [], true)
    decreases |msgs|
  {
    if msgs != [] {
      RoundTripIff(ser, parse, msgs[0], FrameAll(ser, msgs[1..]));
      WholeStreamDecodes(ser, parse, msgs[1..]);
      assert [msgs[0]] + msgs[1..] == msgs;
    }
  }

  /** Messages before a bad frame are found, and nothing after it. */
  lemma {:induction false} BadFrameEndsTheStream<M>(ser: M -> seq<Byte>, parse: seq<Byte> -> Option<M>, msgs: seq<M>,
                                                    bad: seq<Byte>)
    requires forall i :: 0 <= i < |msgs| ==> parse(ser(msgs[i])) == Some(msgs[i]) && |ser(msgs[i])| <= MAX_MESSAGE_SIZE
    requires DecodeFrame(parse, bad).Bad?
    ensures Drain(parse, FrameAll(ser, msgs) + bad) == Drained(msgs, DecodeFrame(parse, bad).rest, false)
    decreases |msgs|
  {
    hide DecodeFrame, Frame;
    if msgs == [] {
      assert [] + bad == bad;
    } else {
      var rest := FrameAll(ser, msgs[1..]) + bad;
      RoundTripIff(ser, parse, msgs[0], rest);
      BadFrameEndsTheStream(ser, parse, msgs[1..], bad);
      assert FrameAll(ser, msgs) + bad == Frame(ser(msgs[0])) + rest;
      assert [msgs[0]] + msgs[1..] == msgs;
    }
  }

  /** Any fragmentation of the encodings of messages within the limit decodes to exactly those messages. */
  lemma StreamRoundTrip<M>(ser: M -> seq<Byte>, parse: seq<Byte> -> Option<M>, msgs: seq<M>, pieces: seq<seq<Byte>>)
    requires forall i :: 0 <= i < |msgs| ==> parse(ser(msgs[i])) == Some(msgs[i]) && |ser(msgs[i])| <= MAX_MESSAGE_SIZE
    requires Concat(pieces) == FrameAll(ser, msgs)
    ensures Feed(parse, [], pieces) == Drained(msgs, [], true)
  {
    FragmentationDoesNotMatter(parse, [], pieces);
    assert [] + Concat(pieces) == Concat(pieces);
    WholeStreamDecodes(ser, parse, msgs);
  }

  // ---------- the codec on a growing buffer ----------

  class ByteBuffer {
    var data: seq<Byte>

    constructor ()
      ensures data == []
    {
      data := [];
    }
  }

  method Encode<M>(ser: M -> seq<Byte>, item: M, dst: ByteBuffer)
    modifies dst
    ensures dst.data == old(dst.data) + Frame(ser(item))
  {
    var payload := ser(item);
    dst.data := dst.data + MAGIC;
    dst.data := dst.data + BigEndian(|payload|);
    dst.data := dst.data + payload;
    assert dst.data == old(dst.data) + Frame(payload);
  }

  /** One decode call on the buffer: `None` asks for more bytes, an error ends the stream. */
  method Decode<M>(parse: seq<Byte> -> Option<M>, src: ByteBuffer) returns (r: Result<Option<M>, ()>)
    modifies src
    ensures match DecodeFrame(parse, old(src.data))
            case NeedMore => r == Ok(None) && src.data == old(src.data)
            case Bad(rest) => r == Err(()) && src.data == rest
            case Got(msg, rest) => r == Ok(Some(msg)) && src.data == rest
  {
    if |src.data| < 8 {
      return Ok(None);
    }
    if src.data[0..4] != MAGIC {
      return Err(());
    }
    var length := FromBigEndian([src.data[4], src.data[5], src.data[6], src.data[7]]);
    assert src.data[4..8] == [src.data[4], src.data[5], src.data[6], src.data[7]];
    if length > MAX_MESSAGE_SIZE {
      return Err(());
    }
    if |src.data| < 8 + length {
      return Ok(None);
    }
    src.data := src.data[8..];
    var payload := src.data[..length];
    src.data := src.data[length..];
    assert payload == old(src.data)[8..8 + length] && src.data == old(src.data)[8 + length..];
    match parse(payload) {
      case None => return Err(());
      case Some(msg) => return Ok(Some(msg));
    }
  }

  /** Decoding until the buffer is short of a frame, or the stream is broken. */
  method DrainBuffer<M>(parse: seq<Byte> -> Option<M>, src: ByteBuffer) returns (msgs: seq<M>, ok: bool)
    modifies src
    ensures Drain(parse, old(src.data)) == Drained(msgs, src.data, ok)
  {
    msgs, ok := [], true;
    ghost var whole := Drain(parse, src.data);
    while true
      invariant ok && whole == Then(Drained(msgs, [], true), Drain(parse, src.data))
      decreases |src.data|
    {
      var r := Decode(parse, src);
      match r {
        case Ok(Some(msg)) => msgs := msgs + [msg];
        case Ok(None) => return msgs, true;
        case Err(_) => return msgs, false;
      }
    }
  }

  /** A connection reading: every arriving piece is appended and the buffer drained. */
  method ReadAll<M>(parse: seq<Byte> -> Option<M>, src: ByteBuffer, pieces: seq<seq<Byte>>)
    returns (msgs: seq<M>, ok: bool)
    modifies src
    ensures Feed(parse, old(src.data), pieces) == Drained(msgs, src.data, ok)
  {
    msgs, ok := [], true;
    var i := 0;
    ghost var whole := Feed(parse, src.data, pieces);
    while i < |pieces|
      invariant 0 <= i <= |pieces|
      invariant whole == Then(Drained(msgs, [], true), Feed(parse, src.data, pieces[i..]))
    {
      assert pieces[i..][0] == pieces[i] && pieces[i..][1..] == pieces[i + 1..];
      src.data := src.data + pieces[i];
      var found, fine := DrainBuffer(parse, src);
      msgs := msgs + found;
      if !fine {
        return msgs, false;
      }
      i := i + 1;
    }
    return msgs, true;
  }
}
