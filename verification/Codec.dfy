/** Packet framing: a 7-byte header (length, type, flags; big-endian) and the payload. */
module Codec {
  import opened Types
  import opened Messaging

  // --- big-endian integers ---------------------------------------------------

  function PutU16(n: u16): seq<byte> {
    [n / 0x100, n % 0x100]
  }

  function PutU32(n: u32): seq<byte> {
    PutU16(n / 0x1_0000) + PutU16(n % 0x1_0000)
  }

  function GetU16(b: seq<byte>): u16
    requires |b| == 2
  {
    b[0] as int * 0x100 + b[1] as int
  }

  function GetU32(b: seq<byte>): u32
    requires |b| == 4
  {
    GetU16(b[..2]) as int * 0x1_0000 + GetU16(b[2..]) as int
  }

  lemma U32RoundTrip(n: u32)
    ensures GetU32(PutU32(n)) == n
  {
    assert PutU32(n)[..2] == PutU16(n / 0x1_0000) && PutU32(n)[2..] == PutU16(n % 0x1_0000);
  }

  // --- one packet ------------------------------------------------------------

  function Frame(p: RawPacket): seq<byte>
    requires |p.payload| < 0x1_0000_0000
  {
    PutU32(|p.payload|) + PutU16(p.msgType) + [p.flags] + p.payload
  }

  datatype Decoded = NeedMore | TooLarge(length: u32) | Packet(packet: RawPacket, rest: seq<byte>)

  function DecodeOne(maxSize: u32, buf: seq<byte>): Decoded {
    if |buf| < 7 then NeedMore
    else
      var length: int := GetU32(buf[..4]);
      if length > maxSize then TooLarge(length)
      else if |buf| < 7 + length then NeedMore
      else Packet(RawPacket(GetU16(buf[4..6]), buf[6], buf[7..7 + length]), buf[7 + length..])
  }

  /** A framed packet followed by anything decodes to itself, or is too large. */
  lemma DecodeFrame(maxSize: u32, p: RawPacket, rest: seq<byte>)
    requires |p.payload| < 0x1_0000_0000
    ensures DecodeOne(maxSize, Frame(p) + rest) ==
              if |p.payload| <= maxSize then Packet(p, rest) else TooLarge(|p.payload|)
  {
    var buf := Frame(p) + rest;
    assert buf[..4] == PutU32(|p.payload|);
    U32RoundTrip(|p.payload|);
    assert buf[4..6] == PutU16(p.msgType) && buf[6] == p.flags;
    assert buf[7..7 + |p.payload|] == p.payload && buf[7 + |p.payload|..] == rest;
  }

  /** Whatever was decoded or refused stays so when more bytes follow. */
  lemma DecodeMore(maxSize: u32, buf: seq<byte>, more: seq<byte>)
    ensures DecodeOne(maxSize, buf).TooLarge? ==> DecodeOne(maxSize, buf + more) == DecodeOne(maxSize, buf)
    ensures var d := DecodeOne(maxSize, buf);
            d.Packet? ==> DecodeOne(maxSize, buf + more) == Packet(d.packet, d.rest + more)
  {
    if |buf| >= 7 {
      var length: int := GetU32(buf[..4]);
      assert (buf + more)[..4] == buf[..4] && (buf + more)[4..6] == buf[4..6];
      if |buf| >= 7 + length {
        assert (buf + more)[7..7 + length] == buf[7..7 + length];
        assert (buf + more)[7 + length..] == buf[7 + length..] + more;
      }
    }
  }

  /** The length a header announces, most significant byte first. */
  function Announced(b: seq<byte>): nat
    requires |b| >= 4
  {
    b[0] as int * 0x100_0000 + b[1] as int * 0x1_0000 + b[2] as int * 0x100 + b[3] as int
  }

  /** The format on the wire, byte by byte. */
  lemma WireFormat(p: RawPacket)
    requires |p.payload| < 0x1_0000_0000
    ensures var f := Frame(p);
            && |f| == 7 + |p.payload| && Announced(f) == |p.payload|
            && f[4] as int * 0x100 + f[5] as int == p.msgType && f[6] == p.flags && f[7..] == p.payload
  {
    var f := Frame(p);
    assert f[..4] == PutU32(|p.payload|) && f[4..6] == PutU16(p.msgType);
    assert f[0] == f[..4][0] && f[1] == f[..4][1] && f[2] == f[..4][2] && f[3] == f[..4][3];
    assert f[4] == f[4..6][0] && f[5] == f[4..6][1];
  }

  /** What the decoder does with any bytes is decided by the header alone: it waits for
      the header, refuses an oversize length at once, waits for the payload, and else
      takes off exactly the frame that stands at the front. */
  lemma HeaderDecides(maxSize: u32, buf: seq<byte>)
    ensures var d := DecodeOne(maxSize, buf);
            && (d.NeedMore? <==> |buf| < 7 || (Announced(buf) <= maxSize && |buf| < 7 + Announced(buf)))
            && (d.TooLarge? <==> |buf| >= 7 && Announced(buf) > maxSize)
            && (d.TooLarge? ==> d.length == Announced(buf))
            && (d.Packet? ==> |d.packet.payload| == Announced(buf) && buf == Frame(d.packet) + d.rest)
  {
    if |buf| >= 7 {
      HeaderLength(buf);
      var d := DecodeOne(maxSize, buf);
      if d.Packet? { FrontFrame(buf, d.packet, d.rest); }
    }
  }

  lemma HeaderLength(buf: seq<byte>)
    requires |buf| >= 4
    ensures GetU32(buf[..4]) == Announced(buf)
  {
    assert buf[..4][..2] == [buf[0], buf[1]] && buf[..4][2..] == [buf[2], buf[3]];
  }

  lemma FrontFrame(buf: seq<byte>, p: RawPacket, rest: seq<byte>)
    requires |buf| >= 7 + |p.payload| && |p.payload| == GetU32(buf[..4])
    requires p == RawPacket(GetU16(buf[4..6]), buf[6], buf[7..7 + |p.payload|]) && rest == buf[7 + |p.payload|..]
    ensures buf == Frame(p) + rest
  {
    HeaderLength(buf);
    WireFormat(p);
    var f := Frame(p);
    SameDigits(buf[0], buf[1], buf[2], buf[3], f[0], f[1], f[2], f[3]);
    assert f[4] == buf[4] && f[5] == buf[5];
    assert f[7..] == buf[7..7 + |p.payload|];
    forall i | 0 <= i < |f| ensures f[i] == buf[i] {
      if i >= 7 { assert f[7..][i - 7] == buf[7..7 + |p.payload|][i - 7]; }
    }
    assert buf == buf[..|f|] + buf[|f|..];
    assert buf[..|f|] == f;
  }

  lemma SameDigits(a: byte, b: byte, c: byte, d: byte, e: byte, f: byte, g: byte, h: byte)
    requires a as int * 0x100_0000 + b as int * 0x1_0000 + c as int * 0x100 + d as int
             == e as int * 0x100_0000 + f as int * 0x1_0000 + g as int * 0x100 + h as int
    ensures a == e && b == f && c == g && d == h
  {
  }

  // --- a stream --------------------------------------------------------------

  /** Packets so far, bytes not yet consumed, and the length that stopped decoding, if any. */
  datatype Stream = Stream(packets: seq<RawPacket>, rest: seq<byte>, error: Option<u32>)

  function Prepend(p: RawPacket, s: Stream): Stream {
    s.(packets := [p] + s.packets)
  }

  /** Decode until more bytes are needed or a packet is refused. */
  function DecodeAll(maxSize: u32, buf: seq<byte>): Stream
    decreases |buf|
  {
    match DecodeOne(maxSize, buf)
    case NeedMore => Stream([], buf, None)
    case TooLarge(length) => Stream([], buf, Some(length))
    case Packet(p, rest) => Prepend(p, DecodeAll(maxSize, rest))
  }

  /** Append a chunk and decode on; after a refusal the bytes are only kept. */
  function Feed(maxSize: u32, s: Stream, chunk: seq<byte>): Stream {
    if s.error.Some? then s.(rest := s.rest + chunk)
    else
      var d := DecodeAll(maxSize, s.rest + chunk);
      Stream(s.packets + d.packets, d.rest, d.error)
  }

  function FeedAll(maxSize: u32, s: Stream, chunks: seq<seq<byte>>): Stream
    decreases |chunks|
  {
    if chunks == [] then s else FeedAll(maxSize, Feed(maxSize, s, chunks[0]), chunks[1..])
  }

  function Concat(chunks: seq<seq<byte>>): seq<byte> {
    if chunks == [] then [] else chunks[0] + Concat(chunks[1..])
  }

  lemma FeedPrepend(maxSize: u32, p: RawPacket, s: Stream, chunk: seq<byte>)
    ensures Feed(maxSize, Prepend(p, s), chunk) == Prepend(p, Feed(maxSize, s, chunk))
  {
    var d := DecodeAll(maxSize, s.rest + chunk);
    assert [p] + s.packets + d.packets == [p] + (s.packets + d.packets);
  }

  lemma {:induction false} FeedIsDecodeAll(maxSize: u32, buf: seq<byte>, chunk: seq<byte>)
    ensures Feed(maxSize, DecodeAll(maxSize, buf), chunk) == DecodeAll(maxSize, buf + chunk)
    decreases |buf|
  {
    DecodeMore(maxSize, buf, chunk);
    match DecodeOne(maxSize, buf)
    case NeedMore => assert [] + DecodeAll(maxSize, buf + chunk).packets == DecodeAll(maxSize, buf + chunk).packets;
    case TooLarge(_) =>
    case Packet(p, rest) =>
      FeedIsDecodeAll(maxSize, rest, chunk);
      FeedPrepend(maxSize, p, DecodeAll(maxSize, rest), chunk);
  }

  lemma Regroup(a: seq<byte>, b: seq<byte>, c: seq<byte>)
    ensures a + b + c == a + (b + c)
  {
  }

  /** However a byte stream is cut into chunks, decoding it chunk by chunk gives
      the packets, the leftover bytes and the refusal of decoding it at once. */
  lemma {:induction false} ChunkIndependence(maxSize: u32, sofar: seq<byte>, chunks: seq<seq<byte>>)
    ensures FeedAll(maxSize, DecodeAll(maxSize, sofar), chunks) == DecodeAll(maxSize, sofar + Concat(chunks))
    decreases |chunks|
  {
    if chunks == [] {
      assert sofar + Concat(chunks) == sofar;
    } else {
      var rest := chunks[1..];
      FeedIsDecodeAll(maxSize, sofar, chunks[0]);
      ChunkIndependence(maxSize, sofar + chunks[0], rest);
      Regroup(sofar, chunks[0], Concat(rest));
    }
  }

  /** `packets` have been taken off `whole`, and decoding `rest` yields what follows. */
  ghost predicate ReadSoFar(maxSize: u32, whole: seq<byte>, packets: seq<RawPacket>, rest: seq<byte>) {
    var d := DecodeAll(maxSize, rest);
    Stream(packets + d.packets, d.rest, d.error) == DecodeAll(maxSize, whole)
  }

  /** Decoding once more either goes on or ends with the result for the whole. */
  lemma ReadOn(maxSize: u32, whole: seq<byte>, packets: seq<RawPacket>, rest: seq<byte>)
    requires ReadSoFar(maxSize, whole, packets, rest)
    ensures var one := DecodeOne(maxSize, rest);
            && (one.NeedMore? ==> Stream(packets, rest, None) == DecodeAll(maxSize, whole))
            && (one.TooLarge? ==> Stream(packets, rest, Some(one.length)) == DecodeAll(maxSize, whole))
            && (one.Packet? ==> ReadSoFar(maxSize, whole, packets + [one.packet], one.rest))
  {
    match DecodeOne(maxSize, rest)
    case NeedMore => assert packets + [] == packets;
    case TooLarge(_) => assert packets + [] == packets;
    case Packet(p, more) =>
      var d := DecodeAll(maxSize, more);
      assert packets + [p] + d.packets == packets + ([p] + d.packets);
  }

  // --- the decoder and encoder over mutable buffers --------------------------

  class BytesMut {
    var data: seq<byte>

    constructor ()
      ensures data == []
    {
      data := [];
    }

    method Extend(bytes: seq<byte>)
      modifies this
      ensures data == old(data) + bytes
    {
      data := data + bytes;
    }

    method SplitTo(n: nat) returns (front: seq<byte>)
      requires n <= |data|
      modifies this
      ensures front == old(data)[..n] && data == old(data)[n..]
    {
      front := data[..n];
      data := data[n..];
    }
  }

  class PacketCodec {
    const maxMessageSize: u32

    constructor (maxMessageSize: u32)
      ensures this.maxMessageSize == maxMessageSize
    {
      this.maxMessageSize := maxMessageSize;
    }

    method Decode(src: BytesMut) returns (r: Result<Option<RawPacket>>)
      modifies src
      ensures match DecodeOne(maxMessageSize, old(src.data))
              case NeedMore => r == Ok(None) && src.data == old(src.data)
              case TooLarge(length) => r == Err(MessageTooLarge(length)) && src.data == old(src.data)
              case Packet(p, rest) => r == Ok(Some(p)) && src.data == rest
    {
      if |src.data| < 7 { return Ok(None); }
      var length: int := GetU32(src.data[..4]);
      if length > maxMessageSize { return Err(MessageTooLarge(length)); }
      var total := 7 + length;
      if |src.data| < total { return Ok(None); }
      ghost var buf := src.data;
      var header := src.SplitTo(7);
      var payload := src.SplitTo(length);
      assert header[4..6] == buf[4..6] && payload == buf[7..7 + length] && src.data == buf[7 + length..];
      return Ok(Some(RawPacket(GetU16(header[4..6]), header[6], payload)));
    }

    method Encode(item: RawPacket, dst: BytesMut) returns (r: Result<()>)
      modifies dst
      ensures r.Ok? <==> !Refused(maxMessageSize, item)
      ensures if r.Ok? then dst.data == old(dst.data) + Frame(item)
              else r == Err(MessageTooLarge(Truncated(|item.payload|))) && dst.data == old(dst.data)
    {
      if |item.payload| > maxMessageSize { return Err(MessageTooLarge(Truncated(|item.payload|))); }
      ghost var before := dst.data;
      dst.Extend(PutU32(|item.payload|));
      dst.Extend(PutU16(item.msgType));
      dst.Extend([item.flags]);
      dst.Extend(item.payload);
      assert dst.data == before + Frame(item);
      return Ok(());
    }

    /** The read loop of the framed stream: take packets off the buffer until it
        needs more bytes or refuses one. */
    method DecodeAvailable(src: BytesMut) returns (packets: seq<RawPacket>, error: Option<u32>)
      modifies src
      ensures Stream(packets, src.data, error) == DecodeAll(maxMessageSize, old(src.data))
    {
      packets, error := [], None;
      ghost var whole := src.data;
      assert ReadSoFar(maxMessageSize, whole, [], whole) by {
        assert [] + DecodeAll(maxMessageSize, whole).packets == DecodeAll(maxMessageSize, whole).packets;
      }
      while true
        invariant ReadSoFar(maxMessageSize, whole, packets, src.data)
        decreases |src.data|
      {
        ReadOn(maxMessageSize, whole, packets, src.data);
        var r := Decode(src);
        match r
        case Ok(None) => return;
        case Ok(Some(p)) => packets := packets + [p];
        case Err(e) =>
          error := Some(e.length);
          return;
      }
    }
  }

  // --- messages end to end ---------------------------------------------------

  datatype UserMessage = UserMessage(msgType: u16, data: seq<byte>, flags: byte)

  predicate Accepted(lz4: Lz4, m: UserMessage, threshold: u32, maxSize: u32) {
    EncodePacket(lz4, m.msgType, m.data, m.flags, threshold, maxSize).Ok?
  }

  /** Encode and frame every message, in order. */
  function FrameAll(packets: seq<RawPacket>): seq<byte>
    requires forall p | p in packets :: |p.payload| < 0x1_0000_0000
  {
    if packets == [] then [] else Frame(packets[0]) + FrameAll(packets[1..])
  }

  lemma DecodeFront(maxSize: u32, p: RawPacket, tail: seq<byte>)
    requires |p.payload| <= maxSize
    ensures DecodeAll(maxSize, Frame(p) + tail) == Prepend(p, DecodeAll(maxSize, tail))
  {
    DecodeFrame(maxSize, p, tail);
  }

  lemma FrameFirst(p: RawPacket, rest: seq<RawPacket>)
    requires forall q | q in [p] + rest :: |q.payload| < 0x1_0000_0000
    ensures p in [p] + rest && forall q | q in rest :: q in [p] + rest
    ensures FrameAll([p] + rest) == Frame(p) + FrameAll(rest)
  {
    assert ([p] + rest)[1..] == rest;
  }

  lemma {:induction false} DecodeFrames(maxSize: u32, packets: seq<RawPacket>)
    requires forall p | p in packets :: |p.payload| <= maxSize
    ensures DecodeAll(maxSize, FrameAll(packets)) == Stream(packets, [], None)
  {
    if packets != [] {
      var rest := packets[1..];
      forall p | p in rest ensures |p.payload| <= maxSize { assert p in packets; }
      DecodeFrames(maxSize, rest);
      FrameFirst(packets[0], rest);
      DecodeFront(maxSize, packets[0], FrameAll(rest));
      assert packets == [packets[0]] + rest;
    }
  }

  function PacketsOf(lz4: Lz4, ms: seq<UserMessage>, threshold: u32, maxSize: u32): seq<RawPacket>
    requires forall i | 0 <= i < |ms| :: Accepted(lz4, ms[i], threshold, maxSize)
  {
    seq(|ms|, i requires 0 <= i < |ms| && Accepted(lz4, ms[i], threshold, maxSize) =>
      EncodePacket(lz4, ms[i].msgType, ms[i].data, ms[i].flags, threshold, maxSize).value)
  }

  /** Every accepted message shorter than 2^32 bytes survives encoding, framing,
      concatenation, any chunking, and decoding, whatever the threshold. */
  lemma EndToEnd(lz4: Lz4, ms: seq<UserMessage>, threshold: u32, maxSize: u32, chunks: seq<seq<byte>>)
    requires Inverse(lz4)
    requires forall i | 0 <= i < |ms| :: Accepted(lz4, ms[i], threshold, maxSize) && |ms[i].data| < 0x1_0000_0000
    ensures var packets := PacketsOf(lz4, ms, threshold, maxSize);
            && (forall p | p in packets :: |p.payload| <= maxSize)
            && (Concat(chunks) == FrameAll(packets) ==>
                  var s := FeedAll(maxSize, Stream([], [], None), chunks);
                  && s.rest == [] && s.error == None && |s.packets| == |ms|
                  && forall i | 0 <= i < |ms| ::
                       && DecodePayload(lz4, s.packets[i]) == Ok(ms[i].data)
                       && s.packets[i].msgType == ms[i].msgType
                       && s.packets[i].flags / 2 == ms[i].flags / 2)
  {
    var packets := PacketsOf(lz4, ms, threshold, maxSize);
    forall i | 0 <= i < |ms|
      ensures |packets[i].payload| <= maxSize && DecodePayload(lz4, packets[i]) == Ok(ms[i].data)
      ensures packets[i].msgType == ms[i].msgType && packets[i].flags / 2 == ms[i].flags / 2
    {
      EncodedPacket(lz4, ms[i].msgType, ms[i].data, ms[i].flags, threshold, maxSize);
    }
    if Concat(chunks) == FrameAll(packets) {
      ChunkIndependence(maxSize, [], chunks);
      assert [] + Concat(chunks) == Concat(chunks);
      DecodeFrames(maxSize, packets);
    }
  }

  /** The framing codec turns the packet away. */
  predicate Refused(maxSize: u32, p: RawPacket) {
    |p.payload| > maxSize
  }

  /** The length premise is exact: of what `EncodePacket` accepts, the framing codec
      refuses the messages of 2^32 bytes or more, save those that go compressed
      and shrink to within the limit. */
  lemma LongMessagesAreRefused(lz4: Lz4, m: UserMessage, threshold: u32, maxSize: u32)
    requires Accepted(lz4, m, threshold, maxSize)
    ensures var p := EncodePacket(lz4, m.msgType, m.data, m.flags, threshold, maxSize).value;
            Refused(maxSize, p) <==>
              |m.data| >= 0x1_0000_0000 && (Truncated(|m.data|) <= threshold || |lz4.compress(m.data)| > maxSize)
  {
    var p := EncodePacket(lz4, m.msgType, m.data, m.flags, threshold, maxSize).value;
    assert p.payload == lz4.compress(m.data) || p.payload == m.data;
  }

  /** A length that is a multiple of 2^32 looks like zero: every such user message is
      accepted, uncompressed, under every threshold and limit, and then refused. */
  lemma MultiplesOf4GiBAreAcceptedAndRefused(lz4: Lz4, m: UserMessage, threshold: u32, maxSize: u32)
    requires m.msgType >= USER_MESSAGE_START && m.data != [] && |m.data| % 0x1_0000_0000 == 0
    ensures Accepted(lz4, m, threshold, maxSize)
    ensures var p := EncodePacket(lz4, m.msgType, m.data, m.flags, threshold, maxSize).value;
            p.payload == m.data && !p.IsCompressed() && Refused(maxSize, p)
  {
    LongMessagesAreRefused(lz4, m, threshold, maxSize);
  }

  /** Such a message: 2^32 zero bytes. */
  lemma SomeAcceptedMessageIsRefused(lz4: Lz4, threshold: u32, maxSize: u32) returns (m: UserMessage)
    ensures Accepted(lz4, m, threshold, maxSize)
    ensures Refused(maxSize, EncodePacket(lz4, m.msgType, m.data, m.flags, threshold, maxSize).value)
  {
    m := UserMessage(USER_MESSAGE_START, seq(0x1_0000_0000, _ => 0), 0);
    MultiplesOf4GiBAreAcceptedAndRefused(lz4, m, threshold, maxSize);
  }
}
