/** User packets: reserved flag bit, size limit and optional compression. */
module Messaging {
  import opened Types

  datatype RawPacket = RawPacket(msgType: u16, flags: byte, payload: seq<byte>) {
    /** The low flag bit marks a compressed payload. */
    predicate IsCompressed() { flags % 2 == 1 }

    /** Type codes below 0x0100 are internal protocol messages. */
    predicate IsInternal() { msgType < USER_MESSAGE_START }
  }

  const USER_MESSAGE_START: u16 := 0x0100

  datatype NetworkError =
    | InvalidArgument
    | MessageTooLarge(length: u32)
    | DecompressionFailed
    | NotLeader
    | PeerNotFound(peer: PeerId)
    | DuplicatePeerId(peer: PeerId)
    | SendQueueFull
    | ConnectionFailed

  datatype Result<+T> = Ok(value: T) | Err(error: NetworkError)

  /** The compression library: only its two entry points are known. */
  datatype Lz4 = Lz4(compress: seq<byte> -> seq<byte>, decompress: seq<byte> -> Option<seq<byte>>)

  ghost predicate Inverse(lz4: Lz4) {
    forall data :: lz4.decompress(lz4.compress(data)) == Some(data)
  }

  /** `len() as u32` keeps the low 32 bits. */
  function Truncated(length: nat): u32 {
    length % 0x1_0000_0000
  }

  /** `flags & 0xFE` */
  function ClearLowBit(flags: byte): byte {
    flags - flags % 2
  }

  function EncodePacket(lz4: Lz4, msgType: u16, data: seq<byte>, userFlags: byte, threshold: u32, maxSize: u32)
    : Result<RawPacket>
  {
    if msgType < USER_MESSAGE_START then Err(InvalidArgument)
    else if Truncated(|data|) > maxSize then Err(MessageTooLarge(Truncated(|data|)))
    else
      var clean := ClearLowBit(userFlags);
      var compressed := lz4.compress(data);
      if Truncated(|data|) > threshold && |compressed| < |data| then Ok(RawPacket(msgType, clean + 1, compressed))
      else Ok(RawPacket(msgType, clean, data))
  }

  function DecodePayload(lz4: Lz4, packet: RawPacket): Result<seq<byte>> {
    if packet.IsCompressed() then
      match lz4.decompress(packet.payload)
      case Some(data) => Ok(data)
      case None => Err(DecompressionFailed)
    else Ok(packet.payload)
  }

  /** What an accepted message looks like on the wire: same type, same user flags,
      a payload no longer than the data that decodes back to it, and compressed
      exactly when it is over the threshold and compression makes it shorter. */
  lemma EncodedPacket(lz4: Lz4, msgType: u16, data: seq<byte>, userFlags: byte, threshold: u32, maxSize: u32)
    requires Inverse(lz4)
    ensures var r := EncodePacket(lz4, msgType, data, userFlags, threshold, maxSize);
            && (r.Ok? <==> msgType >= USER_MESSAGE_START && Truncated(|data|) <= maxSize)
            && (r.Ok? ==>
                  && DecodePayload(lz4, r.value) == Ok(data)
                  && r.value.msgType == msgType && r.value.flags / 2 == userFlags / 2
                  && |r.value.payload| <= |data|
                  && (r.value.IsCompressed() <==> Truncated(|data|) > threshold && |r.value.payload| < |data|)
                  && (|r.value.payload| < |data| <==> Truncated(|data|) > threshold && |lz4.compress(data)| < |data|))
  {
  }

  /** Why a message is not accepted: its type first, then its length cut to 32 bits. */
  lemma EncodingFailsExactly(lz4: Lz4, msgType: u16, data: seq<byte>, userFlags: byte, threshold: u32, maxSize: u32)
    ensures var r := EncodePacket(lz4, msgType, data, userFlags, threshold, maxSize);
            && (r == Err(InvalidArgument) <==> msgType < USER_MESSAGE_START)
            && (r == Err(MessageTooLarge(Truncated(|data|))) <==>
                  msgType >= USER_MESSAGE_START && Truncated(|data|) > maxSize)
            && (r.Err? ==> r.error.InvalidArgument? || r.error.MessageTooLarge?)
  {
  }

  /** A payload fails to decode only if it is marked compressed and does not decompress;
      one not marked is handed over as it is. */
  lemma DecodingFailsExactly(lz4: Lz4, p: RawPacket)
    ensures DecodePayload(lz4, p) == Err(DecompressionFailed) <==> p.IsCompressed() && lz4.decompress(p.payload) == None
    ensures DecodePayload(lz4, p).Err? ==> DecodePayload(lz4, p) == Err(DecompressionFailed)
    ensures !p.IsCompressed() ==> DecodePayload(lz4, p) == Ok(p.payload)
  {
  }
}
