/**
 * The radio frame codec: a 4-byte header [device id, type, length + 1, sequence]
 * followed by the payload. Only the path without an encryption key is modelled.
 */
module Codec {
  import opened Wrappers

  /** A Python `bytes` element. */
  type Byte = b: int | 0 <= b < 256

  /** Frame type tags. */
  const DATA: Byte := 1
  const RESPONSE: Byte := 2
  const ACK: Byte := 3

  /** Largest payload that fits one frame. */
  const MaxPayload: nat := 251

  const HeaderSize: nat := 4

  /** Why `encapsulate_packet` raises: ValueError for a long payload, struct.error for a field outside 0..255. */
  datatype EncodeError = PayloadTooLarge | FieldOutOfRange

  /** The fields `on_rx_done` extracts from a received buffer. */
  datatype Frame = Frame(deviceId: Byte, packetType: Byte, sequenceNum: Byte, data: seq<Byte>)

  predicate IsByte(x: int) {
    0 <= x < 256
  }

  function Min(a: int, b: int): int { if a <= b then a else b }

  function Max(a: int, b: int): int { if a <= b then b else a }

  /** Python's `s[start:stop]` for non-negative bounds: both are clamped to the length and a reversed range is empty. */
  function Slice(s: seq<Byte>, start: nat, stop: nat): (r: seq<Byte>)
    ensures |r| == Max(0, Min(stop, |s|) - Min(start, |s|))
    ensures forall i :: 0 <= i < |r| ==> r[i] == s[start + i]
  {
    var lo := Min(start, |s|);
    var hi := Min(stop, |s|);
    if hi <= lo then [] else s[lo..hi]
  }

  /** `encapsulate_packet` without an encryption key. */
  function Encapsulate(deviceId: int, packetType: int, sequenceNum: int, data: seq<Byte>): (r: Result<seq<Byte>, EncodeError>)
    ensures r.Success? <==> |data| <= MaxPayload && IsByte(deviceId) && IsByte(packetType) && IsByte(sequenceNum)
    ensures |data| > MaxPayload ==> r == Failure(PayloadTooLarge)
    ensures r.Success? ==>
      |r.value| == |data| + HeaderSize && r.value[HeaderSize..] == data &&
      r.value[0] == deviceId && r.value[1] == packetType &&
      r.value[2] == |data| + 1 <= MaxPayload + 1 && r.value[3] == sequenceNum
  {
    if |data| > MaxPayload then
      Failure(PayloadTooLarge)
    else if !(IsByte(deviceId) && IsByte(packetType) && IsByte(sequenceNum)) then
      Failure(FieldOutOfRange)
    else
      Success([deviceId as Byte, packetType as Byte, (|data| + 1) as Byte, sequenceNum as Byte] + data)
  }

  /**
   * The header and payload extraction of `on_rx_done`: a buffer shorter than the
   * header is dropped; otherwise the payload is `buf[4:4 + (L - 1)]`, so a buffer
   * shorter than its declared length L yields a shortened payload rather than an error.
   */
  function Decode(buf: seq<Byte>): (r: Option<Frame>)
    ensures r.None? <==> |buf| < HeaderSize
    ensures r.Some? ==>
      r.value.deviceId == buf[0] && r.value.packetType == buf[1] && r.value.sequenceNum == buf[3] &&
      |r.value.data| == Min(Max(buf[2] as int - 1, 0), |buf| - HeaderSize) &&
      r.value.data == buf[HeaderSize..HeaderSize + |r.value.data|]
  {
    if |buf| < HeaderSize then
      None
    else
      var data := Slice(buf, HeaderSize, HeaderSize - 1 + buf[2]);
      assert data == buf[HeaderSize..HeaderSize + |data|];
      Some(Frame(buf[0], buf[1], buf[3], data))
  }

  /** Decoding what `Encapsulate` produced gives back the fields it was given. */
  lemma RoundTrip(deviceId: int, packetType: int, sequenceNum: int, data: seq<Byte>)
    requires Encapsulate(deviceId, packetType, sequenceNum, data).Success?
    ensures Decode(Encapsulate(deviceId, packetType, sequenceNum, data).value)
         == Some(Frame(deviceId as Byte, packetType as Byte, sequenceNum as Byte, data))
  {
    var buf := Encapsulate(deviceId, packetType, sequenceNum, data).value;
    assert buf[HeaderSize..HeaderSize + |data|] == data;
  }

  /** A frame with no payload (an ACK) is the bare header with declared length 1. */
  lemma EmptyPayloadFrame(deviceId: Byte, packetType: Byte, sequenceNum: Byte)
    ensures Encapsulate(deviceId, packetType, sequenceNum, []) == Success([deviceId, packetType, 1, sequenceNum])
  {
    assert [deviceId, packetType, 1, sequenceNum] + [] == [deviceId, packetType, 1, sequenceNum];
  }

  /** A buffer that ends before its declared length is accepted with the bytes that are there. */
  lemma TruncatedAccepted(buf: seq<Byte>)
    requires HeaderSize <= |buf| < HeaderSize + buf[2] as int - 1
    ensures Decode(buf).Some?
    ensures Decode(buf).value.data == buf[HeaderSize..]
    ensures |Decode(buf).value.data| < buf[2] as int - 1
  {
  }

  /** The boundary of `encapsulate_packet`: 251 payload bytes fit, 252 do not. */
  lemma PayloadBoundary(deviceId: Byte, packetType: Byte, sequenceNum: Byte, data: seq<Byte>)
    ensures |data| == MaxPayload ==> Encapsulate(deviceId, packetType, sequenceNum, data).Success?
    ensures |data| == MaxPayload + 1 ==> Encapsulate(deviceId, packetType, sequenceNum, data) == Failure(PayloadTooLarge)
  {
  }
}
