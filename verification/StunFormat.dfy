/** Constants and the message format of sections 6 and 15 of RFC 5389, written as an encoder. */
module StunFormat {
  import opened Wire

  const HEADER_LEN: nat := 20
  const COOKIE: Bytes := [0x21, 0x12, 0xa4, 0x42]
  const CRC_XOR: u32 := 0x5354_554e
  const MAX_IDENTIFIER_LEN: nat := 128

  const BINDING_REQUEST: u16 := 0x0001
  const SUCCESS_RESPONSE: u16 := 0x0101

  const USER: u16 := 0x0006
  const MESSAGE_INTEGRITY: u16 := 0x0008
  const XOR_MAPPED_ADDRESS: u16 := 0x0020
  const FINGERPRINT: u16 := 0x8028

  type TransactionId = s: Bytes | |s| == 12 witness [0, 0, 0, 0, 0, 0, 0, 0, 0, 0, 0, 0]

  /** The least multiple of four that is at least `n`. */
  function RoundUp4(n: nat): (r: nat)
    ensures n <= r < n + 4
  {
    n + (3 - (n + 3) % 4)
  }

  lemma RoundUp4Multiple(n: nat)
    ensures RoundUp4(n) % 4 == 0 && RoundUp4(n) == (n + 3) - (n + 3) % 4
  {
  }

  /** An attribute with the padding bytes its sender chose; any padding value is legal. */
  datatype Attr = Attr(kind: u16, value: Bytes, padding: Bytes) {
    predicate Ok() {
      |value| < U16 && |value| + |padding| == RoundUp4(|value|)
    }
  }

  function EncodeHeader(kind: u16, length: u16, tid: TransactionId): (r: Bytes)
    ensures |r| == HEADER_LEN
    ensures ReadU16(r, 0) == kind && ReadU16(r, 2) == length && r[4..8] == COOKIE && r[8..] == tid
  {
    PutU16(kind) + PutU16(length) + COOKIE + tid
  }

  function EncodeAttr(a: Attr): (r: Bytes)
    requires a.Ok()
    ensures |r| == 4 + RoundUp4(|a.value|)
    ensures ReadU16(r, 0) == a.kind && ReadU16(r, 2) == |a.value|
    ensures r[4..4 + |a.value|] == a.value
  {
    PutU16(a.kind) + PutU16(|a.value|) + a.value + a.padding
  }

  predicate AllOk(attrs: seq<Attr>) {
    forall i | 0 <= i < |attrs| :: attrs[i].Ok()
  }

  function EncodeAttrs(attrs: seq<Attr>): (r: Bytes)
    requires AllOk(attrs)
    ensures |r| >= 4 * |attrs|
  {
    if attrs == [] then [] else EncodeAttr(attrs[0]) + EncodeAttrs(attrs[1..])
  }

  /** A binding request: header, attributes; the length field counts the attributes only. */
  function EncodeRequest(tid: TransactionId, attrs: seq<Attr>): Bytes
    requires AllOk(attrs) && |EncodeAttrs(attrs)| < U16
  {
    EncodeHeader(BINDING_REQUEST, |EncodeAttrs(attrs)|, tid) + EncodeAttrs(attrs)
  }

  /** The fixed bytes of sections 6, 15 and 18.2 of RFC 5389 on the wire. */
  lemma FixedBytes(length: u16, tid: TransactionId)
    ensures EncodeHeader(BINDING_REQUEST, length, tid)
         == [0, 1, length / 0x100, length % 0x100, 0x21, 0x12, 0xa4, 0x42] + tid
    ensures EncodeHeader(SUCCESS_RESPONSE, length, tid)
         == [1, 1, length / 0x100, length % 0x100, 0x21, 0x12, 0xa4, 0x42] + tid
    ensures PutU16(USER) == [0, 6] && PutU16(MESSAGE_INTEGRITY) == [0, 8]
    ensures PutU16(XOR_MAPPED_ADDRESS) == [0, 0x20] && PutU16(FINGERPRINT) == [0x80, 0x28]
  {
  }
}
