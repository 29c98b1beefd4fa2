/** The RTP header test and reader (src/rtp/core.rs) and the in-place header rewrite. */
module RtpCore {
  import opened Base
  import opened Wire

  datatype RtpHeader = RtpHeader(marker: bool, payload: u8, sequence: u16, timestamp: u32)

  predicate IsRtpHeader(buf: Bytes) {
    |buf| > 12 && buf[0] / 64 == 2
  }

  predicate IsRtcp(buf: Bytes) {
    IsRtpHeader(buf) && !(buf[1] < 200 || buf[1] > 206)
  }

  /** The header, or None for the source's UnsupportedFormat error. */
  function FromBuf(buf: Bytes): (r: Option<RtpHeader>)
    ensures r.Some? <==> IsRtpHeader(buf)
    ensures r.Some? ==> r.value.payload < 128
  {
    if !IsRtpHeader(buf) then None
    else Some(RtpHeader(buf[1] / 128 == 1, buf[1] % 128, ReadU16(buf, 2), ReadU32(buf, 4)))
  }

  function CalculatePayload(marker: bool, payload: u8): u8
    requires payload < 128
  {
    payload + (if marker then 128 else 0)
  }

  /** The fixed part of a header as section 5.1 of RFC 3550 lays it out: `first` holds version,
      padding, extension and source count, `rest` everything after the timestamp. */
  function EncodeRtp(first: u8, h: RtpHeader, rest: Bytes): Bytes
    requires h.payload < 128
  {
    [first, CalculatePayload(h.marker, h.payload)] + PutU16(h.sequence) + PutU32(h.timestamp) + rest
  }

  /** Reading is inverse to writing, both ways: every header of version 2 that is long enough is read
      back, and every buffer that is read is the encoding of what was read. */
  lemma HeaderRoundTrip(first: u8, h: RtpHeader, rest: Bytes)
    requires h.payload < 128
    ensures FromBuf(EncodeRtp(first, h, rest)) == if first / 64 == 2 && |rest| > 4 then Some(h) else None
  {
    var buf := EncodeRtp(first, h, rest);
    var s, t := PutU16(h.sequence), PutU32(h.timestamp);
    assert buf[2] == s[0] && buf[3] == s[1];
    assert buf[4] == t[0] && buf[5] == t[1] && buf[6] == t[2] && buf[7] == t[3];
  }

  lemma HeaderIsFaithful(buf: Bytes)
    requires IsRtpHeader(buf)
    ensures buf == EncodeRtp(buf[0], FromBuf(buf).value, buf[8..])
  {
    var h := FromBuf(buf).value;
    PayloadByteRoundTrip(buf);
    PutOfRead(buf, 2);
    PutOfRead32(buf, 4);
    assert buf == buf[..2] + buf[2..4] + buf[4..8] + buf[8..];
  }

  /** RTCP is exactly an RTP-shaped header with the marker set and payload 72..78. */
  lemma RtcpIsMarkedPayload(buf: Bytes)
    ensures IsRtcp(buf) <==>
            var h := FromBuf(buf);
            h.Some? && h.value.marker && 72 <= h.value.payload <= 78
  {
    if IsRtpHeader(buf) {
      assert buf[1] == 128 * (buf[1] / 128) + buf[1] % 128;
    }
  }

  /** The marker and payload read from a header rebuild its second byte. */
  lemma PayloadByteRoundTrip(buf: Bytes)
    requires IsRtpHeader(buf)
    ensures var h := FromBuf(buf).value;
            CalculatePayload(h.marker, h.payload) == buf[1]
  {
    assert buf[1] == 128 * (buf[1] / 128) + buf[1] % 128;
  }

  // ---------------------------------------------------------------------
  // Header rewrite
  // ---------------------------------------------------------------------

  function Rewritten(buf: Bytes, sequence: u16, timestamp: u32): (r: Bytes)
    requires |buf| >= 8
    ensures |r| == |buf|
  {
    buf[..2] + PutU16(sequence) + PutU32(timestamp) + buf[8..]
  }

  /** Re-reading a rewritten packet gives the new numbers; every byte outside 2..8 is kept. */
  lemma RewrittenReadsBack(buf: Bytes, sequence: u16, timestamp: u32)
    requires |buf| >= 8
    ensures var r := Rewritten(buf, sequence, timestamp);
            && ReadU16(r, 2) == sequence && ReadU32(r, 4) == timestamp
            && r[..2] == buf[..2] && r[8..] == buf[8..]
            && IsRtpHeader(r) == IsRtpHeader(buf) && IsRtcp(r) == IsRtcp(buf)
            && (IsRtpHeader(buf) ==>
                  FromBuf(r) == Some(FromBuf(buf).value.(sequence := sequence, timestamp := timestamp)))
  {
    var r := Rewritten(buf, sequence, timestamp);
    assert r[2] == PutU16(sequence)[0] && r[3] == PutU16(sequence)[1];
    assert r[4] == PutU32(timestamp)[0] && r[5] == PutU32(timestamp)[1];
    assert r[6] == PutU32(timestamp)[2] && r[7] == PutU32(timestamp)[3];
  }

  method ReplaceSequenceAndTimestamp(buf: array<u8>, sequence: u16, timestamp: u32)
    requires buf.Length >= 8
    modifies buf
    ensures buf[..] == Rewritten(old(buf[..]), sequence, timestamp)
  {
    buf[2], buf[3] := sequence / 0x100, sequence % 0x100;
    var high, low := timestamp / 0x1_0000, timestamp % 0x1_0000;
    buf[4], buf[5] := high / 0x100, high % 0x100;
    buf[6], buf[7] := low / 0x100, low % 0x100;
  }
}
