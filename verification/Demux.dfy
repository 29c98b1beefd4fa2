/** Sorting datagrams into RTP, STUN and DTLS (src/server/udp.rs:345-359). */
module Demux {
  import opened Base
  import opened Wire
  import opened RtpCore
  import StunFormat
  import StunParser
  import StunWriter

  datatype Request =
    | Stun(request: StunParser.BindingRequest, addr: Addr)
    | Dtls(message: Bytes, addr: Addr)
    | Rtc(message: Bytes, addr: Addr)
    | Unknown

  predicate IsDtls(buf: Bytes)
    requires buf != []
  {
    20 <= buf[0] <= 64
  }

  /** None where the source would index an empty buffer. */
  function Classify(buf: Bytes, addr: Addr, utf8: StunParser.Validator): Option<Request> {
    if IsRtpHeader(buf) then Some(Rtc(buf, addr))
    else
      match StunParser.Parse(buf, utf8)
      case Some(r) => Some(Stun(r, addr))
      case None =>
        if buf == [] then None
        else if IsDtls(buf) then Some(Dtls(buf, addr))
        else Some(Unknown)
  }

  /** The three tests as a decision in any order: `first` and `second` are tried before the third. */
  datatype Test = RtpTest | StunTest | DtlsTest

  function Try(t: Test, buf: Bytes, addr: Addr, utf8: StunParser.Validator): Option<Request>
    requires buf != []
  {
    match t
    case RtpTest => if IsRtpHeader(buf) then Some(Rtc(buf, addr)) else None
    case StunTest =>
      (match StunParser.Parse(buf, utf8) case Some(r) => Some(Stun(r, addr)) case None => None)
    case DtlsTest => if IsDtls(buf) then Some(Dtls(buf, addr)) else None
  }

  function TryInOrder(
    first: Test, second: Test, third: Test, buf: Bytes, addr: Addr, utf8: StunParser.Validator): Request
    requires buf != []
  {
    match Try(first, buf, addr, utf8)
    case Some(r) => r
    case None =>
      match Try(second, buf, addr, utf8)
      case Some(r) => r
      case None => (match Try(third, buf, addr, utf8) case Some(r) => r case None => Unknown)
  }

  /** The tests are pairwise disjoint: the first byte decides. */
  lemma TestsAreDisjoint(buf: Bytes, utf8: StunParser.Validator)
    requires buf != []
    ensures IsRtpHeader(buf) ==> 128 <= buf[0] < 192
    ensures StunParser.Parse(buf, utf8).Some? ==> buf[0] == 0
    ensures !(IsRtpHeader(buf) && StunParser.Parse(buf, utf8).Some?)
    ensures !(IsRtpHeader(buf) && IsDtls(buf))
    ensures !(StunParser.Parse(buf, utf8).Some? && IsDtls(buf))
  {
    if StunParser.Parse(buf, utf8).Some? {
      assert StunParser.HeaderAccepted(buf);
      assert ReadU16(buf, 0) == 1;
    }
  }

  /** So their order is irrelevant: every order of the three distinct tests classifies every
      non-empty datagram as the source does. */
  lemma OrderIsIrrelevant(first: Test, second: Test, third: Test, buf: Bytes, addr: Addr, utf8: StunParser.Validator)
    requires buf != [] && first != second && second != third && first != third
    ensures Classify(buf, addr, utf8) == Some(TryInOrder(first, second, third, buf, addr, utf8))
  {
    TestsAreDisjoint(buf, utf8);
  }

  /** What each class is, by the first byte and the length; a datagram too short for RTP whose first
      byte is in its range is Unknown, and only an empty one cannot be classified. */
  lemma ClassifyIff(buf: Bytes, addr: Addr, utf8: StunParser.Validator)
    ensures Classify(buf, addr, utf8) == None <==> buf == []
    ensures Classify(buf, addr, utf8) == Some(Rtc(buf, addr)) <==> |buf| > 12 && 128 <= buf[0] <= 191
    ensures Classify(buf, addr, utf8) == Some(Dtls(buf, addr)) <==> buf != [] && 20 <= buf[0] <= 64
    ensures forall r :: Classify(buf, addr, utf8) == Some(Stun(r, addr)) <==> StunParser.Parse(buf, utf8) == Some(r)
    ensures Classify(buf, addr, utf8) == Some(Unknown) <==>
            && buf != [] && !(|buf| > 12 && 128 <= buf[0] <= 191) && !(20 <= buf[0] <= 64)
            && StunParser.Parse(buf, utf8) == None
  {
    if buf != [] {
      TestsAreDisjoint(buf, utf8);
    }
  }

  /** Renumbering a packet keeps its class and whether it is RTCP. */
  lemma RenumberingKeepsClass(buf: Bytes, addr: Addr, sequence: u16, timestamp: u32, utf8: StunParser.Validator)
    requires IsRtpHeader(buf)
    ensures var out := Rewritten(buf, sequence, timestamp);
            Classify(out, addr, utf8) == Some(Rtc(out, addr)) && IsRtcp(out) == IsRtcp(buf)
  {
    RewrittenReadsBack(buf, sequence, timestamp);
  }

  /** The server's own STUN responses are none of the three. */
  lemma OwnResponsesAreUnknown(
    tid: StunFormat.TransactionId, mapped: Addr, mac: StunWriter.Digest, crc: u32, addr: Addr,
    utf8: StunParser.Validator)
    ensures Classify(StunWriter.SuccessMessage(tid, mapped, mac, crc), addr, utf8) == Some(Unknown)
  {
    var msg := StunWriter.SuccessMessage(tid, mapped, mac, crc);
    StunWriter.ResponseLayout(tid, mapped, mac, crc);
    var head := msg[..20];
    StunParser.ReadInside(msg, 0, head);
    assert ReadU16(msg, 0) == StunFormat.SUCCESS_RESPONSE;
    assert msg[0] == 1;
  }
}
