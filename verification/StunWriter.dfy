/** The binding success response (src/stun/mod.rs, write_stun_success_response and xor_range). */
module StunWriter {
  import opened Base
  import opened Wire
  import opened StunFormat
  import StunParser

  type Digest = s: Bytes | |s| == 20
    witness [0, 0, 0, 0, 0, 0, 0, 0, 0, 0, 0, 0, 0, 0, 0, 0, 0, 0, 0, 0]

  /** HMAC-SHA1 may fail inside OpenSSL; of its value only the length is known. */
  type Hmac = (Bytes, Bytes) -> Option<Digest>
  type Crc = Bytes -> u32

  datatype WriteResult = Ok(written: nat) | BufferTooSmall | CryptoError

  // ---------------------------------------------------------------------
  // The message to be written
  // ---------------------------------------------------------------------

  function AddrLen(addr: Addr): nat {
    if addr.V4? then 8 else 20
  }

  function AddrValue(tid: TransactionId, addr: Addr): (r: Bytes)
    ensures |r| == AddrLen(addr)
  {
    match addr
    case V4(ip, port) => [0, 1] + XorBytes(PutU16(port), COOKIE) + XorBytes(ip, COOKIE)
    case V6(ip, port) =>
      [0, 2] + XorBytes(PutU16(port), COOKIE) + XorBytes(ip[..4], COOKIE) + XorBytes(ip[4..], tid)
  }

  function AddrAttr(tid: TransactionId, addr: Addr): (a: Attr)
    ensures a.Ok()
  {
    Attr(XOR_MAPPED_ADDRESS, AddrValue(tid, addr), [])
  }

  function IntegrityAttr(mac: Digest): (a: Attr)
    ensures a.Ok()
  {
    Attr(MESSAGE_INTEGRITY, mac, [])
  }

  function FingerprintAttr(crc: u32): (a: Attr)
    ensures a.Ok()
  {
    Attr(FINGERPRINT, PutU32(Xor32(crc, CRC_XOR)), [])
  }

  function IntegrityLen(addr: Addr): u16 { 28 + AddrLen(addr) }
  function ContentLen(addr: Addr): u16 { 36 + AddrLen(addr) }

  /** What the HMAC is computed over: the length field already counts MESSAGE-INTEGRITY. */
  function MacInput(tid: TransactionId, addr: Addr): Bytes {
    EncodeHeader(SUCCESS_RESPONSE, IntegrityLen(addr), tid) + EncodeAttr(AddrAttr(tid, addr))
  }

  /** What the CRC is computed over: the length field is final. */
  function CrcInput(tid: TransactionId, addr: Addr, mac: Digest): Bytes {
    EncodeHeader(SUCCESS_RESPONSE, ContentLen(addr), tid)
    + EncodeAttr(AddrAttr(tid, addr)) + EncodeAttr(IntegrityAttr(mac))
  }

  function SuccessMessage(tid: TransactionId, addr: Addr, mac: Digest, crc: u32): (r: Bytes)
    ensures |r| == HEADER_LEN + ContentLen(addr)
  {
    CrcInput(tid, addr, mac) + EncodeAttr(FingerprintAttr(crc))
  }

  // ---------------------------------------------------------------------
  // Writing it in place
  // ---------------------------------------------------------------------

  /** `done` followed by what the buffer held before. */
  function Over(done: Bytes, was: Bytes): (r: Bytes)
    requires |done| <= |was|
    ensures |r| == |was|
  {
    done + was[|done|..]
  }

  /** Copies `s` into the buffer right after the part already written. */
  method Put(out: array<u8>, at: nat, s: Bytes, ghost done: Bytes, ghost was: Bytes)
    requires |done| == at && at + |s| <= out.Length && |was| == out.Length
    requires out[..] == Over(done, was)
    modifies out
    ensures out[..] == Over(done + s, was)
  {
    for i := 0 to |s|
      invariant out[..] == Over(done + s[..i], was)
    {
      out[at + i] := s[i];
    }
    assert s[..|s|] == s;
  }

  /** xor_range on the `n` bytes written last. */
  method XorRange(out: array<u8>, at: nat, n: nat, key: Bytes, ghost done: Bytes, ghost last: Bytes, ghost was: Bytes)
    requires |done| == at && |last| == n <= |key| && at + n <= out.Length && |was| == out.Length
    requires out[..] == Over(done + last, was)
    modifies out
    ensures out[..] == Over(done + XorBytes(last, key), was)
  {
    ghost var target := XorBytes(last, key);
    for i := 0 to n
      invariant out[..] == Over(done + target[..i] + last[i..], was)
    {
      assert out[at + i] == out[..][at + i] == last[i];
      out[at + i] := Xor8(out[at + i], key[i]);
    }
    assert target[..n] == target && last[n..] == [];
    assert done + target + [] == done + target;
  }

  /** Copies `s` and XORs it with `key` where it stands. */
  method PutXored(out: array<u8>, at: nat, s: Bytes, key: Bytes, ghost done: Bytes, ghost was: Bytes)
    requires |done| == at && at + |s| <= out.Length && |was| == out.Length && |s| <= |key|
    requires out[..] == Over(done, was)
    modifies out
    ensures out[..] == Over(done + XorBytes(s, key), was)
  {
    Put(out, at, s, done, was);
    XorRange(out, at, |s|, key, done, s, was);
  }

  function AddrMarker(addr: Addr): (r: Bytes)
    ensures |r| == 6
  {
    PutU16(XOR_MAPPED_ADDRESS) + PutU16(AddrLen(addr)) + [0, if addr.V4? then 1 else 2]
  }

  /** The address attribute as the writer lays it out, behind what is already written. */
  lemma AddrLayout(tid: TransactionId, addr: Addr, done: Bytes)
    ensures var d := done + AddrMarker(addr) + XorBytes(PutU16(addr.port), COOKIE);
            done + EncodeAttr(AddrAttr(tid, addr)) ==
            if addr.V4? then d + XorBytes(addr.ip4, COOKIE)
            else d + XorBytes(addr.ip6[..4], COOKIE) + XorBytes(addr.ip6[4..], tid)
  {
  }

  method WriteAddress(tid: TransactionId, addr: Addr, out: array<u8>, ghost done: Bytes, ghost was: Bytes)
    requires |done| == HEADER_LEN && HEADER_LEN + 4 + AddrLen(addr) <= out.Length && |was| == out.Length
    requires out[..] == Over(done, was)
    modifies out
    ensures out[..] == Over(done + EncodeAttr(AddrAttr(tid, addr)), was)
  {
    AddrLayout(tid, addr, done);
    Put(out, 20, AddrMarker(addr), done, was);
    ghost var d := done + AddrMarker(addr);
    PutXored(out, 26, PutU16(addr.port), COOKIE, d, was);
    d := d + XorBytes(PutU16(addr.port), COOKIE);
    match addr {
      case V4(ip, port) =>
        PutXored(out, 28, ip, COOKIE, d, was);
      case V6(ip, port) =>
        PutXored(out, 28, ip[..4], COOKIE, d, was);
        PutXored(out, 32, ip[4..], tid, d + XorBytes(ip[..4], COOKIE), was);
    }
  }

  /** The length field is written a second time, over the first value. */
  method SetLength(out: array<u8>, length: u16)
    requires out.Length >= HEADER_LEN
    modifies out
    ensures out[..] == Splice(old(out[..]), 2, PutU16(length))
  {
    out[2], out[3] := length / 0x100, length % 0x100;
  }

  /** Overwriting the length field turns the HMAC's input into the start of the CRC's input. */
  lemma Relength(tid: TransactionId, addr: Addr, mac: Digest, was: Bytes)
    requires HEADER_LEN + ContentLen(addr) <= |was|
    ensures Splice(Over(MacInput(tid, addr) + EncodeAttr(IntegrityAttr(mac)), was), 2, PutU16(ContentLen(addr)))
         == Over(CrcInput(tid, addr, mac), was)
  {
    var before := EncodeHeader(SUCCESS_RESPONSE, IntegrityLen(addr), tid);
    var after := EncodeHeader(SUCCESS_RESPONSE, ContentLen(addr), tid);
    HeaderLength(tid, IntegrityLen(addr), ContentLen(addr));
    SpliceLeft(before, EncodeAttr(AddrAttr(tid, addr)) + EncodeAttr(IntegrityAttr(mac)), was, PutU16(ContentLen(addr)));
    ConcatAssoc(before, EncodeAttr(AddrAttr(tid, addr)), EncodeAttr(IntegrityAttr(mac)));
    ConcatAssoc(after, EncodeAttr(AddrAttr(tid, addr)), EncodeAttr(IntegrityAttr(mac)));
  }

  lemma HeaderLength(tid: TransactionId, before: u16, after: u16)
    ensures Splice(EncodeHeader(SUCCESS_RESPONSE, before, tid), 2, PutU16(after))
         == EncodeHeader(SUCCESS_RESPONSE, after, tid)
  {
  }

  lemma SpliceLeft(a: Bytes, b: Bytes, was: Bytes, t: Bytes)
    requires |a| + |b| <= |was| && 2 + |t| <= |a|
    ensures Splice(Over(a + b, was), 2, t) == Over(Splice(a, 2, t) + b, was)
  {
  }

  lemma WrittenPart(out: array<u8>, done: Bytes, was: Bytes)
    requires |was| == out.Length && |done| <= |was| && out[..] == Over(done, was)
    ensures out[..|done|] == done
  {
    assert out[..|done|] == out[..][..|done|];
  }

  method WriteSuccessResponse(
    tid: TransactionId, addr: Addr, passwd: Bytes, hmac: Hmac, crc: Crc, out: array<u8>)
    returns (r: WriteResult)
    modifies out
    ensures r == BufferTooSmall <==> out.Length < HEADER_LEN + ContentLen(addr)
    ensures r == BufferTooSmall ==> out[..] == old(out[..])
    ensures r == CryptoError ==>
              && hmac(passwd, MacInput(tid, addr)) == None
              && out[..] == Over(MacInput(tid, addr), old(out[..]))
    ensures r.Ok? ==>
              var mac := hmac(passwd, MacInput(tid, addr));
              && mac.Some?
              && r.written == HEADER_LEN + ContentLen(addr)
              && out[..] == Over(SuccessMessage(tid, addr, mac.value, crc(CrcInput(tid, addr, mac.value))),
                                 old(out[..]))
  {
    if HEADER_LEN + ContentLen(addr) > out.Length {
      return BufferTooSmall;
    }
    ghost var was := out[..];
    var head := EncodeHeader(SUCCESS_RESPONSE, IntegrityLen(addr), tid);
    assert Over([], was) == was && [] + head == head;
    Put(out, 0, head, [], was);
    WriteAddress(tid, addr, out, head, was);

    var at := HEADER_LEN + 4 + AddrLen(addr);
    WrittenPart(out, MacInput(tid, addr), was);
    var mac := hmac(passwd, out[..at]);
    if mac == None {
      return CryptoError;
    }
    Put(out, at, EncodeAttr(IntegrityAttr(mac.value)), MacInput(tid, addr), was);

    Relength(tid, addr, mac.value, was);
    SetLength(out, ContentLen(addr));
    at := at + 24;
    WrittenPart(out, CrcInput(tid, addr, mac.value), was);
    Put(out, at, EncodeAttr(FingerprintAttr(crc(out[..at]))), CrcInput(tid, addr, mac.value), was);
    return Ok(HEADER_LEN + ContentLen(addr));
  }

  // ---------------------------------------------------------------------
  // A conforming reader of responses
  // ---------------------------------------------------------------------

  /** Offset of the first attribute of a kind in msg[offset..], walking type-length-value. */
  function Locate(msg: Bytes, kind: u16, offset: nat): Option<nat>
    decreases |msg| - offset
  {
    if offset + 4 > |msg| then None
    else if ReadU16(msg, offset) == kind then Some(offset)
    else Locate(msg, kind, offset + 4 + RoundUp4(ReadU16(msg, offset + 2)))
  }

  /** Section 15.2: un-XOR the mapped address, IPv6 with the cookie followed by the transaction id. */
  function MappedAddress(msg: Bytes): Option<Addr> {
    if |msg| < HEADER_LEN then None
    else
      match Locate(msg, XOR_MAPPED_ADDRESS, HEADER_LEN)
      case None => None
      case Some(p) =>
        if p + 12 > |msg| then None
        else
          var port := ReadU16(XorBytes(msg[p + 6..p + 8], COOKIE), 0);
          if msg[p + 5] == 1 then Some(V4(XorBytes(msg[p + 8..p + 12], COOKIE), port))
          else if msg[p + 5] == 2 && p + 24 <= |msg| then
            Some(V6(XorBytes(msg[p + 8..p + 24], msg[4..20]), port))
          else None
  }

  /** Section 15.4: the HMAC covers what precedes the attribute, with the length field set as if
      the message ended with it. */
  predicate IntegrityHolds(msg: Bytes, key: Bytes, hmac: Hmac) {
    |msg| >= HEADER_LEN &&
    match Locate(msg, MESSAGE_INTEGRITY, HEADER_LEN)
    case None => false
    case Some(p) =>
      && 4 <= p && p + 24 <= |msg| && p + 4 < U16
      && hmac(key, Splice(msg[..p], 2, PutU16(p + 4))) == Some(msg[p + 4..p + 24])
  }

  /** Section 15.5: the CRC covers everything before the attribute, which comes last. */
  predicate FingerprintHolds(msg: Bytes, crc: Crc) {
    |msg| >= HEADER_LEN &&
    match Locate(msg, FINGERPRINT, HEADER_LEN)
    case None => false
    case Some(p) => p + 8 == |msg| && ReadU32(msg, p + 4) == Xor32(crc(msg[..p]), CRC_XOR)
  }

  /** An attribute on the wire: its size is what its own length field says. */
  predicate IsAttr(enc: Bytes) {
    |enc| >= 4 && |enc| == 4 + RoundUp4(ReadU16(enc, 2))
  }

  lemma LocateTurn(msg: Bytes, kind: u16, offset: nat, enc: Bytes, rest: Bytes)
    requires IsAttr(enc) && offset <= |msg| && msg[offset..] == enc + rest
    ensures var next := offset + |enc|;
            && next <= |msg| && msg[next..] == rest
            && Locate(msg, kind, offset) == if ReadU16(enc, 0) == kind then Some(offset) else Locate(msg, kind, next)
  {
    assert msg[offset..][..|enc|] == enc && msg[offset..][|enc|..] == rest;
    assert msg[offset..offset + |enc|] == msg[offset..][..|enc|];
    StunParser.ReadInside(msg, offset, enc);
  }

  lemma LocateTwo(msg: Bytes, kind: u16, offset: nat, a: Bytes, b: Bytes)
    requires IsAttr(a) && IsAttr(b) && offset <= |msg| && msg[offset..] == a + b
    requires kind == ReadU16(a, 0) || kind == ReadU16(b, 0)
    ensures Locate(msg, kind, offset) == Some(if ReadU16(a, 0) == kind then offset else offset + |a|)
  {
    LocateTurn(msg, kind, offset, a, b);
    if ReadU16(a, 0) != kind {
      assert b == b + [];
      LocateTurn(msg, kind, offset + |a|, b, []);
    }
  }

  /** Where the walk finds each of three attributes. */
  lemma LocateThree(msg: Bytes, kind: u16, offset: nat, a: Bytes, b: Bytes, c: Bytes)
    requires IsAttr(a) && IsAttr(b) && IsAttr(c) && offset <= |msg| && msg[offset..] == a + (b + c)
    requires kind == ReadU16(a, 0) || kind == ReadU16(b, 0) || kind == ReadU16(c, 0)
    ensures Locate(msg, kind, offset) == Some(
              if ReadU16(a, 0) == kind then offset
              else if ReadU16(b, 0) == kind then offset + |a|
              else offset + |a| + |b|)
  {
    LocateTurn(msg, kind, offset, a, b + c);
    if ReadU16(a, 0) != kind {
      LocateTwo(msg, kind, offset + |a|, b, c);
    }
  }

  /** Where the reader finds the three attributes of a response. */
  lemma ResponseLayout(tid: TransactionId, addr: Addr, mac: Digest, crc: u32)
    ensures var msg, p := SuccessMessage(tid, addr, mac, crc), 24 + AddrLen(addr);
            && Locate(msg, XOR_MAPPED_ADDRESS, HEADER_LEN) == Some(HEADER_LEN)
            && Locate(msg, MESSAGE_INTEGRITY, HEADER_LEN) == Some(p)
            && Locate(msg, FINGERPRINT, HEADER_LEN) == Some(p + 24)
            && msg[..p + 24] == CrcInput(tid, addr, mac)
            && msg[..20] == EncodeHeader(SUCCESS_RESPONSE, ContentLen(addr), tid)
            && msg[24..p] == AddrValue(tid, addr)
            && msg[p + 4..p + 24] == mac
  {
    var head := EncodeHeader(SUCCESS_RESPONSE, ContentLen(addr), tid);
    var a, i := EncodeAttr(AddrAttr(tid, addr)), EncodeAttr(IntegrityAttr(mac));
    var f := EncodeAttr(FingerprintAttr(crc));
    Slices(head, a, i, f);
    LocateAll(head + a + i + f, 20, a, i, f);
  }

  lemma LocateAll(msg: Bytes, offset: nat, a: Bytes, i: Bytes, f: Bytes)
    requires IsAttr(a) && IsAttr(i) && IsAttr(f) && offset <= |msg| && msg[offset..] == a + (i + f)
    requires ReadU16(a, 0) == XOR_MAPPED_ADDRESS && ReadU16(i, 0) == MESSAGE_INTEGRITY
    requires ReadU16(f, 0) == FINGERPRINT
    ensures Locate(msg, XOR_MAPPED_ADDRESS, offset) == Some(offset)
    ensures Locate(msg, MESSAGE_INTEGRITY, offset) == Some(offset + |a|)
    ensures Locate(msg, FINGERPRINT, offset) == Some(offset + |a| + |i|)
  {
    LocateThree(msg, XOR_MAPPED_ADDRESS, offset, a, i, f);
    LocateThree(msg, MESSAGE_INTEGRITY, offset, a, i, f);
    LocateThree(msg, FINGERPRINT, offset, a, i, f);
  }

  lemma Slices(h: Bytes, a: Bytes, i: Bytes, f: Bytes)
    requires |a| >= 4 && |i| >= 4
    ensures var msg, p := h + a + i + f, |h| + |a|;
            && msg[|h|..] == a + (i + f) && msg[..p + |i|] == h + a + i && msg[..|h|] == h
            && msg[|h| + 4..p] == a[4..] && msg[p + 4..p + |i|] == i[4..]
  {
  }

  /** Round trip: for every address and transaction id, a conforming reader of the response gets
      the address back and finds both checks satisfied. */
  lemma ResponseRoundTrip(tid: TransactionId, addr: Addr, passwd: Bytes, hmac: Hmac, crc: Crc)
    requires hmac(passwd, MacInput(tid, addr)).Some?
    ensures var mac := hmac(passwd, MacInput(tid, addr)).value;
            var msg := SuccessMessage(tid, addr, mac, crc(CrcInput(tid, addr, mac)));
            && MappedAddress(msg) == Some(addr)
            && IntegrityHolds(msg, passwd, hmac)
            && FingerprintHolds(msg, crc)
            && ReadU16(msg, 2) == |msg| - HEADER_LEN
  {
    var mac := hmac(passwd, MacInput(tid, addr)).value;
    var sum := crc(CrcInput(tid, addr, mac));
    ResponseLayout(tid, addr, mac, sum);
    AddressRoundTrip(tid, addr, mac, sum);
    IntegrityRoundTrip(tid, addr, mac, sum);
    FingerprintRoundTrip(tid, addr, mac, sum);
    var msg := SuccessMessage(tid, addr, mac, sum);
    StunParser.ReadInside(msg, 0, msg[..20]);
  }

  lemma AddressRoundTrip(tid: TransactionId, addr: Addr, mac: Digest, sum: u32)
    ensures MappedAddress(SuccessMessage(tid, addr, mac, sum)) == Some(addr)
  {
    ResponseLayout(tid, addr, mac, sum);
    AddrValueParts(tid, addr);
    var msg := SuccessMessage(tid, addr, mac, sum);
    assert msg[4..20] == msg[..20][4..20] == COOKIE + tid;
    AddressReadBack(msg, tid, addr, AddrValue(tid, addr));
  }

  /** Any message whose first address attribute sits behind the header and holds `value`. */
  lemma AddressReadBack(msg: Bytes, tid: TransactionId, addr: Addr, value: Bytes)
    requires |value| == AddrLen(addr) && 24 + |value| <= |msg|
    requires msg[4..20] == COOKIE + tid && msg[24..24 + |value|] == value
    requires Locate(msg, XOR_MAPPED_ADDRESS, HEADER_LEN) == Some(HEADER_LEN)
    requires value[1] == (if addr.V4? then 1 else 2)
    requires XorBytes(value[2..4], COOKIE) == PutU16(addr.port)
    requires addr.V4? ==> XorBytes(value[4..], COOKIE) == addr.ip4
    requires addr.V6? ==> XorBytes(value[4..], COOKIE + tid) == addr.ip6
    ensures MappedAddress(msg) == Some(addr)
  {
    var p := 24 + |value|;
    StunParser.SliceOfSlice(msg, 24, p, 2, 4);
    StunParser.SliceOfSlice(msg, 24, p, 4, |value|);
    assert msg[25] == msg[24..p][1];
  }

  /** The value of the address attribute, un-XORed piece by piece. */
  lemma AddrValueParts(tid: TransactionId, addr: Addr)
    ensures var value := AddrValue(tid, addr);
            && value[1] == (if addr.V4? then 1 else 2)
            && XorBytes(value[2..4], COOKIE) == PutU16(addr.port)
            && (addr.V4? ==> XorBytes(value[4..], COOKIE) == addr.ip4)
            && (addr.V6? ==> XorBytes(value[4..], COOKIE + tid) == addr.ip6)
  {
    var value, port := AddrValue(tid, addr), PutU16(addr.port);
    assert value[2..4] == XorBytes(port, COOKIE);
    XorBytesInvolution(port, COOKIE);
    match addr {
      case V4(ip, _) =>
        assert value[4..] == XorBytes(ip, COOKIE);
        XorBytesInvolution(ip, COOKIE);
      case V6(ip, _) =>
        assert value[4..] == XorBytes(ip[..4], COOKIE) + XorBytes(ip[4..], tid);
        XorConcat(ip[..4], ip[4..], COOKIE, tid);
        assert ip[..4] + ip[4..] == ip;
        XorBytesInvolution(ip, COOKIE + tid);
    }
  }

  /** What the mapped port and address are XOR-ed with: the cookie, and for IPv6 the cookie followed by
      the transaction id. */
  function AddrKey(tid: TransactionId, addr: Addr): Bytes {
    COOKIE[..2] + (if addr.V4? then COOKIE else COOKIE + tid)
  }

  function PlainAddr(addr: Addr): Bytes {
    PutU16(addr.port) + (if addr.V4? then addr.ip4 else addr.ip6)
  }

  /** The address attribute, bit by bit: behind a zero byte and the family, a bit is set exactly if it
      is set in one of the plain value and the key and not in the other. */
  lemma AddressIsXored(tid: TransactionId, addr: Addr, i: nat, k: nat)
    requires i < |PlainAddr(addr)|
    ensures var value := AddrValue(tid, addr);
            && |value| == 2 + |PlainAddr(addr)| && value[0] == 0 && value[1] == (if addr.V4? then 1 else 2)
            && i < |AddrKey(tid, addr)|
            && (Bit(value[2 + i], k) == 1 <==> Bit(PlainAddr(addr)[i], k) != Bit(AddrKey(tid, addr)[i], k))
  {
    AddrIsPlainXorKey(tid, addr);
    BitXorBits(PlainAddr(addr)[i], AddrKey(tid, addr)[i], k);
  }

  lemma AddrIsPlainXorKey(tid: TransactionId, addr: Addr)
    ensures |PlainAddr(addr)| == |AddrKey(tid, addr)|
    ensures AddrValue(tid, addr) == [0, if addr.V4? then 1 else 2] + XorBytes(PlainAddr(addr), AddrKey(tid, addr))
  {
    var port := PutU16(addr.port);
    assert XorBytes(port, COOKIE) == XorBytes(port, COOKIE[..2]);
    match addr {
      case V4(ip, _) =>
        XorConcat(port, ip, COOKIE[..2], COOKIE);
      case V6(ip, _) =>
        XorConcat(ip[..4], ip[4..], COOKIE, tid);
        assert ip[..4] + ip[4..] == ip;
        XorConcat(port, ip, COOKIE[..2], COOKIE + tid);
        ConcatAssoc([0, 2] + XorBytes(port, COOKIE), XorBytes(ip[..4], COOKIE), XorBytes(ip[4..], tid));
        ConcatAssoc([0, 2], XorBytes(port, COOKIE), XorBytes(ip, COOKIE + tid));
    }
  }

  /** The fingerprint, bit by bit: the CRC with the bits of 0x5354554e inverted. */
  lemma FingerprintIsXored(crc: u32, k: nat)
    ensures Bit(ReadU32(FingerprintAttr(crc).value, 0), k) == 1 <==> Bit(crc, k) != Bit(0x5354_554e, k)
  {
    BitXorBits(crc, CRC_XOR, k);
  }

  lemma XorConcat(a: Bytes, b: Bytes, k: Bytes, l: Bytes)
    requires |a| == |k| && |b| <= |l|
    ensures XorBytes(a, k) + XorBytes(b, l) == XorBytes(a + b, k + l)
  {
  }

  lemma IntegrityRoundTrip(tid: TransactionId, addr: Addr, mac: Digest, sum: u32)
    ensures var msg, p := SuccessMessage(tid, addr, mac, sum), 24 + AddrLen(addr);
            Splice(msg[..p], 2, PutU16(p + 4)) == MacInput(tid, addr)
  {
    var p := 24 + AddrLen(addr);
    var head, a := EncodeHeader(SUCCESS_RESPONSE, ContentLen(addr), tid), EncodeAttr(AddrAttr(tid, addr));
    PrefixOf(head + a, EncodeAttr(IntegrityAttr(mac)), EncodeAttr(FingerprintAttr(sum)));
    HeaderLength(tid, ContentLen(addr), IntegrityLen(addr));
    SpliceHead(head, a, PutU16(p + 4));
  }

  lemma PrefixOf(a: Bytes, b: Bytes, c: Bytes)
    ensures (a + b + c)[..|a|] == a
  {
  }

  lemma SpliceHead(a: Bytes, b: Bytes, t: Bytes)
    requires 2 + |t| <= |a|
    ensures Splice(a + b, 2, t) == Splice(a, 2, t) + b
  {
  }

  lemma FingerprintRoundTrip(tid: TransactionId, addr: Addr, mac: Digest, sum: u32)
    ensures var msg := SuccessMessage(tid, addr, mac, sum);
            ReadU32(msg, |msg| - 4) == Xor32(sum, CRC_XOR)
  {
    var v := PutU32(Xor32(sum, CRC_XOR));
    LastWord(CrcInput(tid, addr, mac), EncodeAttr(FingerprintAttr(sum)), v);
  }

  lemma LastWord(front: Bytes, f: Bytes, v: Bytes)
    requires |f| == 8 && |v| == 4 && f[4..8] == v
    ensures ReadU32(front + f, |front| + 4) == ReadU32(v, 0)
  {
    var msg, n := front + f, |front|;
    assert v[0] == f[4] == msg[n + 4] && v[1] == f[5] == msg[n + 5];
    assert v[2] == f[6] == msg[n + 6] && v[3] == f[7] == msg[n + 7];
  }
}
