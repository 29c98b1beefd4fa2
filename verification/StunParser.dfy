/** The binding-request parser (src/stun/mod.rs, parse_stun_binding_request). */
module StunParser {
  import opened Base
  import opened Wire
  import opened StunFormat

  const COLON: u8 := 58

  datatype BindingRequest =
    BindingRequest(transactionId: TransactionId, remoteUser: Bytes, serverUser: Bytes)

  /** UTF-8 validation belongs to the standard library; every result below holds for any validator. */
  type Validator = Bytes -> bool

  /** The source pads with `(n + 4 - 1) & !(4 - 1)`: on words of any width that holds n + 3,
      this mask rounds up to a multiple of four. */
  lemma MaskRoundsUp(n: nat, width: nat)
    requires width >= 2 && n + 3 < Pow2(width)
    ensures Pow2(width) >= 4 && BitAnd(n + 3, Pow2(width) - 4) == RoundUp4(n)
  {
    BitAndClearsTwoBits(n + 3, width);
    RoundUp4Multiple(n);
  }

  /** Position of the first `c`, or |s| when there is none. */
  function Position(s: Bytes, c: u8): (p: nat)
    ensures p <= |s|
    ensures p < |s| ==> s[p] == c
    ensures c !in s[..p]
  {
    if s == [] || s[0] == c then 0
    else
      var q := Position(s[1..], c);
      assert s[..q + 1] == [s[0]] + s[1..][..q];
      q + 1
  }

  /** The meaning of a USERNAME value: "server:remote", split at the first colon. */
  function SplitUser(tid: TransactionId, value: Bytes, utf8: Validator): (r: Option<BindingRequest>)
    ensures r.Some? ==>
              && r.value.transactionId == tid
              && r.value.serverUser + [COLON] + r.value.remoteUser == value
              && COLON !in r.value.serverUser
              && |r.value.serverUser| <= MAX_IDENTIFIER_LEN && |r.value.remoteUser| <= MAX_IDENTIFIER_LEN
              && utf8(r.value.serverUser) && utf8(r.value.remoteUser)
  {
    var colon := Position(value, COLON);
    if colon == |value| then None
    else
      var server, remote := value[..colon], value[colon + 1..];
      if |server| > MAX_IDENTIFIER_LEN || |remote| > MAX_IDENTIFIER_LEN then None
      else if !utf8(server) || !utf8(remote) then None
      else Some(BindingRequest(tid, remote, server))
  }

  /** Whatever split at the first colon a caller can exhibit, within limits, is the one returned. */
  lemma SplitUserComplete(tid: TransactionId, server: Bytes, remote: Bytes, utf8: Validator)
    requires COLON !in server && |server| <= MAX_IDENTIFIER_LEN && |remote| <= MAX_IDENTIFIER_LEN
    requires utf8(server) && utf8(remote)
    ensures SplitUser(tid, server + [COLON] + remote, utf8) == Some(BindingRequest(tid, remote, server))
  {
    var value := server + [COLON] + remote;
    assert value[..|server|] == server && value[|server| + 1..] == remote;
    PositionUnique(value, COLON, |server|);
  }

  lemma {:induction false} PositionUnique(s: Bytes, c: u8, p: nat)
    requires p < |s| && s[p] == c && c !in s[..p]
    ensures Position(s, c) == p
  {
    if p > 0 {
      assert s[0] in s[..p] && s[1..][..p - 1] == s[..p][1..];
      PositionUnique(s[1..], c, p - 1);
    }
  }

  /** The part of the message the header checks let through. */
  predicate HeaderAccepted(bytes: Bytes) {
    && |bytes| >= HEADER_LEN
    && bytes[0] / 64 == 0
    && ReadU16(bytes, 0) == BINDING_REQUEST
    && ReadU16(bytes, 2) >= 4
    && HEADER_LEN + ReadU16(bytes, 2) <= |bytes|
    && bytes[4..8] == COOKIE
  }

  /** The attribute scan from an absolute offset, which is compared with the body length.
      Yields the value of the USERNAME attribute it stops at. */
  function Scan(bytes: Bytes, length: u16, offset: nat): Option<Bytes>
    requires length >= 4 && HEADER_LEN + length <= |bytes|
    decreases length - offset
  {
    if offset >= length - 4 then None
    else
      var kind, len := ReadU16(bytes, offset), ReadU16(bytes, offset + 2);
      if offset + 4 + RoundUp4(len) > length then None
      else if kind == USER then Some(bytes[offset + 4..offset + 4 + len])
      else Scan(bytes, length, offset + 4 + RoundUp4(len))
  }

  function Parse(bytes: Bytes, utf8: Validator): Option<BindingRequest> {
    if !HeaderAccepted(bytes) then None
    else
      match Scan(bytes, ReadU16(bytes, 2), HEADER_LEN)
      case None => None
      case Some(value) => SplitUser(bytes[8..20], value, utf8)
  }

  lemma Aligned(a: nat, b: nat)
    requires a % 4 == 0 && b % 4 == 0
    ensures (a + b) % 4 == 0
  {
  }

  method ParseBindingRequest(bytes: Bytes, utf8: Validator) returns (r: Option<BindingRequest>)
    ensures r == Parse(bytes, utf8)
  {
    if |bytes| < HEADER_LEN {
      return None;
    }
    if bytes[0] / 64 != 0 {
      return None;
    }
    if ReadU16(bytes, 0) != BINDING_REQUEST {
      return None;
    }
    var length := ReadU16(bytes, 2);
    if length < 4 || HEADER_LEN + length > |bytes| {
      return None;
    }
    if bytes[4..8] != COOKIE {
      return None;
    }
    var tid := bytes[8..20];
    var value := FindUser(bytes, length);
    match value {
      case None => return None;
      case Some(v) => return SplitUser(tid, v, utf8);
    }
  }

  /** The attribute loop. */
  method FindUser(bytes: Bytes, length: u16) returns (r: Option<Bytes>)
    requires length >= 4 && HEADER_LEN + length <= |bytes|
    ensures r == Scan(bytes, length, HEADER_LEN)
  {
    var offset := HEADER_LEN;
    while offset < length - 4
      invariant offset % 4 == 0
      invariant Scan(bytes, length, offset) == Scan(bytes, length, HEADER_LEN)
      decreases length - offset
    {
      var kind, len := ReadU16(bytes, offset), ReadU16(bytes, offset + 2);
      Aligned(offset, 4);
      offset := offset + 4;
      var padded := RoundUp4(len);
      if offset + padded > length {
        return None;
      }
      if kind == USER {
        return Some(bytes[offset..offset + len]);
      }
      RoundUp4Multiple(len);
      Aligned(offset, padded);
      offset := offset + padded;
    }
    return None;
  }

  // ---------------------------------------------------------------------
  // Exactness against the encoder
  // ---------------------------------------------------------------------

  /** Index of the first USERNAME attribute, or |attrs|. */
  function FirstUser(attrs: seq<Attr>): (k: nat)
    ensures k <= |attrs|
    ensures k < |attrs| ==> attrs[k].kind == USER
    ensures forall i | 0 <= i < k :: attrs[i].kind != USER
  {
    if attrs == [] || attrs[0].kind == USER then 0 else 1 + FirstUser(attrs[1..])
  }

  /** The USERNAME the scan stops at: the first one, provided at least twenty message bytes
      follow its padded end. `start` is the absolute offset at which `attrs` begins. */
  function Reached(attrs: seq<Attr>, start: nat, length: nat): Option<Bytes>
    requires AllOk(attrs)
  {
    var k := FirstUser(attrs);
    if k < |attrs| && start + |EncodeAttrs(attrs[..k + 1])| <= length then Some(attrs[k].value) else None
  }

  /** What the parser makes of a well-formed request. */
  function Expected(tid: TransactionId, attrs: seq<Attr>, utf8: Validator): Option<BindingRequest>
    requires AllOk(attrs)
  {
    match Reached(attrs, HEADER_LEN, |EncodeAttrs(attrs)|)
    case None => None
    case Some(value) => SplitUser(tid, value, utf8)
  }

  /** An empty USERNAME may sit exactly where the loop stops; it has no colon either way. */
  ghost predicate SameOutcome(a: Option<Bytes>, b: Option<Bytes>) {
    a == b || (a == None && b == Some([]))
  }

  /** The same, read from the front. */
  function ReachedFrom(attrs: seq<Attr>, start: nat, length: nat): Option<Bytes>
    requires AllOk(attrs)
    decreases |attrs|
  {
    if attrs == [] then None
    else
      var next := start + |EncodeAttr(attrs[0])|;
      if attrs[0].kind != USER then ReachedFrom(attrs[1..], next, length)
      else if next <= length then Some(attrs[0].value)
      else None
  }

  lemma {:induction false} ReachedIsReachedFrom(attrs: seq<Attr>, start: nat, length: nat)
    requires AllOk(attrs)
    ensures Reached(attrs, start, length) == ReachedFrom(attrs, start, length)
    decreases |attrs|
  {
    if attrs != [] {
      ReachedTurn(attrs, start, length);
      if attrs[0].kind != USER {
        ReachedIsReachedFrom(attrs[1..], start + |EncodeAttr(attrs[0])|, length);
      }
    }
  }

  lemma {:induction false} ReachedFromBound(attrs: seq<Attr>, start: nat, length: nat)
    requires AllOk(attrs) && ReachedFrom(attrs, start, length).Some?
    ensures start + 4 <= length
    decreases |attrs|
  {
    if attrs[0].kind != USER {
      ReachedFromBound(attrs[1..], start + |EncodeAttr(attrs[0])|, length);
    }
  }

  lemma {:induction false} ScanOfEncoding(bytes: Bytes, length: u16, offset: nat, attrs: seq<Attr>)
    requires AllOk(attrs) && length >= 4 && HEADER_LEN + length <= |bytes|
    requires HEADER_LEN <= offset <= HEADER_LEN + length
    requires bytes[offset..HEADER_LEN + length] == EncodeAttrs(attrs)
    ensures SameOutcome(Scan(bytes, length, offset), ReachedFrom(attrs, offset, length))
    decreases |attrs|
  {
    if attrs != [] {
      var a, rest := attrs[0], attrs[1..];
      var next := offset + |EncodeAttr(a)|;
      NextWindow(bytes, offset, HEADER_LEN + length, EncodeAttr(a), EncodeAttrs(rest));
      if offset < length - 4 && next <= length && a.kind != USER {
        ScanOfEncoding(bytes, length, next, rest);
      }
      ReachedFromTurn(attrs, offset, length);
      ScanCase(bytes, length, offset, a, EncodeAttrs(rest),
               ReachedFrom(attrs, offset, length), ReachedFrom(rest, next, length));
    }
  }

  lemma ReachedFromTurn(attrs: seq<Attr>, offset: nat, length: nat)
    requires AllOk(attrs) && attrs != []
    ensures var next := offset + |EncodeAttr(attrs[0])|;
            Turn(attrs[0], offset, next, length,
                 ReachedFrom(attrs, offset, length), ReachedFrom(attrs[1..], next, length))
  {
    var next := offset + |EncodeAttr(attrs[0])|;
    if ReachedFrom(attrs[1..], next, length).Some? {
      ReachedFromBound(attrs[1..], next, length);
    }
  }

  lemma NextWindow(bytes: Bytes, offset: nat, end: nat, enc: Bytes, rest: Bytes)
    requires offset <= end <= |bytes| && bytes[offset..end] == enc + rest
    ensures offset + |enc| <= end && bytes[offset + |enc|..end] == rest
  {
    assert bytes[offset..end][|enc|..] == rest;
  }

  /** What the scan should reach from `offset` and from the next attribute. */
  ghost predicate Turn(a: Attr, offset: nat, next: nat, length: nat, here: Option<Bytes>, later: Option<Bytes>) {
    && next >= offset + 4 && (a.value != [] ==> next > offset + 4)
    && if a.kind == USER then here == if next <= length then Some(a.value) else None
       else here == later && (here.Some? ==> next + 4 <= length)
  }

  lemma ScanCase(
    bytes: Bytes, length: u16, offset: nat, a: Attr, rest: Bytes, here: Option<Bytes>, later: Option<Bytes>)
    requires a.Ok() && length >= 4 && HEADER_LEN + length <= |bytes|
    requires HEADER_LEN <= offset <= HEADER_LEN + length
    requires bytes[offset..HEADER_LEN + length] == EncodeAttr(a) + rest
    requires Turn(a, offset, offset + |EncodeAttr(a)|, length, here, later)
    requires offset < length - 4 && offset + |EncodeAttr(a)| <= length && a.kind != USER ==>
               SameOutcome(Scan(bytes, length, offset + |EncodeAttr(a)|), later)
    ensures SameOutcome(Scan(bytes, length, offset), here)
  {
    ScanTurn(bytes, length, offset, a, rest);
  }

  /** One turn of the loop over an encoded attribute. */
  lemma ScanTurn(bytes: Bytes, length: u16, offset: nat, a: Attr, rest: Bytes)
    requires a.Ok() && length >= 4 && HEADER_LEN + length <= |bytes|
    requires HEADER_LEN <= offset <= HEADER_LEN + length
    requires bytes[offset..HEADER_LEN + length] == EncodeAttr(a) + rest
    ensures var next := offset + |EncodeAttr(a)|;
            && next <= HEADER_LEN + length && bytes[next..HEADER_LEN + length] == rest
            && Scan(bytes, length, offset) ==
               if offset >= length - 4 || next > length then None
               else if a.kind == USER then Some(a.value)
               else Scan(bytes, length, next)
  {
    AttrAt(bytes, offset, HEADER_LEN + length, a, rest);
    ScanFields(bytes, length, offset, a.kind, a.value);
  }

  lemma ScanFields(bytes: Bytes, length: u16, offset: nat, kind: u16, value: Bytes)
    requires length >= 4 && HEADER_LEN + length <= |bytes|
    requires offset + 4 + |value| <= |bytes|
    requires ReadU16(bytes, offset) == kind && ReadU16(bytes, offset + 2) == |value|
    requires bytes[offset + 4..offset + 4 + |value|] == value
    ensures var next := offset + 4 + RoundUp4(|value|);
            Scan(bytes, length, offset) ==
            if offset >= length - 4 || next > length then None
            else if kind == USER then Some(value)
            else Scan(bytes, length, next)
  {
  }

  /** The same turn, of what the scan should reach. */
  lemma ReachedTurn(attrs: seq<Attr>, offset: nat, length: nat)
    requires AllOk(attrs) && attrs != []
    ensures var next := offset + |EncodeAttr(attrs[0])|;
            Turn(attrs[0], offset, next, length, Reached(attrs, offset, length), Reached(attrs[1..], next, length))
  {
    FirstUserEncoding(attrs);
  }

  /** Reading back the attribute encoded at the start of bytes[offset..end]. */
  lemma AttrAt(bytes: Bytes, offset: nat, end: nat, a: Attr, rest: Bytes)
    requires a.Ok() && offset <= end <= |bytes|
    requires bytes[offset..end] == EncodeAttr(a) + rest
    ensures var next := offset + |EncodeAttr(a)|;
            && next <= end
            && ReadU16(bytes, offset) == a.kind && ReadU16(bytes, offset + 2) == |a.value|
            && bytes[offset + 4..offset + 4 + |a.value|] == a.value
            && bytes[next..end] == rest
  {
    var enc, value := EncodeAttr(a), a.value;
    var window := bytes[offset..end];
    assert window[..|enc|] == enc && window[|enc|..] == rest;
    assert window[4..4 + |value|] == enc[4..4 + |value|];
    SliceOfSlice(bytes, offset, end, 0, |enc|);
    SliceOfSlice(bytes, offset, end, 4, 4 + |value|);
    SliceOfSlice(bytes, offset, end, |enc|, |window|);
    ReadInside(bytes, offset, enc);
  }

  /** Where the first USERNAME ends, seen from the first attribute. */
  lemma FirstUserEncoding(attrs: seq<Attr>)
    requires AllOk(attrs) && attrs != []
    ensures var k := FirstUser(attrs);
            if k == 0 then EncodeAttrs(attrs[..1]) == EncodeAttr(attrs[0])
            else k < |attrs| ==>
              && attrs[..k + 1][1..] == attrs[1..][..k]
              && EncodeAttrs(attrs[..k + 1]) == EncodeAttr(attrs[0]) + EncodeAttrs(attrs[1..][..k])
              && |EncodeAttrs(attrs[1..][..k])| >= 4
  {
    var k := FirstUser(attrs);
    if k == 0 {
      assert attrs[..1] == [attrs[0]];
    } else if k < |attrs| {
      assert attrs[..k + 1][1..] == attrs[1..][..k];
    }
  }

  lemma SliceOfSlice(s: Bytes, lo: nat, hi: nat, i: nat, j: nat)
    requires lo <= hi <= |s| && i <= j <= hi - lo
    ensures s[lo..hi][i..j] == s[lo + i..lo + j]
  {
    var a, b := s[lo..hi][i..j], s[lo + i..lo + j];
    assert |a| == |b| && forall k | 0 <= k < |a| :: a[k] == b[k];
  }

  lemma ReadInside(bytes: Bytes, offset: nat, part: Bytes)
    requires |part| >= 4 && offset + |part| <= |bytes| && bytes[offset..offset + |part|] == part
    ensures ReadU16(bytes, offset) == ReadU16(part, 0)
    ensures ReadU16(bytes, offset + 2) == ReadU16(part, 2)
  {
    var cut := bytes[offset..offset + |part|];
    assert bytes[offset] == cut[0] && bytes[offset + 1] == cut[1];
    assert bytes[offset + 2] == cut[2] && bytes[offset + 3] == cut[3];
  }

  /** Exactness: on every encoded request, with any bytes after it, the parser returns the first
      USERNAME split at its first colon if that attribute's padded end leaves at least twenty
      message bytes behind it, and nothing otherwise. */
  lemma ParseOfEncoding(tid: TransactionId, attrs: seq<Attr>, trailer: Bytes, utf8: Validator)
    requires AllOk(attrs) && |EncodeAttrs(attrs)| < U16
    ensures Parse(EncodeRequest(tid, attrs) + trailer, utf8)
         == Expected(tid, attrs, utf8)
  {
    var body := EncodeAttrs(attrs);
    EncodedHeader(BINDING_REQUEST, tid, body, trailer);
    var bytes := EncodeHeader(BINDING_REQUEST, |body|, tid) + (body + trailer);
    assert EncodeRequest(tid, attrs) + trailer == bytes;
    if |body| >= 4 {
      ScanOfEncoding(bytes, |body|, HEADER_LEN, attrs);
      ReachedIsReachedFrom(attrs, HEADER_LEN, |body|);
    } else {
      assert attrs == [];
    }
  }

  lemma EncodedHeader(kind: u16, tid: TransactionId, body: Bytes, trailer: Bytes)
    requires |body| < U16
    ensures var bytes := EncodeHeader(kind, |body|, tid) + (body + trailer);
            && ReadU16(bytes, 0) == kind && ReadU16(bytes, 2) == |body|
            && bytes[4..8] == COOKIE && bytes[8..20] == tid
            && bytes[HEADER_LEN..HEADER_LEN + |body|] == body
  {
    var head := EncodeHeader(kind, |body|, tid);
    var bytes := head + (body + trailer);
    assert bytes[..20] == head;
    assert bytes[4..8] == head[4..8] && bytes[8..20] == head[8..];
    ReadInside(bytes, 0, head);
  }

  /** A conforming request whose only attribute is USERNAME is rejected: no bytes follow it. */
  lemma LoneUserIsRejected(tid: TransactionId, value: Bytes, padding: Bytes, utf8: Validator)
    requires Attr(USER, value, padding).Ok() && RoundUp4(|value|) + 4 < U16
    ensures Parse(EncodeRequest(tid, [Attr(USER, value, padding)]), utf8) == None
  {
    var attrs := [Attr(USER, value, padding)];
    assert attrs[..1] == attrs && EncodeAttrs(attrs) == EncodeAttr(attrs[0]) + EncodeAttrs(attrs[1..]);
    ParseOfEncoding(tid, attrs, [], utf8);
    assert EncodeRequest(tid, attrs) + [] == EncodeRequest(tid, attrs);
  }

  // ---------------------------------------------------------------------
  // Arbitrary bytes
  // ---------------------------------------------------------------------

  /** Attributes that end with the first USERNAME. */
  ghost predicate UpToUser(attrs: seq<Attr>) {
    attrs != [] && AllOk(attrs) && FirstUser(attrs) == |attrs| - 1
  }

  /** The bytes from `offset` on begin with these attributes, which end within `length`. */
  ghost predicate StandsAt(bytes: Bytes, length: nat, offset: nat, attrs: seq<Attr>)
    requires AllOk(attrs)
  {
    && offset + |EncodeAttrs(attrs)| <= length <= |bytes|
    && bytes[offset..offset + |EncodeAttrs(attrs)|] == EncodeAttrs(attrs)
  }

  /** The attribute that stands at an offset, whatever the bytes. */
  function AttrFrom(bytes: Bytes, offset: nat): (a: Attr)
    requires offset + 4 <= |bytes| && offset + 4 + RoundUp4(ReadU16(bytes, offset + 2)) <= |bytes|
    ensures a.Ok()
  {
    var len, at := ReadU16(bytes, offset + 2), offset + 4;
    Attr(ReadU16(bytes, offset), bytes[at..at + len], bytes[at + len..at + RoundUp4(len)])
  }

  lemma AttrFromEncodes(bytes: Bytes, offset: nat)
    requires offset + 4 <= |bytes| && offset + 4 + RoundUp4(ReadU16(bytes, offset + 2)) <= |bytes|
    ensures var enc := EncodeAttr(AttrFrom(bytes, offset));
            offset + |enc| <= |bytes| && bytes[offset..offset + |enc|] == enc
  {
    var a := AttrFrom(bytes, offset);
    var enc := EncodeAttr(a);
    PutOfRead(bytes, offset);
    PutOfRead(bytes, offset + 2);
    var at := offset + 4;
    assert bytes[at..at + |a.value|] + bytes[at + |a.value|..offset + |enc|] == bytes[at..offset + |enc|];
    FourParts(bytes, offset, PutU16(a.kind), PutU16(|a.value|), a.value, a.padding);
  }

  lemma FourParts(s: Bytes, i: nat, a: Bytes, b: Bytes, c: Bytes, d: Bytes)
    requires i + |a| + |b| + |c| + |d| <= |s|
    requires s[i..i + |a|] == a && s[i + |a|..i + |a| + |b|] == b
    requires s[i + |a| + |b|..i + |a| + |b| + |c|] == c
    requires s[i + |a| + |b| + |c|..i + |a| + |b| + |c| + |d|] == d
    ensures s[i..i + |a| + |b| + |c| + |d|] == a + b + c + d
  {
  }

  lemma ConsStands(bytes: Bytes, length: nat, offset: nat, a: Attr, rest: seq<Attr>)
    requires a.Ok() && AllOk(rest) && offset + |EncodeAttr(a)| <= length <= |bytes|
    requires bytes[offset..offset + |EncodeAttr(a)|] == EncodeAttr(a)
    ensures AllOk([a] + rest) && EncodeAttrs([a] + rest) == EncodeAttr(a) + EncodeAttrs(rest)
    ensures StandsAt(bytes, length, offset, [a] + rest) <==> StandsAt(bytes, length, offset + |EncodeAttr(a)|, rest)
  {
    var enc, more := EncodeAttr(a), EncodeAttrs(rest);
    assert ([a] + rest)[1..] == rest;
    var next := offset + |enc|;
    if next + |more| <= length {
      assert bytes[offset..next + |more|] == bytes[offset..next] + bytes[next..next + |more|];
      assert (enc + more)[|enc|..] == more && (enc + bytes[next..next + |more|])[|enc|..] == bytes[next..next + |more|];
    }
  }

  /** Soundness of the scan on every byte string: what it finds is the value of the last of some
      well-formed attributes that stand there, end within `length` and hold no earlier USERNAME. */
  lemma {:induction false} ScanIsSound(bytes: Bytes, length: u16, offset: nat) returns (attrs: seq<Attr>)
    requires length >= 4 && HEADER_LEN + length <= |bytes| && Scan(bytes, length, offset).Some?
    ensures UpToUser(attrs) && StandsAt(bytes, length, offset, attrs)
    ensures Scan(bytes, length, offset) == Some(attrs[|attrs| - 1].value)
    decreases length - offset
  {
    var a := ScanFinds(bytes, length, offset);
    if a.kind == USER {
      attrs := [a] + [];
      ConsStands(bytes, length, offset, a, []);
    } else {
      var rest := ScanIsSound(bytes, length, offset + |EncodeAttr(a)|);
      attrs := [a] + rest;
      ConsStands(bytes, length, offset, a, rest);
      FirstUserCons(a, rest);
    }
  }

  /** A scan that finds something has an attribute in front of it. */
  lemma ScanFinds(bytes: Bytes, length: u16, offset: nat) returns (a: Attr)
    requires length >= 4 && HEADER_LEN + length <= |bytes| && Scan(bytes, length, offset).Some?
    ensures a.Ok() && offset + |EncodeAttr(a)| <= length
    ensures bytes[offset..offset + |EncodeAttr(a)|] == EncodeAttr(a)
    ensures Scan(bytes, length, offset) ==
            if a.kind == USER then Some(a.value) else Scan(bytes, length, offset + |EncodeAttr(a)|)
  {
    a := AttrFrom(bytes, offset);
    AttrFromEncodes(bytes, offset);
  }

  lemma FirstUserCons(a: Attr, rest: seq<Attr>)
    requires a.kind != USER
    ensures FirstUser([a] + rest) == 1 + FirstUser(rest)
  {
    assert ([a] + rest)[1..] == rest;
  }

  /** The same read from the front: one attribute after the other stands where the last one ended. */
  ghost predicate Leads(bytes: Bytes, length: nat, offset: nat, attrs: seq<Attr>)
    decreases |attrs|
  {
    && attrs != [] && attrs[0].Ok()
    && var next := offset + |EncodeAttr(attrs[0])|;
       && next <= length <= |bytes| && bytes[offset..next] == EncodeAttr(attrs[0])
       && if |attrs| == 1 then attrs[0].kind == USER
          else attrs[0].kind != USER && next + 4 <= length && Leads(bytes, length, next, attrs[1..])
  }

  lemma {:induction false} StandingLeads(bytes: Bytes, length: nat, offset: nat, attrs: seq<Attr>)
    requires UpToUser(attrs) && StandsAt(bytes, length, offset, attrs)
    ensures Leads(bytes, length, offset, attrs)
    decreases |attrs|
  {
    StandsFirst(bytes, length, offset, attrs);
    if |attrs| > 1 {
      StandingLeads(bytes, length, offset + |EncodeAttr(attrs[0])|, attrs[1..]);
    }
  }

  /** Completeness: such attributes are found, but for an empty USERNAME right at the end. */
  lemma {:induction false} ScanIsComplete(bytes: Bytes, length: u16, offset: nat, attrs: seq<Attr>)
    requires length >= 4 && HEADER_LEN + length <= |bytes| && Leads(bytes, length, offset, attrs)
    ensures SameOutcome(Scan(bytes, length, offset), Some(attrs[|attrs| - 1].value))
    decreases |attrs|
  {
    var a := attrs[0];
    if |attrs| > 1 {
      ScanIsComplete(bytes, length, offset + |EncodeAttr(a)|, attrs[1..]);
    }
    ScanPasses(bytes, length, offset, a, attrs[|attrs| - 1].value);
  }

  /** What the scan finds behind an attribute it also finds in front of it. */
  lemma ScanPasses(bytes: Bytes, length: u16, offset: nat, a: Attr, value: Bytes)
    requires length >= 4 && HEADER_LEN + length <= |bytes| && a.Ok() && offset + |EncodeAttr(a)| <= length
    requires bytes[offset..offset + |EncodeAttr(a)|] == EncodeAttr(a)
    requires if a.kind == USER then value == a.value
             else (&& offset + |EncodeAttr(a)| + 4 <= length
                   && SameOutcome(Scan(bytes, length, offset + |EncodeAttr(a)|), Some(value)))
    ensures SameOutcome(Scan(bytes, length, offset), Some(value))
  {
    ScanThere(bytes, length, offset, a);
  }

  /** The first of the attributes that stand at an offset, and the others. */
  lemma StandsFirst(bytes: Bytes, length: nat, offset: nat, attrs: seq<Attr>)
    requires UpToUser(attrs) && StandsAt(bytes, length, offset, attrs)
    ensures var a, rest := attrs[0], attrs[1..];
            var next := offset + |EncodeAttr(a)|;
            && next <= length && bytes[offset..next] == EncodeAttr(a)
            && (if rest == [] then a.kind == USER
                else a.kind != USER && UpToUser(rest) && StandsAt(bytes, length, next, rest) && next + 4 <= length)
  {
    var a, rest := attrs[0], attrs[1..];
    assert attrs == [a] + rest;
    PrefixSlice(bytes, offset, EncodeAttr(a), EncodeAttrs(rest));
    ConsStands(bytes, length, offset, a, rest);
    if rest != [] {
      FirstUserCons(a, rest);
    }
  }

  lemma PrefixSlice(s: Bytes, offset: nat, front: Bytes, rest: Bytes)
    requires offset + |front| + |rest| <= |s| && s[offset..offset + |front| + |rest|] == front + rest
    ensures s[offset..offset + |front|] == front
  {
    SliceOfSlice(s, offset, offset + |front| + |rest|, 0, |front|);
    assert (front + rest)[..|front|] == front;
  }

  lemma ScanThere(bytes: Bytes, length: u16, offset: nat, a: Attr)
    requires length >= 4 && HEADER_LEN + length <= |bytes| && a.Ok() && offset + |EncodeAttr(a)| <= length
    requires bytes[offset..offset + |EncodeAttr(a)|] == EncodeAttr(a)
    ensures Scan(bytes, length, offset) ==
            if offset >= length - 4 then None
            else if a.kind == USER then Some(a.value)
            else Scan(bytes, length, offset + |EncodeAttr(a)|)
    ensures offset >= length - 4 ==> a.value == []
  {
    AttrThere(bytes, offset, a);
    ScanFields(bytes, length, offset, a.kind, a.value);
  }

  lemma AttrThere(bytes: Bytes, offset: nat, a: Attr)
    requires a.Ok() && offset + |EncodeAttr(a)| <= |bytes|
    requires bytes[offset..offset + |EncodeAttr(a)|] == EncodeAttr(a)
    ensures ReadU16(bytes, offset) == a.kind && ReadU16(bytes, offset + 2) == |a.value|
    ensures bytes[offset + 4..offset + 4 + |a.value|] == a.value
  {
    var end := offset + |EncodeAttr(a)|;
    assert EncodeAttr(a) == EncodeAttr(a) + [];
    AttrAt(bytes, offset, end, a, []);
  }

  /** A binding-request header that announces `length`, attributes that end with the first USERNAME
      at least twenty bytes before the announced end, and a value that joins server and remote user
      with a colon. */
  ghost predicate Carries(
    bytes: Bytes, length: u16, attrs: seq<Attr>, rest: Bytes, r: BindingRequest, utf8: Validator)
  {
    && UpToUser(attrs)
    && bytes == EncodeHeader(BINDING_REQUEST, length, r.transactionId) + EncodeAttrs(attrs) + rest
    && HEADER_LEN + |EncodeAttrs(attrs)| <= length && HEADER_LEN + length <= |bytes|
    && attrs[|attrs| - 1].value == r.serverUser + [COLON] + r.remoteUser && COLON !in r.serverUser
    && |r.serverUser| <= 128 && |r.remoteUser| <= 128 && utf8(r.serverUser) && utf8(r.remoteUser)
  }

  /** Exactness on every byte string: the parser returns a request if and only if the bytes carry it. */
  lemma ParseIff(bytes: Bytes, r: BindingRequest, utf8: Validator)
    ensures Parse(bytes, utf8) == Some(r) <==>
            exists length, attrs, rest :: Carries(bytes, length, attrs, rest, r, utf8)
  {
    if Parse(bytes, utf8) == Some(r) {
      var attrs, rest := ParsedIsCarried(bytes, r, utf8);
    }
    if length, attrs, rest :| Carries(bytes, length, attrs, rest, r, utf8) {
      CarriedIsParsed(bytes, length, attrs, rest, r, utf8);
    }
  }

  lemma ParsedIsCarried(bytes: Bytes, r: BindingRequest, utf8: Validator) returns (attrs: seq<Attr>, rest: Bytes)
    requires Parse(bytes, utf8) == Some(r)
    ensures Carries(bytes, ReadU16(bytes, 2), attrs, rest, r, utf8)
  {
    var length := ReadU16(bytes, 2);
    attrs := ScanIsSound(bytes, length, HEADER_LEN);
    HeaderIsEncoded(bytes);
    var n := HEADER_LEN + |EncodeAttrs(attrs)|;
    rest := bytes[n..];
    assert bytes == bytes[..HEADER_LEN] + bytes[HEADER_LEN..n] + rest;
  }

  /** An accepted header is the encoding of what is read from it. */
  lemma HeaderIsEncoded(bytes: Bytes)
    requires HeaderAccepted(bytes)
    ensures bytes[..HEADER_LEN] == EncodeHeader(BINDING_REQUEST, ReadU16(bytes, 2), bytes[8..20])
  {
    PutOfRead(bytes, 0);
    PutOfRead(bytes, 2);
    FourParts(bytes, 0, bytes[0..2], bytes[2..4], bytes[4..8], bytes[8..20]);
  }

  lemma CarriedIsParsed(
    bytes: Bytes, length: u16, attrs: seq<Attr>, rest: Bytes, r: BindingRequest, utf8: Validator)
    requires Carries(bytes, length, attrs, rest, r, utf8)
    ensures Parse(bytes, utf8) == Some(r)
  {
    var head, body := EncodeHeader(BINDING_REQUEST, length, r.transactionId), EncodeAttrs(attrs);
    HeaderReads(bytes, length, r.transactionId, body + rest);
    assert bytes == head + (body + rest);
    assert bytes[HEADER_LEN..HEADER_LEN + |body|] == body;
    StandingLeads(bytes, length, HEADER_LEN, attrs);
    ScanIsComplete(bytes, length, HEADER_LEN, attrs);
    SplitUserComplete(r.transactionId, r.serverUser, r.remoteUser, utf8);
  }

  lemma HeaderReads(bytes: Bytes, length: u16, tid: TransactionId, rest: Bytes)
    requires bytes == EncodeHeader(BINDING_REQUEST, length, tid) + rest
    requires length >= 4 && HEADER_LEN + length <= |bytes|
    ensures HeaderAccepted(bytes) && ReadU16(bytes, 2) == length && bytes[8..20] == tid
  {
    var head := EncodeHeader(BINDING_REQUEST, length, tid);
    assert bytes[..20] == head;
    assert bytes[4..8] == head[4..8] && bytes[8..20] == head[8..];
    ReadInside(bytes, 0, head);
  }

  /** Every attribute starts at a multiple of four. */
  lemma {:induction false} EncodingIsAligned(attrs: seq<Attr>)
    requires AllOk(attrs)
    ensures |EncodeAttrs(attrs)| % 4 == 0
  {
    if attrs != [] {
      EncodingIsAligned(attrs[1..]);
      RoundUp4Multiple(|attrs[0].value|);
      Aligned(4 + RoundUp4(|attrs[0].value|), |EncodeAttrs(attrs[1..])|);
    }
  }

  // ---------------------------------------------------------------------
  // What the result depends on
  // ---------------------------------------------------------------------

  lemma SameWindow(a: Bytes, b: Bytes, n: nat, lo: nat, hi: nat)
    requires n <= |a| && n <= |b| && a[..n] == b[..n] && lo <= hi <= n
    ensures a[lo..hi] == b[lo..hi]
    ensures lo + 4 <= hi ==> ReadU16(a, lo) == ReadU16(b, lo) && ReadU16(a, lo + 2) == ReadU16(b, lo + 2)
  {
    assert forall i | 0 <= i < n :: a[i] == a[..n][i] && b[i] == b[..n][i];
  }

  lemma {:induction false} ScanDependsOnBody(
    a: Bytes, b: Bytes, length: u16, offset: nat)
    requires length >= 4 && HEADER_LEN + length <= |a| && HEADER_LEN + length <= |b|
    requires offset >= HEADER_LEN
    requires var n := if length > HEADER_LEN then length else HEADER_LEN; a[..n] == b[..n]
    ensures Scan(a, length, offset) == Scan(b, length, offset)
    decreases length - offset
  {
    var n := if length > HEADER_LEN then length else HEADER_LEN;
    if offset < length - 4 {
      var len := ReadU16(a, offset + 2);
      SameWindow(a, b, n, offset, offset + 4);
      if offset + 4 + RoundUp4(len) <= length {
        SameWindow(a, b, n, offset + 4, offset + 4 + len);
        ScanDependsOnBody(a, b, length, offset + 4 + RoundUp4(len));
      }
    }
  }

  /** The result depends only on the first max(20, length) bytes and on whether the announced
      length is present at all: the last twenty bytes of a message are never looked at. */
  lemma ParseDependsOnBody(a: Bytes, b: Bytes, utf8: Validator)
    requires |a| >= HEADER_LEN && |b| >= HEADER_LEN
    requires var length := ReadU16(a, 2) as nat;
             var n := if length > HEADER_LEN then length else HEADER_LEN;
             && (HEADER_LEN + length <= |a| <==> HEADER_LEN + length <= |b|)
             && n <= |a| && n <= |b| && a[..n] == b[..n]
    ensures Parse(a, utf8) == Parse(b, utf8)
  {
    var length := ReadU16(a, 2);
    var n := if length > HEADER_LEN then length else HEADER_LEN;
    SameWindow(a, b, n, 0, 4);
    SameWindow(a, b, n, 4, 8);
    assert a[0] == a[0..4][0] && b[0] == b[0..4][0];
    SameWindow(a, b, n, 8, 20);
    if HeaderAccepted(a) {
      ScanDependsOnBody(a, b, length, HEADER_LEN);
    }
  }
}
