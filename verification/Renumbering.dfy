/** Replacing the client's RTP numbering with the server's (src/client/rtc_actor.rs:97-133). */
module Renumbering {
  import opened Base
  import opened Wire
  import opened RtpCore
  import opened Modular

  // ---------------------------------------------------------------------
  // One counter: sequence numbers modulo 2^16, timestamps modulo 2^32
  // ---------------------------------------------------------------------

  /** The last client value (None for zero: the source stores a NonZero) and the server field. */
  datatype Track = Track(client: Option<nat>, server: nat)

  function NonZero(x: nat): Option<nat> {
    if x == 0 then None else Some(x)
  }

  /** saturating_sub against the remembered client value, 0 when there is none. */
  function Gap(client: Option<nat>, x: nat): nat {
    match client
    case None => 0
    case Some(p) => if x > p then x - p else 0
  }

  /** One packet: the server field wraps, as release builds do. */
  function Advance(t: Track, x: nat, m: nat): Track
    requires m > 0
  {
    Track(NonZero(x), (t.server + Gap(t.client, x)) % m)
  }

  function AdvanceAll(t: Track, xs: seq<nat>, m: nat): Track
    requires m > 0
  {
    if xs == [] then t else Advance(AdvanceAll(t, xs[..|xs| - 1], m), xs[|xs| - 1], m)
  }

  /** The ideal counter: everything a run adds before any wrapping. */
  function Gain(xs: seq<nat>): nat {
    if |xs| < 2 then 0 else Gain(xs[..|xs| - 1]) + Gap(NonZero(xs[|xs| - 2]), xs[|xs| - 1])
  }

  /** The u16 or u32 field is the ideal counter modulo 2^16 or 2^32; an empty memory behaves as
      if the previous value had been 0. */
  lemma {:induction false} FieldIsIdealModulo(t: Track, xs: seq<nat>, m: nat)
    requires m > 0 && t.server < m && t.client != Some(0)
    ensures var prior := if t.client.Some? then t.client.value else 0;
            && AdvanceAll(t, xs, m).server == (t.server + Gain([prior] + xs)) % m
            && AdvanceAll(t, xs, m).client == NonZero(([prior] + xs)[|xs|])
  {
    var prior := if t.client.Some? then t.client.value else 0;
    if xs == [] {
      ModSmall(t.server, m);
    } else {
      var n := |xs| - 1;
      var front := xs[..n];
      FieldIsIdealModulo(t, front, m);
      GainSnoc([prior] + front, xs[n]);
      assert [prior] + xs == ([prior] + front) + [xs[n]];
      FieldStep(AdvanceAll(t, front, m), t.server + Gain([prior] + front), ([prior] + front)[n], xs[n], m);
    }
  }

  lemma FieldStep(t: Track, ideal: nat, last: nat, x: nat, m: nat)
    requires m > 0 && t == Track(NonZero(last), ideal % m)
    ensures Advance(t, x, m) == Track(NonZero(x), (ideal + Gap(NonZero(last), x)) % m)
  {
    ModAdd(ideal, Gap(NonZero(last), x), m);
  }

  lemma GainSnoc(xs: seq<nat>, x: nat)
    requires xs != []
    ensures Gain(xs + [x]) == Gain(xs) + Gap(NonZero(xs[|xs| - 1]), x)
  {
    assert (xs + [x])[..|xs|] == xs;
  }

  lemma AdvanceSnoc(t: Track, xs: seq<nat>, x: nat, m: nat)
    requires m > 0
    ensures AdvanceAll(t, xs + [x], m) == Advance(AdvanceAll(t, xs, m), x, m)
  {
    assert (xs + [x])[..|xs|] == xs;
  }

  /** Total backward movement of a run. */
  function Backward(xs: seq<nat>): nat {
    if |xs| < 2 then 0
    else
      var a, b := xs[|xs| - 2], xs[|xs| - 1];
      Backward(xs[..|xs| - 1]) + (if a > b then a - b else 0)
  }

  /** Net movement plus everything lost to backward steps. */
  function UpwardVariation(xs: seq<nat>): int {
    if xs == [] then 0 else xs[|xs| - 1] - xs[0] + Backward(xs)
  }

  /** The maximal zero-free runs of `xs`. */
  function Segments(xs: seq<nat>): (r: seq<seq<nat>>)
    ensures r != []
    ensures r[|r| - 1] == [] <==> xs == [] || xs[|xs| - 1] == 0
    ensures r[|r| - 1] != [] ==> r[|r| - 1][|r[|r| - 1]| - 1] == xs[|xs| - 1]
    ensures forall s <- r :: 0 !in s
  {
    if xs == [] then [[]]
    else
      var n := |xs| - 1;
      var r := Segments(xs[..n]);
      if xs[n] == 0 then r + [[]] else r[|r| - 1 := r[|r| - 1] + [xs[n]]]
  }

  function TotalVariation(segments: seq<seq<nat>>): int {
    if segments == [] then 0
    else TotalVariation(segments[..|segments| - 1]) + UpwardVariation(segments[|segments| - 1])
  }

  /** Upward-variation law: the ideal counter gains the net plus the backward movement of every
      zero-free run; a zero restarts and contributes nothing itself. */
  lemma {:induction false} GainIsTotalVariation(xs: seq<nat>)
    ensures Gain(xs) == TotalVariation(Segments(xs))
  {
    if xs != [] {
      var n := |xs| - 1;
      var front := xs[..n];
      var r, s := Segments(front), Segments(xs);
      GainIsTotalVariation(front);
      var k := |r| - 1;
      if xs[n] == 0 {
        assert s[..k + 1] == r;
      } else {
        assert s[..k] == r[..k];
        var run := r[k];
        if run != [] {
          assert s[k][..|run|] == run;
        }
      }
    }
  }

  /** On zero-free runs: start + (last - first) + total backward movement. */
  lemma GainOfNonZeroRun(xs: seq<nat>)
    requires 0 !in xs
    ensures Gain(xs) == UpwardVariation(xs)
  {
    GainIsTotalVariation(xs);
    SingleSegment(xs);
    assert [xs][..0] == [];
  }

  lemma {:induction false} SingleSegment(xs: seq<nat>)
    requires 0 !in xs
    ensures Segments(xs) == [xs]
  {
    if xs != [] {
      var n := |xs| - 1;
      assert xs[n] in xs;
      SingleSegment(xs[..n]);
      assert xs[..n] + [xs[n]] == xs;
    }
  }

  // ---------------------------------------------------------------------
  // When is renumbering a translation?
  // ---------------------------------------------------------------------

  /** The server value written into packet i. */
  function Written(server: nat, xs: seq<nat>, i: nat, m: nat): nat
    requires m > 0 && i < |xs|
  {
    AdvanceAll(Track(None, server), xs[..i + 1], m).server
  }

  /** Every packet is shifted by the offset of the first one. */
  ghost predicate Translated(server: nat, xs: seq<nat>, m: nat)
    requires m > 0
  {
    forall i | 0 <= i < |xs| :: Written(server, xs, i, m) == (server + xs[i] - xs[0]) % m
  }

  /** Never backwards, and never away from zero. */
  predicate Straight(xs: seq<nat>) {
    forall i | 0 < i < |xs| :: xs[i - 1] <= xs[i] && (xs[i - 1] == 0 ==> xs[i] == 0)
  }

  lemma WrittenIsIdeal(server: nat, xs: seq<nat>, i: nat, m: nat)
    requires m > 0 && server < m && i < |xs|
    ensures Written(server, xs, i, m) == (server + Gain(xs[..i + 1])) % m
  {
    FieldIsIdealModulo(Track(None, server), xs[..i + 1], m);
    PrependZero(xs[..i + 1]);
  }

  lemma {:induction false} PrependZero(xs: seq<nat>)
    ensures Gain([0] + xs) == Gain(xs)
  {
    if |xs| >= 1 {
      var n := |xs| - 1;
      assert ([0] + xs)[..n + 1] == [0] + xs[..n];
      PrependZero(xs[..n]);
    }
  }

  lemma {:induction false} StraightGain(xs: seq<nat>, i: nat)
    requires Straight(xs) && i < |xs|
    ensures xs[0] <= xs[i] && Gain(xs[..i + 1]) == xs[i] - xs[0]
  {
    if i > 0 {
      StraightGain(xs, i - 1);
      assert xs[..i + 1][..i] == xs[..i];
    }
  }

  predicate Below(xs: seq<nat>, m: nat) {
    forall i | 0 <= i < |xs| :: xs[i] < m
  }

  /** Exact condition: the written numbers are the client's plus one fixed offset if and only if
      the client's numbers never step back and never leave zero. */
  lemma TranslationIff(server: nat, xs: seq<nat>, m: nat)
    requires m > 0 && server < m && Below(xs, m)
    ensures Translated(server, xs, m) <==> Straight(xs)
  {
    if Straight(xs) {
      StraightIsTranslated(server, xs, m);
    }
    if Translated(server, xs, m) {
      forall i | 0 < i < |xs|
        ensures xs[i - 1] <= xs[i] && (xs[i - 1] == 0 ==> xs[i] == 0)
      {
        TranslatedStep(server, xs, i, m);
      }
    }
  }

  lemma StraightIsTranslated(server: nat, xs: seq<nat>, m: nat)
    requires m > 0 && server < m && Straight(xs)
    ensures Translated(server, xs, m)
  {
    forall i | 0 <= i < |xs|
      ensures Written(server, xs, i, m) == (server + xs[i] - xs[0]) % m
    {
      WrittenIsIdeal(server, xs, i, m);
      StraightGain(xs, i);
    }
  }

  lemma StraightWrites(server: nat, xs: seq<nat>, k: nat, m: nat)
    requires m > 0 && server < m && Straight(xs) && k < |xs|
    ensures AdvanceAll(Track(None, server), xs[..k + 1], m).server == (xs[k] + (server - xs[0])) % m
  {
    StraightIsTranslated(server, xs, m);
    assert Written(server, xs, k, m) == (server + xs[k] - xs[0]) % m;
  }

  lemma TranslatedStep(server: nat, xs: seq<nat>, i: nat, m: nat)
    requires m > 0 && server < m && 0 < i < |xs| && xs[i] < m && xs[i - 1] < m
    requires Written(server, xs, i, m) == (server + xs[i] - xs[0]) % m
    requires Written(server, xs, i - 1, m) == (server + xs[i - 1] - xs[0]) % m
    ensures xs[i - 1] <= xs[i] && (xs[i - 1] == 0 ==> xs[i] == 0)
  {
    WrittenIsIdeal(server, xs, i, m);
    WrittenIsIdeal(server, xs, i - 1, m);
    GainStep(xs, i);
    TranslatedGap(server, Gain(xs[..i]), xs[0], xs[i - 1], xs[i], m);
  }

  lemma GainStep(xs: seq<nat>, i: nat)
    requires 0 < i < |xs|
    ensures Gain(xs[..i + 1]) == Gain(xs[..i]) + Gap(NonZero(xs[i - 1]), xs[i])
  {
    assert xs[..i + 1][..i] == xs[..i];
  }

  lemma TranslatedGap(server: int, gain: int, first: int, a: nat, b: nat, m: nat)
    requires a < m && b < m
    requires (server + gain) % m == (server + a - first) % m
    requires (server + (gain + Gap(NonZero(a), b))) % m == (server + b - first) % m
    ensures a <= b && (a == 0 ==> b == 0)
  {
    var before, gap, after := server + gain, Gap(NonZero(a), b), server + a - first;
    assert before + gap == server + (gain + gap) && after + (b - a) == server + b - first;
    ModShift(before, after, gap, b - a, m);
  }

  // ---------------------------------------------------------------------
  // The runtime of one frequency
  // ---------------------------------------------------------------------

  datatype Runtime = Runtime(
    clientTs: Option<nat>, serverTs: u32, clientSequence: Option<nat>, serverSequence: u16,
    startedTime: nat, prevTimeDiff: nat)
  {
    function SequenceTrack(): Track { Track(clientSequence, serverSequence) }
    function TimestampTrack(): Track { Track(clientTs, serverTs) }
    predicate Fresh() { clientTs == None && clientSequence == None }
  }

  function Renumber(rt: Runtime, h: RtpHeader, now: nat): (r: Runtime)
    requires rt.startedTime <= now
    ensures r.SequenceTrack() == Advance(rt.SequenceTrack(), h.sequence, U16)
    ensures r.TimestampTrack() == Advance(rt.TimestampTrack(), h.timestamp, U32)
    ensures r.startedTime == rt.startedTime
  {
    Runtime(NonZero(h.timestamp), (rt.serverTs + Gap(rt.clientTs, h.timestamp)) % U32,
            NonZero(h.sequence), (rt.serverSequence + Gap(rt.clientSequence, h.sequence)) % U16,
            rt.startedTime, now - rt.startedTime)
  }

  type Runtimes = map<u32, Runtime>

  /** A decrypted packet: the codec frequency found for it, its header as parsed before
      decryption, its bytes after decryption and the time it is handled. */
  datatype Packet = Packet(frequency: u32, header: RtpHeader, plain: Bytes, now: nat)

  predicate Handleable(rts: Runtimes, p: Packet) {
    p.frequency in rts && rts[p.frequency].startedTime <= p.now && |p.plain| >= 8
  }

  function Handle(rts: Runtimes, p: Packet): Runtimes
    requires Handleable(rts, p)
  {
    rts[p.frequency := Renumber(rts[p.frequency], p.header, p.now)]
  }

  predicate AllHandleable(rts: Runtimes, ps: seq<Packet>) {
    forall i | 0 <= i < |ps| :: Handleable(rts, ps[i])
  }

  function HandleAll(rts: Runtimes, ps: seq<Packet>): (r: Runtimes)
    requires AllHandleable(rts, ps)
    ensures r.Keys == rts.Keys
    ensures forall f <- rts :: r[f].startedTime == rts[f].startedTime
  {
    if ps == [] then rts else Handle(HandleAll(rts, ps[..|ps| - 1]), ps[|ps| - 1])
  }

  /** The bytes packet i of a run leaves with. */
  function Outgoing(rts: Runtimes, ps: seq<Packet>, i: nat): Bytes
    requires AllHandleable(rts, ps) && i < |ps|
  {
    var rt := HandleAll(rts, ps[..i + 1])[ps[i].frequency];
    Rewritten(ps[i].plain, rt.serverSequence, rt.serverTs)
  }

  function Sequences(ps: seq<Packet>, f: u32): seq<nat> {
    if ps == [] then []
    else
      var p := ps[|ps| - 1];
      Sequences(ps[..|ps| - 1], f) + (if p.frequency == f then [p.header.sequence as nat] else [])
  }

  function Timestamps(ps: seq<Packet>, f: u32): seq<nat> {
    if ps == [] then []
    else
      var p := ps[|ps| - 1];
      Timestamps(ps[..|ps| - 1], f) + (if p.frequency == f then [p.header.timestamp as nat] else [])
  }

  /** The runtime of a frequency sees exactly that frequency's packets, however they interleave. */
  lemma RuntimeSeesOwnPackets(rts: Runtimes, ps: seq<Packet>, f: u32)
    requires AllHandleable(rts, ps) && f in rts
    ensures HandleAll(rts, ps)[f].SequenceTrack() == AdvanceAll(rts[f].SequenceTrack(), Sequences(ps, f), U16)
    ensures HandleAll(rts, ps)[f].TimestampTrack() == AdvanceAll(rts[f].TimestampTrack(), Timestamps(ps, f), U32)
    ensures (forall p <- ps :: p.frequency != f) ==> HandleAll(rts, ps)[f] == rts[f]
  {
    TracksFollow(rts, ps, f);
    if forall p <- ps :: p.frequency != f {
      OthersLeaveIt(rts, ps, f);
    }
  }

  lemma {:induction false} OthersLeaveIt(rts: Runtimes, ps: seq<Packet>, f: u32)
    requires AllHandleable(rts, ps) && f in rts && forall i | 0 <= i < |ps| :: ps[i].frequency != f
    ensures HandleAll(rts, ps)[f] == rts[f]
  {
    if ps != [] {
      OthersLeaveIt(rts, ps[..|ps| - 1], f);
    }
  }

  lemma {:induction false} TracksFollow(rts: Runtimes, ps: seq<Packet>, f: u32)
    requires AllHandleable(rts, ps) && f in rts
    ensures HandleAll(rts, ps)[f].SequenceTrack() == AdvanceAll(rts[f].SequenceTrack(), Sequences(ps, f), U16)
    ensures HandleAll(rts, ps)[f].TimestampTrack() == AdvanceAll(rts[f].TimestampTrack(), Timestamps(ps, f), U32)
  {
    if ps != [] {
      var front, p := ps[..|ps| - 1], ps[|ps| - 1];
      TracksFollow(rts, front, f);
      HandleTracks(HandleAll(rts, front), p, f);
      TracksSnoc(rts[f], HandleAll(rts, front)[f], front, p, f);
      assert ps == front + [p];
    }
  }

  /** One more packet, on both counters. */
  lemma TracksSnoc(first: Runtime, rt: Runtime, front: seq<Packet>, p: Packet, f: u32)
    requires rt.SequenceTrack() == AdvanceAll(first.SequenceTrack(), Sequences(front, f), U16)
    requires rt.TimestampTrack() == AdvanceAll(first.TimestampTrack(), Timestamps(front, f), U32)
    ensures AdvanceAll(first.SequenceTrack(), Sequences(front + [p], f), U16)
         == if p.frequency == f then Advance(rt.SequenceTrack(), p.header.sequence, U16) else rt.SequenceTrack()
    ensures AdvanceAll(first.TimestampTrack(), Timestamps(front + [p], f), U32)
         == if p.frequency == f then Advance(rt.TimestampTrack(), p.header.timestamp, U32) else rt.TimestampTrack()
  {
    NumbersSnoc(front, p, f);
    if p.frequency == f {
      AdvanceSnoc(first.SequenceTrack(), Sequences(front, f), p.header.sequence, U16);
      AdvanceSnoc(first.TimestampTrack(), Timestamps(front, f), p.header.timestamp, U32);
    }
  }

  /** What one packet does to a runtime, its own or another one. */
  lemma HandleTracks(rts: Runtimes, p: Packet, f: u32)
    requires Handleable(rts, p) && f in rts
    ensures var rt, rt' := rts[f], Handle(rts, p)[f];
            if p.frequency != f then rt' == rt
            else
              && rt'.SequenceTrack() == Advance(rt.SequenceTrack(), p.header.sequence, U16)
              && rt'.TimestampTrack() == Advance(rt.TimestampTrack(), p.header.timestamp, U32)
  {
  }

  lemma NumbersSnoc(ps: seq<Packet>, p: Packet, f: u32)
    ensures Sequences(ps + [p], f)
         == if p.frequency == f then Sequences(ps, f) + [p.header.sequence as nat] else Sequences(ps, f)
    ensures Timestamps(ps + [p], f)
         == if p.frequency == f then Timestamps(ps, f) + [p.header.timestamp as nat] else Timestamps(ps, f)
  {
    assert (ps + [p])[..|ps|] == ps;
  }

  /** How many packets of frequency f come before packet i. */
  lemma {:induction false} OwnIndex(ps: seq<Packet>, i: nat, f: u32) returns (k: nat)
    requires i < |ps| && ps[i].frequency == f
    ensures |Sequences(ps, f)| == |Timestamps(ps, f)| && k < |Sequences(ps, f)|
    ensures Sequences(ps, f)[..k + 1] == Sequences(ps[..i + 1], f)
    ensures Timestamps(ps, f)[..k + 1] == Timestamps(ps[..i + 1], f)
    ensures Sequences(ps, f)[k] == ps[i].header.sequence && Timestamps(ps, f)[k] == ps[i].header.timestamp
  {
    var n := |ps| - 1;
    if i == n {
      SameLength(ps, f);
      SameLength(ps[..n], f);
      k := |Sequences(ps[..n], f)|;
      assert ps[..i + 1] == ps;
    } else {
      k := OwnIndex(ps[..n], i, f);
      assert ps[..n][..i + 1] == ps[..i + 1];
      assert Sequences(ps, f)[..k + 1] == Sequences(ps[..n], f)[..k + 1];
      assert Timestamps(ps, f)[..k + 1] == Timestamps(ps[..n], f)[..k + 1];
    }
  }

  lemma {:induction false} SameLength(ps: seq<Packet>, f: u32)
    ensures |Sequences(ps, f)| == |Timestamps(ps, f)|
    ensures Below(Sequences(ps, f), U16) && Below(Timestamps(ps, f), U32)
  {
    if ps != [] {
      SameLength(ps[..|ps| - 1], f);
    }
  }

  /** Translation: on a frequency whose client numbering is straight, every outgoing packet carries
      the original sequence number and timestamp plus one fixed offset, and keeps all other bytes,
      whatever packets of other frequencies are handled in between. */
  lemma PacketTranslation(rts: Runtimes, ps: seq<Packet>, i: nat)
    requires AllHandleable(rts, ps) && i < |ps|
    requires rts[ps[i].frequency].Fresh()
    requires Straight(Sequences(ps, ps[i].frequency)) && Straight(Timestamps(ps, ps[i].frequency))
    ensures var f := ps[i].frequency;
            var out, firstSeq, firstTs := Outgoing(rts, ps, i), Sequences(ps, f), Timestamps(ps, f);
            && |firstSeq| > 0 && |firstTs| > 0 && |out| == |ps[i].plain|
            && ReadU16(out, 2) == (ps[i].header.sequence + (rts[f].serverSequence - firstSeq[0])) % U16
            && ReadU32(out, 4) == (ps[i].header.timestamp + (rts[f].serverTs - firstTs[0])) % U32
            && out[..2] == ps[i].plain[..2] && out[8..] == ps[i].plain[8..]
            && (IsRtpHeader(ps[i].plain) ==>
                  && FromBuf(out).value.marker == FromBuf(ps[i].plain).value.marker
                  && FromBuf(out).value.payload == FromBuf(ps[i].plain).value.payload)
  {
    RuntimeTranslation(rts, ps, i);
    var rt := HandleAll(rts, ps[..i + 1])[ps[i].frequency];
    RewrittenReadsBack(ps[i].plain, rt.serverSequence, rt.serverTs);
  }

  /** The same, of the runtime fields just after packet i. */
  lemma RuntimeTranslation(rts: Runtimes, ps: seq<Packet>, i: nat)
    requires AllHandleable(rts, ps) && i < |ps|
    requires rts[ps[i].frequency].Fresh()
    requires Straight(Sequences(ps, ps[i].frequency)) && Straight(Timestamps(ps, ps[i].frequency))
    ensures var f := ps[i].frequency;
            var rt, xs, ts := HandleAll(rts, ps[..i + 1])[f], Sequences(ps, f), Timestamps(ps, f);
            && |xs| > 0 && |ts| > 0
            && rt.serverSequence == (ps[i].header.sequence + (rts[f].serverSequence - xs[0])) % U16
            && rt.serverTs == (ps[i].header.timestamp + (rts[f].serverTs - ts[0])) % U32
  {
    var f := ps[i].frequency;
    var rt := HandleAll(rts, ps[..i + 1])[f];
    var k := RuntimeTracks(rts, ps, i, rt);
    TrackTranslates(rts[f].SequenceTrack(), rt.SequenceTrack(), Sequences(ps, f), k, U16);
    TrackTranslates(rts[f].TimestampTrack(), rt.TimestampTrack(), Timestamps(ps, f), k, U32);
  }

  /** The runtime just after packet i has seen the first k + 1 numbers of its frequency. */
  lemma RuntimeTracks(rts: Runtimes, ps: seq<Packet>, i: nat, rt: Runtime) returns (k: nat)
    requires AllHandleable(rts, ps) && i < |ps| && rt == HandleAll(rts, ps[..i + 1])[ps[i].frequency]
    ensures var f := ps[i].frequency;
            var xs, ts := Sequences(ps, f), Timestamps(ps, f);
            && k < |xs| == |ts| && xs[k] == ps[i].header.sequence && ts[k] == ps[i].header.timestamp
            && rt.SequenceTrack() == AdvanceAll(rts[f].SequenceTrack(), xs[..k + 1], U16)
            && rt.TimestampTrack() == AdvanceAll(rts[f].TimestampTrack(), ts[..k + 1], U32)
  {
    k := OwnIndex(ps, i, ps[i].frequency);
    RuntimeSeesOwnPackets(rts, ps[..i + 1], ps[i].frequency);
  }

  /** One counter after the first k + 1 of a straight run of numbers. */
  lemma TrackTranslates(first: Track, now: Track, xs: seq<nat>, k: nat, m: nat)
    requires m > 0 && first.server < m && first.client == None && Straight(xs) && k < |xs|
    requires now == AdvanceAll(first, xs[..k + 1], m)
    ensures now.server == (xs[k] + (first.server - xs[0])) % m
  {
    StraightWrites(first.server, xs, k, m);
    assert first == Track(None, first.server);
  }
}

/** Remainders by a variable modulus. */
module Modular {
  lemma ModSmall(a: int, m: int)
    requires 0 <= a < m
    ensures a % m == a
  {
  }

  lemma ModUnique(a: int, m: int, q: int, r: int)
    requires m > 0 && a == m * q + r && 0 <= r < m
    ensures a % m == r
  {
    var p := a / m;
    assert a == m * p + a % m;
    assert m * (q - p) == a % m - r;
    assert q - p >= 1 ==> m * (q - p) >= m;
    assert q - p <= -1 ==> m * (q - p) <= -m;
  }

  lemma ModAdd(a: int, b: int, m: int)
    requires m > 0
    ensures (a % m + b) % m == (a + b) % m
  {
    var q, r := (a % m + b) / m, (a % m + b) % m;
    assert a == m * (a / m) + a % m;
    assert a + b == m * (a / m + q) + r;
    ModUnique(a + b, m, a / m + q, r);
  }

  lemma ModCancel(a: int, b: int, m: int)
    requires m > 0 && a % m == b % m && -m < a - b < m
    ensures a == b
  {
    assert a == m * (a / m) + a % m && b == m * (b / m) + b % m;
    Distribute(m, a / m, b / m);
    SmallMultiple(m, a / m - b / m);
  }

  lemma Distribute(m: int, p: int, q: int)
    ensures m * (p - q) == m * p - m * q
  {
  }

  lemma SmallMultiple(m: int, k: int)
    requires m > 0 && -m < m * k < m
    ensures k == 0
  {
    assert k >= 1 ==> m * k >= m;
    assert k <= -1 ==> m * k <= -m;
  }

  /** Congruent values that stay congruent after adding x and y: x and y agree if close. */
  lemma ModShift(a: int, b: int, x: int, y: int, m: int)
    requires m > 0 && a % m == b % m && (a + x) % m == (b + y) % m
    requires -m < x - y < m
    ensures x == y
  {
    ModAdd(a, x, m);
    ModAdd(b, y, m);
    var r := a % m;
    ModCancel(r + x, r + y, m);
  }
}
