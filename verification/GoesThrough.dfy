/** Packets do get through: what one thread can do with a packet while nobody else moves. */
module GoesThrough {
  import opened Base
  import opened Wire
  import opened RtpCore
  import opened Renumbering
  import opened Routing
  import opened Interleaving

  /** The thread can take up a packet. */
  predicate Free(s: System, h: nat) {
    h !in s.threads || s.threads[h].Finished?
  }

  /** Nothing that routing depends on has changed. */
  ghost predicate SameRouting(s: System, s': System) {
    && s'.pending == s.pending && s'.conns == s.conns && s'.world.table == s.world.table
    && |s'.world.heap| == |s.world.heap|
    && forall i | 0 <= i < |s.world.heap| ::
         s'.world.heap[i] == s.world.heap[i].(runtimes := s'.world.heap[i].runtimes)
  }

  // ---------------------------------------------------------------------
  // Step by step
  // ---------------------------------------------------------------------

  /** A packet from an address in the table is taken up for the client found there, with the header it
      has, in a turn of its own; any other is not taken up. */
  lemma LookTakesUp(s: System, h: nat, a: Addr, message: Bytes)
    requires Bounded(s) && Free(s, h)
    ensures a !in Found(s) ==> Next(s, Look(h, a, message)) == s
    ensures a in Found(s) && IsRtpHeader(message) ==>
              Next(s, Look(h, a, message)) ==
              s.(turns := s.turns + 1, threads := s.threads[h :=
                Looked(Found(s)[a], s.turns, FromBuf(message).value, IsRtcp(message))])
    ensures a in Found(s) && !IsRtpHeader(message) ==>
              Next(s, Look(h, a, message)) == s.(threads := s.threads[h := Finished(Unsupported)])
  {
  }

  /** Why a packet is refused before it is renumbered: no transport, a failed check, payload type 111;
      otherwise it goes on as decrypted. */
  lemma DecryptRefuses(s: System, h: nat, plain: Option<Plain>)
    requires Bounded(s) && h in s.threads && s.threads[h].MediaRead?
    ensures s.threads[h].c < |s.conns| && h in Next(s, Decrypt(h, plain)).threads
    ensures var t, t' := s.threads[h], Next(s, Decrypt(h, plain)).threads[h];
            && (t' == Finished(ClientNotReady) <==> !s.conns[t.c].srtp)
            && (t' == Finished(SrtpFailed) <==> s.conns[t.c].srtp && plain == None)
            && (t' == Finished(Unsupported) <==> s.conns[t.c].srtp && plain.Some? && !t.rtcp && t.header.payload == 111)
            && (s.conns[t.c].srtp && plain.Some? && (t.rtcp || t.header.payload != 111) ==>
                  t' == Decrypted(t.c, t.turn, t.header, t.rtcp, t.codec, plain.value))
  {
    assert ThreadOk(s.world, s.threads[h]);
  }

  /** RTCP goes on as decrypted and leaves every runtime alone. */
  lemma RtcpGoesOn(s: System, h: nat, now: nat)
    requires Bounded(s) && h in s.threads && s.threads[h].Decrypted? && s.threads[h].rtcp
    ensures var t := s.threads[h];
            Next(s, ReplaceMeta(h, now)) == s.(threads := s.threads[h := Prepared(t.c, Cargo(t.turn, true, t.plain))])
  {
    assert ThreadOk(s.world, s.threads[h]);
    assert s.log + [] == s.log;
  }

  /** Which error a failed protection reports, if it is the first. */
  lemma ProtectReports(s: System, h: nat, b: Addr, ok: bool)
    requires Bounded(s) && h in s.threads && s.threads[h].Fanning? && b in s.threads[h].chosen
    ensures s.threads[h].chosen[b] < |s.conns| && h in Next(s, Protect(h, b, ok)).threads
    ensures var t, t' := s.threads[h], Next(s, Protect(h, b, ok)).threads[h];
            var ready := s.conns[t.chosen[b]].srtp;
            && t'.Fanning? && t'.chosen == t.chosen - {b} && t'.edges == t.edges
            && t'.failed == if t.failed.Some? || (ready && ok) then t.failed
                            else if ready then Some(SrtpFailed) else Some(ClientNotReady)
  {
    assert ThreadOk(s.world, s.threads[h]);
  }

  /** A fan-out reports the error it remembers at any time, and success only when nobody is left. */
  lemma ConcludeReports(s: System, h: nat)
    requires Bounded(s) && h in s.threads && s.threads[h].Fanning?
    ensures var t, s' := s.threads[h], Next(s, Conclude(h));
            && h in s'.threads
            && (t.failed.Some? ==> s'.threads[h] == Finished(t.failed.value))
            && (t.failed == None && t.edges == map[] && t.chosen == map[] ==> s'.threads[h] == Finished(Forwarded))
            && (t.failed == None && (t.edges != map[] || t.chosen != map[]) ==> s'.threads[h] == t)
  {
    assert ThreadOk(s.world, s.threads[h]);
  }

  /** The return path: a sender that is not in the table, or has no transport, is no error; a failed
      protection is. */
  lemma ReturnReports(s: System, h: nat, ok: bool)
    requires Bounded(s) && h in s.threads
    ensures s.threads[h].Returning? && s.threads[h].sender !in Found(s) ==>
              h in Next(s, Resolve(h)).threads && Next(s, Resolve(h)).threads[h] == Finished(Forwarded)
    ensures s.threads[h].Answering? ==>
              && s.threads[h].dst < |s.conns| && h in Next(s, Answer(h, ok)).threads
              && Next(s, Answer(h, ok)).threads[h] ==
                 Finished(if s.conns[s.threads[h].dst].srtp && !ok then SrtpFailed else Forwarded)
              && (Next(s, Answer(h, ok)).sends != s.sends <==> s.conns[s.threads[h].dst].srtp && ok)
  {
    assert ThreadOk(s.world, s.threads[h]);
    assert s.sends + [] == s.sends;
  }

  // ---------------------------------------------------------------------
  // Up to the prepared packet
  // ---------------------------------------------------------------------

  /** The client at `a` has a transport, and RTP finds its codec and a runtime. */
  ghost predicate Acceptable(s: System, a: Addr, message: Bytes, now: nat)
    requires Bounded(s)
  {
    && a in Found(s) && Found(s)[a] < |s.conns| && s.conns[Found(s)[a]].srtp && IsRtpHeader(message)
    && (!IsRtcp(message) ==>
          var client, payload := s.world.heap[Found(s)[a]], FromBuf(message).value.payload;
          && payload != 111 && CodecOf(client.media, payload).Some?
          && var f := CodecOf(client.media, payload).value.1;
             f in client.runtimes && client.runtimes[f].startedTime + client.runtimes[f].prevTimeDiff <= now)
  }

  /** RTCP as decrypted, RTP with the numbers the runtime gives it. */
  ghost predicate Ready(s: System, a: Addr, message: Bytes, plain: Plain, now: nat, cargo: Cargo)
    requires Bounded(s) && Acceptable(s, a, message, now)
  {
    && cargo.turn == s.turns && cargo.rtcp == IsRtcp(message)
    && if cargo.rtcp then cargo.message == plain
       else
         var client, header := s.world.heap[Found(s)[a]], FromBuf(message).value;
         var rt := Renumber(client.runtimes[CodecOf(client.media, header.payload).value.1], header, now);
         cargo.message == Rewritten(plain, rt.serverSequence, rt.serverTs)
  }

  lemma ToDecrypted(reach: System -> bool, s: System, h: nat, a: Addr, message: Bytes, plain: Plain, now: nat)
    returns (s': System)
    requires Closed(reach) && reach(s) && Bounded(s) && Free(s, h) && Acceptable(s, a, message, now)
    ensures reach(s') && SameRouting(s, s') && s'.world == s.world && s'.sends == s.sends && s'.log == s.log
    ensures var c, header := Found(s)[a], FromBuf(message).value;
            && h in s'.threads
            && s'.threads[h] == Decrypted(c, s.turns, header, IsRtcp(message),
                 if IsRtcp(message) then None else CodecOf(s.world.heap[c].media, header.payload), plain)
  {
    LookTakesUp(s, h, a, message);
    s' := Next(s, Look(h, a, message));
    assert Bounded(s');
    s' := Next(s', ReadMedia(h));
    assert Bounded(s');
    DecryptRefuses(s', h, Some(plain));
    s' := Next(s', Decrypt(h, Some(plain)));
  }

  lemma ToPrepared(reach: System -> bool, s: System, h: nat, a: Addr, message: Bytes, plain: Plain, now: nat)
    returns (s': System, cargo: Cargo)
    requires Closed(reach) && reach(s) && Bounded(s) && Free(s, h) && Acceptable(s, a, message, now)
    ensures reach(s') && SameRouting(s, s') && s'.sends == s.sends && Ready(s, a, message, plain, now, cargo)
    ensures h in s'.threads && s'.threads[h] == Prepared(Found(s)[a], cargo)
  {
    var m := ToDecrypted(reach, s, h, a, message, plain, now);
    assert Bounded(m);
    s' := Next(m, ReplaceMeta(h, now));
    cargo := MetaPrepares(m, h, now);
    if !IsRtcp(message) {
      MetaKeepsInv(m.world, m.threads[h], now);
    }
  }

  lemma MetaPrepares(s: System, h: nat, now: nat) returns (cargo: Cargo)
    requires Bounded(s) && h in s.threads && s.threads[h].Decrypted? && s.threads[h].c < |s.world.heap|
    requires s.threads[h].rtcp || (HasRuntime(s.world, s.threads[h]) && ClockOk(s.world, s.threads[h], now))
    ensures var s', t := Next(s, ReplaceMeta(h, now)), s.threads[h];
            && h in s'.threads && s'.threads[h] == Prepared(t.c, cargo)
            && s'.pending == s.pending && s'.conns == s.conns && s'.sends == s.sends
            && cargo.turn == t.turn && cargo.rtcp == t.rtcp
            && (t.rtcp ==> s'.world == s.world && cargo.message == t.plain)
            && (!t.rtcp ==>
                  && s'.world == MetaWorld(s.world, t, now)
                  && var rt := Renumber(s.world.heap[t.c].runtimes[t.codec.value.1], t.header, now);
                     cargo.message == Rewritten(t.plain, rt.serverSequence, rt.serverTs))
  {
    var t := s.threads[h];
    if t.rtcp {
      RtcpGoesOn(s, h, now);
      cargo := Cargo(t.turn, true, t.plain);
    } else {
      cargo := Cargo(t.turn, false, MessageOf(s.world, t, now));
    }
  }

  // ---------------------------------------------------------------------
  // Fan-out
  // ---------------------------------------------------------------------

  /** Every undeleted receiver that is still to be dealt with has a transport. */
  ghost predicate AllReady(s: System, t: Thread)
    requires t.Fanning?
  {
    && t.failed == None && t.edges.Keys !! t.chosen.Keys
    && (forall b <- t.edges :: t.edges[b] < |s.conns| == |s.world.heap|
          && (!s.world.heap[t.edges[b]].deleted ==> s.conns[t.edges[b]].srtp))
    && (forall b <- t.chosen :: t.chosen[b] < |s.conns| && s.conns[t.chosen[b]].srtp)
  }

  /** Every undeleted receiver still to be dealt with, and everyone let through, was sent the packet. */
  ghost predicate Delivered(w: World, t: Thread, sends: seq<Hop>)
    requires t.Fanning?
  {
    && (forall b <- t.edges :: t.edges[b] < |w.heap| && !w.heap[t.edges[b]].deleted ==>
          Hop(t.c, t.cargo, b, t.edges[b]) in sends)
    && (forall b <- t.chosen :: Hop(t.c, t.cargo, b, t.chosen[b]) in sends)
  }

  lemma {:induction false} FanOutFinishes(reach: System -> bool, s: System, h: nat) returns (s': System)
    requires Closed(reach) && reach(s) && h in s.threads && s.threads[h].Fanning? && AllReady(s, s.threads[h])
    ensures reach(s') && h in s'.threads && s'.threads[h] == Finished(Forwarded)
    ensures s'.world == s.world && Delivered(s.world, s.threads[h], s'.sends) && forall x <- s.sends :: x in s'.sends
    decreases 2 * |s.threads[h].edges| + |s.threads[h].chosen|
  {
    var t := s.threads[h];
    if b :| b in t.edges {
      var m := Filtered(reach, s, h, b);
      s' := FanOutFinishes(reach, m, h);
      DeliveredBeforeFilter(s, t, b, s'.sends);
    } else if b :| b in t.chosen {
      var m := Protected(reach, s, h, b);
      s' := FanOutFinishes(reach, m, h);
      assert Hop(t.c, t.cargo, b, t.chosen[b]) in m.sends;
      DeliveredBeforeProtect(s.world, t, b, s'.sends);
    } else {
      s' := Concluded(reach, s, h);
    }
  }

  lemma DeliveredBeforeFilter(s: System, t: Thread, b: Addr, sends: seq<Hop>)
    requires t.Fanning? && b in t.edges && b !in t.chosen && t.edges[b] < |s.world.heap|
    requires Delivered(s.world, t.(edges := t.edges - {b}, chosen := LetThrough(s, t, b)), sends)
    ensures Delivered(s.world, t, sends)
  {
    var t' := t.(edges := t.edges - {b}, chosen := LetThrough(s, t, b));
    forall x | x in t.edges && t.edges[x] < |s.world.heap| && !s.world.heap[t.edges[x]].deleted
      ensures Hop(t.c, t.cargo, x, t.edges[x]) in sends
    {
      if x == b {
        assert b in t'.chosen && t'.chosen[b] == t.edges[b];
      } else {
        assert x in t'.edges;
      }
    }
    forall x | x in t.chosen
      ensures Hop(t.c, t.cargo, x, t.chosen[x]) in sends
    {
      assert x in t'.chosen && t'.chosen[x] == t.chosen[x];
    }
  }

  lemma DeliveredBeforeProtect(w: World, t: Thread, b: Addr, sends: seq<Hop>)
    requires t.Fanning? && b in t.chosen && Hop(t.c, t.cargo, b, t.chosen[b]) in sends
    requires Delivered(w, t.(chosen := t.chosen - {b}), sends)
    ensures Delivered(w, t, sends)
  {
    var t' := t.(chosen := t.chosen - {b});
    forall x | x in t.chosen
      ensures Hop(t.c, t.cargo, x, t.chosen[x]) in sends
    {
      if x != b {
        assert x in t'.chosen && t'.chosen[x] == t.chosen[x];
      }
    }
  }

  lemma Concluded(reach: System -> bool, s: System, h: nat) returns (s': System)
    requires Closed(reach) && reach(s) && h in s.threads && s.threads[h].Fanning?
    requires s.threads[h].edges == map[] && s.threads[h].chosen == map[] && s.threads[h].failed == None
    ensures reach(s') && h in s'.threads && s'.threads[h] == Finished(Forwarded)
    ensures s'.world == s.world && s'.sends == s.sends
  {
    assert Bounded(s);
    s' := Next(s, Conclude(h));
  }

  lemma Smaller(m: map<Addr, Id>, b: Addr)
    requires b in m
    ensures |m - {b}| == |m| - 1
  {
    assert (m - {b}).Keys == m.Keys - {b};
    assert |m.Keys| == |m| && |(m - {b}).Keys| == |m - {b}|;
  }

  /** The filter looks at one receiver: it is let through exactly if it is not deleted. */
  lemma Filtered(reach: System -> bool, s: System, h: nat, b: Addr) returns (s': System)
    requires Closed(reach) && reach(s) && h in s.threads && s.threads[h].Fanning?
    requires b in s.threads[h].edges && AllReady(s, s.threads[h])
    ensures reach(s') && s'.world == s.world && s'.conns == s.conns && s'.sends == s.sends
    ensures h in s'.threads && s'.threads[h].Fanning? && AllReady(s', s'.threads[h])
    ensures var t, t' := s.threads[h], s'.threads[h];
            && t' == t.(edges := t.edges - {b}, chosen := LetThrough(s, t, b))
            && 2 * |t'.edges| + |t'.chosen| < 2 * |t.edges| + |t.chosen|
  {
    FilterMoves(s, h, b);
    s' := Next(s, Filter(h, b));
    FilterShrinks(s.threads[h].edges, s.threads[h].chosen, b);
  }

  ghost function LetThrough(s: System, t: Thread, b: Addr): map<Addr, Id>
    requires t.Fanning? && b in t.edges && t.edges[b] < |s.world.heap|
  {
    if s.world.heap[t.edges[b]].deleted then t.chosen else t.chosen[b := t.edges[b]]
  }

  lemma FilterMoves(s: System, h: nat, b: Addr)
    requires Bounded(s) && h in s.threads && s.threads[h].Fanning? && b in s.threads[h].edges
    requires s.threads[h].edges[b] < |s.world.heap|
    ensures var s', t := Next(s, Filter(h, b)), s.threads[h];
            && s'.world == s.world && s'.conns == s.conns && s'.sends == s.sends && h in s'.threads
            && s'.threads[h] == t.(edges := t.edges - {b}, chosen := LetThrough(s, t, b))
  {
    assert ThreadOk(s.world, s.threads[h]);
  }

  lemma FilterShrinks(edges: map<Addr, Id>, chosen: map<Addr, Id>, b: Addr)
    requires b in edges && b !in chosen
    ensures 2 * |edges - {b}| + |chosen| < 2 * |edges| + |chosen|
    ensures 2 * |edges - {b}| + |chosen[b := edges[b]]| < 2 * |edges| + |chosen|
  {
    Smaller(edges, b);
    Smaller(chosen[b := edges[b]], b);
    assert chosen[b := edges[b]] - {b} == chosen;
  }

  lemma Protected(reach: System -> bool, s: System, h: nat, b: Addr) returns (s': System)
    requires Closed(reach) && reach(s) && h in s.threads && s.threads[h].Fanning?
    requires b in s.threads[h].chosen && AllReady(s, s.threads[h])
    ensures reach(s') && s'.world == s.world && s'.conns == s.conns
    ensures h in s'.threads && s'.threads[h].Fanning? && AllReady(s', s'.threads[h])
    ensures var t, t' := s.threads[h], s'.threads[h];
            && t' == t.(chosen := t.chosen - {b}) && s'.sends == s.sends + [Hop(t.c, t.cargo, b, t.chosen[b])]
            && 2 * |t'.edges| + |t'.chosen| < 2 * |t.edges| + |t.chosen|
  {
    ProtectSendsOne(s, h, b);
    s' := Next(s, Protect(h, b, true));
    Smaller(s.threads[h].chosen, b);
  }

  lemma ProtectSendsOne(s: System, h: nat, b: Addr)
    requires Bounded(s) && h in s.threads && s.threads[h].Fanning? && b in s.threads[h].chosen
    requires s.threads[h].chosen[b] < |s.conns| && s.conns[s.threads[h].chosen[b]].srtp
    ensures var s', t := Next(s, Protect(h, b, true)), s.threads[h];
            && s'.world == s.world && s'.conns == s.conns && h in s'.threads
            && s'.threads[h] == t.(chosen := t.chosen - {b})
            && s'.sends == s.sends + [Hop(t.c, t.cargo, b, t.chosen[b])]
  {
    assert ThreadOk(s.world, s.threads[h]);
  }

  // ---------------------------------------------------------------------
  // From the datagram to the receivers
  // ---------------------------------------------------------------------

  /** Whenever a free thread takes up a packet from a client with a transport, and RTP has its codec and
      runtime, and every undeleted receiver has a transport: the packet can get through to all of them,
      and the thread reports success. */
  lemma PacketGoesThrough(s: System, h: nat, a: Addr, message: Bytes, plain: Plain, now: nat)
    returns (s': System, cargo: Cargo)
    requires Bounded(s) && Free(s, h) && Acceptable(s, a, message, now)
    requires !IsRtcp(message) || s.world.heap[Found(s)[a]].receivers != map[]
    requires ReceiversReady(s, Found(s)[a])
    ensures ReachableFrom(s, s') && h in s'.threads && s'.threads[h] == Finished(Forwarded)
    ensures Ready(s, a, message, plain, now, cargo)
    ensures var c := Found(s)[a];
            forall b <- FanOut(s.world, c) :: Hop(c, cargo, b, FanOut(s.world, c)[b]) in s'.sends
  {
    ReachableFromClosed(s);
    var reach := (x: System) => ReachableFrom(s, x);
    s', cargo := ToPrepared(reach, s, h, a, message, plain, now);
    s' := OpenedForFanOut(reach, s, s', h, Found(s)[a], cargo);
    s' := FanOutFinishes(reach, s', h);
  }

  ghost predicate ReceiversReady(s: System, c: Id)
    requires Bounded(s) && c < |s.world.heap|
  {
    forall b <- s.world.heap[c].receivers ::
      var i := s.world.heap[c].receivers[b];
      i < |s.conns| == |s.world.heap| && (!s.world.heap[i].deleted ==> s.conns[i].srtp)
  }

  lemma OpenedForFanOut(reach: System -> bool, s: System, m: System, h: nat, c: Id, cargo: Cargo) returns (s': System)
    requires Closed(reach) && reach(m) && Bounded(s) && c < |s.world.heap| && SameRouting(s, m)
    requires h in m.threads && m.threads[h] == Prepared(c, cargo)
    requires (!cargo.rtcp || s.world.heap[c].receivers != map[]) && ReceiversReady(s, c)
    ensures reach(s') && s'.world == m.world && h in s'.threads
    ensures s'.threads[h] == Fanning(c, cargo, s.world.heap[c].receivers, map[], None) && AllReady(s', s'.threads[h])
  {
    assert Bounded(m);
    s' := Next(m, OpenReceivers(h));
    assert m.world.heap[c].receivers == s.world.heap[c].receivers;
    assert forall i | 0 <= i < |s.world.heap| :: m.world.heap[i].deleted == s.world.heap[i].deleted;
  }

  /** And RTCP of a client without receivers can get back to the sender it remembers, if that is in the
      table and has a transport. */
  lemma RtcpGoesBack(s: System, h: nat, a: Addr, message: Bytes, plain: Plain, now: nat)
    returns (s': System, cargo: Cargo)
    requires Bounded(s) && Free(s, h) && Acceptable(s, a, message, now) && IsRtcp(message)
    requires var client := s.world.heap[Found(s)[a]];
             && client.receivers == map[] && client.senderAddr.Some?
             && client.senderAddr.value in Found(s) && Found(s)[client.senderAddr.value] < |s.conns|
             && s.conns[Found(s)[client.senderAddr.value]].srtp
    ensures ReachableFrom(s, s') && h in s'.threads && s'.threads[h] == Finished(Forwarded)
    ensures Ready(s, a, message, plain, now, cargo)
    ensures var c := Found(s)[a];
            var b := s.world.heap[c].senderAddr.value;
            Hop(c, cargo, b, Found(s)[b]) in s'.sends
  {
    ReachableFromClosed(s);
    var reach := (x: System) => ReachableFrom(s, x);
    s', cargo := ToPrepared(reach, s, h, a, message, plain, now);
    var b := s.world.heap[Found(s)[a]].senderAddr.value;
    assert Found(s') == Found(s) && s'.world.heap[Found(s)[a]].senderAddr == Some(b);
    s' := AnsweredTo(reach, s', h, Found(s)[a], cargo, b);
  }

  lemma AnsweredTo(reach: System -> bool, s: System, h: nat, c: Id, cargo: Cargo, b: Addr) returns (s': System)
    requires Closed(reach) && reach(s) && h in s.threads && s.threads[h] == Prepared(c, cargo) && cargo.rtcp
    requires c < |s.world.heap| && s.world.heap[c].receivers == map[] && s.world.heap[c].senderAddr == Some(b)
    requires b in Found(s) && Found(s)[b] < |s.conns| && s.conns[Found(s)[b]].srtp
    ensures reach(s') && h in s'.threads && s'.threads[h] == Finished(Forwarded)
    ensures Hop(c, cargo, b, Found(s)[b]) in s'.sends
  {
    s' := OpenedForReturn(reach, s, h, c, cargo, b);
    s' := Resolved(reach, s', h);
    s' := Answered(reach, s', h);
  }

  lemma OpenedForReturn(reach: System -> bool, s: System, h: nat, c: Id, cargo: Cargo, b: Addr) returns (s': System)
    requires Closed(reach) && reach(s) && h in s.threads && s.threads[h] == Prepared(c, cargo) && cargo.rtcp
    requires c < |s.world.heap| && s.world.heap[c].receivers == map[] && s.world.heap[c].senderAddr == Some(b)
    ensures reach(s') && h in s'.threads && s'.threads[h] == Returning(c, cargo, b)
    ensures Found(s') == Found(s) && s'.conns == s.conns
  {
    assert Bounded(s);
    s' := Next(s, OpenReceivers(h));
  }

  lemma Resolved(reach: System -> bool, s: System, h: nat) returns (s': System)
    requires Closed(reach) && reach(s) && h in s.threads && s.threads[h].Returning? && s.threads[h].sender in Found(s)
    ensures var t := s.threads[h];
            && reach(s') && h in s'.threads && s'.conns == s.conns
            && s'.threads[h] == Answering(t.c, t.cargo, t.sender, Found(s)[t.sender])
  {
    assert Bounded(s);
    s' := Next(s, Resolve(h));
  }

  lemma Answered(reach: System -> bool, s: System, h: nat) returns (s': System)
    requires Closed(reach) && reach(s) && h in s.threads && s.threads[h].Answering?
    requires s.threads[h].dst < |s.conns| && s.conns[s.threads[h].dst].srtp
    ensures var t := s.threads[h];
            && reach(s') && h in s'.threads && s'.threads[h] == Finished(Forwarded)
            && Hop(t.c, t.cargo, t.sender, t.dst) in s'.sends
  {
    assert Bounded(s);
    s' := Next(s, Answer(h, true));
  }
}
