/** From the client's packets to the bytes sent to receivers, under concurrency. */
module EndToEnd {
  import opened Wire
  import opened RtpCore
  import opened Renumbering
  import opened Routing
  import opened Interleaving
  import opened ConcurrentRenumbering
  import Picks
  import Turns

  // ---------------------------------------------------------------------
  // What is in the log
  // ---------------------------------------------------------------------

  /** Entry e was given the numbers that runtime `rt` shows just after it. */
  ghost predicate Numbered(e: Entry, rt: Runtime) {
    |e.packet.plain| >= 8 && e.message == Rewritten(e.packet.plain, rt.serverSequence, rt.serverTs)
  }

  /** The numbers of an entry, replayed from `first` over the packets of its client up to it. */
  ghost predicate ReplayedInto(first: Runtime, ps: seq<Packet>, f: u32, e: Entry) {
    exists rt :: Replays(first, rt, ps, f) && Numbered(e, rt)
  }

  /** A step that adds to the log shows the numbers it wrote. */
  lemma LogShows(s: System, s': System)
    requires Linked(s, s')
    ensures |s.log| <= |s'.log| <= |s.log| + 1 && s'.log[..|s.log|] == s.log
    ensures |s'.log| > |s.log| ==>
              var e := s'.log[|s.log|];
              && e.src < |s.world.heap| == |s'.world.heap| && e.packet.frequency in s.world.heap[e.src].runtimes
              && e.packet.frequency in s'.world.heap[e.src].runtimes
              && Numbered(e, s'.world.heap[e.src].runtimes[e.packet.frequency])
  {
    var l :| Next(s, l) == s';
    if OfThread(l) {
      ThreadShows(s, l);
    } else {
      assert s'.log == s.log;
    }
  }

  lemma ThreadShows(s: System, l: Label)
    requires Bounded(s) && OfThread(l)
    ensures var s' := ThreadStep(s, l);
            && |s.log| <= |s'.log| <= |s.log| + 1 && s'.log[..|s.log|] == s.log
            && (|s'.log| > |s.log| ==>
                  var e := s'.log[|s.log|];
                  && e.src < |s.world.heap| == |s'.world.heap| && e.packet.frequency in s.world.heap[e.src].runtimes
                  && e.packet.frequency in s'.world.heap[e.src].runtimes
                  && Numbered(e, s'.world.heap[e.src].runtimes[e.packet.frequency]))
  {
    if l.ReplaceMeta? && l.thread in s.threads && s.threads[l.thread].Decrypted? {
      assert ThreadOk(s.world, s.threads[l.thread]);
    } else {
      assert ThreadStep(s, l).log == s.log;
    }
  }

  /** Every packet logged after state j carries the numbers that the packets of its client and
      frequency, replayed in the order of the log from the runtime of state j, lead up to. */
  lemma {:induction false} LogIsReplayed(ss: seq<System>, j: nat, k: nat, n: nat)
    requires Execution(ss) && j <= k < |ss| && |ss[j].log| <= n < |ss[k].log|
    requires var e := ss[k].log[n];
             e.src < |ss[j].world.heap| && e.packet.frequency in ss[j].world.heap[e.src].runtimes
    ensures var e := ss[k].log[n];
            ReplayedInto(ss[j].world.heap[e.src].runtimes[e.packet.frequency],
                         OfClient(ss[k].log[|ss[j].log|..n + 1], e.src), e.packet.frequency, e)
    decreases k
  {
    if j < k {
      LogAt(ss, k);
      if n < |ss[k - 1].log| {
        SamePart(ss[k - 1].log, ss[k].log, |ss[j].log|, n);
        LogIsReplayed(ss, j, k - 1, n);
      } else {
        LastIsReplayed(ss, j, k);
        assert ss[k].log[|ss[j].log|..] == ss[k].log[|ss[j].log|..n + 1];
      }
    }
  }

  lemma SamePart(front: seq<Entry>, log: seq<Entry>, from: nat, n: nat)
    requires |front| <= |log| && log[..|front|] == front && from <= n < |front|
    ensures log[n] == front[n] && log[from..n + 1] == front[from..n + 1]
  {
    assert front[n] == log[..|front|][n];
    assert log[..|front|][from..n + 1] == log[from..n + 1];
  }

  /** The entry that was just added. */
  lemma LastIsReplayed(ss: seq<System>, j: nat, k: nat)
    requires Execution(ss) && j < k < |ss| && |ss[j].log| <= |ss[k - 1].log| < |ss[k].log|
    requires var e := ss[k].log[|ss[k].log| - 1];
             e.src < |ss[j].world.heap| && e.packet.frequency in ss[j].world.heap[e.src].runtimes
    ensures var e := ss[k].log[|ss[k].log| - 1];
            ReplayedInto(ss[j].world.heap[e.src].runtimes[e.packet.frequency],
                         OfClient(ss[k].log[|ss[j].log|..], e.src), e.packet.frequency, e)
  {
    LogAt(ss, k);
    var e := ss[k].log[|ss[k].log| - 1];
    RenumberingIsSequential(ss, j, k, e.src, e.packet.frequency);
  }

  lemma LogAt(ss: seq<System>, k: nat)
    requires Execution(ss) && 0 < k < |ss|
    ensures var s, s' := ss[k - 1], ss[k];
            && |s.log| <= |s'.log| <= |s.log| + 1 && s'.log[..|s.log|] == s.log
            && (|s'.log| > |s.log| ==>
                  var e := s'.log[|s.log|];
                  && e.src < |s'.world.heap| && e.packet.frequency in s'.world.heap[e.src].runtimes
                  && Numbered(e, s'.world.heap[e.src].runtimes[e.packet.frequency]))
  {
    assert LinkedAt(ss, k);
    LogShows(ss[k - 1], ss[k]);
  }

  // ---------------------------------------------------------------------
  // What is sent
  // ---------------------------------------------------------------------

  /** Every RTP packet ever sent was renumbered in its turn, and what is sent is what was logged. */
  lemma SentWasRenumbered(ss: seq<System>, k: nat, x: Hop) returns (n: nat)
    requires Execution(ss) && k < |ss| && x in ss[k].sends && !x.cargo.rtcp
    ensures n < |ss[k].log|
    ensures var e := ss[k].log[n]; e.turn == x.cargo.turn && e.src == x.src && e.message == x.cargo.message
  {
    Turns.ExecutionTurns(ss, k);
    Picks.SendsWerePicked(ss, k);
    assert Turns.Renumbered(ss[k].log, x.src, x.cargo);
    var e :| e in ss[k].log && e.turn == x.cargo.turn && e.src == x.src && e.message == x.cargo.message;
    n :| 0 <= n < |ss[k].log| && ss[k].log[n] == e;
  }

  /** The original numbers plus one offset, and every other byte as it was. */
  ghost predicate Shifted(e: Entry, message: Bytes, first: Runtime, firstSeq: nat, firstTs: nat) {
    var p := e.packet;
    && |message| == |p.plain| >= 8
    && ReadU16(message, 2) == (p.header.sequence + (first.serverSequence - firstSeq)) % U16
    && ReadU32(message, 4) == (p.header.timestamp + (first.serverTs - firstTs)) % U32
    && message[..2] == p.plain[..2] && message[8..] == p.plain[8..]
  }

  /** End to end: while a client's numbers of one frequency are straight in the order of the runtime
      lock, every RTP packet sent to any receiver by any thread reads back as the client's numbers
      plus the offset of the first packet, with every other byte as decrypted. */
  lemma SentIsTranslated(ss: seq<System>, j: nat, k: nat, x: Hop, n: nat)
    requires Execution(ss) && j <= k < |ss| && x in ss[k].sends && !x.cargo.rtcp
    requires |ss[j].log| <= n < |ss[k].log| && ss[k].log[n].turn == x.cargo.turn
    requires x.src < |ss[j].world.heap| && ss[k].log[n].packet.frequency in ss[j].world.heap[x.src].runtimes
    requires var f := ss[k].log[n].packet.frequency;
             var ps := OfClient(ss[k].log[|ss[j].log|..n + 1], x.src);
             && ss[j].world.heap[x.src].runtimes[f].Fresh()
             && Straight(Sequences(ps, f)) && Straight(Timestamps(ps, f))
    ensures var e := ss[k].log[n];
            var ps := OfClient(ss[k].log[|ss[j].log|..n + 1], x.src);
            var xs, ts := Sequences(ps, e.packet.frequency), Timestamps(ps, e.packet.frequency);
            && xs != [] && ts != [] && e.src == x.src
            && Shifted(e, x.cargo.message, ss[j].world.heap[x.src].runtimes[e.packet.frequency], xs[0], ts[0])
  {
    var e := ss[k].log[n];
    EntryOfTurn(ss, k, x, n);
    EntryIsShifted(ss, j, k, n);
  }

  /** The same, of what was logged. */
  lemma EntryIsShifted(ss: seq<System>, j: nat, k: nat, n: nat)
    requires Execution(ss) && j <= k < |ss| && |ss[j].log| <= n < |ss[k].log|
    requires var e := ss[k].log[n];
             && e.src < |ss[j].world.heap| && e.packet.frequency in ss[j].world.heap[e.src].runtimes
             && ss[j].world.heap[e.src].runtimes[e.packet.frequency].Fresh()
    requires var e := ss[k].log[n];
             var ps := OfClient(ss[k].log[|ss[j].log|..n + 1], e.src);
             Straight(Sequences(ps, e.packet.frequency)) && Straight(Timestamps(ps, e.packet.frequency))
    ensures var e := ss[k].log[n];
            var ps := OfClient(ss[k].log[|ss[j].log|..n + 1], e.src);
            var xs, ts := Sequences(ps, e.packet.frequency), Timestamps(ps, e.packet.frequency);
            && xs != [] && ts != []
            && Shifted(e, e.message, ss[j].world.heap[e.src].runtimes[e.packet.frequency], xs[0], ts[0])
  {
    var e, log := ss[k].log[n], ss[k].log[|ss[j].log|..n + 1];
    LogIsReplayed(ss, j, k, n);
    assert log[|log| - 1] == e;
    EntryTranslates(ss[j].world.heap[e.src].runtimes[e.packet.frequency], log, e.src, e);
  }

  /** There is only one entry of a turn, so this is the one that was sent. */
  lemma EntryOfTurn(ss: seq<System>, k: nat, x: Hop, n: nat)
    requires Execution(ss) && k < |ss| && x in ss[k].sends && !x.cargo.rtcp
    requires n < |ss[k].log| && ss[k].log[n].turn == x.cargo.turn
    ensures ss[k].log[n].src == x.src && ss[k].log[n].message == x.cargo.message
  {
    var m := SentWasRenumbered(ss, k, x);
    Turns.ExecutionTurns(ss, k);
    assert m == n;
  }

  /** The last of the entries in a stretch of log. */
  lemma EntryTranslates(first: Runtime, log: seq<Entry>, i: Id, e: Entry)
    requires log != [] && log[|log| - 1] == e && e.src == i && first.Fresh()
    requires ReplayedInto(first, OfClient(log, i), e.packet.frequency, e)
    requires Straight(Sequences(OfClient(log, i), e.packet.frequency))
    requires Straight(Timestamps(OfClient(log, i), e.packet.frequency))
    ensures var f, ps := e.packet.frequency, OfClient(log, i);
            && Sequences(ps, f) != [] && Timestamps(ps, f) != []
            && Shifted(e, e.message, first, Sequences(ps, f)[0], Timestamps(ps, f)[0])
  {
    var f, ps, front := e.packet.frequency, OfClient(log, i), OfClient(log[..|log| - 1], i);
    var rt :| Replays(first, rt, ps, f) && Numbered(e, rt);
    assert ps == front + [e.packet];
    NumbersSnoc(front, e.packet, f);
    ReplayTranslates(first, rt, ps, f);
    RewrittenReadsBack(e.packet.plain, rt.serverSequence, rt.serverTs);
  }
}
