/** Renumbering under concurrency: any number of threads share a client's runtimes. */
module ConcurrentRenumbering {
  import opened Wire
  import opened Renumbering
  import opened Routing
  import opened Interleaving
  import CodecLookup

  /** The packets of one client, in the order of the runtime lock. */
  function OfClient(log: seq<Entry>, i: Id): seq<Packet> {
    if log == [] then []
    else
      var e := log[|log| - 1];
      OfClient(log[..|log| - 1], i) + (if e.src == i then [e.packet] else [])
  }

  /** One step of the system as the runtime of client `i` and frequency `f` sees it. */
  ghost predicate Seen(rt: Runtime, rt': Runtime, more: seq<Entry>, i: Id, f: u32) {
    && |more| <= 1
    && if |more| == 1 && more[0].src == i && more[0].packet.frequency == f then
         var p := more[0].packet;
         rt.startedTime <= p.now && rt' == Renumber(rt, p.header, p.now)
       else rt' == rt
  }

  ghost predicate StepSeen(s: System, s': System, i: Id, f: u32)
    requires i < |s.world.heap| && f in s.world.heap[i].runtimes
  {
    && |s.log| <= |s'.log| && s'.log[..|s.log|] == s.log
    && i < |s'.world.heap| && f in s'.world.heap[i].runtimes
    && Seen(s.world.heap[i].runtimes[f], s'.world.heap[i].runtimes[f], s'.log[|s.log|..], i, f)
  }

  lemma ActorSeen(s: System, e: Event, spawned: nat, i: Id, f: u32)
    requires Bounded(s) && i < |s.world.heap| && f in s.world.heap[i].runtimes
    ensures StepSeen(s, ActorStep(s, e, spawned), i, f)
  {
    if s.pending == [] {
      CodecLookup.BegunKeepsContent(s.world, e);
    }
  }

  /** The writes of ClientActor, new offers included, leave the runtimes that exist as they are. */
  lemma WorkSeen(s: System, choice: Id, i: Id, f: u32)
    requires Bounded(s) && i < |s.world.heap| && f in s.world.heap[i].runtimes
    ensures StepSeen(s, WorkStep(s, choice), i, f)
  {
    if s.pending != [] {
      assert WriteOk(s.world, s.pending[0]);
      WriteKeepsRuntime(s.world, s.pending[0], choice, i, f);
    }
  }

  lemma WriteKeepsRuntime(w: World, x: Write, choice: Id, i: Id, f: u32)
    requires Inv(w) && WriteOk(w, x) && i < |w.heap| && f in w.heap[i].runtimes
    ensures var w' := Perform(w, x, choice);
            i < |w'.heap| && f in w'.heap[i].runtimes && w'.heap[i].runtimes[f] == w.heap[i].runtimes[f]
  {
  }

  lemma ThreadSeen(s: System, l: Label, i: Id, f: u32)
    requires Bounded(s) && OfThread(l) && i < |s.world.heap| && f in s.world.heap[i].runtimes
    ensures StepSeen(s, ThreadStep(s, l), i, f)
  {
    if l.ReplaceMeta? && l.thread in s.threads && s.threads[l.thread].Decrypted? {
      var t := s.threads[l.thread];
      assert ThreadOk(s.world, t);
      if ClockOk(s.world, t, l.now) {
        MetaSeen(s.world, t, l.now, i, f);
        var more := MetaLog(s.world, t, l.now);
        assert (s.log + more)[|s.log|..] == more;
      }
    } else {
      assert ThreadStep(s, l).world == s.world && ThreadStep(s, l).log == s.log;
    }
  }

  lemma MetaSeen(w: World, t: Thread, now: nat, i: Id, f: u32)
    requires t.Decrypted? && t.c < |w.heap| && i < |w.heap| && f in w.heap[i].runtimes && ClockOk(w, t, now)
    ensures var w' := MetaWorld(w, t, now);
            && |w'.heap| == |w.heap| && f in w'.heap[i].runtimes
            && Seen(w.heap[i].runtimes[f], w'.heap[i].runtimes[f], MetaLog(w, t, now), i, f)
  {
  }

  /** Handshakes and lookups touch neither runtimes nor log. */
  lemma QuietSeen(s: System, l: Label, i: Id, f: u32)
    requires Bounded(s) && (OfTask(l) || l.Look?) && i < |s.world.heap| && f in s.world.heap[i].runtimes
    ensures StepSeen(s, Next(s, l), i, f)
  {
    assert Next(s, l).world == s.world && Next(s, l).log == s.log;
  }

  lemma NextSeen(s: System, s': System, i: Id, f: u32)
    requires Linked(s, s') && i < |s.world.heap| && f in s.world.heap[i].runtimes
    ensures StepSeen(s, s', i, f)
  {
    var l :| Next(s, l) == s';
    if OfThread(l) {
      ThreadSeen(s, l, i, f);
    } else if l.Actor? {
      ActorSeen(s, l.event, l.spawned, i, f);
    } else if l.Work? {
      WorkSeen(s, l.choice, i, f);
    } else {
      QuietSeen(s, l, i, f);
    }
  }

  /** What the packets of a client do to one of its runtimes, one after the other. */
  ghost predicate Replays(rt: Runtime, rt': Runtime, ps: seq<Packet>, f: u32) {
    && rt'.SequenceTrack() == AdvanceAll(rt.SequenceTrack(), Sequences(ps, f), U16)
    && rt'.TimestampTrack() == AdvanceAll(rt.TimestampTrack(), Timestamps(ps, f), U32)
  }

  lemma ReplaysSnoc(rt: Runtime, mid: Runtime, rt': Runtime, ps: seq<Packet>, p: Packet, f: u32)
    requires Replays(rt, mid, ps, f) && (p.frequency == f ==> mid.startedTime <= p.now)
    requires rt' == if p.frequency == f then Renumber(mid, p.header, p.now) else mid
    ensures Replays(rt, rt', ps + [p], f)
  {
    TracksSnoc(rt, mid, ps, p, f);
  }

  /** Renumbering is sequential: in every interleaving of threads, handshakes and messages (new
      offers and deletions included), the runtime of a client and frequency goes through exactly
      the updates of that client's and frequency's packets, in the order of the runtime lock. */
  lemma {:induction false} RenumberingIsSequential(ss: seq<System>, j: nat, k: nat, i: Id, f: u32)
    requires Execution(ss) && j <= k < |ss|
    requires i < |ss[j].world.heap| && f in ss[j].world.heap[i].runtimes
    ensures i < |ss[k].world.heap| && f in ss[k].world.heap[i].runtimes && |ss[j].log| <= |ss[k].log|
    ensures Replays(ss[j].world.heap[i].runtimes[f], ss[k].world.heap[i].runtimes[f],
                    OfClient(ss[k].log[|ss[j].log|..], i), f)
  {
    if j < k {
      RenumberingIsSequential(ss, j, k - 1, i, f);
      assert LinkedAt(ss, k);
      NextSeen(ss[k - 1], ss[k], i, f);
      Extend(ss[j], ss[k - 1], ss[k], i, f);
    } else {
      assert ss[k].log[|ss[j].log|..] == [];
    }
  }

  lemma Extend(s: System, m: System, s': System, i: Id, f: u32)
    requires i < |s.world.heap| && f in s.world.heap[i].runtimes
    requires i < |m.world.heap| && f in m.world.heap[i].runtimes && |s.log| <= |m.log|
    requires Replays(s.world.heap[i].runtimes[f], m.world.heap[i].runtimes[f], OfClient(m.log[|s.log|..], i), f)
    requires StepSeen(m, s', i, f)
    ensures Replays(s.world.heap[i].runtimes[f], s'.world.heap[i].runtimes[f], OfClient(s'.log[|s.log|..], i), f)
  {
    var log, more := m.log[|s.log|..], s'.log[|m.log|..];
    assert s'.log[|s.log|..] == log + more;
    ExtendRuntime(s.world.heap[i].runtimes[f], m.world.heap[i].runtimes[f], s'.world.heap[i].runtimes[f],
                  log, more, i, f);
  }

  lemma ExtendRuntime(
    rt: Runtime, mid: Runtime, rt': Runtime, log: seq<Entry>, more: seq<Entry>, i: Id, f: u32)
    requires Replays(rt, mid, OfClient(log, i), f) && Seen(mid, rt', more, i, f)
    ensures Replays(rt, rt', OfClient(log + more, i), f)
  {
    if |more| == 1 {
      var all, p := log + more, more[0].packet;
      assert all[..|all| - 1] == log && all[|all| - 1] == more[0];
      if more[0].src == i {
        ReplaysSnoc(rt, mid, rt', OfClient(log, i), p, f);
      } else {
        assert OfClient(log, i) + [] == OfClient(log, i);
      }
    } else {
      assert log + more == log;
    }
  }

  /** Both numbers of `now` are the last packet's plus the offset of the first. */
  ghost predicate Offset(first: Runtime, now: Runtime, xs: seq<nat>, ts: seq<nat>)
    requires xs != [] && ts != []
  {
    && now.serverSequence == (xs[|xs| - 1] + (first.serverSequence - xs[0])) % U16
    && now.serverTs == (ts[|ts| - 1] + (first.serverTs - ts[0])) % U32
  }

  lemma ReplayTranslates(first: Runtime, now: Runtime, ps: seq<Packet>, f: u32)
    requires Replays(first, now, ps, f) && first.Fresh() && Sequences(ps, f) != [] && Timestamps(ps, f) != []
    requires Straight(Sequences(ps, f)) && Straight(Timestamps(ps, f))
    ensures Offset(first, now, Sequences(ps, f), Timestamps(ps, f))
  {
    var xs, ts := Sequences(ps, f), Timestamps(ps, f);
    StraightWrites(first.serverSequence, xs, |xs| - 1, U16);
    StraightWrites(first.serverTs, ts, |ts| - 1, U32);
    assert xs[..|xs|] == xs && ts[..|ts|] == ts;
  }

  /** So translation survives concurrency: while the client's numbers are straight in lock order,
      the numbers just written are the client's plus the offset of the first packet. */
  lemma InterleavedTranslation(ss: seq<System>, j: nat, k: nat, i: Id, f: u32)
    requires Execution(ss) && j <= k < |ss|
    requires i < |ss[j].world.heap| && f in ss[j].world.heap[i].runtimes && ss[j].world.heap[i].runtimes[f].Fresh()
    requires |ss[j].log| <= |ss[k].log|
    requires var ps := OfClient(ss[k].log[|ss[j].log|..], i);
             && Sequences(ps, f) != [] && Timestamps(ps, f) != []
             && Straight(Sequences(ps, f)) && Straight(Timestamps(ps, f))
    ensures i < |ss[k].world.heap| && f in ss[k].world.heap[i].runtimes
    ensures var ps := OfClient(ss[k].log[|ss[j].log|..], i);
            Offset(ss[j].world.heap[i].runtimes[f], ss[k].world.heap[i].runtimes[f],
                   Sequences(ps, f), Timestamps(ps, f))
  {
    RenumberingIsSequential(ss, j, k, i, f);
    ReplayTranslates(ss[j].world.heap[i].runtimes[f], ss[k].world.heap[i].runtimes[f],
                     OfClient(ss[k].log[|ss[j].log|..], i), f);
  }
}
