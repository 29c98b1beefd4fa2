/** Whom the fan-out filter and the return path choose, and who is sent to. */
module Picks {
  import opened Base
  import opened Routing
  import opened FanOutSpec
  import opened Isolation
  import opened Interleaving

  /** Everything chosen between two states is, at that moment, an undeleted incarnation of the
      address it is sent to. It is the one the table holds, unless ClientActor has just taken it out
      and is about to flag it. */
  ghost predicate LivePicks(s: System, s': System) {
    && |s.picks| <= |s'.picks| && s'.picks[..|s.picks|] == s.picks
    && forall n | |s.picks| <= n < |s'.picks| :: Live(s, s'.picks[n])
  }

  ghost predicate Live(s: System, p: Hop) {
    && p.dstId < |s.world.heap| && !s.world.heap[p.dstId].deleted && s.world.heap[p.dstId].home == p.dst
    && if s.pending != [] && s.pending[0] == Flag(p.dst) then p.dst !in Found(s)
       else p.dst in Found(s) && Found(s)[p.dst] == p.dstId
  }

  lemma NextPicksLive(s: System, l: Label)
    requires Bounded(s)
    ensures LivePicks(s, Next(s, l))
  {
    if l.Filter? && l.thread in s.threads && s.threads[l.thread].Fanning? {
      FilterPicksLive(s, s.threads[l.thread], l.dst);
    } else if l.Resolve? && l.thread in s.threads && s.threads[l.thread].Returning? {
      ResolvePicksLive(s, s.threads[l.thread]);
    } else {
      assert Next(s, l).picks == s.picks;
    }
  }

  lemma FilterPicksLive(s: System, t: Thread, b: Addr)
    requires Bounded(s) && t.Fanning? && ThreadOk(s.world, t)
    ensures forall p <- FilterPicks(s.world, t, b) :: Live(s, p)
  {
  }

  lemma ResolvePicksLive(s: System, t: Thread)
    requires Bounded(s) && t.Returning?
    ensures forall p <- ResolvePicks(Found(s), t) :: Live(s, p)
  {
  }

  lemma LinkedPicksLive(s: System, s': System)
    requires Linked(s, s')
    ensures LivePicks(s, s')
  {
    var l :| Next(s, l) == s';
    NextPicksLive(s, l);
  }

  /** Stale edges never revive, with every interleaving of deletions, re-creations and fan-outs in
      progress: after an incarnation is deleted nothing picks it again. */
  lemma {:induction false} NoStalePick(ss: seq<System>, j: nat, k: nat, stale: Id, n: nat)
    requires Execution(ss) && j <= k < |ss|
    requires stale < |ss[j].world.heap| && ss[j].world.heap[stale].deleted
    requires |ss[j].picks| <= n < |ss[k].picks|
    ensures ss[k].picks[n].dstId != stale
  {
    if j < k {
      StaleStays(ss, j, k - 1, stale);
      PickAt(ss, k, stale, n);
      if n < |ss[k - 1].picks| {
        NoStalePick(ss, j, k - 1, stale, n);
      }
    }
  }

  lemma PickAt(ss: seq<System>, k: nat, stale: Id, n: nat)
    requires Execution(ss) && 0 < k < |ss| && n < |ss[k].picks|
    requires stale < |ss[k - 1].world.heap| && ss[k - 1].world.heap[stale].deleted
    ensures if n < |ss[k - 1].picks| then ss[k].picks[n] == ss[k - 1].picks[n] else ss[k].picks[n].dstId != stale
  {
    assert LinkedAt(ss, k);
    LinkedPick(ss[k - 1], ss[k], stale, n);
  }

  lemma StaleStays(ss: seq<System>, j: nat, k: nat, stale: Id)
    requires Execution(ss) && j <= k < |ss|
    requires stale < |ss[j].world.heap| && ss[j].world.heap[stale].deleted
    ensures stale < |ss[k].world.heap| && ss[k].world.heap[stale].deleted
  {
    ExecutionGrows(ss, j, k);
  }

  lemma LinkedPick(s: System, s': System, stale: Id, n: nat)
    requires Linked(s, s') && stale < |s.world.heap| && s.world.heap[stale].deleted && n < |s'.picks|
    ensures if n < |s.picks| then s'.picks[n] == s.picks[n] else s'.picks[n].dstId != stale
  {
    LinkedPicksLive(s, s');
    if n < |s.picks| {
      assert s'.picks[n] == s'.picks[..|s.picks|][n];
    }
  }

  // ---------------------------------------------------------------------
  // Sent to means picked before
  // ---------------------------------------------------------------------

  /** What a thread has let through the filter or looked up is among the picks. */
  ghost predicate Picked(picks: seq<Hop>, t: Thread) {
    && (t.Fanning? ==> forall b <- t.chosen :: Hop(t.c, t.cargo, b, t.chosen[b]) in picks)
    && (t.Answering? ==> Hop(t.c, t.cargo, t.sender, t.dst) in picks)
  }

  ghost predicate SendsOk(s: System) {
    && (forall h <- s.threads :: Picked(s.picks, s.threads[h]))
    && (forall p <- s.sends :: p in s.picks)
  }

  lemma ThreadKeepsSends(s: System, l: Label)
    requires Bounded(s) && SendsOk(s) && OfThread(l)
    ensures SendsOk(ThreadStep(s, l))
  {
    if l.thread in s.threads && !s.threads[l.thread].Finished? {
      ThreadPicked(s, l);
      var s' := ThreadStep(s, l);
      forall h | h in s'.threads
        ensures Picked(s'.picks, s'.threads[h])
      {
        if h != l.thread {
          assert Picked(s.picks, s.threads[h]) && s'.threads[h] == s.threads[h];
        }
      }
    }
  }

  lemma ThreadPicked(s: System, l: Label)
    requires Bounded(s) && SendsOk(s) && OfThread(l) && l.thread in s.threads && !s.threads[l.thread].Finished?
    ensures var s' := ThreadStep(s, l);
            && l.thread in s'.threads && Picked(s'.picks, s'.threads[l.thread])
            && (forall p <- s.picks :: p in s'.picks) && (forall p <- s'.sends :: p in s'.picks)
  {
    var t := s.threads[l.thread];
    assert ThreadOk(s.world, t) && Picked(s.picks, t);
  }

  lemma LinkedKeepsSends(s: System, s': System)
    requires Linked(s, s') && SendsOk(s)
    ensures SendsOk(s')
  {
    var l :| Next(s, l) == s';
    if OfThread(l) {
      ThreadKeepsSends(s, l);
    } else {
      OthersKeepSends(s, l);
    }
  }

  lemma OthersKeepSends(s: System, l: Label)
    requires Bounded(s) && SendsOk(s) && !OfThread(l)
    ensures SendsOk(Next(s, l))
  {
    var s' := Next(s, l);
    assert s'.picks == s.picks && s'.sends == s.sends;
    assert forall h | h in s'.threads && (s'.threads[h].Fanning? || s'.threads[h].Answering?) ::
        h in s.threads && s'.threads[h] == s.threads[h];
  }

  /** In every interleaving, a packet is only ever sent to a target that was picked before, for this
      same packet and in this same turn. */
  lemma {:induction false} SendsWerePicked(ss: seq<System>, k: nat)
    requires Execution(ss) && k < |ss|
    ensures SendsOk(ss[k])
  {
    if k > 0 {
      SendsWerePicked(ss, k - 1);
      assert LinkedAt(ss, k);
      LinkedKeepsSends(ss[k - 1], ss[k]);
    }
  }

  // ---------------------------------------------------------------------
  // Nobody is left out
  // ---------------------------------------------------------------------

  /** Receiver `dst`, filed under `b`, of a fan-out is still to be dealt with, has been sent this
      packet in this turn, is deleted, or an error will be reported. */
  ghost predicate Accounted(s: System, t: Thread, b: Addr, dst: Id)
    requires t.Fanning?
  {
    || (b in t.edges && t.edges[b] == dst)
    || (b in t.chosen && t.chosen[b] == dst)
    || t.failed.Some?
    || Served(s, Hop(t.c, t.cargo, b, dst))
  }

  ghost predicate Served(s: System, x: Hop) {
    x in s.sends || (x.dstId < |s.world.heap| && s.world.heap[x.dstId].deleted)
  }

  /** What a step does to a fan-out in progress. */
  lemma FanOutMoves(s: System, l: Label, h: nat, b: Addr, dst: Id)
    requires Bounded(s) && h in s.threads && s.threads[h].Fanning? && Accounted(s, s.threads[h], b, dst)
    ensures var s', t := Next(s, l), s.threads[h];
            && h in s'.threads
            && (s'.threads[h].Fanning? ==>
                  s'.threads[h].c == t.c && s'.threads[h].cargo == t.cargo && Accounted(s', s'.threads[h], b, dst))
            && (s'.threads[h] == Finished(Forwarded) ==> Served(s', Hop(t.c, t.cargo, b, dst)))
  {
    NextKeepsBounds(s, l);
    SendsGrow(s, l);
    if OfThread(l) && l.thread == h {
      OwnMove(s, l, b, dst);
    } else {
      OtherMove(s, l, h);
    }
  }

  lemma SendsGrow(s: System, l: Label)
    requires Bounded(s)
    ensures forall x <- s.sends :: x in Next(s, l).sends
  {
  }

  lemma OtherMove(s: System, l: Label, h: nat)
    requires Bounded(s) && h in s.threads && s.threads[h].Fanning? && !(OfThread(l) && l.thread == h)
    ensures h in Next(s, l).threads && Next(s, l).threads[h] == s.threads[h]
  {
  }

  lemma OwnMove(s: System, l: Label, b: Addr, dst: Id)
    requires Bounded(s) && OfThread(l) && l.thread in s.threads && s.threads[l.thread].Fanning?
    requires Accounted(s, s.threads[l.thread], b, dst)
    ensures var s', t := ThreadStep(s, l), s.threads[l.thread];
            && l.thread in s'.threads
            && (s'.threads[l.thread].Fanning? ==>
                  && s'.threads[l.thread].c == t.c && s'.threads[l.thread].cargo == t.cargo
                  && (Accounted(s', s'.threads[l.thread], b, dst) || Served(s, Hop(t.c, t.cargo, b, dst))))
            && (s'.threads[l.thread] == Finished(Forwarded) ==> Served(s, Hop(t.c, t.cargo, b, dst)))
  {
    var t := s.threads[l.thread];
    assert ThreadOk(s.world, t);
    if l.Protect? {
      ProtectMove(s, l.thread, l.dst, l.srtpOk, b, dst);
    } else if l.Filter? {
      FilterMove(s, l.thread, l.dst, b, dst);
    } else if l.Conclude? {
      assert ThreadStep(s, l).threads[l.thread] == AfterConclude(t);
    } else {
      assert ThreadStep(s, l) == s;
    }
  }

  lemma ProtectMove(s: System, h: nat, to: Addr, ok: bool, b: Addr, dst: Id)
    requires Bounded(s) && h in s.threads && s.threads[h].Fanning? && ThreadOk(s.world, s.threads[h])
    requires Accounted(s, s.threads[h], b, dst)
    ensures var s', t := ThreadStep(s, Protect(h, to, ok)), s.threads[h];
            && s'.threads == s.threads[h := AfterProtect(s.conns, t, to, ok)]
            && (Accounted(s', s'.threads[h], b, dst) || Served(s, Hop(t.c, t.cargo, b, dst)))
  {
  }

  lemma FilterMove(s: System, h: nat, to: Addr, b: Addr, dst: Id)
    requires Bounded(s) && h in s.threads && s.threads[h].Fanning? && ThreadOk(s.world, s.threads[h])
    requires Accounted(s, s.threads[h], b, dst)
    ensures var s', t := ThreadStep(s, Filter(h, to)), s.threads[h];
            && s'.threads == s.threads[h := AfterFilter(s.world, t, to)]
            && (Accounted(s', s'.threads[h], b, dst) || Served(s, Hop(t.c, t.cargo, b, dst)))
  {
  }

  /** Completeness of the fan-out: from the moment a thread has opened its receivers until it
      reports success, this packet was sent, in this turn, to every receiver in the map, unless it
      has been deleted. */
  lemma {:induction false} FanOutIsComplete(ss: seq<System>, j: nat, k: nat, h: nat, b: Addr)
    requires Execution(ss) && j < k < |ss|
    requires forall m | j <= m < k :: h in ss[m].threads && ss[m].threads[h].Fanning?
    requires b in ss[j].threads[h].edges
    ensures h in ss[k].threads
    ensures var t := ss[j].threads[h];
            && (ss[k].threads[h].Fanning? ==>
                  && ss[k].threads[h].c == t.c && ss[k].threads[h].cargo == t.cargo
                  && Accounted(ss[k], ss[k].threads[h], b, t.edges[b]))
            && (ss[k].threads[h] == Finished(Forwarded) ==> Served(ss[k], Hop(t.c, t.cargo, b, t.edges[b])))
    decreases k
  {
    var t := ss[j].threads[h];
    if k - 1 > j {
      FanOutIsComplete(ss, j, k - 1, h, b);
    }
    assert LinkedAt(ss, k);
    LinkedMoves(ss[k - 1], ss[k], h, b, t.edges[b]);
  }

  lemma LinkedMoves(s: System, s': System, h: nat, b: Addr, dst: Id)
    requires Linked(s, s') && h in s.threads && s.threads[h].Fanning? && Accounted(s, s.threads[h], b, dst)
    ensures h in s'.threads
    ensures s'.threads[h].Fanning? ==>
              && s'.threads[h].c == s.threads[h].c && s'.threads[h].cargo == s.threads[h].cargo
              && Accounted(s', s'.threads[h], b, dst)
    ensures s'.threads[h] == Finished(Forwarded) ==>
              Served(s', Hop(s.threads[h].c, s.threads[h].cargo, b, dst))
  {
    var l :| Next(s, l) == s';
    FanOutMoves(s, l, h, b, dst);
  }

  // ---------------------------------------------------------------------
  // Group isolation of everything that is sent
  // ---------------------------------------------------------------------

  ghost predicate HopIsolated(p: Policy, w: World, x: Hop) {
    x.src < |w.heap| && Share(p, w.heap[x.src].home, x.dst)
  }

  ghost predicate SharedEdges(p: Policy, home: Addr, edges: map<Addr, Id>) {
    forall b <- edges :: Share(p, home, b)
  }

  ghost predicate ThreadIsolated(p: Policy, w: World, t: Thread) {
    && (t.Fanning? ==> t.c < |w.heap| && SharedEdges(p, w.heap[t.c].home, t.edges)
                       && SharedEdges(p, w.heap[t.c].home, t.chosen))
    && (t.Returning? || t.Answering? ==> t.c < |w.heap| && Share(p, w.heap[t.c].home, t.sender))
  }

  ghost predicate WriteIsolated(p: Policy, w: World, x: Write) {
    && (x.Learn? ==> x.c < |w.heap| && Share(p, w.heap[x.c].home, x.sender))
    && (x.Add? ==> x.s < |w.heap| && Share(p, w.heap[x.s].home, x.addr))
    && (x.Tell? ==> forall i <- x.ids :: i < |w.heap| && Share(p, w.heap[i].home, x.sender))
    && (x.Keep? ==> x.s < |w.heap| && SharedEdges(p, w.heap[x.s].home, x.edges))
  }

  ghost predicate AllIsolated(p: Policy, s: System) {
    && Bounded(s) && Isolated(p, s.world)
    && (forall n | 0 <= n < |s.pending| :: WriteIsolated(p, s.world, s.pending[n]))
    && (forall h <- s.threads :: ThreadIsolated(p, s.world, s.threads[h]))
    && (forall n | 0 <= n < |s.picks| :: HopIsolated(p, s.world, s.picks[n]))
    && (forall n | 0 <= n < |s.sends| :: HopIsolated(p, s.world, s.sends[n]))
  }

  /** Growing worlds keep what threads, writes and history rely on. */
  lemma GrowthKeepsIsolation(p: Policy, s: System, w: World)
    requires AllIsolated(p, s) && Grows(s.world, w)
    ensures forall n | 0 <= n < |s.pending| :: WriteIsolated(p, w, s.pending[n])
    ensures forall h <- s.threads :: ThreadIsolated(p, w, s.threads[h])
    ensures forall n | 0 <= n < |s.picks| :: HopIsolated(p, w, s.picks[n])
    ensures forall n | 0 <= n < |s.sends| :: HopIsolated(p, w, s.sends[n])
  {
    forall h | h in s.threads
      ensures ThreadIsolated(p, w, s.threads[h])
    {
      assert ThreadIsolated(p, s.world, s.threads[h]);
    }
    forall n | 0 <= n < |s.pending|
      ensures WriteIsolated(p, w, s.pending[n])
    {
      assert WriteIsolated(p, s.world, s.pending[n]);
    }
  }

  /** ClientActor is not in the takeover branch. */
  ghost predicate NoTakeover(s: System) {
    forall n | 0 <= n < |s.pending| :: !s.pending[n].Tell?
  }

  lemma ActorKeepsIsolated(p: Policy, s: System, e: Event, spawned: nat)
    requires AllIsolated(p, s) && Permits(p, e) && (Transitive(p) || NoTakeover(ActorStep(s, e, spawned)))
    ensures AllIsolated(p, ActorStep(s, e, spawned))
  {
    ActorKeepsBounds(s, e, spawned);
    if s.pending == [] && ActorStep(s, e, spawned) != s {
      GrowthKeepsIsolation(p, s, Begun(s.world, e));
      BegunKeepsIsolated(p, s.world, e);
      assert TakesOver(s.world, e) ==> ActorStep(s, e, spawned).pending[0].Tell?;
      ProgramIsIsolated(p, s.world, e);
    }
  }

  lemma BegunKeepsIsolated(p: Policy, w: World, e: Event)
    requires Inv(w) && Isolated(p, w) && Permits(p, e)
    ensures Isolated(p, Begun(w, e))
  {
  }

  lemma ProgramIsIsolated(p: Policy, w: World, e: Event)
    requires Inv(w) && Isolated(p, w) && Permits(p, e) && (Transitive(p) || !TakesOver(w, e))
    requires Inv(Begun(w, e)) && Grows(w, Begun(w, e))
    ensures forall n | 0 <= n < |Program(w, e)| :: WriteIsolated(p, Begun(w, e), Program(w, e)[n])
  {
    if Routed(w, e) {
      var last, a := LastSender(w.groups, e.group, e.addr), e.addr;
      assert p(e.group, last) && p(e.group, a);
      assert Share(p, last, a) && Share(p, a, last);
      if TakesOver(w, e) {
        KeptIsIsolated(p, w, Target(w, e), last, a);
      }
    }
  }

  lemma KeptIsIsolated(p: Policy, w: World, s: Id, last: Addr, a: Addr)
    requires Inv(w) && Isolated(p, w) && Transitive(p) && s < |w.heap| && w.heap[s].home == last && Share(p, last, a)
    ensures SharedEdges(p, last, Kept(w, s, a))
    ensures forall i <- Kept(w, s, a).Values :: i < |w.heap| && Share(p, w.heap[i].home, a)
  {
    forall i | i in Kept(w, s, a).Values
      ensures i < |w.heap| && Share(p, w.heap[i].home, a)
    {
      var b :| b in Kept(w, s, a) && Kept(w, s, a)[b] == i;
      assert w.heap[i].home == b && Share(p, last, b);
      ShareSymmetric(p, last, b);
    }
  }

  lemma WorkKeepsIsolated(p: Policy, s: System, choice: Id)
    requires AllIsolated(p, s)
    ensures AllIsolated(p, WorkStep(s, choice))
  {
    WorkKeepsBounds(s, choice);
    if s.pending != [] {
      var x := s.pending[0];
      GrowthKeepsIsolation(p, s, Perform(s.world, x, choice));
      WriteKeepsIsolated(p, s.world, x, choice);
    }
  }

  lemma WriteKeepsIsolated(p: Policy, w: World, x: Write, choice: Id)
    requires Inv(w) && WriteOk(w, x) && Isolated(p, w) && WriteIsolated(p, w, x)
    ensures Isolated(p, Perform(w, x, choice))
  {
    var w' := Perform(w, x, choice);
    if x.Flag? {
      UnlinkKeepsIsolated(p, w, x.addr);
    } else if w' != w {
      var i := WriteEffect(w, x, choice);
      var c, c' := w.heap[i], w'.heap[i];
      assert SharedEdges(p, c.home, c.receivers);
      assert SharedEdges(p, c.home, c'.receivers);
      assert c'.senderAddr.Some? ==> Share(p, c.home, c'.senderAddr.value);
    }
  }

  lemma UnlinkKeepsIsolated(p: Policy, w: World, a: Addr)
    requires InBounds(w) && a in w.table && Isolated(p, w)
    ensures Isolated(p, Unlink(w, a))
  {
  }

  lemma ThreadKeepsIsolated(p: Policy, s: System, l: Label)
    requires AllIsolated(p, s) && OfThread(l)
    ensures AllIsolated(p, ThreadStep(s, l))
  {
    ThreadKeepsBounds(s, l);
    if l.thread in s.threads && !s.threads[l.thread].Finished? {
      var t := s.threads[l.thread];
      assert ThreadOk(s.world, t) && ThreadIsolated(p, s.world, t);
      if l.ReplaceMeta? {
        if t.Decrypted? && ClockOk(s.world, t, l.now) {
          MetaKeepsIsolated(p, s, l.thread, l.now);
        }
      } else {
        ChangeKeepsIsolated(p, s, l);
      }
    }
  }

  lemma MetaKeepsIsolated(p: Policy, s: System, h: nat, now: nat)
    requires AllIsolated(p, s) && h in s.threads && s.threads[h].Decrypted? && s.threads[h].c < |s.world.heap|
    requires ClockOk(s.world, s.threads[h], now)
    ensures AllIsolated(p, ThreadStep(s, ReplaceMeta(h, now)))
  {
    var t := s.threads[h];
    var w := MetaWorld(s.world, t, now);
    MetaKeepsBounds(s, h, now);
    MetaKeepsInv(s.world, t, now);
    ContentKeepsIsolation(p, s.world, w);
    GrowthKeepsIsolation(p, s, w);
  }

  /** Changes that leave groups, edges and sender addresses alone. */
  lemma ContentKeepsIsolation(p: Policy, w: World, w': World)
    requires Isolated(p, w) && w'.groups == w.groups && |w'.heap| == |w.heap|
    requires forall i | 0 <= i < |w.heap| :: w'.heap[i] == w.heap[i].(runtimes := w'.heap[i].runtimes)
    ensures Isolated(p, w')
  {
  }

  /** Replacing one thread and adding to the history, all within the group. */
  lemma UpdateKeepsIsolated(p: Policy, s: System, h: nat, t: Thread, picks: seq<Hop>, sends: seq<Hop>)
    requires AllIsolated(p, s) && ThreadIsolated(p, s.world, t)
    requires forall x <- picks + sends :: HopIsolated(p, s.world, x)
    requires Bounded(s.(threads := s.threads[h := t], picks := s.picks + picks, sends := s.sends + sends))
    ensures AllIsolated(p, s.(threads := s.threads[h := t], picks := s.picks + picks, sends := s.sends + sends))
  {
    HopsIsolated(p, s.world, s.picks, picks);
    HopsIsolated(p, s.world, s.sends, sends);
  }

  lemma HopsIsolated(p: Policy, w: World, xs: seq<Hop>, more: seq<Hop>)
    requires forall n | 0 <= n < |xs| :: HopIsolated(p, w, xs[n])
    requires forall x <- more :: HopIsolated(p, w, x)
    ensures forall n | 0 <= n < |xs + more| :: HopIsolated(p, w, (xs + more)[n])
  {
    forall n | 0 <= n < |xs + more|
      ensures HopIsolated(p, w, (xs + more)[n])
    {
      if n >= |xs| {
        assert (xs + more)[n] in more;
      }
    }
  }

  lemma ChangeKeepsIsolated(p: Policy, s: System, l: Label)
    requires AllIsolated(p, s) && OfThread(l) && !l.ReplaceMeta? && l.thread in s.threads
    requires !s.threads[l.thread].Finished? && ThreadIsolated(p, s.world, s.threads[l.thread])
    ensures AllIsolated(p, ThreadStep(s, l))
  {
    ThreadKeepsBounds(s, l);
    var s' := ThreadStep(s, l);
    var picks, sends := ThreadEffect(s, l);
    ThreadStaysIsolated(p, s, l);
    UpdateKeepsIsolated(p, s, l.thread, s'.threads[l.thread], picks, sends);
  }

  /** A step of a thread that renumbers nothing changes the thread and adds to the history. */
  lemma ThreadEffect(s: System, l: Label) returns (picks: seq<Hop>, sends: seq<Hop>)
    requires Bounded(s) && OfThread(l) && !l.ReplaceMeta? && l.thread in s.threads && !s.threads[l.thread].Finished?
    ensures var s' := ThreadStep(s, l);
            && l.thread in s'.threads
            && s' == s.(threads := s.threads[l.thread := s'.threads[l.thread]],
                        picks := s.picks + picks, sends := s.sends + sends)
    ensures var t := s.threads[l.thread];
            && (forall x <- picks + sends ::
                  && x.src == t.c < |s.world.heap|
                  && (t.Fanning? ==> x.dst in t.edges || x.dst in t.chosen)
                  && (t.Fanning? || ((t.Returning? || t.Answering?) && x.dst == t.sender)))
  {
    var s', t := ThreadStep(s, l), s.threads[l.thread];
    assert ThreadOk(s.world, t);
    picks, sends := s'.picks[|s.picks|..], s'.sends[|s.sends|..];
    assert s.threads == s.threads[l.thread := t];
    assert s.picks == s.picks + [] && s.sends == s.sends + [];
  }

  lemma ThreadStaysIsolated(p: Policy, s: System, l: Label)
    requires AllIsolated(p, s) && OfThread(l) && !l.ReplaceMeta? && l.thread in s.threads
    requires ThreadIsolated(p, s.world, s.threads[l.thread])
    ensures l.thread in ThreadStep(s, l).threads && ThreadIsolated(p, s.world, ThreadStep(s, l).threads[l.thread])
  {
    var t := s.threads[l.thread];
    assert ThreadOk(s.world, t);
    if l.OpenReceivers? && t.Prepared? {
      assert SharedEdges(p, s.world.heap[t.c].home, s.world.heap[t.c].receivers);
    }
  }

  /** Handshakes and lookups send nothing. */
  lemma QuietKeepsIsolated(p: Policy, s: System, l: Label)
    requires AllIsolated(p, s) && (OfTask(l) || l.Look?)
    ensures AllIsolated(p, Next(s, l))
  {
    NextKeepsBounds(s, l);
    var s' := Next(s, l);
    assert s'.world == s.world && s'.pending == s.pending && s'.picks == s.picks && s'.sends == s.sends;
  }

  lemma NextKeepsIsolated(p: Policy, s: System, l: Label)
    requires AllIsolated(p, s) && PermitsAll(p, Next(s, l).handled) && (Transitive(p) || NoTakeover(Next(s, l)))
    ensures AllIsolated(p, Next(s, l))
  {
    if OfTask(l) || l.Look? {
      QuietKeepsIsolated(p, s, l);
    } else if OfThread(l) {
      ThreadKeepsIsolated(p, s, l);
    } else if l.Work? {
      WorkKeepsIsolated(p, s, l.choice);
    } else if Next(s, l) != s {
      var handled := Next(s, l).handled;
      assert handled[|handled| - 1] == l.event;
      ActorKeepsIsolated(p, s, l.event, l.spawned);
    }
  }

  lemma HandledGrows(s: System, s': System)
    requires Linked(s, s')
    ensures |s.handled| <= |s'.handled| && s'.handled[..|s.handled|] == s.handled
  {
    var l :| Next(s, l) == s';
    NextHandled(s, l);
  }

  lemma NextHandled(s: System, l: Label)
    requires Bounded(s)
    ensures Next(s, l).handled == s.handled || (l.Actor? && Next(s, l).handled == s.handled + [l.event])
  {
  }

  lemma LinkedKeepsIsolated(p: Policy, s: System, s': System)
    requires Linked(s, s') && AllIsolated(p, s) && PermitsAll(p, s'.handled) && (Transitive(p) || NoTakeover(s'))
    ensures AllIsolated(p, s')
  {
    var l :| Next(s, l) == s';
    NextKeepsIsolated(p, s, l);
  }

  /** Isolation with concurrency: whatever was ever picked or sent to in an interleaving whose group
      messages follow the policy shares a group with its source, provided sharing is transitive or
      ClientActor has not entered the takeover branch. */
  lemma {:induction false} PicksAreIsolated(p: Policy, ss: seq<System>, k: nat)
    requires Execution(ss) && k < |ss| && PermitsAll(p, ss[k].handled)
    requires Transitive(p) || NeverTakesOver(ss, k)
    ensures AllIsolated(p, ss[k])
  {
    if k == 0 {
      StartIsIsolated(p);
    } else {
      assert LinkedAt(ss, k);
      PermittedBefore(p, ss[k - 1], ss[k]);
      PicksAreIsolated(p, ss, k - 1);
      LinkedKeepsIsolated(p, ss[k - 1], ss[k]);
    }
  }

  ghost predicate NeverTakesOver(ss: seq<System>, k: nat)
    requires k < |ss|
  {
    forall j | 0 <= j <= k :: NoTakeover(ss[j])
  }

  lemma StartIsIsolated(p: Policy)
    ensures AllIsolated(p, START)
  {
  }

  lemma PermittedBefore(p: Policy, s: System, s': System)
    requires Linked(s, s') && PermitsAll(p, s'.handled)
    ensures PermitsAll(p, s.handled)
  {
    HandledGrows(s, s');
    PermitsPrefix(p, s.handled, s'.handled);
  }

  lemma PermitsPrefix(p: Policy, es: seq<Event>, longer: seq<Event>)
    requires |es| <= |longer| && longer[..|es|] == es && PermitsAll(p, longer)
    ensures PermitsAll(p, es)
  {
    assert forall i | 0 <= i < |es| :: es[i] == longer[i];
  }
}
