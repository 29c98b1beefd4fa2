/** What becomes of a packet once its thread has prepared it, in every interleaving. */
module Handling {
  import opened Base
  import opened Routing
  import opened Interleaving
  import opened Picks
  import Turns

  // ---------------------------------------------------------------------
  // Completeness
  // ---------------------------------------------------------------------

  /** A packet is fanned out, unless it is RTCP of a client without receivers. */
  predicate FansOut(s: System, c: Id, cargo: Cargo)
    requires c < |s.world.heap|
  {
    !cargo.rtcp || s.world.heap[c].receivers != map[]
  }

  /** Thread h has prepared a packet in state j, goes on in the next one, and then first reports in
      state k, with success. */
  ghost predicate Succeeds(ss: seq<System>, j: nat, k: nat, h: nat) {
    && j < k < |ss| && h in ss[j].threads && ss[j].threads[h].Prepared?
    && h in ss[j + 1].threads && !ss[j + 1].threads[h].Prepared?
    && (forall m | j < m < k :: h in ss[m].threads && !ss[m].threads[h].Finished?)
    && h in ss[k].threads && ss[k].threads[h] == Finished(Forwarded)
  }

  ghost predicate LooksUp(s: System, a: Addr, i: Id) {
    a in Found(s) && Found(s)[a] == i
  }

  /** In state m1 the address was not in the table; or it was, and in a later state its client had no
      transport, or else the packet was sent to it. */
  ghost predicate ReturnedAt(ss: seq<System>, m1: nat, m2: nat, k: nat, c: Id, cargo: Cargo, a: Addr)
    requires m1 < m2 < k < |ss|
  {
    exists i: Id :: LooksUp(ss[m1], a, i) && i < |ss[m2].conns| &&
      (!ss[m2].conns[i].srtp || Hop(c, cargo, a, i) in ss[k].sends)
  }

  ghost predicate Returned(ss: seq<System>, j: nat, k: nat, c: Id, cargo: Cargo, a: Addr)
    requires k < |ss|
  {
    || (exists m1 | j < m1 < k :: a !in Found(ss[m1]))
    || (exists m1, m2 | j < m1 < m2 < k :: ReturnedAt(ss, m1, m2, k, c, cargo, a))
  }

  /** Where a fan-out or a return that began in state j has got to in state m. */
  ghost predicate OnTheWay(ss: seq<System>, j: nat, m: nat, h: nat)
    requires j < m < |ss| && h in ss[j].threads && ss[j].threads[h].Prepared? && h in ss[m].threads
    requires ss[j].threads[h].c < |ss[j].world.heap|
  {
    var c, cargo, t := ss[j].threads[h].c, ss[j].threads[h].cargo, ss[m].threads[h];
    var client := ss[j].world.heap[c];
    && (t.Fanning? || t.Returning? || t.Answering?) && t.c == c && t.cargo == cargo
    && if FansOut(ss[j], c, cargo)
       then t.Fanning? && forall b <- client.receivers :: Accounted(ss[m], t, b, client.receivers[b])
       else
         && (t.Returning? || t.Answering?) && client.senderAddr == Some(t.sender)
         && (t.Answering? ==> exists m1 | j < m1 < m :: LooksUp(ss[m1], t.sender, t.dst))
  }

  lemma FirstMove(s: System, s': System, h: nat)
    requires Linked(s, s') && h in s.threads && s.threads[h].Prepared?
    requires h in s'.threads && s'.threads[h] != s.threads[h]
    ensures s.threads[h].c < |s.world.heap|
    ensures var t, t' := s.threads[h], s'.threads[h];
            var client := s.world.heap[t.c];
            if FansOut(s, t.c, t.cargo) then t' == Fanning(t.c, t.cargo, client.receivers, map[], None)
            else if client.senderAddr.Some? then t' == Returning(t.c, t.cargo, client.senderAddr.value)
            else t' == Finished(Forwarded)
  {
    var l :| Next(s, l) == s';
    assert ThreadOk(s.world, s.threads[h]);
    if OfThread(l) && l.thread == h {
    } else {
      KeepsThread(s, l, h);
    }
  }

  /** Nobody else touches a thread that is in a turn. */
  lemma KeepsThread(s: System, l: Label, h: nat)
    requires Bounded(s) && h in s.threads && !s.threads[h].Finished? && !(OfThread(l) && l.thread == h)
    ensures h in Next(s, l).threads && Next(s, l).threads[h] == s.threads[h]
  {
  }

  lemma ReturnMove(s: System, s': System, h: nat)
    requires Linked(s, s') && h in s.threads && (s.threads[h].Returning? || s.threads[h].Answering?)
    ensures h in s'.threads
    ensures var t, t' := s.threads[h], s'.threads[h];
            || t' == t
            || (t.Returning? && t.sender !in Found(s) && t' == Finished(Forwarded))
            || (&& t.Returning? && t.sender in Found(s)
                && t' == Answering(t.c, t.cargo, t.sender, Found(s)[t.sender]))
            || (&& t.Answering? && t'.Finished? && t.dst < |s.conns|
                && (t' == Finished(Forwarded) ==>
                      !s.conns[t.dst].srtp || Hop(t.c, t.cargo, t.sender, t.dst) in s'.sends))
  {
    var l :| Next(s, l) == s';
    assert ThreadOk(s.world, s.threads[h]);
    if OfThread(l) && l.thread == h {
      OwnReturnMove(s, l);
    } else {
      KeepsThread(s, l, h);
    }
  }

  lemma OwnReturnMove(s: System, l: Label)
    requires Bounded(s) && OfThread(l) && l.thread in s.threads && ThreadOk(s.world, s.threads[l.thread])
    requires s.threads[l.thread].Returning? || s.threads[l.thread].Answering?
    ensures l.thread in ThreadStep(s, l).threads
    ensures var t, t' := s.threads[l.thread], ThreadStep(s, l).threads[l.thread];
            || t' == t
            || (t.Returning? && t.sender !in Found(s) && t' == Finished(Forwarded))
            || (&& t.Returning? && t.sender in Found(s)
                && t' == Answering(t.c, t.cargo, t.sender, Found(s)[t.sender]))
            || (&& t.Answering? && t'.Finished? && t.dst < |s.conns|
                && (t' == Finished(Forwarded) ==>
                      !s.conns[t.dst].srtp || Hop(t.c, t.cargo, t.sender, t.dst) in ThreadStep(s, l).sends))
  {
  }

  lemma {:induction false} StaysOnTheWay(ss: seq<System>, j: nat, k: nat, h: nat, m: nat)
    requires Execution(ss) && Succeeds(ss, j, k, h) && j < m < k
    ensures ss[j].threads[h].c < |ss[j].world.heap| && OnTheWay(ss, j, m, h)
    decreases m
  {
    BoundedAt(ss, j, h);
    if m == j + 1 {
      FirstOnTheWay(ss, j, h);
    } else {
      StaysOnTheWay(ss, j, k, h, m - 1);
      NextOnTheWay(ss, j, m, h);
    }
  }

  lemma BoundedAt(ss: seq<System>, j: nat, h: nat)
    requires Execution(ss) && j + 1 < |ss| && h in ss[j].threads && ss[j].threads[h].Prepared?
    ensures ss[j].threads[h].c < |ss[j].world.heap|
  {
    assert LinkedAt(ss, j + 1);
    assert ThreadOk(ss[j].world, ss[j].threads[h]);
  }

  lemma FirstOnTheWay(ss: seq<System>, j: nat, h: nat)
    requires Execution(ss) && j + 1 < |ss| && h in ss[j].threads && ss[j].threads[h].Prepared?
    requires h in ss[j + 1].threads && !ss[j + 1].threads[h].Prepared? && !ss[j + 1].threads[h].Finished?
    requires ss[j].threads[h].c < |ss[j].world.heap|
    ensures OnTheWay(ss, j, j + 1, h)
  {
    assert LinkedAt(ss, j + 1);
    FirstMove(ss[j], ss[j + 1], h);
  }

  lemma NextOnTheWay(ss: seq<System>, j: nat, m: nat, h: nat)
    requires Execution(ss) && j + 1 < m < |ss| && h in ss[j].threads && ss[j].threads[h].Prepared?
    requires ss[j].threads[h].c < |ss[j].world.heap|
    requires h in ss[m - 1].threads && h in ss[m].threads && !ss[m].threads[h].Finished?
    requires OnTheWay(ss, j, m - 1, h)
    ensures OnTheWay(ss, j, m, h)
  {
    var t := ss[m - 1].threads[h];
    if t.Fanning? {
      FanOnTheWay(ss, j, m, h);
    } else {
      MoveAt(ss, m, h);
      if ss[m].threads[h] != t {
        assert LooksUp(ss[m - 1], t.sender, ss[m].threads[h].dst);
      }
    }
  }

  lemma MoveAt(ss: seq<System>, m: nat, h: nat)
    requires Execution(ss) && 0 < m < |ss| && h in ss[m - 1].threads
    requires ss[m - 1].threads[h].Returning? || ss[m - 1].threads[h].Answering?
    ensures h in ss[m].threads
    ensures var t, t' := ss[m - 1].threads[h], ss[m].threads[h];
            || t' == t
            || (t.Returning? && t.sender !in Found(ss[m - 1]) && t' == Finished(Forwarded))
            || (&& t.Returning? && t.sender in Found(ss[m - 1])
                && t' == Answering(t.c, t.cargo, t.sender, Found(ss[m - 1])[t.sender]))
            || (&& t.Answering? && t'.Finished? && t.dst < |ss[m - 1].conns|
                && (t' == Finished(Forwarded) ==>
                      !ss[m - 1].conns[t.dst].srtp || Hop(t.c, t.cargo, t.sender, t.dst) in ss[m].sends))
  {
    assert LinkedAt(ss, m);
    ReturnMove(ss[m - 1], ss[m], h);
  }

  /** One step of a fan-out, for all its receivers. */
  lemma FanAt(ss: seq<System>, m: nat, h: nat, receivers: map<Addr, Id>)
    requires Execution(ss) && 0 < m < |ss| && h in ss[m - 1].threads && ss[m - 1].threads[h].Fanning?
    requires forall b <- receivers :: Accounted(ss[m - 1], ss[m - 1].threads[h], b, receivers[b])
    ensures h in ss[m].threads
    ensures var t, t' := ss[m - 1].threads[h], ss[m].threads[h];
            && (t'.Fanning? ==> t'.c == t.c && t'.cargo == t.cargo
                                && forall b <- receivers :: Accounted(ss[m], t', b, receivers[b]))
            && (t'.Fanning? || t'.Finished?)
            && (t' == Finished(Forwarded) ==>
                  forall b <- receivers :: Served(ss[m], Hop(t.c, t.cargo, b, receivers[b])))
  {
    assert LinkedAt(ss, m);
    FanStays(ss[m - 1], ss[m], h);
    forall b | b in receivers
      ensures h in ss[m].threads
      ensures ss[m].threads[h].Fanning? ==> Accounted(ss[m], ss[m].threads[h], b, receivers[b])
      ensures ss[m].threads[h] == Finished(Forwarded) ==>
                Served(ss[m], Hop(ss[m - 1].threads[h].c, ss[m - 1].threads[h].cargo, b, receivers[b]))
    {
      LinkedMoves(ss[m - 1], ss[m], h, b, receivers[b]);
    }
  }

  lemma FanStays(s: System, s': System, h: nat)
    requires Linked(s, s') && h in s.threads && s.threads[h].Fanning?
    ensures h in s'.threads
    ensures var t, t' := s.threads[h], s'.threads[h];
            (t'.Fanning? && t'.c == t.c && t'.cargo == t.cargo) || t'.Finished?
  {
    var l :| Next(s, l) == s';
    assert ThreadOk(s.world, s.threads[h]);
    if !(OfThread(l) && l.thread == h) {
      KeepsThread(s, l, h);
    }
  }

  lemma FanOnTheWay(ss: seq<System>, j: nat, m: nat, h: nat)
    requires Execution(ss) && j + 1 < m < |ss| && h in ss[j].threads && ss[j].threads[h].Prepared?
    requires ss[j].threads[h].c < |ss[j].world.heap|
    requires h in ss[m - 1].threads && h in ss[m].threads && !ss[m].threads[h].Finished?
    requires ss[m - 1].threads[h].Fanning? && OnTheWay(ss, j, m - 1, h)
    ensures OnTheWay(ss, j, m, h)
  {
    FanAt(ss, m, h, ss[j].world.heap[ss[j].threads[h].c].receivers);
  }

  /** Every packet goes where it should: if the thread reports success, RTP, and RTCP of a client with
      receivers, was sent to every receiver the client had when the thread opened them, unless it was
      deleted; RTCP of a client without receivers was sent to the sender address it then remembered,
      unless that was not in the table when looked up or its client then had no transport. */
  lemma HandlingIsComplete(ss: seq<System>, j: nat, k: nat, h: nat)
    requires Execution(ss) && Succeeds(ss, j, k, h)
    ensures ss[j].threads[h].c < |ss[j].world.heap|
    ensures var c, cargo := ss[j].threads[h].c, ss[j].threads[h].cargo;
            var client := ss[j].world.heap[c];
            if FansOut(ss[j], c, cargo)
            then forall b <- client.receivers :: Served(ss[k], Hop(c, cargo, b, client.receivers[b]))
            else client.senderAddr.Some? ==> Returned(ss, j, k, c, cargo, client.senderAddr.value)
  {
    BoundedAt(ss, j, h);
    if k == j + 1 {
      assert LinkedAt(ss, j + 1);
      FirstMove(ss[j], ss[j + 1], h);
    } else {
      StaysOnTheWay(ss, j, k, h, k - 1);
      LastMove(ss, j, k, h);
    }
  }

  lemma LastMove(ss: seq<System>, j: nat, k: nat, h: nat)
    requires Execution(ss) && Succeeds(ss, j, k, h) && j + 1 < k && ss[j].threads[h].c < |ss[j].world.heap|
    requires OnTheWay(ss, j, k - 1, h)
    ensures var c, cargo := ss[j].threads[h].c, ss[j].threads[h].cargo;
            var client := ss[j].world.heap[c];
            if FansOut(ss[j], c, cargo)
            then forall b <- client.receivers :: Served(ss[k], Hop(c, cargo, b, client.receivers[b]))
            else client.senderAddr.Some? ==> Returned(ss, j, k, c, cargo, client.senderAddr.value)
  {
    var c, cargo, t := ss[j].threads[h].c, ss[j].threads[h].cargo, ss[k - 1].threads[h];
    if t.Fanning? {
      FanAt(ss, k, h, ss[j].world.heap[c].receivers);
    } else {
      MoveAt(ss, k, h);
      if t.Answering? {
        var m1 :| j < m1 < k - 1 && LooksUp(ss[m1], t.sender, t.dst);
        assert ReturnedAt(ss, m1, k - 1, k, c, cargo, t.sender);
      }
    }
  }

  // ---------------------------------------------------------------------
  // And nowhere else
  // ---------------------------------------------------------------------

  /** What a prepared packet may be sent to, fixed by the world its thread finds when it goes on. */
  datatype Plan = Plan(c: Id, cargo: Cargo, receivers: map<Addr, Id>, sender: Option<Addr>) {
    predicate FansOut() { !cargo.rtcp || receivers != map[] }

    predicate Allows(x: Hop) {
      && x.src == c && x.cargo == cargo
      && if FansOut() then x.dst in receivers && receivers[x.dst] == x.dstId else sender == Some(x.dst)
    }

    ghost predicate Guides(t: Thread) {
      && !t.Finished? && !Turns.Unopened(t) && t.c == c && t.cargo == cargo
      && if FansOut() then t.Fanning? && Part(t.edges) && Part(t.chosen)
         else (t.Returning? || t.Answering?) && sender == Some(t.sender)
    }

    predicate Part(edges: map<Addr, Id>) {
      forall b <- edges :: b in receivers && edges[b] == receivers[b]
    }
  }

  function PlanOf(s: System, t: Thread): Plan
    requires t.Prepared? && t.c < |s.world.heap|
  {
    Plan(t.c, t.cargo, s.world.heap[t.c].receivers, s.world.heap[t.c].senderAddr)
  }

  /** Whoever is in the turn of the plan is guided by it, and so is what was picked in that turn. */
  ghost predicate Follows(s: System, plan: Plan) {
    && plan.cargo.turn < s.turns
    && (forall g <- s.threads :: InTurn(s.threads[g], plan.cargo.turn) ==> plan.Guides(s.threads[g]))
    && (forall x <- s.picks :: x.cargo.turn == plan.cargo.turn ==> plan.Allows(x))
  }

  predicate InTurn(t: Thread, turn: nat) {
    !t.Finished? && Turns.TurnOf(t) == turn
  }

  lemma StartsToFollow(s: System, s': System, h: nat)
    requires Turns.TurnsOk(s) && Linked(s, s') && h in s.threads && s.threads[h].Prepared?
    requires h in s'.threads && s'.threads[h] != s.threads[h]
    ensures s.threads[h].c < |s.world.heap| && Follows(s', PlanOf(s, s.threads[h]))
  {
    FirstMove(s, s', h);
    var t := s.threads[h];
    OnlyThreadMoves(s, s', h);
    forall g | g in s'.threads && InTurn(s'.threads[g], t.cargo.turn)
      ensures PlanOf(s, t).Guides(s'.threads[g])
    {
      assert g == h;
    }
  }

  /** A step that changes a prepared thread is its own, and picks nothing. */
  lemma OnlyThreadMoves(s: System, s': System, h: nat)
    requires Linked(s, s') && h in s.threads && s.threads[h].Prepared?
    requires h in s'.threads && s'.threads[h] != s.threads[h]
    ensures s'.threads == s.threads[h := s'.threads[h]] && s'.picks == s.picks && s'.turns == s.turns
  {
    var l :| Next(s, l) == s';
    assert ThreadOk(s.world, s.threads[h]);
    if !(OfThread(l) && l.thread == h) {
      KeepsThread(s, l, h);
    }
  }

  lemma KeepsFollowing(s: System, s': System, plan: Plan)
    requires Turns.TurnsOk(s) && Linked(s, s') && Follows(s, plan)
    ensures Follows(s', plan)
  {
    var l :| Next(s, l) == s';
    if OfThread(l) {
      if l.thread in s.threads && !s.threads[l.thread].Finished? {
        ThreadFollows(s, l, plan);
      }
    } else {
      OthersFollow(s, l, plan);
    }
  }

  lemma OthersFollow(s: System, l: Label, plan: Plan)
    requires Turns.TurnsOk(s) && Follows(s, plan) && !OfThread(l)
    ensures Follows(Next(s, l), plan)
  {
    var s' := Next(s, l);
    assert s'.picks == s.picks && s.turns <= s'.turns;
    forall g | g in s'.threads && InTurn(s'.threads[g], plan.cargo.turn)
      ensures plan.Guides(s'.threads[g])
    {
      assert g in s.threads && s'.threads[g] == s.threads[g];
    }
  }

  lemma ThreadFollows(s: System, l: Label, plan: Plan)
    requires Turns.TurnsOk(s) && Follows(s, plan) && OfThread(l) && l.thread in s.threads
    requires !s.threads[l.thread].Finished?
    ensures Follows(ThreadStep(s, l), plan)
  {
    var s', t := ThreadStep(s, l), s.threads[l.thread];
    Turns.ThreadStaysInTurn(s, l);
    if InTurn(t, plan.cargo.turn) {
      GuidedMove(s, l, plan);
    } else if s'.picks != s.picks {
      var x :| Turns.PicksHop(s, s', t, x);
    }
  }

  /** A guided thread stays guided, and picks what the plan allows. */
  lemma GuidedMove(s: System, l: Label, plan: Plan)
    requires Bounded(s) && OfThread(l) && l.thread in s.threads && plan.Guides(s.threads[l.thread])
    ensures var s' := ThreadStep(s, l);
            && l.thread in s'.threads && (s'.threads[l.thread].Finished? || plan.Guides(s'.threads[l.thread]))
            && (forall x <- s'.picks :: x in s.picks || plan.Allows(x))
  {
    assert ThreadOk(s.world, s.threads[l.thread]);
    if s.threads[l.thread].Fanning? {
      GuidedFanOut(s, l, plan);
    } else {
      GuidedReturn(s, l, plan);
    }
  }

  lemma GuidedFanOut(s: System, l: Label, plan: Plan)
    requires Bounded(s) && OfThread(l) && l.thread in s.threads && plan.Guides(s.threads[l.thread])
    requires s.threads[l.thread].Fanning? && ThreadOk(s.world, s.threads[l.thread])
    ensures var s' := ThreadStep(s, l);
            && l.thread in s'.threads && (s'.threads[l.thread].Finished? || plan.Guides(s'.threads[l.thread]))
            && (forall x <- s'.picks :: x in s.picks || plan.Allows(x))
  {
    if l.Filter? {
      GuidedFilter(s.world, s.threads[l.thread], l.dst, plan);
    } else if l.Protect? {
      assert ThreadStep(s, l).picks == s.picks;
    } else {
      assert ThreadStep(s, l).picks == s.picks;
    }
  }

  lemma GuidedFilter(w: World, t: Thread, b: Addr, plan: Plan)
    requires t.Fanning? && EdgesExist(w, t.edges) && plan.Guides(t)
    ensures plan.Guides(AfterFilter(w, t, b)) && forall x <- FilterPicks(w, t, b) :: plan.Allows(x)
  {
  }

  lemma GuidedReturn(s: System, l: Label, plan: Plan)
    requires Bounded(s) && OfThread(l) && l.thread in s.threads && plan.Guides(s.threads[l.thread])
    requires !s.threads[l.thread].Fanning? && ThreadOk(s.world, s.threads[l.thread])
    ensures var s' := ThreadStep(s, l);
            && l.thread in s'.threads && (s'.threads[l.thread].Finished? || plan.Guides(s'.threads[l.thread]))
            && (forall x <- s'.picks :: x in s.picks || plan.Allows(x))
  {
  }

  /** In every interleaving, everything sent in the turn of a prepared packet is that packet, and goes
      to a receiver its client had when the thread went on, as the incarnation it then was; or, if it is
      RTCP and there were none, to the sender address the client then remembered. */
  lemma HandlingIsExact(ss: seq<System>, j: nat, k: nat, h: nat, x: Hop)
    requires Execution(ss) && j < k < |ss| && h in ss[j].threads && ss[j].threads[h].Prepared?
    requires h in ss[j + 1].threads && ss[j + 1].threads[h] != ss[j].threads[h]
    requires x in ss[k].sends && x.cargo.turn == ss[j].threads[h].cargo.turn
    ensures ss[j].threads[h].c < |ss[j].world.heap| && PlanOf(ss[j], ss[j].threads[h]).Allows(x)
  {
    BoundedAt(ss, j, h);
    PlanIsFollowed(ss, j, k, h);
    SendsWerePicked(ss, k);
  }

  lemma {:induction false} PlanIsFollowed(ss: seq<System>, j: nat, k: nat, h: nat)
    requires Execution(ss) && j < k < |ss| && h in ss[j].threads && ss[j].threads[h].Prepared?
    requires h in ss[j + 1].threads && ss[j + 1].threads[h] != ss[j].threads[h]
    requires ss[j].threads[h].c < |ss[j].world.heap|
    ensures Follows(ss[k], PlanOf(ss[j], ss[j].threads[h]))
    decreases k
  {
    Turns.ExecutionTurns(ss, k - 1);
    if k == j + 1 {
      FollowsAtFirst(ss, j, h);
    } else {
      PlanIsFollowed(ss, j, k - 1, h);
      FollowsAt(ss, k, PlanOf(ss[j], ss[j].threads[h]));
    }
  }

  lemma FollowsAtFirst(ss: seq<System>, j: nat, h: nat)
    requires Execution(ss) && j + 1 < |ss| && h in ss[j].threads && ss[j].threads[h].Prepared?
    requires h in ss[j + 1].threads && ss[j + 1].threads[h] != ss[j].threads[h]
    requires ss[j].threads[h].c < |ss[j].world.heap| && Turns.TurnsOk(ss[j])
    ensures Follows(ss[j + 1], PlanOf(ss[j], ss[j].threads[h]))
  {
    assert LinkedAt(ss, j + 1);
    StartsToFollow(ss[j], ss[j + 1], h);
  }

  lemma FollowsAt(ss: seq<System>, k: nat, plan: Plan)
    requires Execution(ss) && 0 < k < |ss| && Turns.TurnsOk(ss[k - 1]) && Follows(ss[k - 1], plan)
    ensures Follows(ss[k], plan)
  {
    assert LinkedAt(ss, k);
    KeepsFollowing(ss[k - 1], ss[k], plan);
  }
}
