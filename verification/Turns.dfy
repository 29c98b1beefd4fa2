/** Turns: which packet is which. Everything picked, sent or renumbered in the course of handling one
    packet carries the number of its turn and, in the end, the same bytes. */
module Turns {
  import opened Base
  import opened Wire
  import opened Routing
  import opened Interleaving
  import Picks

  function TurnOf(t: Thread): nat
    requires !t.Finished?
  {
    if t.Looked? || t.MediaRead? || t.Decrypted? then t.turn else t.cargo.turn
  }

  /** Before its packet is renumbered, and before it has opened its receivers. */
  predicate Unlogged(t: Thread) { t.Looked? || t.MediaRead? || t.Decrypted? }
  predicate Unopened(t: Thread) { Unlogged(t) || t.Prepared? }

  /** Every turn belongs to one thread. */
  ghost predicate OwnTurns(s: System) {
    && (forall h <- s.threads :: !s.threads[h].Finished? ==> TurnOf(s.threads[h]) < s.turns)
    && (forall g, h | g in s.threads && h in s.threads && !s.threads[g].Finished? && !s.threads[h].Finished?
          && TurnOf(s.threads[g]) == TurnOf(s.threads[h]) :: g == h)
  }

  /** Nothing was picked for a turn that has not opened its receivers. */
  ghost predicate FreshPicks(s: System) {
    && (forall x <- s.picks :: x.cargo.turn < s.turns)
    && (forall h <- s.threads :: Unopened(s.threads[h]) ==> NotIn(s.picks, TurnOf(s.threads[h])))
  }

  ghost predicate NotIn(picks: seq<Hop>, turn: nat) {
    forall x <- picks :: x.cargo.turn != turn
  }

  /** A turn renumbers at most one packet. */
  ghost predicate FreshLog(s: System) {
    && (forall e <- s.log :: e.turn < s.turns)
    && (forall h <- s.threads :: Unlogged(s.threads[h]) ==> NotLogged(s.log, TurnOf(s.threads[h])))
    && (forall m, n | 0 <= m < n < |s.log| :: s.log[m].turn != s.log[n].turn)
  }

  ghost predicate NotLogged(log: seq<Entry>, turn: nat) {
    forall e <- log :: e.turn != turn
  }

  /** RTP on its way out is what was logged for its turn. */
  ghost predicate Renumbered(log: seq<Entry>, src: Id, cargo: Cargo) {
    cargo.rtcp || exists e <- log :: e.turn == cargo.turn && e.src == src && e.message == cargo.message
  }

  ghost predicate Loaded(s: System) {
    && (forall h <- s.threads :: !s.threads[h].Finished? && !Unlogged(s.threads[h]) ==>
          Renumbered(s.log, s.threads[h].c, s.threads[h].cargo))
    && (forall x <- s.picks :: Renumbered(s.log, x.src, x.cargo))
  }

  ghost predicate TurnsOk(s: System) {
    Bounded(s) && OwnTurns(s) && FreshPicks(s) && FreshLog(s) && Loaded(s)
  }

  // ---------------------------------------------------------------------
  // Every step keeps them
  // ---------------------------------------------------------------------

  /** A thread moves on within its turn, adding picks and log entries of that turn only. */
  ghost predicate StaysInTurn(s: System, s': System, h: nat) {
    && h in s.threads && h in s'.threads && !s.threads[h].Finished?
    && s'.threads == s.threads[h := s'.threads[h]] && s'.turns == s.turns
    && var t, t' := s.threads[h], s'.threads[h];
       && (t'.Finished? || TurnOf(t') == TurnOf(t))
       && (Unlogged(t') ==> Unlogged(t) && s'.log == s.log)
       && (Unopened(t') ==> Unopened(t) && s'.picks == s.picks)
       && Adds(s, s', t, t')
  }

  ghost predicate Adds(s: System, s': System, t: Thread, t': Thread)
    requires !t.Finished?
  {
    && (s'.log == s.log || exists e :: LogsEntry(s, s', t, t', e))
    && (s'.picks == s.picks || exists x :: PicksHop(s, s', t, x))
    && (!t'.Finished? && !Unlogged(t') ==>
          if Unlogged(t) then t'.cargo.rtcp || s'.log != s.log else t'.c == t.c && t'.cargo == t.cargo)
  }

  ghost predicate LogsEntry(s: System, s': System, t: Thread, t': Thread, e: Entry)
    requires !t.Finished?
  {
    && Unlogged(t) && s'.log == s.log + [e] && e.turn == TurnOf(t)
    && t'.Prepared? && t'.c == e.src && t'.cargo.message == e.message
  }

  ghost predicate PicksHop(s: System, s': System, t: Thread, x: Hop)
    requires !t.Finished?
  {
    !Unlogged(t) && s'.picks == s.picks + [x] && x.src == t.c && x.cargo == t.cargo
  }

  lemma ThreadStaysInTurn(s: System, l: Label)
    requires Bounded(s) && OfThread(l) && l.thread in s.threads && !s.threads[l.thread].Finished?
    ensures StaysInTurn(s, ThreadStep(s, l), l.thread)
  {
    var s', t := ThreadStep(s, l), s.threads[l.thread];
    assert ThreadOk(s.world, t);
    assert s.threads == s.threads[l.thread := t];
    if l.ReplaceMeta? {
      if s'.log != s.log {
        MetaLogs(s, l.thread, l.now);
      }
    } else {
      OtherStaysInTurn(s, l);
    }
  }

  lemma OtherStaysInTurn(s: System, l: Label)
    requires Bounded(s) && OfThread(l) && !l.ReplaceMeta? && l.thread in s.threads && !s.threads[l.thread].Finished?
    ensures StaysInTurn(s, ThreadStep(s, l), l.thread)
  {
    var s', t := ThreadStep(s, l), s.threads[l.thread];
    assert ThreadOk(s.world, t);
    assert s.threads == s.threads[l.thread := t];
    assert s.picks == s.picks + [];
    if s'.picks != s.picks {
      assert PicksHop(s, s', t, s'.picks[|s.picks|]);
    }
  }

  lemma MetaLogs(s: System, h: nat, now: nat)
    requires Bounded(s) && h in s.threads && !s.threads[h].Finished?
    requires ThreadStep(s, ReplaceMeta(h, now)).log != s.log
    ensures var s' := ThreadStep(s, ReplaceMeta(h, now));
            h in s'.threads && |s'.log| > |s.log| && LogsEntry(s, s', s.threads[h], s'.threads[h], s'.log[|s.log|])
  {
    var t := s.threads[h];
    assert ThreadOk(s.world, t);
    assert s.log == s.log + [];
  }

  lemma StayKeepsOwnTurns(s: System, s': System, h: nat)
    requires OwnTurns(s) && StaysInTurn(s, s', h)
    ensures OwnTurns(s')
  {
  }

  lemma StayKeepsPicks(s: System, s': System, h: nat)
    requires OwnTurns(s) && FreshPicks(s) && StaysInTurn(s, s', h)
    ensures FreshPicks(s')
  {
    var t, t' := s.threads[h], s'.threads[h];
    if s'.picks != s.picks {
      var x :| PicksHop(s, s', t, x);
      forall g | g in s'.threads && Unopened(s'.threads[g])
        ensures NotIn(s'.picks, TurnOf(s'.threads[g]))
      {
        assert g != h && NotIn(s.picks, TurnOf(s.threads[g]));
      }
    }
  }

  lemma StayKeepsLog(s: System, s': System, h: nat)
    requires OwnTurns(s) && FreshLog(s) && StaysInTurn(s, s', h)
    ensures FreshLog(s')
  {
    var t, t' := s.threads[h], s'.threads[h];
    if s'.log != s.log {
      var e :| LogsEntry(s, s', t, t', e);
      assert NotLogged(s.log, TurnOf(t));
      forall g | g in s'.threads && Unlogged(s'.threads[g])
        ensures NotLogged(s'.log, TurnOf(s'.threads[g]))
      {
        assert g != h && NotLogged(s.log, TurnOf(s.threads[g]));
      }
      forall m, n | 0 <= m < n < |s'.log|
        ensures s'.log[m].turn != s'.log[n].turn
      {
        assert s'.log[m] in s.log;
      }
    }
  }

  lemma RenumberedStays(log: seq<Entry>, more: seq<Entry>, src: Id, cargo: Cargo)
    requires Renumbered(log, src, cargo)
    ensures Renumbered(log + more, src, cargo)
  {
    if !cargo.rtcp {
      var e :| e in log && e.turn == cargo.turn && e.src == src && e.message == cargo.message;
      assert e in log + more;
    }
  }

  lemma StayKeepsLoaded(s: System, s': System, h: nat)
    requires Loaded(s) && StaysInTurn(s, s', h)
    ensures Loaded(s')
  {
    var t, t' := s.threads[h], s'.threads[h];
    var more := if s'.log == s.log then [] else [s'.log[|s.log|]];
    assert s'.log == s.log + more;
    forall g | g in s'.threads && !s'.threads[g].Finished? && !Unlogged(s'.threads[g])
      ensures Renumbered(s'.log, s'.threads[g].c, s'.threads[g].cargo)
    {
      if g != h || !Unlogged(t) {
        RenumberedStays(s.log, more, s.threads[g].c, s.threads[g].cargo);
      } else if !t'.cargo.rtcp {
        var e :| LogsEntry(s, s', t, t', e);
        assert e in s'.log;
      }
    }
    forall x | x in s'.picks
      ensures Renumbered(s'.log, x.src, x.cargo)
    {
      if x in s.picks {
        RenumberedStays(s.log, more, x.src, x.cargo);
      } else {
        assert PicksHop(s, s', t, x);
        RenumberedStays(s.log, more, t.c, t.cargo);
      }
    }
  }

  lemma LookKeepsTurns(s: System, h: nat, a: Addr, message: Bytes)
    requires TurnsOk(s)
    ensures TurnsOk(LookStep(s, h, a, message))
  {
    LookKeepsBounds(s, h, a, message);
    var s' := LookStep(s, h, a, message);
    if s' != s {
      assert s'.threads == s.threads[h := s'.threads[h]];
      LookKeepsFresh(s, s', h);
    }
  }

  /** A thread that begins a new turn, or has nothing to do. */
  lemma LookKeepsFresh(s: System, s': System, h: nat)
    requires OwnTurns(s) && FreshPicks(s) && FreshLog(s) && Loaded(s)
    requires h in s'.threads && s'.threads == s.threads[h := s'.threads[h]]
    requires h in s.threads ==> s.threads[h].Finished?
    requires s'.picks == s.picks && s'.log == s.log && s.turns <= s'.turns
    requires s'.threads[h].Finished? || (s'.threads[h].Looked? && s'.threads[h].turn == s.turns < s'.turns)
    ensures OwnTurns(s') && FreshPicks(s') && FreshLog(s') && Loaded(s')
  {
  }

  lemma NextKeepsTurns(s: System, l: Label)
    requires TurnsOk(s)
    ensures TurnsOk(Next(s, l))
  {
    NextKeepsBounds(s, l);
    var s' := Next(s, l);
    if OfThread(l) {
      if l.thread in s.threads && !s.threads[l.thread].Finished? {
        ThreadStaysInTurn(s, l);
        StayKeepsOwnTurns(s, s', l.thread);
        StayKeepsPicks(s, s', l.thread);
        StayKeepsLog(s, s', l.thread);
        StayKeepsLoaded(s, s', l.thread);
      }
    } else if l.Look? {
      LookKeepsTurns(s, l.thread, l.addr, l.message);
    } else {
      OthersKeepTurns(s, s', l);
    }
  }

  lemma OthersKeepTurns(s: System, s': System, l: Label)
    requires TurnsOk(s) && !OfThread(l) && !l.Look? && s' == Next(s, l) && Bounded(s')
    ensures TurnsOk(s')
  {
    assert s'.threads == s.threads && s'.turns == s.turns && s'.picks == s.picks && s'.log == s.log;
  }

  lemma LinkedKeepsTurns(s: System, s': System)
    requires Linked(s, s') && TurnsOk(s)
    ensures TurnsOk(s')
  {
    var l :| Next(s, l) == s';
    NextKeepsTurns(s, l);
  }

  lemma StartTurns()
    ensures TurnsOk(START)
  {
  }

  /** In every interleaving, turns are unique to their threads, nothing is picked in a turn before
      its receivers are opened, a turn renumbers at most one packet, and RTP on its way out is the
      packet that was renumbered in its turn. */
  lemma {:induction false} ExecutionTurns(ss: seq<System>, k: nat)
    requires Execution(ss) && k < |ss|
    ensures TurnsOk(ss[k])
  {
    if k == 0 {
      StartTurns();
    } else {
      ExecutionTurns(ss, k - 1);
      TurnsAt(ss, k);
    }
  }

  lemma TurnsAt(ss: seq<System>, k: nat)
    requires Execution(ss) && 0 < k < |ss| && TurnsOk(ss[k - 1])
    ensures TurnsOk(ss[k])
  {
    assert LinkedAt(ss, k);
    LinkedKeepsTurns(ss[k - 1], ss[k]);
  }

  // ---------------------------------------------------------------------
  // Nothing is sent to the deleted
  // ---------------------------------------------------------------------

  /** The turn begins after `s`, or is in progress there with its receivers unopened. */
  ghost predicate OpensLater(s: System, turn: nat) {
    turn >= s.turns || exists h <- s.threads :: Unopened(s.threads[h]) && TurnOf(s.threads[h]) == turn
  }

  /** A turn that opened its receivers after an incarnation was deleted never sends to it, in any
      interleaving and whatever other turns had picked before. */
  lemma NoStaleSend(ss: seq<System>, j: nat, k: nat, stale: Id, x: Hop)
    requires Execution(ss) && j <= k < |ss|
    requires stale < |ss[j].world.heap| && ss[j].world.heap[stale].deleted
    requires x in ss[k].sends && OpensLater(ss[j], x.cargo.turn)
    ensures x.dstId != stale
  {
    Picks.SendsWerePicked(ss, k);
    NotPickedYet(ss, j, x.cargo.turn);
    PicksPersist(ss, j, k);
    var n := IndexBehind(ss[j].picks, ss[k].picks, x);
    Picks.NoStalePick(ss, j, k, stale, n);
  }

  lemma IndexBehind(front: seq<Hop>, all: seq<Hop>, x: Hop) returns (n: nat)
    requires |front| <= |all| && all[..|front|] == front && x in all && x !in front
    ensures |front| <= n < |all| && all[n] == x
  {
    var back := all[|front|..];
    assert all == front + back;
    var m :| 0 <= m < |back| && back[m] == x;
    n := |front| + m;
  }

  lemma NotPickedYet(ss: seq<System>, j: nat, turn: nat)
    requires Execution(ss) && j < |ss| && OpensLater(ss[j], turn)
    ensures NotIn(ss[j].picks, turn)
  {
    ExecutionTurns(ss, j);
  }

  lemma {:induction false} PicksPersist(ss: seq<System>, j: nat, k: nat)
    requires Execution(ss) && j <= k < |ss|
    ensures |ss[j].picks| <= |ss[k].picks| && ss[k].picks[..|ss[j].picks|] == ss[j].picks
  {
    if j < k {
      PicksPersist(ss, j, k - 1);
      PicksPersistAt(ss, k);
      assert ss[k].picks[..|ss[k - 1].picks|][..|ss[j].picks|] == ss[k].picks[..|ss[j].picks|];
    }
  }

  lemma PicksPersistAt(ss: seq<System>, k: nat)
    requires Execution(ss) && 0 < k < |ss|
    ensures |ss[k - 1].picks| <= |ss[k].picks| && ss[k].picks[..|ss[k - 1].picks|] == ss[k - 1].picks
  {
    assert LinkedAt(ss, k);
    Picks.LinkedPicksLive(ss[k - 1], ss[k]);
  }
}
