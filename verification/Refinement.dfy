/** Handlers taken apart into writes, with threads in between, still do what the routing machine
    does in one step. */
module Refinement {
  import opened Base
  import opened Routing
  import opened FanOutSpec
  import opened Interleaving

  // ---------------------------------------------------------------------
  // A handler on its own
  // ---------------------------------------------------------------------

  /** A write together with everything it still has to do. */
  ghost function Completed(w: World, x: Write): World {
    if !InBounds(w) || !WriteOk(w, x) then w
    else if x.Tell? then Told(w, x.ids, x.sender)
    else Perform(w, x, 0)
  }

  /** The world once every pending write has been made. */
  ghost function Outcome(w: World, pending: seq<Write>): World
    decreases |pending|
  {
    if pending == [] then w else Outcome(Completed(w, pending[0]), pending[1..])
  }

  lemma OutcomeOfTwo(w: World, x: Write, y: Write)
    ensures Outcome(w, [x, y]) == Completed(Completed(w, x), y)
  {
    assert [x, y][1..] == [y] && [y][1..] == [];
    assert Outcome(Completed(w, x), [y]) == Outcome(Completed(Completed(w, x), y), []);
  }

  /** The writes of a handler amount to the handler's step. */
  lemma ProgramIsStep(w: World, e: Event)
    requires Inv(w)
    ensures Outcome(Begun(w, e), Program(w, e)) == Step(w, e)
  {
    match e
    case Dtls(_) =>
    case Delete(a) =>
      if a in w.table {
        UnlinkKeepsInv(w, a);
        OutcomeOfTwo(w, Flag(a), Prune(w.table[a]));
      }
    case GroupId(g, a, isSender) =>
      if Routed(w, e) {
        GroupProgramIsStep(w, e);
      }
    case MediaAddr(a, media, seeds) =>
      if a in w.table {
        OutcomeOfTwo(w, Equip(w.table[a], media, seeds), Publish(w.table[a], media));
      }
  }

  lemma GroupProgramIsStep(w: World, e: Event)
    requires Inv(w) && Routed(w, e)
    ensures Outcome(Begun(w, e), Program(w, e)) == Step(w, e)
  {
    BegunKeepsInv(w, e);
    var w1, s, a := Begun(w, e), Target(w, e), e.addr;
    if TakesOver(w, e) {
      TakeOverProgram(w1, s, a);
    } else {
      JoinProgram(w1, s, w.table[a], LastSender(w.groups, e.group, a), a);
    }
  }

  lemma TakeOverProgram(w: World, s: Id, a: Addr)
    requires Inv(w) && s < |w.heap|
    ensures Outcome(w, [Tell(Kept(w, s, a).Values, a), Keep(s, Kept(w, s, a))]) == TakeOver(w, s, a)
  {
    var kept := Kept(w, s, a);
    KeptExists(w, s, a);
    ToldExists(w, kept.Values, a, kept);
    assert Completed(w, Tell(kept.Values, a)) == Told(w, kept.Values, a);
    KeepCompletes(Told(w, kept.Values, a), s, kept);
    OutcomeOfTwo(w, Tell(kept.Values, a), Keep(s, kept));
  }

  lemma KeptExists(w: World, s: Id, a: Addr)
    requires Inv(w) && s < |w.heap|
    ensures EdgesExist(w, Kept(w, s, a)) && WriteOk(w, Tell(Kept(w, s, a).Values, a))
  {
    ReceiversExist(w, s);
  }

  lemma KeepCompletes(w: World, s: Id, edges: map<Addr, Id>)
    requires InBounds(w) && s < |w.heap| && EdgesExist(w, edges)
    ensures Completed(w, Keep(s, edges)) == SetEdges(w, s, edges)
  {
  }

  lemma JoinProgram(w: World, s: Id, r: Id, last: Addr, a: Addr)
    requires Inv(w) && s < |w.heap| && r < |w.heap| && w.heap[r].home == a
    ensures Outcome(w, [Learn(r, last), Add(s, a, r)]) == Attach(w, s, r, last, a)
  {
    LearnCompletes(w, r, last);
    AddCompletes(SetSender(w, r, last), s, a, r);
    OutcomeOfTwo(w, Learn(r, last), Add(s, a, r));
  }

  lemma LearnCompletes(w: World, r: Id, last: Addr)
    requires Inv(w) && r < |w.heap|
    ensures Completed(w, Learn(r, last)) == SetSender(w, r, last) && InBounds(SetSender(w, r, last))
  {
    WriteKeepsInv(w, Learn(r, last), 0);
  }

  lemma AddCompletes(w: World, s: Id, a: Addr, r: Id)
    requires InBounds(w) && s < |w.heap| && r < |w.heap| && w.heap[r].home == a
    ensures Completed(w, Add(s, a, r)) == AddEdge(w, s, a, r)
  {
  }

  lemma ToldExists(w: World, ids: set<Id>, a: Addr, edges: map<Addr, Id>)
    requires InBounds(w) && EdgesExist(w, edges)
    ensures InBounds(Told(w, ids, a)) && EdgesExist(Told(w, ids, a), edges)
  {
  }

  /** Whatever order the receivers are told in, each write leaves the outcome as it was. */
  lemma WorkKeepsOutcome(w: World, pending: seq<Write>, choice: Id)
    requires Inv(w) && PendingOk(w, pending) && pending != []
    ensures Outcome(Perform(w, pending[0], choice), Left(pending, choice)) == Outcome(w, pending)
  {
    var x := pending[0];
    assert WriteOk(w, x);
    if x.Tell? {
      if x.ids == {} {
        assert Told(w, {}, x.sender).heap == w.heap;
      } else {
        TellOne(w, x.ids, x.sender, choice);
        var left := Left(pending, choice);
        assert left[1..] == pending[1..];
      }
    }
  }

  lemma TellOne(w: World, ids: set<Id>, a: Addr, choice: Id)
    requires Inv(w) && WriteOk(w, Tell(ids, a))
    ensures Completed(Perform(w, Tell(ids, a), choice), Tell(ids - {choice}, a)) == Completed(w, Tell(ids, a))
  {
    WriteKeepsInv(w, Tell(ids, a), choice);
    var w' := Perform(w, Tell(ids, a), choice);
    assert Told(w', ids - {choice}, a).heap == Told(w, ids, a).heap;
  }

  // ---------------------------------------------------------------------
  // With threads in between
  // ---------------------------------------------------------------------

  /** Equal but for the numbering inside runtimes, which only RTP threads touch. */
  ghost predicate Alike(w: World, v: World) {
    && w.table == v.table && w.groups == v.groups && |w.heap| == |v.heap|
    && forall i | 0 <= i < |w.heap| :: w.heap[i] == v.heap[i].(runtimes := w.heap[i].runtimes)
  }

  lemma AlikeBounds(w: World, v: World)
    requires Alike(w, v)
    ensures InBounds(w) <==> InBounds(v)
  {
    if InBounds(w) {
      OneWayBounds(w, v);
    }
    if InBounds(v) {
      OneWayBounds(v, w);
    }
  }

  lemma OneWayBounds(w: World, v: World)
    requires w.table == v.table && |w.heap| == |v.heap| && InBounds(w)
    requires forall i | 0 <= i < |w.heap| :: w.heap[i].receivers == v.heap[i].receivers
    ensures InBounds(v)
  {
    forall i, b | 0 <= i < |v.heap| && b in v.heap[i].receivers
      ensures v.heap[i].receivers[b] < |v.heap|
    {
      assert b in w.heap[i].receivers;
    }
  }

  lemma AlikeUpdate(w: World, v: World, i: Id, c: ClientVal, d: ClientVal)
    requires Alike(w, v) && i < |w.heap| && c == d.(runtimes := c.runtimes)
    ensures Alike(w.(heap := w.heap[i := c]), v.(heap := v.heap[i := d]))
  {
  }

  lemma WriteOkAlike(w: World, v: World, x: Write)
    requires Alike(w, v)
    ensures WriteOk(w, x) <==> WriteOk(v, x)
  {
    assert forall i | 0 <= i < |w.heap| :: w.heap[i].home == v.heap[i].home;
  }

  lemma CompletedAlike(w: World, v: World, x: Write)
    requires Alike(w, v)
    ensures Alike(Completed(w, x), Completed(v, x))
  {
    AlikeBounds(w, v);
    WriteOkAlike(w, v, x);
    if InBounds(w) && WriteOk(w, x) {
      if x.Flag? {
        UnlinkAlike(w, v, x.addr);
      } else if x.Tell? {
        ToldAlike(w, v, x.ids, x.sender);
      } else {
        PerformAlike(w, v, x);
      }
    }
  }

  lemma UnlinkAlike(w: World, v: World, a: Addr)
    requires Alike(w, v) && InBounds(w) && a in w.table
    ensures Alike(Unlink(w, a), Unlink(v, a))
  {
  }

  lemma ToldAlike(w: World, v: World, ids: set<Id>, a: Addr)
    requires Alike(w, v)
    ensures Alike(Told(w, ids, a), Told(v, ids, a))
  {
  }

  lemma PerformAlike(w: World, v: World, x: Write)
    requires Alike(w, v) && InBounds(w) && InBounds(v) && WriteOk(w, x) && WriteOk(v, x) && !x.Flag? && !x.Tell?
    ensures Alike(Perform(w, x, 0), Perform(v, x, 0))
  {
    var i := if x.Add? || x.Keep? then x.s else x.c;
    if x.Prune? {
      SurvivingAlike(w, v, i);
    }
    AlikeUpdate(w, v, i, Perform(w, x, 0).heap[i], Perform(v, x, 0).heap[i]);
  }

  lemma SurvivingAlike(w: World, v: World, i: Id)
    requires Alike(w, v) && InBounds(w) && InBounds(v) && i < |w.heap|
    ensures Surviving(w.heap, w.heap[i].receivers) == Surviving(v.heap, v.heap[i].receivers)
  {
    assert forall b <- w.heap[i].receivers ::
        w.heap[w.heap[i].receivers[b]].deleted == v.heap[w.heap[i].receivers[b]].deleted;
  }

  lemma {:induction false} OutcomeAlike(w: World, v: World, pending: seq<Write>)
    requires Alike(w, v)
    ensures Alike(Outcome(w, pending), Outcome(v, pending))
    decreases |pending|
  {
    if pending != [] {
      CompletedAlike(w, v, pending[0]);
      OutcomeAlike(Completed(w, pending[0]), Completed(v, pending[0]), pending[1..]);
    }
  }

  lemma BegunAlike(w: World, v: World, e: Event)
    requires Alike(w, v) && InBounds(w) && InBounds(v)
    ensures Alike(Begun(w, e), Begun(v, e)) && Program(w, e) == Program(v, e)
  {
    if TakesOver(w, e) {
      assert Kept(w, Target(w, e), e.addr) == Kept(v, Target(v, e), e.addr);
    }
  }

  lemma StepAlike(w: World, v: World, e: Event)
    requires Alike(w, v) && Inv(w) && Inv(v)
    ensures Alike(Step(w, e), Step(v, e))
  {
    BegunAlike(w, v, e);
    OutcomeAlike(Begun(w, e), Begun(v, e), Program(w, e));
    ProgramIsStep(w, e);
    ProgramIsStep(v, e);
  }

  /** The world ClientActor is on its way to. */
  ghost function Settled(s: System): World {
    Outcome(s.world, s.pending)
  }

  /** Nobody but ClientActor, by taking up a message, changes where the world is going. */
  lemma NextSettles(s: System, l: Label)
    requires Bounded(s)
    ensures var s' := Next(s, l);
            || (s'.handled == s.handled && Alike(Settled(s'), Settled(s)))
            || (l.Actor? && s'.handled == s.handled + [l.event] && s.pending == []
                && Settled(s') == Step(s.world, l.event))
  {
    if l.Actor? {
      ProgramIsStep(s.world, l.event);
    } else if l.Work? {
      if s.pending != [] {
        WorkKeepsOutcome(s.world, s.pending, l.choice);
      }
    } else {
      OthersKeepAlike(s, l);
      OutcomeAlike(Next(s, l).world, s.world, s.pending);
    }
  }

  lemma OthersKeepAlike(s: System, l: Label)
    requires Bounded(s) && !l.Actor? && !l.Work?
    ensures Next(s, l).pending == s.pending && Next(s, l).handled == s.handled && Alike(Next(s, l).world, s.world)
  {
    if l.ReplaceMeta? && l.thread in s.threads && s.threads[l.thread].Decrypted? {
      var t := s.threads[l.thread];
      assert ThreadOk(s.world, t);
      if ClockOk(s.world, t, l.now) {
        MetaKeepsInv(s.world, t, l.now);
      }
    } else {
      assert Next(s, l).world == s.world;
    }
  }

  /** Refinement: in every interleaving, once the handler in progress has made its writes, clients,
      table, groups, edges, sender addresses and media lists are those of the one-step machine
      after the messages taken up so far. */
  lemma {:induction false} ExecutionRefinesRun(ss: seq<System>, k: nat)
    requires Execution(ss) && k < |ss|
    ensures Alike(Settled(ss[k]), Run(EMPTY_WORLD, ss[k].handled))
    ensures ss[k].pending == [] ==> Alike(ss[k].world, Run(EMPTY_WORLD, ss[k].handled))
  {
    if k == 0 {
      StartRefines();
    } else {
      ExecutionRefinesRun(ss, k - 1);
      assert LinkedAt(ss, k);
      LinkedRefines(ss[k - 1], ss[k]);
    }
  }

  lemma StartRefines()
    ensures Alike(Settled(START), Run(EMPTY_WORLD, START.handled))
  {
  }

  lemma LinkedRefines(s: System, s': System)
    requires Linked(s, s') && Alike(Settled(s), Run(EMPTY_WORLD, s.handled))
    ensures Alike(Settled(s'), Run(EMPTY_WORLD, s'.handled))
  {
    var l :| Next(s, l) == s';
    NextSettles(s, l);
    if s'.handled != s.handled {
      StepAlike(s.world, Run(EMPTY_WORLD, s.handled), l.event);
      assert (s.handled + [l.event])[..|s.handled|] == s.handled;
    }
  }
}
