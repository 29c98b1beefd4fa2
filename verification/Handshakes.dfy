/** Handshakes: at most one succeeds per incarnation and the visible status only moves forward. */
module Handshakes {
  import opened Base
  import opened Routing
  import opened Connection
  import opened Interleaving

  ghost predicate ConnOk(c: Conn) {
    && c.successes <= 1
    && (c.locked ==> c.status == Shutdown && c.successes == 0)
    && (c.status == New ==> c.successes == 0)
    && (c.status == Connected ==> c.successes == 1)
    && (c.srtp ==> c.successes == 1)
  }

  ghost predicate HandshakesOk(s: System) {
    && Bounded(s)
    && (forall i | 0 <= i < |s.conns| :: ConnOk(s.conns[i]))
    && (forall t <- s.tasks :: s.tasks[t].Handshaking? ==> s.conns[s.tasks[t].c].locked)
    && (forall t <- s.tasks :: s.tasks[t].HasTransport? ==> s.conns[s.tasks[t].c].successes == 1)
    && (forall t, u | t in s.tasks && u in s.tasks && s.tasks[t].Handshaking? && s.tasks[t] == s.tasks[u] :: t == u)
  }

  /** No connection is forgotten and none moves backwards. */
  ghost predicate Forward(s: System, s': System) {
    && |s.conns| <= |s'.conns|
    && forall i | 0 <= i < |s.conns| ::
         && Rank(Visible(s.conns[i])) <= Rank(Visible(s'.conns[i]))
         && s.conns[i].successes <= s'.conns[i].successes
         && (s.conns[i].srtp ==> s'.conns[i].srtp)
  }

  /** A task that moves on from `t` to `t'` together with its connection. */
  ghost predicate MovesTo(t: Task, c: Conn, t': Task, c': Conn) {
    && ConnOk(c')
    && Rank(Visible(c)) <= Rank(Visible(c')) && c.successes <= c'.successes && (c.srtp ==> c'.srtp)
    && (c.locked && !c'.locked ==> t.Handshaking?)
    && (t'.Handshaking? ==> !c.locked && c'.locked)
    && (t'.HasTransport? ==> c'.successes == 1)
  }

  lemma MoveKeepsHandshakes(s: System, k: nat, c: Id, t': Task, conn': Conn)
    requires HandshakesOk(s) && k in s.tasks && !s.tasks[k].Over? && s.tasks[k].c == c
    requires (t'.Over? || t'.c == c) && MovesTo(s.tasks[k], s.conns[c], t', conn')
    ensures var s' := s.(conns := s.conns[c := conn'], tasks := s.tasks[k := t']);
            HandshakesOk(s') && Forward(s, s')
  {
    assert ConnOk(s.conns[c]);
  }

  lemma TaskKeepsHandshakes(s: System, l: Label)
    requires HandshakesOk(s) && OfTask(l)
    ensures HandshakesOk(TaskStep(s, l)) && Forward(s, TaskStep(s, l))
  {
    if l.task in s.tasks && !s.tasks[l.task].Over? {
      var c := s.tasks[l.task].c;
      var m := TaskMove(s.tasks[l.task], s.conns[c], l);
      assert ConnOk(s.conns[c]);
      if m == (s.tasks[l.task], s.conns[c]) {
        assert TaskStep(s, l).conns == s.conns && TaskStep(s, l).tasks == s.tasks;
      } else {
        MoveKeepsHandshakes(s, l.task, c, m.0, m.1);
      }
    }
  }

  lemma ActorKeepsHandshakes(s: System, e: Event, spawned: nat)
    requires HandshakesOk(s)
    ensures HandshakesOk(ActorStep(s, e, spawned)) && Forward(s, ActorStep(s, e, spawned))
  {
    ActorKeepsBounds(s, e, spawned);
    var s' := ActorStep(s, e, spawned);
    if s' != s && e.Dtls? {
      BegunKeepsInv(s.world, e);
      SpawnKeepsHandshakes(s, s', spawned);
    }
  }

  /** A new task, and perhaps a new connection. */
  lemma SpawnKeepsHandshakes(s: System, s': System, k: nat)
    requires HandshakesOk(s) && Bounded(s') && k !in s.tasks
    requires s'.conns == s.conns || s'.conns == s.conns + [NEW_CONN]
    requires k in s'.tasks && s'.tasks[k].Started? && s'.tasks == s.tasks[k := s'.tasks[k]]
    ensures HandshakesOk(s') && Forward(s, s')
  {
  }

  lemma NextKeepsHandshakes(s: System, l: Label)
    requires HandshakesOk(s)
    ensures HandshakesOk(Next(s, l)) && Forward(s, Next(s, l))
  {
    if OfTask(l) {
      TaskKeepsHandshakes(s, l);
    } else if l.Actor? {
      ActorKeepsHandshakes(s, l.event, l.spawned);
    } else {
      OthersKeepHandshakes(s, l);
    }
  }

  lemma OthersKeepHandshakes(s: System, l: Label)
    requires HandshakesOk(s) && !OfTask(l) && !l.Actor?
    ensures HandshakesOk(Next(s, l)) && Forward(s, Next(s, l))
  {
    NextKeepsBounds(s, l);
    assert Next(s, l).conns == s.conns && Next(s, l).tasks == s.tasks;
  }

  lemma LinkedKeepsHandshakes(s: System, s': System)
    requires Linked(s, s') && HandshakesOk(s)
    ensures HandshakesOk(s') && Forward(s, s')
  {
    var l :| Next(s, l) == s';
    NextKeepsHandshakes(s, l);
  }

  lemma {:induction false} ExecutionHandshakes(ss: seq<System>, j: nat, k: nat)
    requires Execution(ss) && j <= k < |ss|
    ensures HandshakesOk(ss[k]) && Forward(ss[j], ss[k])
    decreases k
  {
    if k == 0 {
      StartHandshakes();
    } else {
      ExecutionHandshakes(ss, if j < k then j else j - 1, k - 1);
      HandshakesAt(ss, k);
      if j < k {
        ForwardOnward(ss[j], ss[k - 1], ss[k]);
      }
    }
  }

  lemma StartHandshakes()
    ensures HandshakesOk(START)
  {
  }

  lemma HandshakesAt(ss: seq<System>, k: nat)
    requires Execution(ss) && 0 < k < |ss| && HandshakesOk(ss[k - 1])
    ensures HandshakesOk(ss[k]) && Forward(ss[k - 1], ss[k])
  {
    assert LinkedAt(ss, k);
    LinkedKeepsHandshakes(ss[k - 1], ss[k]);
  }

  lemma ForwardOnward(s: System, m: System, s': System)
    requires Forward(s, m) && Forward(m, s')
    ensures Forward(s, s')
  {
  }

  /** Handshake monotonicity, over every interleaving and from any point of it to any later one:
      the status anyone can see only moves New, Connected, Shutdown; connect succeeds at most once
      per incarnation; a stored transport means the status is past New; the outgoing stream is
      attached exactly once. */
  lemma HandshakeMonotonicity(ss: seq<System>, j: nat, k: nat)
    requires Execution(ss) && j <= k < |ss|
    ensures Progressed(ss[j], ss[k])
  {
    ExecutionHandshakes(ss, j, k);
    ForwardProgresses(ss[j], ss[k]);
  }

  ghost predicate Progressed(s: System, s': System) {
    && |s.conns| <= |s'.conns| == |s'.world.heap|
    && (forall i | 0 <= i < |s.conns| ::
          && Rank(Visible(s.conns[i])) <= Rank(Visible(s'.conns[i]))
          && s.conns[i].successes <= s'.conns[i].successes)
    && (forall i | 0 <= i < |s'.conns| ::
          && s'.conns[i].successes <= 1
          && (s'.conns[i].srtp ==> Visible(s'.conns[i]) != New)
          && s'.world.heap[i].streams == 1)
  }

  lemma ForwardProgresses(s: System, s': System)
    requires Forward(s, s') && HandshakesOk(s')
    ensures Progressed(s, s')
  {
    forall i | 0 <= i < |s'.conns|
      ensures s'.conns[i].srtp ==> Visible(s'.conns[i]) != New
    {
      assert ConnOk(s'.conns[i]);
    }
  }

  // ---------------------------------------------------------------------
  // What can happen to a connection
  // ---------------------------------------------------------------------

  /** A handshake begins: the client was new, and whoever holds its lock has left Shutdown there. */
  ghost predicate Begins(c: Conn, c': Conn) {
    !c.locked && c.status == New && c' == Conn(Shutdown, true, c.srtp, c.successes)
  }

  /** It ends: Connected and one more success, or Shutdown and none. */
  ghost predicate Ends(c: Conn, c': Conn) {
    && c.locked
    && (c' == Conn(Connected, false, c.srtp, c.successes + 1) || c' == Conn(Shutdown, false, c.srtp, c.successes))
  }

  /** A connect call finds the client not new any more and leaves Shutdown. */
  ghost predicate Fails(c: Conn, c': Conn) {
    !c.locked && c.status != New && c' == Conn(Shutdown, false, c.srtp, c.successes)
  }

  /** The transport of a successful handshake is stored. */
  ghost predicate Stores(c: Conn, c': Conn) {
    c.successes == 1 && c' == c.(srtp := true)
  }

  /** Every change to a connection, in every interleaving, is one of these four; so a connect call that
      succeeds leaves Connected and one that fails leaves Shutdown. */
  lemma ConnectionMoves(s: System, s': System, i: Id)
    requires HandshakesOk(s) && Linked(s, s') && i < |s.conns|
    ensures i < |s'.conns|
    ensures var c, c' := s.conns[i], s'.conns[i];
            c' == c || Begins(c, c') || Ends(c, c') || Fails(c, c') || Stores(c, c')
  {
    var l :| Next(s, l) == s';
    assert ConnOk(s.conns[i]);
    if OfTask(l) {
      TaskMovesConnection(s, l, i);
    } else {
      OthersKeepConnections(s, l);
    }
  }

  lemma OthersKeepConnections(s: System, l: Label)
    requires Bounded(s) && !OfTask(l)
    ensures Next(s, l).conns == s.conns || Next(s, l).conns == s.conns + [NEW_CONN]
  {
  }

  lemma TaskMovesConnection(s: System, l: Label, i: Id)
    requires HandshakesOk(s) && OfTask(l) && i < |s.conns| && ConnOk(s.conns[i])
    ensures i < |TaskStep(s, l).conns|
    ensures var c, c' := s.conns[i], TaskStep(s, l).conns[i];
            c' == c || Begins(c, c') || Ends(c, c') || Fails(c, c') || Stores(c, c')
  {
  }

  /** And each of the four does happen, when a task in the right phase takes its step. */
  lemma TasksDoMove(s: System, k: nat, i: Id)
    requires HandshakesOk(s) && k in s.tasks && !s.tasks[k].Over? && s.tasks[k].c == i
    ensures i < |s.conns|
    ensures s.tasks[k].SawNew? && !s.conns[i].locked && s.conns[i].status == New ==>
              && Begins(s.conns[i], Next(s, CallConnect(k, true)).conns[i])
              && Next(s, CallConnect(k, true)).tasks[k] == Handshaking(i)
    ensures s.tasks[k].SawNew? && !s.conns[i].locked && s.conns[i].status != New ==>
              Next(s, CallConnect(k, true)).conns[i].status == Shutdown
    ensures s.tasks[k].Handshaking? ==>
              && Next(s, Finish(k, true)).conns[i].status == Connected
              && Next(s, Finish(k, true)).tasks[k] == HasTransport(i)
              && Next(s, Finish(k, false)).conns[i].status == Shutdown && Next(s, Finish(k, false)).tasks[k] == Over
    ensures s.tasks[k].HasTransport? ==> Next(s, Store(k)).conns[i].srtp
    ensures s.tasks[k].Started? && !s.conns[i].locked ==>
              Next(s, ReadStatus(k)).tasks[k] == if s.conns[i].status == New then SawNew(i) else Over
  {
  }

  // ---------------------------------------------------------------------
  // When a connected client stays connected
  // ---------------------------------------------------------------------

  ghost predicate IsConnected(s: System, i: Id) {
    i < |s.conns| && s.conns[i].status == Connected
  }

  /** Some task read New before the client was connected and has not called connect yet. */
  ghost predicate LateTask(s: System, i: Id) {
    exists t <- s.tasks :: s.tasks[t] == SawNew(i)
  }

  ghost predicate AlwaysConnected(s: System, i: Id) {
    forall ss, k | Continues(s, ss) && 0 <= k < |ss| :: IsConnected(ss[k], i)
  }

  lemma NextStaysConnected(s: System, l: Label, i: Id)
    requires HandshakesOk(s) && IsConnected(s, i) && !LateTask(s, i)
    ensures IsConnected(Next(s, l), i) && !LateTask(Next(s, l), i)
  {
    assert ConnOk(s.conns[i]);
    var s' := Next(s, l);
    if OfTask(l) {
      TaskStaysConnected(s, l, i);
    } else if l.Actor? {
      ActorStaysConnected(s, l.event, l.spawned, i);
    } else {
      assert s'.conns == s.conns && s'.tasks == s.tasks;
    }
  }

  lemma ActorStaysConnected(s: System, e: Event, spawned: nat, i: Id)
    requires Bounded(s) && IsConnected(s, i) && !LateTask(s, i)
    ensures IsConnected(ActorStep(s, e, spawned), i) && !LateTask(ActorStep(s, e, spawned), i)
  {
    var s' := ActorStep(s, e, spawned);
    assert forall t | t in s'.tasks && s'.tasks[t].SawNew? :: t in s.tasks && s'.tasks[t] == s.tasks[t];
  }

  lemma TaskStaysConnected(s: System, l: Label, i: Id)
    requires HandshakesOk(s) && OfTask(l) && IsConnected(s, i) && !LateTask(s, i) && !s.conns[i].locked
    ensures IsConnected(TaskStep(s, l), i) && !LateTask(TaskStep(s, l), i)
  {
    var s' := TaskStep(s, l);
    if l.task in s.tasks {
      assert s.tasks[l.task] != SawNew(i);
      assert s'.tasks[l.task] != SawNew(i);
      assert forall t | t in s'.tasks && t != l.task :: t in s.tasks && s'.tasks[t] == s.tasks[t];
    }
  }

  lemma {:induction false} SteadyContinuation(s: System, ss: seq<System>, k: nat, i: Id)
    requires HandshakesOk(s) && IsConnected(s, i) && !LateTask(s, i) && Continues(s, ss) && k < |ss|
    ensures HandshakesOk(ss[k]) && IsConnected(ss[k], i) && !LateTask(ss[k], i)
    decreases k
  {
    if k > 0 {
      SteadyContinuation(s, ss, k - 1, i);
      SteadyAt(s, ss, k, i);
    }
  }

  lemma SteadyAt(s: System, ss: seq<System>, k: nat, i: Id)
    requires Continues(s, ss) && 0 < k < |ss|
    requires HandshakesOk(ss[k - 1]) && IsConnected(ss[k - 1], i) && !LateTask(ss[k - 1], i)
    ensures HandshakesOk(ss[k]) && IsConnected(ss[k], i) && !LateTask(ss[k], i)
  {
    assert LinkedAt(ss, k);
    LinkedStaysConnected(ss[k - 1], ss[k], i);
  }

  lemma LinkedStaysConnected(s: System, s': System, i: Id)
    requires Linked(s, s') && HandshakesOk(s) && IsConnected(s, i) && !LateTask(s, i)
    ensures HandshakesOk(s') && IsConnected(s', i) && !LateTask(s', i)
  {
    var l :| Next(s, l) == s';
    NextKeepsHandshakes(s, l);
    NextStaysConnected(s, l, i);
  }

  /** A task that is late shuts the client down as soon as it calls connect. */
  lemma LateTaskShutsDown(s: System, i: Id) returns (ss: seq<System>)
    requires HandshakesOk(s) && IsConnected(s, i) && LateTask(s, i)
    ensures Continues(s, ss) && |ss| == 2 && i < |ss[1].conns| && ss[1].conns[i].status == Shutdown
  {
    var t :| t in s.tasks && s.tasks[t] == SawNew(i);
    assert ConnOk(s.conns[i]);
    var l := CallConnect(t, true);
    ss := [s, Next(s, l)];
    assert Linked(s, Next(s, l));
    assert LinkedAt(ss, 1);
  }

  /** Exact condition: a connected client stays connected in every continuation of a reachable
      state if and only if no task that read New is still to call connect. */
  lemma StaysConnectedIff(s: System, i: Id)
    requires Reachable(s) && IsConnected(s, i)
    ensures AlwaysConnected(s, i) <==> !LateTask(s, i)
  {
    var run := ReachableRun(s);
    ExecutionHandshakes(run, |run| - 1, |run| - 1);
    if LateTask(s, i) {
      var ss := LateTaskShutsDown(s, i);
      assert !IsConnected(ss[1], i);
    } else {
      forall ss, k | Continues(s, ss) && 0 <= k < |ss|
        ensures IsConnected(ss[k], i)
      {
        SteadyContinuation(s, ss, k, i);
      }
    }
  }

  // ---------------------------------------------------------------------
  // Two tasks that both read New: Dtls, Dtls, ReadStatus(0), ReadStatus(1), CallConnect(0),
  // Finish(0), Store(0), CallConnect(1). The first connects and stores its transport; the second
  // then finds Connected, leaves Shutdown behind and fails.
  // ---------------------------------------------------------------------

  lemma ReachableClosed()
    ensures Closed(s => Reachable(s)) && Reachable(START)
  {
    StartHandshakes();
    ReachableFromClosed(START);
    ReachableStart();
  }

  /** A reachable state in which a live client holds a transport although its connection is shut
      down: a stored transport does not mean Connected. */
  lemma SecondConnectShutsDown(a: Addr) returns (s: System)
    ensures Reachable(s) && |s.conns| == 1 && a in s.world.table && s.world.table[a] == 0
    ensures s.conns[0] == Conn(Shutdown, false, true, 1)
  {
    ReachableClosed();
    var reach := (s: System) => Reachable(s);
    s := FirstDatagram(reach, a);
    s := SecondDatagram(reach, s, a);
    s := BothConnect(reach, s);
  }

  /** And one in which it is connected with its transport stored, with no task that could change that. */
  lemma ConnectedIsReached(a: Addr) returns (s: System)
    ensures Reachable(s) && IsConnected(s, 0) && !LateTask(s, 0) && s.conns[0].srtp
    ensures a in s.world.table && s.world.table[a] == 0 && Bounded(s)
  {
    ReachableClosed();
    var reach := (s: System) => Reachable(s);
    s := FirstDatagram(reach, a);
    assert Bounded(s);
    s := TaskMoves(reach, s, ReadStatus(0), SawNew(0), NEW_CONN);
    s := TaskMoves(reach, s, CallConnect(0, true), Handshaking(0), Conn(Shutdown, true, false, 0));
    s := TaskMoves(reach, s, Finish(0, true), HasTransport(0), Conn(Connected, false, false, 1));
    s := TaskMoves(reach, s, Store(0), Over, Conn(Connected, false, true, 1));
  }

  lemma BothConnect(reach: System -> bool, s0: System) returns (s: System)
    requires Closed(reach) && reach(s0) && s0.conns == [NEW_CONN]
    requires s0.tasks == map[0 := Started(0), 1 := Started(0)]
    ensures reach(s) && s.world == s0.world && s.conns == [Conn(Shutdown, false, true, 1)]
  {
    s := TaskMoves(reach, s0, ReadStatus(0), SawNew(0), NEW_CONN);
    s := TaskMoves(reach, s, ReadStatus(1), SawNew(0), NEW_CONN);
    s := TaskMoves(reach, s, CallConnect(0, true), Handshaking(0), Conn(Shutdown, true, false, 0));
    s := TaskMoves(reach, s, Finish(0, true), HasTransport(0), Conn(Connected, false, false, 1));
    s := TaskMoves(reach, s, Store(0), Over, Conn(Connected, false, true, 1));
    s := TaskMoves(reach, s, CallConnect(1, true), Over, Conn(Shutdown, false, true, 1));
  }

  /** One client, with its tasks. */
  ghost predicate Alone(s: System, a: Addr) {
    && |s.conns| == 1 && s.pending == [] && a in s.world.table && s.world.table[a] == 0
    && s.tasks.Keys <= {0, 1}
  }

  lemma FirstDatagram(reach: System -> bool, a: Addr) returns (s: System)
    requires Closed(reach) && reach(START)
    ensures reach(s) && Alone(s, a) && s.conns[0] == NEW_CONN && s.tasks == map[0 := Started(0)]
  {
    s := Next(START, Actor(Dtls(a), 0));
  }

  lemma SecondDatagram(reach: System -> bool, s: System, a: Addr) returns (s': System)
    requires Closed(reach) && reach(s) && Alone(s, a) && s.tasks == map[0 := Started(0)]
    ensures reach(s') && Alone(s', a) && s'.conns == s.conns && s'.tasks == map[0 := Started(0), 1 := Started(0)]
  {
    s' := Next(s, Actor(Dtls(a), 1));
  }

  /** One task of the lone client takes a step. */
  lemma TaskMoves(reach: System -> bool, s: System, l: Label, t: Task, c: Conn) returns (s': System)
    requires Closed(reach) && reach(s) && |s.conns| == 1 && OfTask(l) && l.task in s.tasks
    requires !s.tasks[l.task].Over? && s.tasks[l.task].c == 0
    requires TaskMove(s.tasks[l.task], s.conns[0], l) == (t, c)
    ensures reach(s') && s'.world == s.world && s'.conns == [c] && s'.tasks == s.tasks[l.task := t]
  {
    s' := Next(s, l);
  }
}
