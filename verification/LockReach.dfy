/** Which worlds and which cyclic waits the actors get to with their locks as written. */
module LockReach {
  import opened Base
  import opened Routing
  import opened FanOutSpec
  import opened Isolation
  import opened Locks

  // ---------------------------------------------------------------------
  // Threads can always finish
  // ---------------------------------------------------------------------

  /** Steps a thread has at least to make until it is idle. */
  function Distance(p: ThreadPhase): nat {
    match p
    case ThreadIdle => 0
    case FindClient => 2
    case InFindClient => 1
    case ReadMedia(_) => 4
    case InReadMedia(_) => 3
    case Unprotect(_) => 2
    case InUnprotect(_) => 1
    case Renumber(_) => 2
    case InRenumber(_) => 1
    case Jitter(_) => 4
    case InJitter(_) => 3
    case OpenReceivers(_) => 2
    case InReceivers(_) => 1
    case ReadSender(_) => 2
    case InSender(_) => 1
    case FindSender(_) => 2
    case InFindSender(_) => 1
    case ProtectBack(_, _) => 2
    case InProtectBack(_, _) => 1
    case Protect(_, _) => 3
    case InProtect(_, _) => 2
  }

  /** The way out of a phase. */
  function WayOut(p: ThreadPhase): (q: ThreadPhase)
    requires !p.ThreadIdle?
    ensures ThreadEdge(p, q) && Distance(q) + 1 == Distance(p)
  {
    match p
    case FindClient => InFindClient
    case ReadMedia(c) => InReadMedia(c)
    case InReadMedia(c) => Unprotect(c)
    case Unprotect(c) => InUnprotect(c)
    case Renumber(c) => InRenumber(c)
    case Jitter(c) => InJitter(c)
    case InJitter(c) => OpenReceivers(c)
    case OpenReceivers(c) => InReceivers(c)
    case ReadSender(c) => InSender(c)
    case FindSender(c) => InFindSender(c)
    case ProtectBack(c, s) => InProtectBack(c, s)
    case Protect(c, r) => InProtect(c, r)
    case InProtect(c, _) => InReceivers(c)
    case _ => ThreadIdle
  }

  ghost function Total(threads: map<nat, ThreadPhase>): nat {
    if threads == map[] then 0
    else
      var n :| n in threads;
      Distance(threads[n]) + Total(threads - {n})
  }

  lemma {:induction false} TotalWithout(threads: map<nat, ThreadPhase>, n: nat)
    requires n in threads
    ensures Total(threads) == Distance(threads[n]) + Total(threads - {n})
    decreases threads
  {
    var m :| m in threads && Total(threads) == Distance(threads[m]) + Total(threads - {m});
    if m != n {
      TotalWithout(threads - {m}, n);
      TotalWithout(threads - {n}, m);
      assert threads - {m} - {n} == threads - {n} - {m};
    }
  }

  lemma TotalAfter(threads: map<nat, ThreadPhase>, n: nat, q: ThreadPhase)
    requires n in threads && Distance(q) < Distance(threads[n])
    ensures Total(threads[n := q]) < Total(threads)
  {
    TotalWithout(threads, n);
    TotalWithout(threads[n := q], n);
    assert threads[n := q] - {n} == threads - {n};
  }

  ghost predicate ThreadsIdle(s: State) {
    forall n <- s.threads :: s.threads[n].ThreadIdle?
  }

  /** States that hold `reach` and can be left by any move that `ok` allows. */
  ghost predicate LeadsOn(reach: State -> bool, ok: State -> bool) {
    forall s, s' | reach(s) && Moves(s, s') && ok(s') :: reach(s')
  }

  ghost predicate ThreadsDontMatter(ok: State -> bool) {
    forall s, threads :: ok(s) ==> ok(s.(threads := threads))
  }

  /** With ClientActor idle, all threads can run to their end, whatever they are doing. */
  lemma {:induction false} ThreadsDrain(reach: State -> bool, ok: State -> bool, s: State) returns (s': State)
    requires LeadsOn(reach, ok) && ThreadsDontMatter(ok) && reach(s) && ok(s) && s.actor.ActorIdle?
    ensures reach(s') && ok(s') && ThreadsIdle(s') && s' == s.(threads := s'.threads)
    decreases Total(s.threads)
  {
    if ThreadsIdle(s) {
      s' := s;
    } else {
      var n := RunnableThread(s);
      var q := WayOut(s.threads[n]);
      var next := s.(threads := s.threads[n := q]);
      TotalAfter(s.threads, n, q);
      assert ThreadMove(s, next, n);
      assert Moves(s, next) && ok(next);
      s' := ThreadsDrain(reach, ok, next);
    }
  }

  lemma RunnableThread(s: State) returns (n: nat)
    requires s.actor.ActorIdle? && !ThreadsIdle(s)
    ensures n in s.threads && !s.threads[n].ThreadIdle? && !Blocked(s, ThreadPid(n))
  {
    var m :| m in s.threads && !s.threads[m].ThreadIdle?;
    var q := SomeoneCanRun(s, ThreadPid(m));
    assert q.ThreadPid?;
    n := q.n;
  }

  // ---------------------------------------------------------------------
  // ClientActor on its own
  // ---------------------------------------------------------------------

  lemma ActorIsFree(s: State)
    requires ThreadsIdle(s) && !s.actor.Takeover?
    ensures !Blocked(s, ActorPid)
  {
    forall q
      ensures !WaitsFor(s, ActorPid, q)
    {
      if q.ThreadPid? && q.n in s.threads {
        assert s.threads[q.n].ThreadIdle?;
      }
    }
  }

  lemma ActorGoes(reach: State -> bool, ok: State -> bool, s: State, s': State)
    requires LeadsOn(reach, ok) && reach(s) && ok(s') && ThreadsIdle(s) && !s.actor.Takeover?
    requires InBounds(s.world) && ActorMove(s, s')
    ensures reach(s')
  {
    ActorIsFree(s);
    assert Moves(s, s');
  }

  /** Along the phases that lead to one lock. */
  lemma ActorTakes(reach: State -> bool, ok: State -> bool, s: State, p: ActorPhase) returns (s': State)
    requires LeadsOn(reach, ok) && reach(s) && ThreadsIdle(s) && InBounds(s.world) && s.job.Some?
    requires ActorWants(s.actor).Some? && ActorEdge(s.actor, p) && !p.ActorIdle? && ok(s.(actor := p))
    ensures s' == s.(actor := p) && reach(s')
  {
    s' := s.(actor := p);
    ActorGoes(reach, ok, s, s');
  }

  /** Where the message decides. */
  lemma ActorBranches(reach: State -> bool, ok: State -> bool, s: State, p: ActorPhase) returns (s': State)
    requires LeadsOn(reach, ok) && reach(s) && ThreadsIdle(s) && InBounds(s.world) && s.job.Some?
    requires Handling(s.actor) && ActorWants(s.actor).None? && ActorEdge(s.actor, p) && !p.ActorIdle?
    requires Branches(s, s.(actor := p), s.job.value) && ok(s.(actor := p))
    ensures s' == s.(actor := p) && reach(s')
  {
    s' := s.(actor := p);
    ActorGoes(reach, ok, s, s');
  }

  ghost predicate Idle(s: State) {
    Fits(s) && s.actor.ActorIdle? && ThreadsIdle(s)
  }

  lemma ActorTakesUp(reach: State -> bool, ok: State -> bool, s: State, e: Event) returns (s': State)
    requires LeadsOn(reach, ok) && reach(s) && Idle(s) && ok(s.(actor := Taken, job := Some(e)))
    ensures s' == s.(actor := Taken, job := Some(e)) && reach(s')
  {
    s' := s.(actor := Taken, job := Some(e));
    ActorGoes(reach, ok, s, s');
  }

  /** Up to the decision whether a routed group message takes over. */
  lemma GroupStarts(reach: State -> bool, ok: State -> bool, s: State, e: Event) returns (s': State)
    requires LeadsOn(reach, ok) && reach(s) && Idle(s) && Routed(s.world, e)
    requires forall p: ActorPhase :: ok(s.(actor := p, job := Some(e)))
    ensures s' == s.(actor := InGroupReceivers(Target(s.world, e)), job := Some(e)) && reach(s')
  {
    var t := Target(s.world, e);
    s' := ActorTakesUp(reach, ok, s, e);
    s' := ActorBranches(reach, ok, s', GroupRead);
    s' := ActorTakes(reach, ok, s', InGroup);
    s' := ActorBranches(reach, ok, s', GroupReceivers(t));
    s' := ActorTakes(reach, ok, s', InGroupReceivers(t));
  }

  lemma TakeoverIsReached(reach: State -> bool, ok: State -> bool, s: State, e: Event) returns (s': State)
    requires LeadsOn(reach, ok) && reach(s) && Idle(s) && TakesOver(s.world, e)
    requires forall p: ActorPhase :: ok(s.(actor := p, job := Some(e)))
    ensures s' == s.(actor := Takeover(Target(s.world, e)), job := Some(e)) && reach(s')
  {
    s' := GroupStarts(reach, ok, s, e);
    s' := ActorBranches(reach, ok, s', Takeover(Target(s.world, e)));
  }

  // ---------------------------------------------------------------------
  // A cyclic wait, exactly
  // ---------------------------------------------------------------------

  /** From `s`, ClientActor takes up at most the message `e`, and has not finished it. */
  ghost predicate Handles(s: State, e: Event, ss: seq<State>) {
    && ss != [] && ss[0] == s && (forall i | 0 < i < |ss| :: MovesAt(ss, i))
    && forall i | 0 <= i < |ss| :: OnlyHandles(s.world, e, ss[i])
  }

  ghost predicate OnlyHandles(w: World, e: Event, s: State) {
    s.world == w && (s.job == None || s.job == Some(e))
  }

  ghost predicate HandledTo(s: State, e: Event, s': State) {
    exists ss :: Handles(s, e, ss) && ss[|ss| - 1] == s'
  }

  /** The message can lead into a cyclic wait before its handler returns. */
  ghost predicate CanHang(s: State, e: Event) {
    exists s', ps :: HandledTo(s, e, s') && s'.job == Some(e) && Cycle(s', ps)
  }

  lemma HandledLeads(s: State, e: Event)
    requires OnlyHandles(s.world, e, s)
    ensures LeadsOn(t => HandledTo(s, e, t), t => OnlyHandles(s.world, e, t)) && HandledTo(s, e, s)
  {
    assert Handles(s, e, [s]) && [s][|[s]| - 1] == s;
    forall t, t' | HandledTo(s, e, t) && Moves(t, t') && OnlyHandles(s.world, e, t')
      ensures HandledTo(s, e, t')
    {
      var ss :| Handles(s, e, ss) && ss[|ss| - 1] == t;
      var longer := ss + [t'];
      forall i | 0 < i < |longer|
        ensures MovesAt(longer, i)
      {
        if i < |ss| {
          assert MovesAt(ss, i);
        }
      }
      assert Handles(s, e, longer) && longer[|longer| - 1] == t';
    }
  }

  lemma {:induction false} HandledFits(s: State, e: Event, ss: seq<State>, k: nat)
    requires Fits(s) && Handles(s, e, ss) && k < |ss|
    ensures Fits(ss[k])
  {
    if k > 0 {
      HandledFits(s, e, ss, k - 1);
      assert MovesAt(ss, k);
      MoveKeepsFit(ss[k - 1], ss[k]);
    }
  }

  /** Exact condition: whatever the threads are doing when ClientActor takes up a message, it can end
      in a cyclic wait if and only if the message takes over in the world it finds. */
  lemma HangsIff(s: State, e: Event)
    requires Fits(s) && s.actor.ActorIdle?
    ensures CanHang(s, e) <==> TakesOver(s.world, e)
  {
    if CanHang(s, e) {
      var s', ps :| HandledTo(s, e, s') && s'.job == Some(e) && Cycle(s', ps);
      var ss :| Handles(s, e, ss) && ss[|ss| - 1] == s';
      HandledFits(s, e, ss, |ss| - 1);
      CyclicIffTakeover(s');
    }
    if TakesOver(s.world, e) {
      Hangs(s, e);
    }
  }

  lemma Hangs(s: State, e: Event)
    requires Fits(s) && s.actor.ActorIdle? && TakesOver(s.world, e)
    ensures CanHang(s, e)
  {
    var reach, ok := (t: State) => HandledTo(s, e, t), (t: State) => OnlyHandles(s.world, e, t);
    HandledLeads(s, e);
    var s' := ThreadsDrain(reach, ok, s);
    s' := TakeoverIsReached(reach, ok, s', e);
    CyclicIffTakeover(s');
  }

  // ---------------------------------------------------------------------
  // Which worlds are reached
  // ---------------------------------------------------------------------

  ghost predicate LockReachable(s: State) {
    exists ss :: LockRun(ss) && ss[|ss| - 1] == s
  }

  lemma LockReachableLeads()
    ensures LeadsOn(s => LockReachable(s), _ => true)
  {
    forall s, s' | LockReachable(s) && Moves(s, s')
      ensures LockReachable(s')
    {
      var ss :| LockRun(ss) && ss[|ss| - 1] == s;
      var longer := ss + [s'];
      forall i | 0 < i < |longer|
        ensures MovesAt(longer, i)
      {
        if i < |ss| {
          assert MovesAt(ss, i);
        }
      }
      assert LockRun(longer) && longer[|longer| - 1] == s';
    }
  }

  /** A handler that does not take over returns, with the effect of its step. */
  lemma HandlerReturns(reach: State -> bool, s: State, e: Event) returns (s': State)
    requires LeadsOn(reach, _ => true) && reach(s) && Idle(s) && !TakesOver(s.world, e)
    ensures s' == s.(world := Step(s.world, e)) && reach(s') && Idle(s')
  {
    var ok := (_: State) => true;
    StepKeepsInv(s.world, e);
    s' := LastPhase(reach, s, e);
    var t := s.(world := Step(s.world, e));
    ActorGoes(reach, ok, s', t);
    s' := t;
  }

  /** The phase from which the handler returns. */
  lemma LastPhase(reach: State -> bool, s: State, e: Event) returns (s': State)
    requires LeadsOn(reach, _ => true) && reach(s) && Idle(s) && !TakesOver(s.world, e)
    ensures reach(s') && s' == s.(actor := s'.actor, job := Some(e)) && ActorEdge(s'.actor, ActorIdle)
    ensures Handling(s'.actor) && ActorWants(s'.actor).None? && !s'.actor.Takeover?
    ensures Branches(s', s.(world := Step(s.world, e)), e)
  {
    var ok := (_: State) => true;
    match e
    case Dtls(a) =>
      s' := ActorTakesUp(reach, ok, s, e);
      s' := ActorBranches(reach, ok, s', TableWrite(false));
      s' := ActorTakes(reach, ok, s', InTableWrite(false));
    case Delete(a) =>
      s' := LastDelete(reach, s, a);
    case GroupId(g, a, isSender) =>
      s' := LastGroup(reach, s, e);
    case MediaAddr(a, media, seeds) =>
      s' := LastMedia(reach, s, e);
  }

  lemma LastDelete(reach: State -> bool, s: State, a: Addr) returns (s': State)
    requires LeadsOn(reach, _ => true) && reach(s) && Idle(s)
    ensures reach(s')
    ensures s' == s.(actor := if a in s.world.table then InPrune(s.world.table[a]) else InTableWrite(true),
                     job := Some(Delete(a)))
  {
    var ok := (_: State) => true;
    s' := ActorTakesUp(reach, ok, s, Delete(a));
    s' := ActorBranches(reach, ok, s', TableWrite(true));
    s' := ActorTakes(reach, ok, s', InTableWrite(true));
    if a in s.world.table {
      s' := ActorBranches(reach, ok, s', PruneWrite(s.world.table[a]));
      s' := ActorTakes(reach, ok, s', InPrune(s.world.table[a]));
    }
  }

  lemma LastGroup(reach: State -> bool, s: State, e: Event) returns (s': State)
    requires LeadsOn(reach, _ => true) && reach(s) && Idle(s) && e.GroupId? && !TakesOver(s.world, e)
    ensures reach(s')
    ensures s' == s.(job := Some(e), actor :=
                       if Routed(s.world, e) then InGroupSender(Target(s.world, e), s.world.table[e.addr])
                       else if LastSender(s.world.groups, e.group, e.addr) == e.addr && !e.isSender then Taken
                       else InGroup)
  {
    var ok := (_: State) => true;
    if Routed(s.world, e) {
      var t, r := Target(s.world, e), s.world.table[e.addr];
      s' := GroupStarts(reach, ok, s, e);
      s' := ActorBranches(reach, ok, s', GroupSender(t, r));
      s' := ActorTakes(reach, ok, s', InGroupSender(t, r));
    } else {
      s' := ActorTakesUp(reach, ok, s, e);
      if !(LastSender(s.world.groups, e.group, e.addr) == e.addr && !e.isSender) {
        s' := ActorBranches(reach, ok, s', GroupRead);
        s' := ActorTakes(reach, ok, s', InGroup);
      }
    }
  }

  lemma LastMedia(reach: State -> bool, s: State, e: Event) returns (s': State)
    requires LeadsOn(reach, _ => true) && reach(s) && Idle(s) && e.MediaAddr?
    ensures reach(s')
    ensures s' == s.(job := Some(e),
                     actor := if e.addr in s.world.table then InMediaPublish(s.world.table[e.addr]) else InMedia)
  {
    var ok := (_: State) => true;
    s' := ActorTakesUp(reach, ok, s, e);
    s' := ActorBranches(reach, ok, s', MediaRead);
    s' := ActorTakes(reach, ok, s', InMedia);
    if e.addr in s.world.table {
      s' := MediaOfClient(reach, s', s.world.table[e.addr]);
    }
  }

  lemma MediaOfClient(reach: State -> bool, s: State, c: Id) returns (s': State)
    requires LeadsOn(reach, _ => true) && reach(s) && ThreadsIdle(s) && InBounds(s.world)
    requires s.actor.InMedia? && s.job.Some? && s.job.value.MediaAddr?
    requires s.job.value.addr in s.world.table && s.world.table[s.job.value.addr] == c
    ensures reach(s') && s' == s.(actor := InMediaPublish(c))
  {
    var ok := (_: State) => true;
    s' := ActorBranches(reach, ok, s, MediaRuntimes(c));
    s' := ActorTakes(reach, ok, s', InMediaRuntimes(c));
    s' := ActorBranches(reach, ok, s', MediaPublish(c));
    s' := ActorTakes(reach, ok, s', InMediaPublish(c));
  }

  const START_LOCKS: State := State(ActorIdle, map[], EMPTY_WORLD, None)

  /** Every run of messages that do not take over is gone through to its end. */
  lemma {:induction false} RunIsReached(es: seq<Event>)
    requires TakeoverFree(es)
    ensures LockReachable(START_LOCKS.(world := Run(EMPTY_WORLD, es)))
    ensures Idle(START_LOCKS.(world := Run(EMPTY_WORLD, es)))
  {
    if es == [] {
      assert LockRun([START_LOCKS]) && [START_LOCKS][|[START_LOCKS]| - 1] == START_LOCKS;
    } else {
      var n := |es| - 1;
      TakeoverFreePrefix(es, n);
      RunIsReached(es[..n]);
      assert !TakeoverAt(es, n);
      LockReachableLeads();
      var s := HandlerReturns(s => LockReachable(s), START_LOCKS.(world := Run(EMPTY_WORLD, es[..n])), es[n]);
    }
  }

  /** And no other world is reached. */
  lemma {:induction false} WorldIsRun(ss: seq<State>, k: nat) returns (es: seq<Event>)
    requires LockRun(ss) && k < |ss|
    ensures TakeoverFree(es) && Run(EMPTY_WORLD, es) == ss[k].world
  {
    if k == 0 {
      es := [];
    } else {
      es := WorldIsRun(ss, k - 1);
      assert MovesAt(ss, k);
      RunFits(ss, k - 1);
      MoveKeepsFit(ss[k - 1], ss[k]);
      if ss[k].world != ss[k - 1].world {
        TakeoverFreeSnoc(es, ss[k - 1].job.value);
        RunSnoc(es, ss[k - 1].job.value);
        es := es + [ss[k - 1].job.value];
      }
    }
  }

  lemma TakeoverFreeSnoc(es: seq<Event>, e: Event)
    requires TakeoverFree(es) && !TakesOver(Run(EMPTY_WORLD, es), e)
    ensures TakeoverFree(es + [e])
  {
    forall k | 0 <= k < |es| + 1
      ensures !TakeoverAt(es + [e], k)
    {
      assert (es + [e])[..k] == es[..k];
      if k < |es| {
        assert !TakeoverAt(es, k);
      } else {
        assert es[..k] == es;
      }
    }
  }

  /** The code as written gets to exactly the worlds of the runs without takeover. */
  lemma WorldsIff(w: World)
    ensures (exists s :: LockReachable(s) && s.world == w) <==>
            exists es :: TakeoverFree(es) && Run(EMPTY_WORLD, es) == w
  {
    if s :| LockReachable(s) && s.world == w {
      var es := ReachedIsRun(s);
    }
    if es :| TakeoverFree(es) && Run(EMPTY_WORLD, es) == w {
      RunIsReached(es);
    }
  }

  lemma ReachedIsRun(s: State) returns (es: seq<Event>)
    requires LockReachable(s)
    ensures TakeoverFree(es) && Run(EMPTY_WORLD, es) == s.world
  {
    var ss :| LockRun(ss) && ss[|ss| - 1] == s;
    es := WorldIsRun(ss, |ss| - 1);
  }

  /** A run of the code as written that ends in a cyclic wait: Dtls from `a` and `b`, then both
      announce themselves as sender of one group. */
  lemma SecondSenderHangs(g: nat, a: Addr, b: Addr) returns (s: State)
    requires a != b
    ensures LockReachable(s) && exists ps :: Cycle(s, ps)
  {
    LockReachableLeads();
    var reach := (s: State) => LockReachable(s);
    s := TwoClients(reach, a, b);
    s := SecondSender(reach, s, g, a, b);
    CyclicIffTakeover(s);
  }

  /** Another one: a viewer is announced in an empty group before its sender is. The table keeps the
      viewer as the group's sender, so the sender's own announcement takes over from it. */
  lemma ViewerFirstHangs(g: nat, viewer: Addr, sender: Addr) returns (s: State)
    requires viewer != sender
    ensures LockReachable(s) && exists ps :: Cycle(s, ps)
  {
    LockReachableLeads();
    var reach := (s: State) => LockReachable(s);
    s := TwoClients(reach, viewer, sender);
    s := HandlerReturns(reach, s, GroupId(g, viewer, false));
    s := TakeoverIsReached(reach, _ => true, s, GroupId(g, sender, true));
    CyclicIffTakeover(s);
  }

  lemma TwoClients(reach: State -> bool, a: Addr, b: Addr) returns (s: State)
    requires LeadsOn(reach, _ => true) && a != b && forall s | LockReachable(s) :: reach(s)
    ensures reach(s) && Idle(s) && a in s.world.table && b in s.world.table && s.world.groups == map[]
  {
    assert LockRun([START_LOCKS]) && [START_LOCKS][|[START_LOCKS]| - 1] == START_LOCKS;
    s := HandlerReturns(reach, START_LOCKS, Dtls(a));
    s := HandlerReturns(reach, s, Dtls(b));
  }

  lemma SecondSender(reach: State -> bool, s: State, g: nat, a: Addr, b: Addr) returns (s': State)
    requires LeadsOn(reach, _ => true) && reach(s) && Idle(s) && a != b
    requires a in s.world.table && b in s.world.table && s.world.groups == map[]
    ensures reach(s') && s'.actor.Takeover?
  {
    s' := HandlerReturns(reach, s, GroupId(g, a, true));
    GroupKeepsInv(s.world, g, a, true);
    assert LastSender(s'.world.groups, g, b) == a;
    s' := TakeoverIsReached(reach, _ => true, s', GroupId(g, b, true));
  }
}
