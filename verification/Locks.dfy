/** Lock acquisition of ClientActor and any number of RtcActor threads, as the source writes it. The
    fields of a client are each behind their own lock; a lock waits for holders in a conflicting
    mode, and a reader also waits for a writer that is already waiting, as parking_lot's fair locks
    do. Which locks a handler takes depends on its message and on the world it finds. */
module Locks {
  import opened Base
  import opened Routing
  import opened FanOutSpec
  import opened Isolation

  datatype Lock =
    | ClientTable
    | Receivers(c: Id)
    | SenderAddr(c: Id)
    | MediaList(c: Id)
    | Srtp(c: Id)
    | Runtimes(c: Id)
    | JitterStats(c: Id)

  /** A lock held or wanted; the two mutexes are only ever taken exclusively. */
  datatype Grip = Grip(lock: Lock, exclusive: bool)

  predicate Conflict(a: Grip, b: Grip) {
    a.lock == b.lock && (a.exclusive || b.exclusive)
  }

  // ---------------------------------------------------------------------
  // Where a handler can be
  // ---------------------------------------------------------------------

  /** src/client/actor.rs. A phase that wants a lock is about to acquire it. */
  datatype ActorPhase =
    | ActorIdle
    | Taken                                 // a message, before any lock
    | StoreTransport(c: Id)                 // a handshake task of this actor, line 98
    | InStoreTransport(c: Id)
    | TableWrite(deleting: bool)            // Dtls line 60, Delete line 165
    | InTableWrite(deleting: bool)
    | PruneWrite(c: Id)                     // Delete line 170
    | InPrune(c: Id)
    | GroupRead                             // GroupId line 194
    | InGroup
    | GroupReceivers(s: Id)                 // line 200
    | InGroupReceivers(s: Id)
    | GroupSender(s: Id, r: Id)             // line 214
    | InGroupSender(s: Id, r: Id)
    | Takeover(s: Id)                       // line 204: reads the map it is writing
    | MediaRead                             // MediaAddr line 229
    | InMedia
    | MediaRuntimes(c: Id)                  // line 230
    | InMediaRuntimes(c: Id)
    | MediaPublish(c: Id)                   // line 234
    | InMediaPublish(c: Id)

  /** src/client/rtc_actor.rs. */
  datatype ThreadPhase =
    | ThreadIdle
    | FindClient                            // line 54
    | InFindClient
    | ReadMedia(c: Id)                      // line 67
    | InReadMedia(c: Id)
    | Unprotect(c: Id)                      // line 79
    | InUnprotect(c: Id)
    | Renumber(c: Id)                       // line 99
    | InRenumber(c: Id)
    | Jitter(c: Id)                         // line 141
    | InJitter(c: Id)
    | OpenReceivers(c: Id)                  // line 159
    | InReceivers(c: Id)
    | ReadSender(c: Id)                     // line 162
    | InSender(c: Id)
    | FindSender(c: Id)                     // line 163
    | InFindSender(c: Id)
    | ProtectBack(c: Id, s: Id)             // line 164
    | InProtectBack(c: Id, s: Id)
    | Protect(c: Id, r: Id)                 // line 189
    | InProtect(c: Id, r: Id)

  function ActorWants(p: ActorPhase): Option<Grip> {
    match p
    case StoreTransport(c) => Some(Grip(Srtp(c), true))
    case TableWrite(_) => Some(Grip(ClientTable, true))
    case PruneWrite(c) => Some(Grip(Receivers(c), true))
    case GroupRead => Some(Grip(ClientTable, false))
    case GroupReceivers(s) => Some(Grip(Receivers(s), true))
    case GroupSender(_, r) => Some(Grip(SenderAddr(r), true))
    case Takeover(s) => Some(Grip(Receivers(s), false))
    case MediaRead => Some(Grip(ClientTable, false))
    case MediaRuntimes(c) => Some(Grip(Runtimes(c), true))
    case MediaPublish(c) => Some(Grip(MediaList(c), true))
    case _ => None
  }

  function ActorHolds(p: ActorPhase): set<Grip> {
    match p
    case InStoreTransport(c) => {Grip(Srtp(c), true)}
    case InTableWrite(_) => {Grip(ClientTable, true)}
    case InPrune(c) => {Grip(Receivers(c), true)}
    case InGroup => {Grip(ClientTable, false)}
    case GroupReceivers(_) => {Grip(ClientTable, false)}
    case InGroupReceivers(s) => {Grip(ClientTable, false), Grip(Receivers(s), true)}
    case GroupSender(s, _) => {Grip(ClientTable, false), Grip(Receivers(s), true)}
    case InGroupSender(s, r) => {Grip(ClientTable, false), Grip(Receivers(s), true), Grip(SenderAddr(r), true)}
    case Takeover(s) => {Grip(ClientTable, false), Grip(Receivers(s), true)}
    case InMedia => {Grip(ClientTable, false)}
    case MediaRuntimes(_) => {Grip(ClientTable, false)}
    case InMediaRuntimes(c) => {Grip(ClientTable, false), Grip(Runtimes(c), true)}
    case MediaPublish(c) => {Grip(ClientTable, false), Grip(Runtimes(c), true)}
    case InMediaPublish(c) => {Grip(ClientTable, false), Grip(Runtimes(c), true), Grip(MediaList(c), true)}
    case _ => {}
  }

  function ThreadWants(p: ThreadPhase): Option<Grip> {
    match p
    case FindClient => Some(Grip(ClientTable, false))
    case ReadMedia(c) => Some(Grip(MediaList(c), false))
    case Unprotect(c) => Some(Grip(Srtp(c), true))
    case Renumber(c) => Some(Grip(Runtimes(c), true))
    case Jitter(c) => Some(Grip(JitterStats(c), true))
    case OpenReceivers(c) => Some(Grip(Receivers(c), false))
    case ReadSender(c) => Some(Grip(SenderAddr(c), false))
    case FindSender(_) => Some(Grip(ClientTable, false))
    case ProtectBack(_, s) => Some(Grip(Srtp(s), true))
    case Protect(_, r) => Some(Grip(Srtp(r), true))
    case _ => None
  }

  function ThreadHolds(p: ThreadPhase): set<Grip> {
    match p
    case InFindClient => {Grip(ClientTable, false)}
    case InReadMedia(c) => {Grip(MediaList(c), false)}
    case InUnprotect(c) => {Grip(Srtp(c), true)}
    case InRenumber(c) => {Grip(Runtimes(c), true)}
    case Jitter(c) => {Grip(Runtimes(c), true)}
    case InJitter(c) => {Grip(Runtimes(c), true), Grip(JitterStats(c), true)}
    case InReceivers(c) => {Grip(Receivers(c), false)}
    case ReadSender(c) => {Grip(Receivers(c), false)}
    case InSender(c) => {Grip(Receivers(c), false), Grip(SenderAddr(c), false)}
    case FindSender(c) => {Grip(Receivers(c), false), Grip(SenderAddr(c), false)}
    case InFindSender(c) => {Grip(Receivers(c), false), Grip(SenderAddr(c), false), Grip(ClientTable, false)}
    case ProtectBack(c, _) => {Grip(Receivers(c), false), Grip(SenderAddr(c), false)}
    case InProtectBack(c, s) => {Grip(Receivers(c), false), Grip(SenderAddr(c), false), Grip(Srtp(s), true)}
    case Protect(c, _) => {Grip(Receivers(c), false)}
    case InProtect(c, r) => {Grip(Receivers(c), false), Grip(Srtp(r), true)}
    case _ => {}
  }

  /** Control flow of ClientActor: its handlers and the handshake tasks it runs in between. */
  predicate ActorEdge(p: ActorPhase, q: ActorPhase) {
    match p
    case ActorIdle => q.Taken? || q.StoreTransport?
    case Taken => q.ActorIdle? || q.TableWrite? || q.GroupRead? || q.MediaRead?
    case StoreTransport(c) => q == InStoreTransport(c)
    case InStoreTransport(_) => q.ActorIdle?
    case TableWrite(d) => q == InTableWrite(d)
    case InTableWrite(d) => q.ActorIdle? || (d && q.PruneWrite?)
    case PruneWrite(c) => q == InPrune(c)
    case InPrune(_) => q.ActorIdle?
    case GroupRead => q == InGroup
    case InGroup => q.ActorIdle? || q.GroupReceivers?
    case GroupReceivers(s) => q == InGroupReceivers(s)
    case InGroupReceivers(s) => q == Takeover(s) || (q.GroupSender? && q.s == s)
    case GroupSender(s, r) => q == InGroupSender(s, r)
    case InGroupSender(_, _) => q.ActorIdle?
    case Takeover(_) => false
    case MediaRead => q.InMedia?
    case InMedia => q.ActorIdle? || q.MediaRuntimes?
    case MediaRuntimes(c) => q == InMediaRuntimes(c)
    case InMediaRuntimes(c) => q == MediaPublish(c)
    case MediaPublish(c) => q == InMediaPublish(c)
    case InMediaPublish(_) => q.ActorIdle?
  }

  /** Control flow of RtcActor::handle. */
  predicate ThreadEdge(p: ThreadPhase, q: ThreadPhase) {
    match p
    case ThreadIdle => q.FindClient?
    case FindClient => q.InFindClient?
    case InFindClient => q.ThreadIdle? || q.ReadMedia? || q.Unprotect?
    case ReadMedia(c) => q == InReadMedia(c)
    case InReadMedia(c) => q == Unprotect(c)
    case Unprotect(c) => q == InUnprotect(c)
    case InUnprotect(c) => q.ThreadIdle? || q == Renumber(c) || q == OpenReceivers(c)
    case Renumber(c) => q == InRenumber(c)
    case InRenumber(c) => q.ThreadIdle? || q == Jitter(c)
    case Jitter(c) => q == InJitter(c)
    case InJitter(c) => q == OpenReceivers(c)
    case OpenReceivers(c) => q == InReceivers(c)
    case InReceivers(c) => q.ThreadIdle? || q == ReadSender(c) || (q.Protect? && q.c == c)
    case ReadSender(c) => q == InSender(c)
    case InSender(c) => q.ThreadIdle? || q == FindSender(c)
    case FindSender(c) => q == InFindSender(c)
    case InFindSender(c) => q.ThreadIdle? || (q.ProtectBack? && q.c == c)
    case ProtectBack(c, s) => q == InProtectBack(c, s)
    case InProtectBack(_, _) => q.ThreadIdle?
    case Protect(c, r) => q == InProtect(c, r)
    case InProtect(c, _) => q == InReceivers(c)
  }

  /** The table of held locks agrees with the control flow: an edge out of a phase that wants a
      lock adds exactly that lock, any other edge only lets go. */
  lemma ActorEdgeEffect(p: ActorPhase, q: ActorPhase)
    requires ActorEdge(p, q)
    ensures ActorWants(p).Some? ==> ActorHolds(q) == ActorHolds(p) + {ActorWants(p).value}
    ensures ActorWants(p).None? ==> ActorHolds(q) <= ActorHolds(p)
  {
  }

  lemma ThreadEdgeEffect(p: ThreadPhase, q: ThreadPhase)
    requires ThreadEdge(p, q)
    ensures ThreadWants(p).Some? ==> ThreadHolds(q) == ThreadHolds(p) + {ThreadWants(p).value}
    ensures ThreadWants(p).None? ==> ThreadHolds(q) <= ThreadHolds(p)
  {
  }

  // ---------------------------------------------------------------------
  // The system and its runs
  // ---------------------------------------------------------------------

  datatype Pid = ActorPid | ThreadPid(n: nat)

  /** `job` is the message ClientActor is handling and `world` what it finds; a handler that gets
      to its end has the effect of its step. */
  datatype State = State(actor: ActorPhase, threads: map<nat, ThreadPhase>, world: World, job: Option<Event>)

  predicate Runs(s: State, p: Pid) {
    p.ActorPid? || p.n in s.threads
  }

  function Wants(s: State, p: Pid): Option<Grip>
    requires Runs(s, p)
  {
    match p case ActorPid => ActorWants(s.actor) case ThreadPid(n) => ThreadWants(s.threads[n])
  }

  function Holds(s: State, p: Pid): set<Grip>
    requires Runs(s, p)
  {
    match p case ActorPid => ActorHolds(s.actor) case ThreadPid(n) => ThreadHolds(s.threads[n])
  }

  /** `p` waits for `q`: it wants a lock `q` holds in a conflicting mode, or wants to read a lock
      `q` is waiting to write. */
  ghost predicate WaitsFor(s: State, p: Pid, q: Pid) {
    && Runs(s, p) && Runs(s, q) && Wants(s, p).Some?
    && var g := Wants(s, p).value;
       || (exists h <- Holds(s, q) :: Conflict(g, h))
       || (!g.exclusive && q != p && Wants(s, q) == Some(Grip(g.lock, true)))
  }

  ghost predicate Blocked(s: State, p: Pid) {
    exists q :: WaitsFor(s, p, q)
  }

  /** The handler of a message returns. */
  ghost predicate Done(s: State, s': State, e: Event)
    requires InBounds(s.world)
  {
    s'.actor == ActorIdle && s'.job == None && s'.world == Step(s.world, e)
  }

  /** Where a handler goes from a phase that wants no lock, by its message and what it finds. */
  ghost predicate Branches(s: State, s': State, e: Event)
    requires InBounds(s.world)
  {
    var w, p, q := s.world, s.actor, s'.actor;
    match p
    case Taken =>
      (match e
       case Dtls(_) => q == TableWrite(false)
       case Delete(_) => q == TableWrite(true)
       case MediaAddr(_, _, _) => q == MediaRead
       case GroupId(g, a, isSender) =>
         if LastSender(w.groups, g, a) == a && !isSender then Done(s, s', e) else q == GroupRead)
    case InTableWrite(deleting) =>
      if deleting && e.addr in w.table then q == PruneWrite(w.table[e.addr]) else Done(s, s', e)
    case InGroup => if Routed(w, e) then q == GroupReceivers(Target(w, e)) else Done(s, s', e)
    case InGroupReceivers(c) =>
      if TakesOver(w, e) then q == Takeover(c) else e.addr in w.table && q == GroupSender(c, w.table[e.addr])
    case InMedia => if e.addr in w.table then q == MediaRuntimes(w.table[e.addr]) else Done(s, s', e)
    case InMediaRuntimes(c) => q == MediaPublish(c)
    case _ => Done(s, s', e)
  }

  /** ClientActor moves along its control flow: it takes up a message or a task when idle, acquires
      the lock it wants, or goes where its message takes it. */
  ghost predicate ActorMove(s: State, s': State)
    requires InBounds(s.world)
  {
    && ActorEdge(s.actor, s'.actor) && s'.threads == s.threads
    && (!Returns(s, s') ==> s'.world == s.world)
    && if s.actor.ActorIdle? then (s'.actor.Taken? <==> s'.job.Some?)
       else if s.actor.InStoreTransport? || ActorWants(s.actor).Some? then s'.job == s.job && s'.world == s.world
       else s.job.Some? && Branches(s, s', s.job.value) && (!Returns(s, s') ==> s'.job == s.job)
  }

  ghost predicate Returns(s: State, s': State) {
    s.job.Some? && s'.actor.ActorIdle?
  }

  /** One process follows one edge of its control flow, which needs its lock to be free. */
  ghost predicate Moves(s: State, s': State) {
    || (InBounds(s.world) && ActorMove(s, s') && !Blocked(s, ActorPid))
    || (exists n <- s.threads :: n in s'.threads && ThreadMove(s, s', n))
  }

  ghost predicate ThreadMove(s: State, s': State, n: nat)
    requires n in s.threads && n in s'.threads
  {
    && ThreadEdge(s.threads[n], s'.threads[n]) && !Blocked(s, ThreadPid(n))
    && s' == s.(threads := s.threads[n := s'.threads[n]])
  }

  ghost predicate Initial(s: State) {
    && s.actor.ActorIdle? && s.world == EMPTY_WORLD && s.job == None
    && forall n <- s.threads :: s.threads[n].ThreadIdle?
  }

  /** No lock is held by two processes in conflicting modes. */
  ghost predicate Exclusive(s: State) {
    forall p, q, g, h |
      Runs(s, p) && Runs(s, q) && p != q && g in Holds(s, p) && h in Holds(s, q) :: !Conflict(g, h)
  }

  lemma MoveKeepsExclusive(s: State, s': State)
    requires Exclusive(s) && Moves(s, s')
    ensures Exclusive(s')
  {
    if InBounds(s.world) && ActorMove(s, s') && !Blocked(s, ActorPid) {
      ActorEdgeEffect(s.actor, s'.actor);
      AcquireKeepsExclusive(s, s', ActorPid);
    } else {
      var n :| n in s.threads && n in s'.threads && ThreadMove(s, s', n);
      ThreadEdgeEffect(s.threads[n], s'.threads[n]);
      AcquireKeepsExclusive(s, s', ThreadPid(n));
    }
  }

  /** Taking a lock nobody holds against, or letting go. */
  lemma AcquireKeepsExclusive(s: State, s': State, p: Pid)
    requires Exclusive(s) && Runs(s, p) && Runs(s', p) && !Blocked(s, p)
    requires forall q :: Runs(s', q) <==> Runs(s, q)
    requires forall q | Runs(s, q) && q != p :: Holds(s', q) == Holds(s, q)
    requires Holds(s', p) <= Holds(s, p) || (Wants(s, p).Some? && Holds(s', p) == Holds(s, p) + {Wants(s, p).value})
    ensures Exclusive(s')
  {
    forall q, g, h | Runs(s', q) && p != q && g in Holds(s', p) && h in Holds(s', q)
      ensures !Conflict(g, h) && !Conflict(h, g)
    {
      assert !WaitsFor(s, p, q);
    }
  }

  ghost predicate MovesAt(ss: seq<State>, i: nat)
    requires 0 < i < |ss|
  {
    Moves(ss[i - 1], ss[i])
  }

  /** Any interleaving of the actor and its threads. */
  ghost predicate LockRun(ss: seq<State>) {
    ss != [] && Initial(ss[0]) && forall i | 0 < i < |ss| :: MovesAt(ss, i)
  }

  /** Mutual exclusion holds along every run. */
  lemma {:induction false} RunIsExclusive(ss: seq<State>, k: nat)
    requires LockRun(ss) && k < |ss|
    ensures Exclusive(ss[k])
  {
    if k > 0 {
      RunIsExclusive(ss, k - 1);
      assert MovesAt(ss, k);
      MoveKeepsExclusive(ss[k - 1], ss[k]);
    }
  }

  // ---------------------------------------------------------------------
  // No cyclic wait
  // ---------------------------------------------------------------------

  function ActorRank(p: ActorPhase): nat {
    match p
    case StoreTransport(_) => 1
    case TableWrite(_) => 1
    case MediaPublish(_) => 1
    case GroupRead => 1
    case MediaRead => 1
    case MediaRuntimes(_) => 2
    case GroupSender(_, _) => 3
    case GroupReceivers(_) => 5
    case PruneWrite(_) => 5
    case _ => 0
  }

  function ThreadRank(p: ThreadPhase): nat {
    match p
    case Unprotect(_) => 1
    case Jitter(_) => 1
    case ProtectBack(_, _) => 1
    case Protect(_, _) => 1
    case FindClient => 2
    case FindSender(_) => 2
    case ReadMedia(_) => 2
    case Renumber(_) => 2
    case ReadSender(_) => 4
    case OpenReceivers(_) => 6
    case _ => 0
  }

  function Rank(s: State, p: Pid): nat
    requires Runs(s, p)
  {
    match p case ActorPid => ActorRank(s.actor) case ThreadPid(n) => ThreadRank(s.threads[n])
  }

  /** Outside takeover, whoever is waited for is closer to running. */
  lemma WaitingDescends(s: State, p: Pid, q: Pid)
    requires WaitsFor(s, p, q) && !s.actor.Takeover?
    ensures Rank(s, q) < Rank(s, p)
  {
  }

  /** A chain of waits that returns to where it began. */
  ghost predicate Cycle(s: State, ps: seq<Pid>) {
    |ps| >= 2 && ps[0] == ps[|ps| - 1] && forall i | 0 < i < |ps| :: WaitsAt(s, ps, i)
  }

  ghost predicate WaitsAt(s: State, ps: seq<Pid>, i: nat)
    requires 0 < i < |ps|
  {
    WaitsFor(s, ps[i - 1], ps[i])
  }

  lemma {:induction false} ChainDescends(s: State, ps: seq<Pid>, k: nat)
    requires !s.actor.Takeover? && 0 < k < |ps| && forall i | 0 < i < |ps| :: WaitsAt(s, ps, i)
    ensures Runs(s, ps[0]) && Runs(s, ps[k]) && Rank(s, ps[k]) < Rank(s, ps[0])
  {
    assert WaitsAt(s, ps, k);
    WaitingDescends(s, ps[k - 1], ps[k]);
    if k > 1 {
      ChainDescends(s, ps, k - 1);
    }
  }

  /** No cyclic lock wait, exactly: whatever any number of threads are doing, a cycle of waits
      exists if and only if ClientActor is in the takeover branch, where it waits for itself. */
  lemma CyclicIffTakeover(s: State)
    ensures (exists ps :: Cycle(s, ps)) <==> s.actor.Takeover?
  {
    if ps :| Cycle(s, ps) {
      if !s.actor.Takeover? {
        ChainDescends(s, ps, |ps| - 1);
      }
    }
    if s.actor.Takeover? {
      var mine := Grip(Receivers(s.actor.s), true);
      assert mine in Holds(s, ActorPid) && Conflict(Wants(s, ActorPid).value, mine);
      assert WaitsFor(s, ActorPid, ActorPid);
      assert Cycle(s, [ActorPid, ActorPid]);
    }
  }

  /** Progress: outside takeover, following the waits of any blocked process leads to one that is
      inside a handler and not blocked. */
  lemma {:induction false} SomeoneCanRun(s: State, p: Pid) returns (q: Pid)
    requires Runs(s, p) && !s.actor.Takeover?
    ensures Runs(s, q) && !Blocked(s, q) && Rank(s, q) <= Rank(s, p)
    ensures if Blocked(s, p) then Holds(s, q) != {} || Wants(s, q).Some? else q == p
    decreases Rank(s, p)
  {
    if r :| WaitsFor(s, p, r) {
      WaitingDescends(s, p, r);
      assert Holds(s, r) != {} || Wants(s, r).Some?;
      q := SomeoneCanRun(s, r);
    } else {
      q := p;
    }
  }

  // ---------------------------------------------------------------------
  // Takeover, and what it means that the source never gets past it
  // ---------------------------------------------------------------------

  /** Phase, message and world fit together. */
  ghost predicate Fits(s: State) {
    && Inv(s.world)
    && (s.job.Some? <==> Handling(s.actor))
    && (s.job.Some? ==> PhaseFits(s.actor, s.world, s.job.value))
  }

  /** The phases a message can be in, given the world it finds. */
  ghost predicate PhaseFits(p: ActorPhase, w: World, e: Event) {
    match p
    case TableWrite(deleting) => if deleting then e.Delete? else e.Dtls?
    case InTableWrite(deleting) => if deleting then e.Delete? else e.Dtls?
    case PruneWrite(_) => e.Delete?
    case InPrune(_) => e.Delete?
    case GroupRead => e.GroupId?
    case InGroup => e.GroupId?
    case GroupReceivers(s) => Routed(w, e) && s == Target(w, e)
    case InGroupReceivers(s) => Routed(w, e) && s == Target(w, e)
    case GroupSender(s, _) => Routed(w, e) && s == Target(w, e) && !TakesOver(w, e)
    case InGroupSender(s, _) => Routed(w, e) && s == Target(w, e) && !TakesOver(w, e)
    case Takeover(s) => TakesOver(w, e) && s == Target(w, e)
    case Taken => true
    case _ => e.MediaAddr?
  }

  /** Whether the phase belongs to a handler. */
  predicate Handling(p: ActorPhase) {
    !p.ActorIdle? && !p.StoreTransport? && !p.InStoreTransport?
  }

  lemma AcquireFits(p: ActorPhase, q: ActorPhase, w: World, e: Event)
    requires ActorEdge(p, q) && ActorWants(p).Some? && Handling(p) && PhaseFits(p, w, e)
    ensures Handling(q) && PhaseFits(q, w, e)
  {
  }

  lemma BranchFits(s: State, s': State, e: Event)
    requires InBounds(s.world) && Handling(s.actor) && ActorWants(s.actor).None? && PhaseFits(s.actor, s.world, e)
    requires ActorEdge(s.actor, s'.actor) && Branches(s, s', e)
    ensures if s'.actor.ActorIdle? then Done(s, s', e) && !TakesOver(s.world, e)
            else Handling(s'.actor) && PhaseFits(s'.actor, s.world, e)
  {
  }

  /** Only a handler that returns changes the world, and one that takes over does not return. */
  lemma MoveKeepsFit(s: State, s': State)
    requires Fits(s) && Moves(s, s')
    ensures Fits(s')
    ensures s'.world == s.world
         || (&& s.job.Some? && s'.job == None
             && s'.world == Step(s.world, s.job.value) && !TakesOver(s.world, s.job.value))
  {
    if ActorMove(s, s') {
      if s.job.Some? {
        var e := s.job.value;
        if ActorWants(s.actor).Some? {
          AcquireFits(s.actor, s'.actor, s.world, e);
        } else {
          BranchFits(s, s', e);
          StepKeepsInv(s.world, e);
        }
      }
    } else {
      assert s'.actor == s.actor && s'.world == s.world && s'.job == s.job;
    }
  }

  lemma {:induction false} RunFits(ss: seq<State>, k: nat)
    requires LockRun(ss) && k < |ss|
    ensures Fits(ss[k])
  {
    if k > 0 {
      RunFits(ss, k - 1);
      assert MovesAt(ss, k);
      MoveKeepsFit(ss[k - 1], ss[k]);
    }
  }

  /** Along every run, a cyclic wait means that the message being handled makes a new sender take
      over; so as long as no message does, nobody ever waits in a circle. */
  lemma CyclicOnlyInTakeover(ss: seq<State>, k: nat)
    requires LockRun(ss) && k < |ss|
    ensures (exists ps :: Cycle(ss[k], ps)) ==> ss[k].job.Some? && TakesOver(ss[k].world, ss[k].job.value)
  {
    RunFits(ss, k);
    CyclicIffTakeover(ss[k]);
  }

  /** And every message that takes over leads there: with both clients' locks in hand the handler
      has no other way to go, and from there none at all. */
  lemma TakeoverIsForever(s: State, s': State)
    requires Fits(s) && Moves(s, s') && s.job.Some? && TakesOver(s.world, s.job.value)
    ensures s'.job == s.job && s'.world == s.world
    ensures s.actor.InGroupReceivers? && s'.actor != s.actor ==> s'.actor.Takeover?
    ensures s.actor.Takeover? ==> s'.actor == s.actor
  {
  }

  ghost predicate PermittedJobs(p: Policy, ss: seq<State>) {
    forall i | 0 <= i < |ss| && ss[i].job.Some? :: Permits(p, ss[i].job.value)
  }

  /** Isolation of the code as written: whatever the policy, as far as any run gets, every group
      entry, edge and return address stays between addresses that share a group. */
  lemma {:induction false} WrittenCodeIsIsolated(p: Policy, ss: seq<State>, k: nat)
    requires LockRun(ss) && PermittedJobs(p, ss) && k < |ss|
    ensures Isolated(p, ss[k].world)
  {
    if k > 0 {
      WrittenCodeIsIsolated(p, ss, k - 1);
      assert MovesAt(ss, k);
      RunFits(ss, k - 1);
      var s := ss[k - 1];
      MoveKeepsFit(s, ss[k]);
      if ss[k].world != s.world {
        StepKeepsEdges(p, s.world, s.job.value);
        StepKeepsReturns(p, s.world, s.job.value);
      }
    }
  }
}
