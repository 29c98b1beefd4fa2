/** ClientActor, its spawned handshake tasks and any number of RtcActor threads, interleaved.

    Whatever two parties can observe of each other is a step of its own: a handler of ClientActor
    is one step per write to a shared object, a handshake task and an RTP thread are one step per
    lock or flag they look at. Locks other than the connection state only make steps wait; leaving
    them out allows more interleavings, never fewer. */
module Interleaving {
  import opened Base
  import opened Wire
  import opened Media
  import opened RtpCore
  import opened Renumbering
  import opened Routing
  import opened FanOutSpec
  import opened Connection

  // ---------------------------------------------------------------------
  // State
  // ---------------------------------------------------------------------

  /** A write that the handler ClientActor is in has still to make. */
  datatype Write =
    | Flag(addr: Addr)                                // Delete: gone from the table, not flagged yet
    | Prune(c: Id)
    | Learn(c: Id, sender: Addr)                      // joining: the receiver's sender address
    | Add(s: Id, addr: Addr, c: Id)                   // and the sender's new edge
    | Tell(ids: set<Id>, sender: Addr)                // takeover: one receiver after the other
    | Keep(s: Id, edges: map<Addr, Id>)               // and the old sender's remaining edges
    | Equip(c: Id, media: MediaTable, seeds: Runtimes)
    | Publish(c: Id, media: MediaTable)

  /** The task spawned for one DTLS datagram. */
  datatype Task =
    | Started(c: Id)        // pushed the datagram, has not read the status yet
    | SawNew(c: Id)         // read status New, has called connect
    | Handshaking(c: Id)    // inside connect, holding the state lock
    | HasTransport(c: Id)   // connect returned a transport that is not stored yet
    | Over

  datatype Report = Forwarded | Unsupported | ClientNotReady | CodecNotSet | SrtpFailed

  type Codec = Option<(Name, u32)>

  /** What SRTP unprotects to; it keeps at least the fixed part of a header. */
  type Plain = s: Bytes | |s| >= 8 witness [0, 0, 0, 0, 0, 0, 0, 0]

  /** A packet ready to go out, and the turn that handles it: turns are numbered as they begin. */
  datatype Cargo = Cargo(turn: nat, rtcp: bool, message: Bytes)

  /** A thread inside RtcActor::handle. A fan-out has receivers it has not looked at, receivers the
      filter let through, and perhaps an error. */
  datatype Thread =
    | Looked(c: Id, turn: nat, header: RtpHeader, rtcp: bool)
    | MediaRead(c: Id, turn: nat, header: RtpHeader, rtcp: bool, codec: Codec)
    | Decrypted(c: Id, turn: nat, header: RtpHeader, rtcp: bool, codec: Codec, plain: Plain)
    | Prepared(c: Id, cargo: Cargo)
    | Fanning(c: Id, cargo: Cargo, edges: map<Addr, Id>, chosen: map<Addr, Id>, failed: Option<Report>)
    | Returning(c: Id, cargo: Cargo, sender: Addr)
    | Answering(c: Id, cargo: Cargo, sender: Addr, dst: Id)
    | Finished(report: Report)

  /** A client chosen for, or sent, what `src` submitted. */
  datatype Hop = Hop(src: Id, cargo: Cargo, dst: Addr, dstId: Id)

  /** A packet that was renumbered: in which turn, whose it was, and the bytes it was given. */
  datatype Entry = Entry(turn: nat, src: Id, packet: Packet, message: Bytes)

  /** The rest is history: the messages ClientActor has taken up, the number of turns begun, the
      targets the fan-out filter and the return path have chosen, the targets a packet was protected
      for and sent to, and the packets renumbered, in the order of the runtime lock. */
  datatype System = System(
    world: World, pending: seq<Write>, conns: seq<Conn>, tasks: map<nat, Task>, threads: map<nat, Thread>,
    handled: seq<Event>, turns: nat, picks: seq<Hop>, sends: seq<Hop>, log: seq<Entry>)

  const START := System(EMPTY_WORLD, [], [], map[], map[], [], 0, [], [], [])

  datatype Label =
    | Actor(event: Event, spawned: nat)
    | Work(choice: Id)
    | ReadStatus(task: nat)
    | CallConnect(task: nat, sslOk: bool)
    | Finish(task: nat, handshakeOk: bool)
    | Store(task: nat)
    | Look(thread: nat, addr: Addr, message: Bytes)
    | ReadMedia(thread: nat)
    | Decrypt(thread: nat, plain: Option<Plain>)
    | ReplaceMeta(thread: nat, now: nat)
    | OpenReceivers(thread: nat)
    | Filter(thread: nat, dst: Addr)
    | Protect(thread: nat, dst: Addr, srtpOk: bool)
    | Conclude(thread: nat)
    | Resolve(thread: nat)
    | Answer(thread: nat, srtpOk: bool)

  predicate OfTask(l: Label) {
    l.ReadStatus? || l.CallConnect? || l.Finish? || l.Store?
  }

  /** Steps of a thread after it has looked up its client. */
  predicate OfThread(l: Label) {
    || l.ReadMedia? || l.Decrypt? || l.ReplaceMeta? || l.OpenReceivers?
    || l.Filter? || l.Protect? || l.Conclude? || l.Resolve? || l.Answer?
  }

  /** Every number stored anywhere is the number of an existing client. */
  ghost predicate Bounded(s: System) {
    && Inv(s.world) && |s.conns| == |s.world.heap| && PendingOk(s.world, s.pending)
    && (forall t <- s.tasks :: !s.tasks[t].Over? ==> s.tasks[t].c < |s.world.heap|)
    && (forall h <- s.threads :: ThreadOk(s.world, s.threads[h]))
  }

  ghost predicate ThreadOk(w: World, t: Thread) {
    || t.Finished?
    || (&& t.c < |w.heap|
        && (t.Fanning? ==> EdgesExist(w, t.edges) && EdgesExist(w, t.chosen) && t.failed != Some(Forwarded))
        && (t.Answering? ==> t.dst < |w.heap| && w.heap[t.dst].home == t.sender))
  }

  ghost predicate PendingOk(w: World, pending: seq<Write>) {
    && |pending| <= 2
    && forall n | 0 <= n < |pending| :: WriteOk(w, pending[n]) && (pending[n].Flag? ==> n == 0)
  }

  ghost predicate WriteOk(w: World, x: Write) {
    match x
    case Flag(a) => a in w.table
    case Prune(i) => i < |w.heap|
    case Learn(i, _) => i < |w.heap|
    case Add(s, a, i) => s < |w.heap| && i < |w.heap| && w.heap[i].home == a
    case Tell(ids, _) => forall i <- ids :: i < |w.heap|
    case Keep(s, edges) => s < |w.heap| && EdgesExist(w, edges)
    case Equip(i, _, _) => i < |w.heap|
    case Publish(i, _) => i < |w.heap|
  }

  // ---------------------------------------------------------------------
  // ClientActor, write by write; a label that is not enabled leaves the system as it is
  // ---------------------------------------------------------------------

  /** What a handler does at once: create a client, or change the groups nobody else can see. */
  function Begun(w: World, e: Event): World
    requires InBounds(w)
  {
    match e
    case Dtls(a) => DtlsStep(w, a)
    case GroupId(g, a, isSender) => w.(groups := InsertOrGetSender(w.groups, g, a, isSender))
    case _ => w
  }

  /** And the writes that follow. */
  ghost function Program(w: World, e: Event): seq<Write>
    requires InBounds(w)
  {
    match e
    case Dtls(_) => []
    case Delete(a) => if a in w.table then [Flag(a), Prune(w.table[a])] else []
    case GroupId(g, a, _) =>
      if !Routed(w, e) then []
      else if TakesOver(w, e) then
        var kept := Kept(w, Target(w, e), a);
        [Tell(kept.Values, a), Keep(Target(w, e), kept)]
      else [Learn(w.table[a], LastSender(w.groups, g, a)), Add(Target(w, e), a, w.table[a])]
    case MediaAddr(a, media, seeds) =>
      if a in w.table then [Equip(w.table[a], media, seeds), Publish(w.table[a], media)] else []
  }

  ghost function ActorStep(s: System, e: Event, spawned: nat): System
    requires Bounded(s)
  {
    if s.pending != [] || (e.Dtls? && spawned in s.tasks) then s
    else
      var w := Begun(s.world, e);
      var s1 := s.(world := w, pending := Program(s.world, e), handled := s.handled + [e]);
      if !e.Dtls? then s1
      else
        var conns := if |w.heap| > |s.world.heap| then s.conns + [NEW_CONN] else s.conns;
        s1.(conns := conns, tasks := s.tasks[spawned := Started(w.table[e.addr])])
  }

  /** One write. A takeover tells one of the receivers, whichever the hash map yields next. */
  ghost function Perform(w: World, x: Write, choice: Id): World
    requires InBounds(w) && WriteOk(w, x)
  {
    match x
    case Flag(a) => Unlink(w, a)
    case Prune(i) => PruneEdges(w, i)
    case Learn(i, a) => SetSender(w, i, a)
    case Add(s, a, i) => AddEdge(w, s, a, i)
    case Tell(ids, a) => if choice in ids then SetSender(w, choice, a) else w
    case Keep(s, edges) => SetEdges(w, s, edges)
    case Equip(i, media, seeds) => InsertRuntimes(w, i, media, seeds)
    case Publish(i, media) => PublishMedia(w, i, media)
  }

  ghost function Left(pending: seq<Write>, choice: Id): seq<Write>
    requires pending != []
  {
    if pending[0].Tell? && pending[0].ids != {}
    then [Tell(pending[0].ids - {choice}, pending[0].sender)] + pending[1..]
    else pending[1..]
  }

  ghost function WorkStep(s: System, choice: Id): System
    requires Bounded(s)
  {
    if s.pending == [] then s
    else s.(world := Perform(s.world, s.pending[0], choice), pending := Left(s.pending, choice))
  }

  /** The table as other threads find it: Delete takes its address out before anything else. */
  ghost function Found(s: System): map<Addr, Id> {
    if s.pending != [] && s.pending[0].Flag? then s.world.table - {s.pending[0].addr} else s.world.table
  }

  // ---------------------------------------------------------------------
  // Handshake tasks
  // ---------------------------------------------------------------------

  /** A task and its connection after a step; the state lock must be free for all but its holder. */
  function TaskMove(t: Task, conn: Conn, l: Label): (Task, Conn)
    requires OfTask(l) && !t.Over?
  {
    match l
    case ReadStatus(_) =>
      if !t.Started? || conn.locked then (t, conn)
      else (if conn.status == New then SawNew(t.c) else Over, conn)
    case CallConnect(_, sslOk) =>
      if !t.SawNew? || conn.locked then (t, conn)
      else (if Enter(conn, sslOk).locked then Handshaking(t.c) else Over, Enter(conn, sslOk))
    case Finish(_, ok) =>
      if !t.Handshaking? then (t, conn)
      else (if ok then HasTransport(t.c) else Over, Leave(conn, ok))
    case Store(_) =>
      if !t.HasTransport? then (t, conn)
      else (Over, conn.(srtp := true))
  }

  ghost function TaskStep(s: System, l: Label): System
    requires Bounded(s) && OfTask(l)
  {
    if l.task !in s.tasks || s.tasks[l.task].Over? then s
    else
      var c := s.tasks[l.task].c;
      var m := TaskMove(s.tasks[l.task], s.conns[c], l);
      s.(tasks := s.tasks[l.task := m.0], conns := s.conns[c := m.1])
  }

  // ---------------------------------------------------------------------
  // RTP threads
  // ---------------------------------------------------------------------

  /** What the media list says about a payload type. */
  function CodecOf(media: Option<MediaTable>, payload: u8): Codec {
    match media
    case None => None
    case Some(m) =>
      if m.GetName(payload).Some? && m.GetFrequency(payload).Some?
      then Some((m.GetName(payload).value, m.GetFrequency(payload).value)) else None
  }

  ghost function LookStep(s: System, h: nat, a: Addr, message: Bytes): System
    requires Bounded(s)
  {
    if (h in s.threads && !s.threads[h].Finished?) || a !in Found(s) then s
    else
      var header := FromBuf(message);
      if header.None? then s.(threads := s.threads[h := Finished(Unsupported)])
      else
        s.(threads := s.threads[h := Looked(Found(s)[a], s.turns, header.value, IsRtcp(message))],
           turns := s.turns + 1)
  }

  /** Reading the media list. */
  function AfterMedia(w: World, t: Thread): Thread
    requires t.Looked? && t.c < |w.heap|
  {
    MediaRead(t.c, t.turn, t.header, t.rtcp, if t.rtcp then None else CodecOf(w.heap[t.c].media, t.header.payload))
  }

  /** Unprotecting with the source's SRTP transport. */
  function AfterDecrypt(conns: seq<Conn>, t: Thread, plain: Option<Plain>): Thread
    requires t.MediaRead? && t.c < |conns|
  {
    if !conns[t.c].srtp then Finished(ClientNotReady)
    else if plain.None? then Finished(SrtpFailed)
    else if !t.rtcp && t.header.payload == 111 then Finished(Unsupported)
    else Decrypted(t.c, t.turn, t.header, t.rtcp, t.codec, plain.value)
  }

  /** Whether the packet has a codec, and that codec a runtime. */
  predicate HasRuntime(w: World, t: Thread)
    requires t.Decrypted? && t.c < |w.heap|
  {
    !t.rtcp && t.codec.Some? && t.codec.value.1 in w.heap[t.c].runtimes
  }

  /** The clock has not run backwards since the runtime was last used. */
  predicate ClockOk(w: World, t: Thread, now: nat)
    requires t.Decrypted? && t.c < |w.heap|
  {
    HasRuntime(w, t) ==>
      var rt := w.heap[t.c].runtimes[t.codec.value.1];
      rt.startedTime + rt.prevTimeDiff <= now
  }

  function PacketOf(t: Thread, now: nat): Packet
    requires t.Decrypted? && t.codec.Some?
  {
    Packet(t.codec.value.1, t.header, t.plain, now)
  }

  /** RTP goes on with new numbers, RTCP as it is. */
  function MessageOf(w: World, t: Thread, now: nat): Bytes
    requires t.Decrypted? && t.c < |w.heap| && ClockOk(w, t, now)
  {
    if !HasRuntime(w, t) then t.plain
    else
      var rt := Handle(w.heap[t.c].runtimes, PacketOf(t, now))[t.codec.value.1];
      Rewritten(t.plain, rt.serverSequence, rt.serverTs)
  }

  /** RTP without a runtime is refused; RTCP needs none. */
  function AfterMeta(w: World, t: Thread, now: nat): Thread
    requires t.Decrypted? && t.c < |w.heap| && ClockOk(w, t, now)
  {
    if !t.rtcp && !HasRuntime(w, t) then Finished(CodecNotSet)
    else Prepared(t.c, Cargo(t.turn, t.rtcp, MessageOf(w, t, now)))
  }

  function MetaWorld(w: World, t: Thread, now: nat): World
    requires t.Decrypted? && t.c < |w.heap| && ClockOk(w, t, now)
  {
    if !HasRuntime(w, t) then w
    else
      var client := w.heap[t.c];
      w.(heap := w.heap[t.c := client.(runtimes := Handle(client.runtimes, PacketOf(t, now)))])
  }

  function MetaLog(w: World, t: Thread, now: nat): seq<Entry>
    requires t.Decrypted? && t.c < |w.heap| && ClockOk(w, t, now)
  {
    if HasRuntime(w, t) then [Entry(t.turn, t.c, PacketOf(t, now), MessageOf(w, t, now))] else []
  }

  /** Choosing between fan-out and the RTCP return path. */
  function AfterOpen(w: World, t: Thread): Thread
    requires t.Prepared? && t.c < |w.heap|
  {
    var client := w.heap[t.c];
    if !(t.cargo.rtcp && client.receivers == map[]) then Fanning(t.c, t.cargo, client.receivers, map[], None)
    else if client.senderAddr.Some? then Returning(t.c, t.cargo, client.senderAddr.value)
    else Finished(Forwarded)
  }

  /** The filter looks at one receiver and drops it if it is deleted. */
  ghost function AfterFilter(w: World, t: Thread, b: Addr): Thread
    requires t.Fanning? && EdgesExist(w, t.edges)
  {
    if b !in t.edges then t
    else if w.heap[t.edges[b]].deleted then t.(edges := t.edges - {b})
    else t.(edges := t.edges - {b}, chosen := t.chosen[b := t.edges[b]])
  }

  ghost function FilterPicks(w: World, t: Thread, b: Addr): seq<Hop>
    requires t.Fanning? && EdgesExist(w, t.edges)
  {
    if b in t.edges && !w.heap[t.edges[b]].deleted then [Hop(t.c, t.cargo, b, t.edges[b])] else []
  }

  /** Protecting for a receiver the filter let through; without a transport that is an error. */
  ghost function AfterProtect(conns: seq<Conn>, t: Thread, b: Addr, ok: bool): Thread
    requires t.Fanning? && forall b <- t.chosen :: t.chosen[b] < |conns|
  {
    if b !in t.chosen then t
    else
      var rest := t.(chosen := t.chosen - {b});
      if conns[t.chosen[b]].srtp && ok then rest
      else if t.failed.Some? then rest
      else rest.(failed := Some(if conns[t.chosen[b]].srtp then SrtpFailed else ClientNotReady))
  }

  ghost function ProtectSends(conns: seq<Conn>, t: Thread, b: Addr, ok: bool): seq<Hop>
    requires t.Fanning? && forall b <- t.chosen :: t.chosen[b] < |conns|
  {
    if b in t.chosen && conns[t.chosen[b]].srtp && ok then [Hop(t.c, t.cargo, b, t.chosen[b])] else []
  }

  /** The fan-out ends when every receiver was dealt with, or early after an error. */
  function AfterConclude(t: Thread): Thread
    requires t.Fanning?
  {
    if t.failed.Some? then Finished(t.failed.value)
    else if t.edges == map[] && t.chosen == map[] then Finished(Forwarded)
    else t
  }

  /** The return path looks its sender up in the table. */
  function AfterResolve(found: map<Addr, Id>, t: Thread): Thread
    requires t.Returning?
  {
    if t.sender in found then Answering(t.c, t.cargo, t.sender, found[t.sender]) else Finished(Forwarded)
  }

  function ResolvePicks(found: map<Addr, Id>, t: Thread): seq<Hop>
    requires t.Returning?
  {
    if t.sender in found then [Hop(t.c, t.cargo, t.sender, found[t.sender])] else []
  }

  /** A sender without a transport gets nothing, and that is no error. */
  function AfterAnswer(conns: seq<Conn>, t: Thread, ok: bool): Thread
    requires t.Answering? && t.dst < |conns|
  {
    Finished(if conns[t.dst].srtp && !ok then SrtpFailed else Forwarded)
  }

  function AnswerSends(conns: seq<Conn>, t: Thread, ok: bool): seq<Hop>
    requires t.Answering? && t.dst < |conns|
  {
    if conns[t.dst].srtp && ok then [Hop(t.c, t.cargo, t.sender, t.dst)] else []
  }

  ghost function ThreadStep(s: System, l: Label): System
    requires Bounded(s) && OfThread(l)
  {
    if l.thread !in s.threads || s.threads[l.thread].Finished? then s
    else
      var h, t := l.thread, s.threads[l.thread];
      match l
      case ReadMedia(_) =>
        if t.Looked? then s.(threads := s.threads[h := AfterMedia(s.world, t)]) else s
      case Decrypt(_, plain) =>
        if t.MediaRead? then s.(threads := s.threads[h := AfterDecrypt(s.conns, t, plain)]) else s
      case ReplaceMeta(_, now) =>
        if t.Decrypted? && ClockOk(s.world, t, now)
        then s.(world := MetaWorld(s.world, t, now), threads := s.threads[h := AfterMeta(s.world, t, now)],
                log := s.log + MetaLog(s.world, t, now)) else s
      case OpenReceivers(_) =>
        if t.Prepared? then s.(threads := s.threads[h := AfterOpen(s.world, t)]) else s
      case Filter(_, b) =>
        if t.Fanning?
        then s.(threads := s.threads[h := AfterFilter(s.world, t, b)],
                picks := s.picks + FilterPicks(s.world, t, b)) else s
      case Protect(_, b, ok) =>
        if t.Fanning?
        then s.(threads := s.threads[h := AfterProtect(s.conns, t, b, ok)],
                sends := s.sends + ProtectSends(s.conns, t, b, ok)) else s
      case Conclude(_) =>
        if t.Fanning? then s.(threads := s.threads[h := AfterConclude(t)]) else s
      case Resolve(_) =>
        if t.Returning?
        then s.(threads := s.threads[h := AfterResolve(Found(s), t)],
                picks := s.picks + ResolvePicks(Found(s), t)) else s
      case Answer(_, ok) =>
        if t.Answering?
        then s.(threads := s.threads[h := AfterAnswer(s.conns, t, ok)],
                sends := s.sends + AnswerSends(s.conns, t, ok)) else s
  }

  ghost function Next(s: System, l: Label): System
    requires Bounded(s)
  {
    if OfTask(l) then TaskStep(s, l)
    else if OfThread(l) then ThreadStep(s, l)
    else if l.Look? then LookStep(s, l.thread, l.addr, l.message)
    else if l.Actor? then ActorStep(s, l.event, l.spawned)
    else WorkStep(s, l.choice)
  }

  // ---------------------------------------------------------------------
  // Bounds are kept, incarnations persist
  // ---------------------------------------------------------------------

  lemma NextKeepsBounds(s: System, l: Label)
    requires Bounded(s)
    ensures Bounded(Next(s, l)) && Grows(s.world, Next(s, l).world)
  {
    if OfTask(l) {
      TaskKeepsBounds(s, l);
    } else if OfThread(l) {
      ThreadKeepsBounds(s, l);
    } else if l.Look? {
      LookKeepsBounds(s, l.thread, l.addr, l.message);
    } else if l.Actor? {
      ActorKeepsBounds(s, l.event, l.spawned);
    } else {
      WorkKeepsBounds(s, l.choice);
    }
  }

  /** A growing world keeps threads and writes within bounds. */
  lemma GrowthKeepsBounds(w: World, w': World, threads: map<nat, Thread>, pending: seq<Write>)
    requires Grows(w, w') && forall h <- threads :: ThreadOk(w, threads[h])
    ensures forall h <- threads :: ThreadOk(w', threads[h])
    ensures PendingOk(w, pending) && w'.table == w.table ==> PendingOk(w', pending)
  {
  }

  lemma TaskKeepsBounds(s: System, l: Label)
    requires Bounded(s) && OfTask(l)
    ensures Bounded(TaskStep(s, l)) && TaskStep(s, l).world == s.world
  {
  }

  lemma LookKeepsBounds(s: System, h: nat, a: Addr, message: Bytes)
    requires Bounded(s)
    ensures Bounded(LookStep(s, h, a, message)) && LookStep(s, h, a, message).world == s.world
  {
  }

  lemma ThreadKeepsBounds(s: System, l: Label)
    requires Bounded(s) && OfThread(l)
    ensures Bounded(ThreadStep(s, l)) && Grows(s.world, ThreadStep(s, l).world)
  {
    if l.thread in s.threads {
      var t := s.threads[l.thread];
      assert ThreadOk(s.world, t);
      if l.ReplaceMeta? {
        if t.Decrypted? && ClockOk(s.world, t, l.now) {
          MetaKeepsBounds(s, l.thread, l.now);
        }
      } else {
        var s' := ThreadStep(s, l);
        ThreadStaysOk(s, l);
        assert s'.threads == s.threads[l.thread := s'.threads[l.thread]];
      }
    }
  }

  /** What a step makes of its thread is within bounds. */
  lemma ThreadStaysOk(s: System, l: Label)
    requires Bounded(s) && OfThread(l) && !l.ReplaceMeta? && l.thread in s.threads
    ensures l.thread in ThreadStep(s, l).threads && ThreadOk(s.world, ThreadStep(s, l).threads[l.thread])
  {
    var t := s.threads[l.thread];
    assert ThreadOk(s.world, t);
    if l.OpenReceivers? && t.Prepared? {
      assert EdgesExist(s.world, s.world.heap[t.c].receivers);
    }
  }

  lemma MetaKeepsBounds(s: System, h: nat, now: nat)
    requires Bounded(s) && h in s.threads && s.threads[h].Decrypted? && s.threads[h].c < |s.world.heap|
    requires ClockOk(s.world, s.threads[h], now)
    ensures Bounded(ThreadStep(s, ReplaceMeta(h, now))) && Grows(s.world, ThreadStep(s, ReplaceMeta(h, now)).world)
  {
    var t := s.threads[h];
    MetaKeepsInv(s.world, t, now);
    GrowthKeepsBounds(s.world, MetaWorld(s.world, t, now), s.threads, s.pending);
  }

  /** Renumbering touches the runtimes of one client and removes none. */
  lemma MetaKeepsInv(w: World, t: Thread, now: nat)
    requires Inv(w) && t.Decrypted? && t.c < |w.heap| && ClockOk(w, t, now)
    ensures var w' := MetaWorld(w, t, now);
            && Inv(w') && Grows(w, w') && w'.table == w.table && w'.groups == w.groups && |w'.heap| == |w.heap|
            && forall i | 0 <= i < |w.heap| ::
                 && w'.heap[i] == w.heap[i].(runtimes := w'.heap[i].runtimes)
                 && w'.heap[i].runtimes.Keys == w.heap[i].runtimes.Keys
  {
    assert EdgesExist(w, w.heap[t.c].receivers);
    UpdateKeepsInv(w, t.c, MetaWorld(w, t, now).heap[t.c]);
  }

  lemma ActorKeepsBounds(s: System, e: Event, spawned: nat)
    requires Bounded(s)
    ensures Bounded(ActorStep(s, e, spawned)) && Grows(s.world, ActorStep(s, e, spawned).world)
  {
    if s.pending == [] {
      BegunKeepsInv(s.world, e);
      ProgramIsOk(s.world, e);
      GrowthKeepsBounds(s.world, Begun(s.world, e), s.threads, []);
    }
  }

  /** Only a datagram from an unknown address creates a client, and it creates one. */
  lemma BegunKeepsInv(w: World, e: Event)
    requires Inv(w)
    ensures Inv(Begun(w, e)) && Grows(w, Begun(w, e))
    ensures |Begun(w, e).heap| == |w.heap| + (if e.Dtls? && e.addr !in w.table then 1 else 0)
    ensures e.Dtls? ==> e.addr in Begun(w, e).table
  {
    if e.Dtls? {
      DtlsKeepsInv(w, e.addr);
    }
  }

  lemma ProgramIsOk(w: World, e: Event)
    requires Inv(w)
    ensures PendingOk(Begun(w, e), Program(w, e))
  {
    if TakesOver(w, e) {
      var kept := Kept(w, Target(w, e), e.addr);
      assert EdgesExist(w, w.heap[Target(w, e)].receivers);
      assert EdgesExist(w, kept);
    }
  }

  lemma WorkKeepsBounds(s: System, choice: Id)
    requires Bounded(s)
    ensures Bounded(WorkStep(s, choice)) && Grows(s.world, WorkStep(s, choice).world)
  {
    if s.pending != [] {
      var x := s.pending[0];
      WriteKeepsInv(s.world, x, choice);
      var w' := Perform(s.world, x, choice);
      GrowthKeepsBounds(s.world, w', s.threads, []);
      LeftIsOk(s.world, w', s.pending, choice);
    }
  }

  lemma LeftIsOk(w: World, w': World, pending: seq<Write>, choice: Id)
    requires PendingOk(w, pending) && pending != [] && Grows(w, w')
    requires w'.table == w.table || pending[0].Flag?
    ensures PendingOk(w', Left(pending, choice))
  {
    forall n | 0 <= n < |Left(pending, choice)|
      ensures WriteOk(w', Left(pending, choice)[n]) && (Left(pending, choice)[n].Flag? ==> n == 0)
    {
      assert WriteOk(w, pending[0]);
      assert |pending| > 1 ==> WriteOk(w, pending[1]) && !pending[1].Flag?;
    }
  }

  /** Every single write keeps the table invariant. */
  lemma WriteKeepsInv(w: World, x: Write, choice: Id)
    requires Inv(w) && WriteOk(w, x)
    ensures var w' := Perform(w, x, choice);
            Inv(w') && Grows(w, w') && |w'.heap| == |w.heap| && (!x.Flag? ==> w'.table == w.table)
  {
    var w' := Perform(w, x, choice);
    if x.Flag? {
      UnlinkKeepsInv(w, x.addr);
    } else if w' != w {
      var i := WriteEffect(w, x, choice);
      UpdateKeepsInv(w, i, w'.heap[i]);
    }
  }

  /** Every write but a deletion replaces one client by one with the same identity. */
  lemma WriteEffect(w: World, x: Write, choice: Id) returns (i: Id)
    requires Inv(w) && WriteOk(w, x) && !x.Flag? && Perform(w, x, choice) != w
    ensures i < |w.heap| && |Perform(w, x, choice).heap| == |w.heap|
    ensures var w' := Perform(w, x, choice);
            var c, c' := w.heap[i], w'.heap[i];
            && w' == w.(heap := w.heap[i := c']) && EdgesExist(w, c'.receivers)
            && SameIdentity(c, c') && c.runtimes.Keys <= c'.runtimes.Keys
  {
    i := if x.Tell? then choice else if x.Add? || x.Keep? then x.s else x.c;
    ReceiversExist(w, i);
  }

  lemma ReceiversExist(w: World, i: Id)
    requires Inv(w) && i < |w.heap|
    ensures EdgesExist(w, w.heap[i].receivers)
  {
  }

  // ---------------------------------------------------------------------
  // Executions
  // ---------------------------------------------------------------------

  ghost predicate Linked(s: System, s': System) {
    Bounded(s) && exists l :: Next(s, l) == s'
  }

  ghost predicate LinkedAt(ss: seq<System>, i: nat)
    requires 0 < i < |ss|
  {
    Linked(ss[i - 1], ss[i])
  }

  /** Any interleaving that continues from `s`, as the sequence of its states. */
  ghost predicate Continues(s: System, ss: seq<System>) {
    ss != [] && ss[0] == s && forall i | 0 < i < |ss| :: LinkedAt(ss, i)
  }

  ghost predicate Execution(ss: seq<System>) {
    Continues(START, ss)
  }

  lemma LinkedKeepsBounds(s: System, s': System)
    requires Linked(s, s')
    ensures Bounded(s') && Grows(s.world, s'.world)
  {
    var l :| Next(s, l) == s';
    NextKeepsBounds(s, l);
  }

  /** Along an execution incarnations persist and deletion is for good. */
  lemma {:induction false} ExecutionGrows(ss: seq<System>, j: nat, k: nat)
    requires Execution(ss) && j <= k < |ss|
    ensures Grows(ss[j].world, ss[k].world)
  {
    if j < k {
      ExecutionGrows(ss, j, k - 1);
      assert LinkedAt(ss, k);
      LinkedKeepsBounds(ss[k - 1], ss[k]);
    }
  }

  /** Some interleaving leads from `from` to `s`. */
  ghost predicate ReachableFrom(from: System, s: System) {
    exists ss :: Continues(from, ss) && ss[|ss| - 1] == s
  }

  ghost predicate Reachable(s: System) {
    ReachableFrom(START, s)
  }

  lemma ReachableRun(s: System) returns (ss: seq<System>)
    requires Reachable(s)
    ensures Execution(ss) && ss[|ss| - 1] == s
  {
    ss :| Continues(START, ss) && ss[|ss| - 1] == s;
  }

  /** Extending an interleaving by one step. */
  lemma ReachableNext(from: System, s: System, l: Label)
    requires ReachableFrom(from, s) && Bounded(s)
    ensures ReachableFrom(from, Next(s, l))
  {
    var ss :| Continues(from, ss) && ss[|ss| - 1] == s;
    var longer := ss + [Next(s, l)];
    assert Linked(s, Next(s, l));
    forall i | 0 < i < |longer|
      ensures LinkedAt(longer, i)
    {
      if i < |ss| {
        assert LinkedAt(ss, i);
      }
    }
    assert Continues(from, longer) && longer[|longer| - 1] == Next(s, l);
  }

  /** A set of states that no step leaves. */
  ghost predicate Closed(reach: System -> bool) {
    && (forall s | reach(s) :: Bounded(s))
    && (forall s, l | reach(s) && Bounded(s) :: reach(Next(s, l)))
  }

  lemma ReachableFromClosed(from: System)
    requires Bounded(from)
    ensures Closed(s => ReachableFrom(from, s)) && ReachableFrom(from, from)
  {
    ReachableSelf(from);
    forall s | ReachableFrom(from, s)
      ensures Bounded(s)
    {
      var ss :| Continues(from, ss) && ss[|ss| - 1] == s;
      ContinuationBounded(from, ss, |ss| - 1);
    }
    forall s, l | ReachableFrom(from, s) && Bounded(s)
      ensures ReachableFrom(from, Next(s, l))
    {
      ReachableNext(from, s, l);
    }
  }

  lemma {:induction false} ContinuationBounded(from: System, ss: seq<System>, k: nat)
    requires Bounded(from) && Continues(from, ss) && k < |ss|
    ensures Bounded(ss[k])
  {
    if k > 0 {
      assert LinkedAt(ss, k);
      LinkedKeepsBounds(ss[k - 1], ss[k]);
    }
  }

  lemma ReachableSelf(s: System)
    ensures ReachableFrom(s, s)
  {
    assert Continues(s, [s]) && [s][|[s]| - 1] == s;
  }

  lemma ReachableStart()
    ensures Reachable(START)
  {
    ReachableSelf(START);
  }
}
