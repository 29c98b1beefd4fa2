/** The client table, the groups and the forwarding edges as values
    (src/client/actor.rs, src/client/group.rs, src/client/clients.rs).

    A client object outlives its entry in the table: other clients' `receivers` maps keep
    pointing at it. So clients are incarnations, numbered in order of creation, and an address
    that is deleted and used again names a new incarnation. */
module Routing {
  import opened Base
  import opened Wire
  import opened Media
  import opened Renumbering

  type Id = nat

  /** The routing fields of one client. `home` is the address it was created for and `streams`
      counts the outgoing streams attached for it; the source keeps neither, they are history. */
  datatype ClientVal = ClientVal(
    home: Addr, deleted: bool, dtlsConnected: bool, streams: nat,
    receivers: map<Addr, Id>, senderAddr: Option<Addr>,
    media: Option<MediaTable>, runtimes: Runtimes)

  datatype World = World(heap: seq<ClientVal>, table: map<Addr, Id>, groups: map<nat, Addr>)

  const EMPTY_WORLD := World([], map[], map[])

  function NewClient(a: Addr): ClientVal {
    ClientVal(a, false, false, 0, map[], None, None, map[])
  }

  /** Every incarnation number mentioned is one that exists. */
  ghost predicate InBounds(w: World) {
    && (forall a <- w.table :: w.table[a] < |w.heap|)
    && (forall i, b | 0 <= i < |w.heap| && b in w.heap[i].receivers :: w.heap[i].receivers[b] < |w.heap|)
  }

  // ---------------------------------------------------------------------
  // Handlers
  // ---------------------------------------------------------------------

  /** entry(addr).or_default(), then attach the outgoing stream unless that was done before. */
  function DtlsStep(w: World, a: Addr): World
    requires InBounds(w)
  {
    AttachStream(if a in w.table then w else AddClient(w, a), a)
  }

  function AddClient(w: World, a: Addr): World {
    w.(heap := w.heap + [NewClient(a)], table := w.table[a := |w.heap|])
  }

  function AttachStream(w: World, a: Addr): World
    requires a in w.table && w.table[a] < |w.heap|
  {
    var i := w.table[a];
    var c := w.heap[i];
    if c.dtlsConnected then w
    else w.(heap := w.heap[i := c.(dtlsConnected := true, streams := c.streams + 1)])
  }

  function Surviving(heap: seq<ClientVal>, receivers: map<Addr, Id>): map<Addr, Id>
    requires forall b <- receivers :: receivers[b] < |heap|
  {
    map b | b in receivers && !heap[receivers[b]].deleted :: receivers[b]
  }

  /** Out of the table and out of the groups it sends to, and flagged. */
  function Unlink(w: World, a: Addr): World
    requires a in w.table && w.table[a] < |w.heap|
  {
    var i := w.table[a];
    World(w.heap[i := w.heap[i].(deleted := true)], w.table - {a}, RemoveSender(w.groups, a))
  }

  /** Drops the edges of a client that lead to deleted ones. */
  function PruneEdges(w: World, i: Id): World
    requires InBounds(w) && i < |w.heap|
  {
    SetEdges(w, i, Surviving(w.heap, w.heap[i].receivers))
  }

  function DeleteStep(w: World, a: Addr): World
    requires InBounds(w)
  {
    if a !in w.table then w else PruneEdges(Unlink(w, a), w.table[a])
  }

  function RemoveSender(groups: map<nat, Addr>, a: Addr): map<nat, Addr> {
    map g | g in groups && groups[g] != a :: groups[g]
  }

  /** The previous sender of the group, or the caller when there was none. */
  function LastSender(groups: map<nat, Addr>, g: nat, a: Addr): Addr {
    if g in groups then groups[g] else a
  }

  function InsertOrGetSender(groups: map<nat, Addr>, g: nat, a: Addr, isSender: bool): map<nat, Addr> {
    if isSender || g !in groups then groups[g := a] else groups
  }

  function SetSender(w: World, i: Id, a: Addr): World
    requires i < |w.heap|
  {
    w.(heap := w.heap[i := w.heap[i].(senderAddr := Some(a))])
  }

  function SetEdges(w: World, i: Id, edges: map<Addr, Id>): World
    requires i < |w.heap|
  {
    w.(heap := w.heap[i := w.heap[i].(receivers := edges)])
  }

  function AddEdge(w: World, s: Id, a: Addr, r: Id): World
    requires s < |w.heap|
  {
    SetEdges(w, s, w.heap[s].receivers[a := r])
  }

  /** `r` joins `s`: it learns the sender's address and becomes one of its receivers. */
  function Attach(w: World, s: Id, r: Id, last: Addr, a: Addr): World
    requires s < |w.heap| && r < |w.heap|
  {
    AddEdge(SetSender(w, r, last), s, a, r)
  }

  /** The receivers that stay when `a` takes over. */
  function Kept(w: World, s: Id, a: Addr): map<Addr, Id>
    requires s < |w.heap|
  {
    map b | b in w.heap[s].receivers && b != a :: w.heap[s].receivers[b]
  }

  /** A new sender takes over from `s`: every remaining receiver of `s` learns the new address.
      The source requests a read guard on the map it already holds for writing here; this is the
      intended effect, with the map read under the one guard. */
  function TakeOver(w: World, s: Id, a: Addr): World
    requires s < |w.heap|
  {
    SetEdges(Told(w, Kept(w, s, a).Values, a), s, Kept(w, s, a))
  }

  /** These clients learn a new sender address. */
  function Told(w: World, ids: set<Id>, a: Addr): World {
    w.(heap := seq(|w.heap|, i requires 0 <= i < |w.heap| =>
      if i in ids then w.heap[i].(senderAddr := Some(a)) else w.heap[i]))
  }

  function GroupStep(w: World, g: nat, a: Addr, isSender: bool): World
    requires InBounds(w)
  {
    RouteStep(w.(groups := InsertOrGetSender(w.groups, g, a, isSender)), LastSender(w.groups, g, a), a, isSender)
  }

  /** What becomes of the edges once the group table has answered with the last sender. */
  function RouteStep(w: World, last: Addr, a: Addr, isSender: bool): World
    requires InBounds(w)
  {
    if last == a && !isSender then w
    else if a in w.table && last in w.table then
      if last != a && isSender then TakeOver(w, w.table[last], a)
      else Attach(w, w.table[last], w.table[a], last, a)
    else w
  }

  /** Runtimes for the frequencies that have none yet; `seeds` are their random start values. */
  function WithRuntimes(rts: Runtimes, frequencies: set<u32>, seeds: Runtimes): Runtimes {
    map f | f in rts.Keys + frequencies ::
      if f in rts then rts[f]
      else if f in seeds then seeds[f]
      else Runtime(None, 1, None, 1, 0, 0)
  }

  function InsertRuntimes(w: World, i: Id, media: MediaTable, seeds: Runtimes): World
    requires i < |w.heap|
  {
    var c := w.heap[i];
    w.(heap := w.heap[i := c.(runtimes := WithRuntimes(c.runtimes, media.Frequencies(), seeds))])
  }

  function PublishMedia(w: World, i: Id, media: MediaTable): World
    requires i < |w.heap|
  {
    w.(heap := w.heap[i := w.heap[i].(media := Some(media))])
  }

  /** First the runtimes, then the media list that makes their frequencies visible. */
  function MediaStep(w: World, a: Addr, media: MediaTable, seeds: Runtimes): World
    requires InBounds(w)
  {
    if a !in w.table then w
    else PublishMedia(InsertRuntimes(w, w.table[a], media, seeds), w.table[a], media)
  }

  datatype Event =
    | Dtls(addr: Addr)
    | Delete(addr: Addr)
    | GroupId(group: nat, addr: Addr, isSender: bool)
    | MediaAddr(addr: Addr, media: MediaTable, seeds: Runtimes)

  function Step(w: World, e: Event): World
    requires InBounds(w)
  {
    match e
    case Dtls(a) => DtlsStep(w, a)
    case Delete(a) => DeleteStep(w, a)
    case GroupId(g, a, isSender) => GroupStep(w, g, a, isSender)
    case MediaAddr(a, media, seeds) => MediaStep(w, a, media, seeds)
  }

  // ---------------------------------------------------------------------
  // Who receives what
  // ---------------------------------------------------------------------

  /** The fan-out filter: edges of `i` whose incarnation is not flagged deleted. */
  function FanOut(w: World, i: Id): map<Addr, Id>
    requires InBounds(w) && i < |w.heap|
  {
    Surviving(w.heap, w.heap[i].receivers)
  }

  /** Where RTCP of a client without receivers goes back to. */
  function RtcpReturn(w: World, i: Id): Option<Addr>
    requires i < |w.heap|
  {
    match w.heap[i].senderAddr
    case Some(s) => if w.heap[i].receivers == map[] && s in w.table then Some(s) else None
    case None => None
  }

  // ---------------------------------------------------------------------
  // The table invariant
  // ---------------------------------------------------------------------

  /** The table holds exactly the undeleted incarnations, each under its own address; every edge
      leads to an incarnation of the address it is filed under. */
  ghost predicate TableInv(w: World) {
    && InBounds(w)
    && (forall a <- w.table :: w.heap[w.table[a]].home == a && !w.heap[w.table[a]].deleted)
    && (forall i | 0 <= i < |w.heap| && !w.heap[i].deleted ::
          w.heap[i].home in w.table && w.table[w.heap[i].home] == i)
    && (forall i, b | 0 <= i < |w.heap| && b in w.heap[i].receivers ::
          w.heap[w.heap[i].receivers[b]].home == b)
  }

  /** And every incarnation has its outgoing stream attached exactly once. */
  ghost predicate Inv(w: World) {
    TableInv(w) && forall i | 0 <= i < |w.heap| :: w.heap[i].dtlsConnected && w.heap[i].streams == 1
  }

  lemma DtlsKeepsInv(w: World, a: Addr)
    requires Inv(w)
    ensures Inv(DtlsStep(w, a))
  {
    if a !in w.table {
      AddClientKeepsTable(w, a);
    }
  }

  /** The first datagram from an address creates a client there, without any routes, and attaches its
      stream; any other leaves a connected client as it is. */
  lemma DtlsEffect(w: World, a: Addr)
    requires Inv(w)
    ensures var w' := DtlsStep(w, a);
            && w'.groups == w.groups
            && if a in w.table then w' == w
               else
                 && w'.table == w.table[a := |w.heap|] && |w'.heap| == |w.heap| + 1
                 && (forall i | 0 <= i < |w.heap| :: w'.heap[i] == w.heap[i])
                 && w'.heap[|w.heap|] == ClientVal(a, false, true, 1, map[], None, None, map[])
  {
  }

  lemma AddClientKeepsTable(w: World, a: Addr)
    requires TableInv(w) && a !in w.table
    ensures TableInv(AddClient(w, a))
  {
  }

  /** Deletion flags one client and thins out its edges; every other client is as before. */
  lemma DeleteEffect(w: World, a: Addr)
    requires InBounds(w) && a in w.table
    ensures var w', i := DeleteStep(w, a), w.table[a];
            && |w'.heap| == |w.heap| && w'.table == w.table - {a}
            && (forall j | 0 <= j < |w.heap| && j != i :: w'.heap[j] == w.heap[j])
            && w'.heap[i] == w.heap[i].(deleted := true, receivers := w'.heap[i].receivers)
            && (forall b <- w'.heap[i].receivers ::
                  b in w.heap[i].receivers && w'.heap[i].receivers[b] == w.heap[i].receivers[b])
            && (forall b <- w.heap[i].receivers ::
                  b in w'.heap[i].receivers <==> !w'.heap[w.heap[i].receivers[b]].deleted)
  {
  }

  lemma UnlinkKeepsInv(w: World, a: Addr)
    requires Inv(w) && a in w.table
    ensures Inv(Unlink(w, a)) && Grows(w, Unlink(w, a))
  {
    UnlinkKeepsTable(w, a);
  }

  lemma UnlinkKeepsTable(w: World, a: Addr)
    requires TableInv(w) && a in w.table
    ensures TableInv(Unlink(w, a))
  {
    var w', i := Unlink(w, a), w.table[a];
    assert forall j | 0 <= j < |w.heap| && j != i :: w'.heap[j] == w.heap[j];
  }

  lemma DeleteKeepsInv(w: World, a: Addr)
    requires Inv(w)
    ensures Inv(DeleteStep(w, a))
  {
    if a in w.table {
      DeleteEffect(w, a);
    }
  }

  /** Group messages change edges and sender addresses and nothing else about a client. */
  ghost predicate RoutesOnly(w: World, w': World) {
    && w'.table == w.table && |w'.heap| == |w.heap|
    && forall i | 0 <= i < |w.heap| ::
         w'.heap[i] == w.heap[i].(receivers := w'.heap[i].receivers, senderAddr := w'.heap[i].senderAddr)
  }

  /** Every edge of w' is an edge of w, or the one from `s` to `r` filed under `a`. */
  ghost predicate EdgesFrom(w: World, w': World, s: Id, r: Id, a: Addr) {
    && |w'.heap| == |w.heap|
    && forall i, b | 0 <= i < |w.heap| && b in w'.heap[i].receivers ::
         || (b in w.heap[i].receivers && w'.heap[i].receivers[b] == w.heap[i].receivers[b])
         || (i == s && b == a && w'.heap[i].receivers[b] == r)
  }

  lemma AttachEffect(w: World, s: Id, r: Id, last: Addr, a: Addr)
    requires s < |w.heap| && r < |w.heap|
    ensures var w' := Attach(w, s, r, last, a);
            && RoutesOnly(w, w') && EdgesFrom(w, w', s, r, a)
            && forall i | 0 <= i < |w.heap| ::
                 w'.heap[i].senderAddr == if i == r then Some(last) else w.heap[i].senderAddr
  {
  }

  lemma TakeOverEffect(w: World, s: Id, a: Addr)
    requires s < |w.heap|
    ensures var w' := TakeOver(w, s, a);
            && RoutesOnly(w, w')
            && (forall i | 0 <= i < |w.heap| && i != s :: w'.heap[i].receivers == w.heap[i].receivers)
            && w'.heap[s].receivers == w.heap[s].receivers - {a}
            && forall i | 0 <= i < |w.heap| ::
                 w'.heap[i].senderAddr ==
                 if exists b :: b in w.heap[s].receivers && b != a && w.heap[s].receivers[b] == i
                 then Some(a) else w.heap[i].senderAddr
  {
    var kept := Kept(w, s, a);
    assert kept == w.heap[s].receivers - {a};
    forall i | 0 <= i < |w.heap|
      ensures i in kept.Values <==> exists b :: b in w.heap[s].receivers && b != a && w.heap[s].receivers[b] == i
    {
      if b :| b in w.heap[s].receivers && b != a && w.heap[s].receivers[b] == i {
        assert b in kept && kept[b] == i;
      }
    }
  }

  lemma GroupKeepsInv(w: World, g: nat, a: Addr, isSender: bool)
    requires Inv(w)
    ensures Inv(GroupStep(w, g, a, isSender))
    ensures RoutesOnly(w, GroupStep(w, g, a, isSender))
  {
    var last := LastSender(w.groups, g, a);
    var w1 := w.(groups := InsertOrGetSender(w.groups, g, a, isSender));
    var w' := GroupStep(w, g, a, isSender);
    if (last == a && !isSender) || a !in w.table || last !in w.table {
      assert w' == w1;
    } else if last != a && isSender {
      TakeOverEffect(w1, w.table[last], a);
      RoutesKeepInv(w1, w', w.table[last], w.table[a], a);
    } else {
      AttachEffect(w1, w.table[last], w.table[a], last, a);
      RoutesKeepInv(w1, w', w.table[last], w.table[a], a);
    }
  }

  lemma RoutesKeepInv(w: World, w': World, s: Id, r: Id, a: Addr)
    requires Inv(w) && RoutesOnly(w, w') && r < |w.heap| && w.heap[r].home == a && EdgesFrom(w, w', s, r, a)
    ensures Inv(w')
  {
  }

  /** Every edge leads to an incarnation of the address it is filed under. */
  ghost predicate EdgesExist(w: World, edges: map<Addr, Id>) {
    forall b <- edges :: edges[b] < |w.heap| && w.heap[edges[b]].home == b
  }

  /** Equal but for sender address, media list, runtimes and edges. */
  predicate SameIdentity(c: ClientVal, d: ClientVal) {
    d == c.(receivers := d.receivers, senderAddr := d.senderAddr, media := d.media, runtimes := d.runtimes)
  }

  /** Replacing one client by one with the same identity. */
  lemma UpdateKeepsInv(w: World, i: Id, c: ClientVal)
    requires Inv(w) && i < |w.heap| && EdgesExist(w, c.receivers) && SameIdentity(w.heap[i], c)
    ensures Inv(w.(heap := w.heap[i := c]))
  {
  }

  /** A media list replaces the one before; runtimes are added for new frequencies and the existing
      ones, with the numbering in progress, are kept. */
  lemma MediaEffect(w: World, a: Addr, media: MediaTable, seeds: Runtimes)
    requires InBounds(w) && a in w.table
    ensures var w', i := MediaStep(w, a, media, seeds), w.table[a];
            && w'.table == w.table && w'.groups == w.groups && |w'.heap| == |w.heap|
            && (forall j | 0 <= j < |w.heap| && j != i :: w'.heap[j] == w.heap[j])
            && w'.heap[i] == w.heap[i].(media := Some(media), runtimes := w'.heap[i].runtimes)
            && w'.heap[i].runtimes.Keys == w.heap[i].runtimes.Keys + media.Frequencies()
            && (forall f <- w.heap[i].runtimes :: w'.heap[i].runtimes[f] == w.heap[i].runtimes[f])
            && (forall f <- media.Frequencies() :: f !in w.heap[i].runtimes && f in seeds ==>
                  w'.heap[i].runtimes[f] == seeds[f])
  {
  }

  lemma MediaKeepsInv(w: World, a: Addr, media: MediaTable, seeds: Runtimes)
    requires Inv(w)
    ensures Inv(MediaStep(w, a, media, seeds))
  {
    if a in w.table {
      MediaEffect(w, a, media, seeds);
      var i, w' := w.table[a], MediaStep(w, a, media, seeds);
      assert EdgesExist(w, w.heap[i].receivers);
      UpdateKeepsInv(w, i, w'.heap[i]);
      assert w'.heap == w.heap[i := w'.heap[i]];
    }
  }

  lemma StepKeepsInv(w: World, e: Event)
    requires Inv(w)
    ensures Inv(Step(w, e))
  {
    match e
    case Dtls(a) => DtlsKeepsInv(w, a);
    case Delete(a) => DeleteKeepsInv(w, a);
    case GroupId(g, a, isSender) => GroupKeepsInv(w, g, a, isSender);
    case MediaAddr(a, media, seeds) => MediaKeepsInv(w, a, media, seeds);
  }

  /** The world after a run of events. */
  ghost function Run(w: World, es: seq<Event>): (r: World)
    requires Inv(w)
    ensures Inv(r)
  {
    if es == [] then w
    else
      var before := Run(w, es[..|es| - 1]);
      StepKeepsInv(before, es[|es| - 1]);
      Step(before, es[|es| - 1])
  }

  // ---------------------------------------------------------------------
  // Stale edges
  // ---------------------------------------------------------------------

  /** The filter selects an edge exactly when its incarnation is the one the table holds now. */
  lemma FanOutIsLive(w: World, i: Id, b: Addr)
    requires Inv(w) && i < |w.heap|
    ensures b in FanOut(w, i) <==>
            b in w.heap[i].receivers && b in w.table && w.table[b] == w.heap[i].receivers[b]
  {
  }

  /** Incarnations are never removed or renamed, and a deleted one stays deleted. */
  ghost predicate Grows(w: World, w': World) {
    && |w.heap| <= |w'.heap|
    && (forall i | 0 <= i < |w.heap| :: w'.heap[i].home == w.heap[i].home)
    && (forall i | 0 <= i < |w.heap| :: w.heap[i].deleted ==> w'.heap[i].deleted)
    && (forall i | 0 <= i < |w.heap| :: w.heap[i].runtimes.Keys <= w'.heap[i].runtimes.Keys)
  }

  lemma StepGrows(w: World, e: Event)
    requires Inv(w)
    ensures Grows(w, Step(w, e))
  {
    if e.GroupId? {
      GroupKeepsInv(w, e.group, e.addr, e.isSender);
    }
  }

  lemma {:induction false} RunGrows(w: World, es: seq<Event>)
    requires Inv(w)
    ensures Grows(w, Run(w, es))
  {
    if es != [] {
      RunGrows(w, es[..|es| - 1]);
      StepGrows(Run(w, es[..|es| - 1]), es[|es| - 1]);
    }
  }

  /** Stale edges never revive: whatever happens after an incarnation is deleted, including its
      address being used again, no fan-out of any client selects it. */
  lemma StaleEdgesNeverRevive(w: World, es: seq<Event>, stale: Id, i: Id, b: Addr)
    requires Inv(w) && stale < |w.heap| && w.heap[stale].deleted
    requires i < |Run(w, es).heap| && b in FanOut(Run(w, es), i)
    ensures FanOut(Run(w, es), i)[b] != stale
  {
    RunGrows(w, es);
  }
}
