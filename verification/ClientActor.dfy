/** The objects behind the routing machine: clients that are shared and updated in place, the
    group table, and the handlers of ClientActor. Each handler is proved to do to the object graph
    exactly what the corresponding step does to a World. */
module ClientObjects {
  import opened Base
  import opened Wire
  import opened Media
  import opened Renumbering
  import opened JitterEstimate
  import opened Routing

  class Client {
    /** Which incarnation this is and the address it was created for. */
    ghost const id: Id
    ghost const home: Addr

    var deleted: bool
    var dtlsConnected: bool
    ghost var streams: nat
    var receivers: map<Addr, Client>
    var senderAddr: Option<Addr>
    var media: Option<MediaTable>
    var runtimes: Runtimes
    var jitter: Stats

    constructor (ghost id: Id, ghost home: Addr, now: nat)
      ensures this.id == id && this.home == home
      ensures Shows(NewClient(home))
      ensures jitter == Stats(START_MS, now)
    {
      this.id, this.home := id, home;
      deleted, dtlsConnected, streams := false, false, 0;
      receivers, senderAddr, media, runtimes := map[], None, None, map[];
      jitter := Stats(50, now);
    }

    /** This object holds exactly the fields of `v`; edges are object references here and
        incarnation numbers there. */
    ghost predicate Shows(v: ClientVal)
      reads this
    {
      && v.home == home && v.deleted == deleted && v.dtlsConnected == dtlsConnected && v.streams == streams
      && v.senderAddr == senderAddr && v.media == media && v.runtimes == runtimes
      && v.receivers.Keys == receivers.Keys
      && forall b <- receivers :: receivers[b].id == v.receivers[b]
    }
  }

  /** src/client/group.rs */
  class Group {
    var storage: map<nat, Addr>

    constructor ()
      ensures storage == map[]
    {
      storage := map[];
    }

    method InsertOrGetSenderInPlace(group: nat, addr: Addr, isSender: bool) returns (last: Addr)
      modifies this
      ensures last == if group in old(storage) then old(storage)[group] else addr
      ensures group in storage && storage[group] == if isSender then addr else last
      ensures forall g | g != group :: g in storage <==> g in old(storage)
      ensures forall g <- storage | g != group :: storage[g] == old(storage)[g]
    {
      if isSender {
        last := if group in storage then storage[group] else addr;
        storage := storage[group := addr];
      } else {
        if group !in storage {
          storage := storage[group := addr];
        }
        last := storage[group];
      }
    }

    method RemoveSenderInPlace(addr: Addr)
      modifies this
      ensures addr !in storage.Values
      ensures forall g :: g in storage <==> g in old(storage) && old(storage)[g] != addr
      ensures forall g <- storage :: storage[g] == old(storage)[g]
    {
      storage := map g | g in storage && storage[g] != addr :: storage[g];
    }
  }

  /** Incarnation numbers index the list of all clients, so distinct entries are distinct objects. */
  ghost predicate Owned(heap: seq<Client>, c: Client) {
    c.id < |heap| && heap[c.id] == c
  }

  ghost predicate EdgesOwned(heap: seq<Client>, c: Client)
    reads c
  {
    forall b <- c.receivers :: Owned(heap, c.receivers[b])
  }

  /** The objects hold exactly these values, and every edge leads to a listed object. */
  ghost predicate Shown(heap: seq<Client>, vals: seq<ClientVal>)
    reads heap
  {
    && |heap| == |vals|
    && forall i | 0 <= i < |heap| ::
         heap[i].id == i && heap[i].Shows(vals[i]) && EdgesOwned(heap, heap[i])
  }

  /** All clients but one hold their values; that one holds a new value. */
  lemma ShownUpdate(heap: seq<Client>, vals: seq<ClientVal>, c: Client, v: ClientVal)
    requires |heap| == |vals| && Owned(heap, c)
    requires forall i | 0 <= i < |heap| :: heap[i].id == i
    requires forall i | 0 <= i < |heap| && heap[i] != c :: heap[i].Shows(vals[i]) && EdgesOwned(heap, heap[i])
    requires c.Shows(v) && EdgesOwned(heap, c)
    ensures Shown(heap, vals[c.id := v])
  {
  }

  /** A client's receivers are deleted exactly if their values say so. */
  lemma ReceiversShown(heap: seq<Client>, vals: seq<ClientVal>, c: Client)
    requires Shown(heap, vals) && Owned(heap, c)
    ensures c.Shows(vals[c.id]) && EdgesOwned(heap, c)
    ensures forall b <- c.receivers ::
              vals[c.id].receivers[b] < |vals| && c.receivers[b].deleted == vals[vals[c.id].receivers[b]].deleted
  {
    forall b | b in c.receivers
      ensures c.receivers[b].deleted == vals[c.receivers[b].id].deleted
    {
      assert Owned(heap, c.receivers[b]) && heap[c.receivers[b].id].Shows(vals[c.receivers[b].id]);
    }
  }

  lemma ShownInBounds(heap: seq<Client>, w: World)
    requires Shown(heap, w.heap) && forall a <- w.table :: w.table[a] < |heap|
    ensures InBounds(w)
  {
    forall i, b | 0 <= i < |w.heap| && b in w.heap[i].receivers
      ensures w.heap[i].receivers[b] < |w.heap|
    {
      assert heap[i].Shows(w.heap[i]) && EdgesOwned(heap, heap[i]);
      assert Owned(heap, heap[i].receivers[b]);
    }
  }

  class ClientActor {
    var table: map<Addr, Client>
    const groups: Group

    /** Every client ever created, in order, and the world the objects stand for. */
    ghost var heap: seq<Client>
    ghost var world: World

    ghost predicate TableShown()
      reads this
    {
      && table.Keys == world.table.Keys
      && forall a <- table :: Owned(heap, table[a]) && table[a].id == world.table[a]
    }

    ghost predicate Valid()
      reads this, groups, heap
    {
      && Shown(heap, world.heap)
      && TableShown()
      && groups.storage == world.groups
      && InBounds(world)
    }

    constructor ()
      ensures Valid() && world == EMPTY_WORLD && fresh(groups)
    {
      table, heap, world := map[], [], EMPTY_WORLD;
      groups := new Group();
    }

    method HandleDtls(addr: Addr, now: nat)
      requires Valid()
      modifies this, heap
      ensures Valid() && world == DtlsStep(old(world), addr)
      ensures old(heap) <= heap && fresh(heap[|old(heap)|..])
    {
      if addr !in table {
        Create(addr, now);
      }
      AttachOnce(addr);
    }

    method Create(addr: Addr, now: nat)
      requires Valid() && addr !in table
      modifies this
      ensures Valid() && world == AddClient(old(world), addr) && addr in table
      ensures fresh(table[addr]) && heap == old(heap) + [table[addr]]
    {
      var c := new Client(|heap|, addr, now);
      table := table[addr := c];
      heap := heap + [c];
      world := AddClient(world, addr);
    }

    method AttachOnce(addr: Addr)
      requires Valid() && addr in table
      modifies this`world, table[addr]
      ensures Valid() && world == AttachStream(old(world), addr)
    {
      assert table[addr].Shows(world.heap[table[addr].id]);
      if !table[addr].dtlsConnected {
        Connect(table[addr]);
      }
    }

    /** Attaches the outgoing stream. */
    method Connect(c: Client)
      requires Valid() && Owned(heap, c)
      modifies this`world, c
      ensures Valid()
      ensures var v := old(world).heap[c.id];
              world == old(world).(heap := old(world).heap[c.id := v.(dtlsConnected := true, streams := v.streams + 1)])
    {
      ghost var v := world.heap[c.id];
      assert c.Shows(v) && EdgesOwned(heap, c);
      c.streams := c.streams + 1;
      c.dtlsConnected := true;
      v := v.(dtlsConnected := true, streams := v.streams + 1);
      ShownUpdate(heap, world.heap, c, v);
      Changed(c, v);
    }

    /** Records in `world` what was just done to the object `c`. */
    ghost method Changed(c: Client, v: ClientVal)
      requires Owned(heap, c) && TableShown() && groups.storage == world.groups
      requires |heap| == |world.heap| && Shown(heap, world.heap[c.id := v])
      modifies this`world
      ensures Valid() && world == old(world).(heap := old(world).heap[c.id := v])
    {
      world := world.(heap := world.heap[c.id := v]);
      ShownInBounds(heap, world);
    }

    method HandleDelete(addr: Addr) returns (ok: bool)
      requires Valid()
      modifies this, groups, heap
      ensures ok && Valid() && world == DeleteStep(old(world), addr) && heap == old(heap)
    {
      if addr in table {
        var client := Forget(addr);
        Flag(client);
        Prune(client);
      }
      return true;
    }

    /** Takes the address out of the table and out of the groups it sends to. */
    method Forget(addr: Addr) returns (client: Client)
      requires Valid() && addr in table
      modifies this`table, this`world, groups
      ensures Valid() && Owned(heap, client) && client.id == old(world).table[addr]
      ensures world == old(world).(table := old(world).table - {addr}, groups := RemoveSender(old(world).groups, addr))
    {
      client := table[addr];
      table := table - {addr};
      groups.RemoveSenderInPlace(addr);
      assert groups.storage == RemoveSender(world.groups, addr);
      world := world.(table := world.table - {addr}, groups := groups.storage);
    }

    method Flag(c: Client)
      requires Valid() && Owned(heap, c)
      modifies this`world, c
      ensures Valid()
      ensures world == old(world).(heap := old(world).heap[c.id := old(world).heap[c.id].(deleted := true)])
    {
      ghost var v := world.heap[c.id];
      assert c.Shows(v) && EdgesOwned(heap, c);
      c.deleted := true;
      v := v.(deleted := true);
      ShownUpdate(heap, world.heap, c, v);
      Changed(c, v);
    }

    /** Drops the edges of `c` that lead to deleted clients. */
    method Prune(c: Client)
      requires Valid() && Owned(heap, c)
      modifies this`world, c
      ensures Valid()
      ensures world == old(world).(heap := old(world).heap[c.id := old(world).heap[c.id].(
                receivers := Surviving(old(world).heap, old(world).heap[c.id].receivers))])
    {
      ReceiversShown(heap, world.heap, c);
      var kept := map b | b in c.receivers && !c.receivers[b].deleted :: c.receivers[b];
      Keep(c, kept, Surviving(world.heap, world.heap[c.id].receivers));
    }

    method HandleGroupId(group: nat, addr: Addr, isSender: bool)
      requires Valid()
      modifies this, groups, heap
      ensures Valid() && world == GroupStep(old(world), group, addr, isSender) && heap == old(heap)
    {
      var last := Announce(group, addr, isSender);
      Route(last, addr, isSender);
    }

    /** The part of the handler after the group table is left. */
    method Route(last: Addr, addr: Addr, isSender: bool)
      requires Valid()
      modifies this`world, heap
      ensures Valid() && world == RouteStep(old(world), last, addr, isSender)
    {
      if last == addr && !isSender {
        return;
      }
      if addr in table && last in table {
        if last != addr && isSender {
          Redirect(table[last], addr);
        } else {
          Join(table[last], table[addr], last, addr);
        }
      }
    }

    method Announce(group: nat, addr: Addr, isSender: bool) returns (last: Addr)
      requires Valid()
      modifies this`world, groups
      ensures Valid() && last == LastSender(old(world).groups, group, addr)
      ensures world == old(world).(groups := InsertOrGetSender(old(world).groups, group, addr, isSender))
    {
      last := groups.InsertOrGetSenderInPlace(group, addr, isSender);
      assert groups.storage == InsertOrGetSender(world.groups, group, addr, isSender);
      world := world.(groups := groups.storage);
    }

    method Join(sender: Client, receiver: Client, last: Addr, addr: Addr)
      requires Valid() && Owned(heap, sender) && Owned(heap, receiver)
      modifies this`world, sender, receiver
      ensures Valid() && world == Attach(old(world), sender.id, receiver.id, last, addr)
    {
      ghost var v := world.heap[receiver.id];
      assert receiver.Shows(v) && EdgesOwned(heap, receiver);
      receiver.senderAddr := Some(last);
      v := v.(senderAddr := Some(last));
      ShownUpdate(heap, world.heap, receiver, v);
      Changed(receiver, v);
      AddEdge(sender, receiver, addr);
    }

    method AddEdge(sender: Client, receiver: Client, addr: Addr)
      requires Valid() && Owned(heap, sender) && Owned(heap, receiver)
      modifies this`world, sender
      ensures Valid()
      ensures world == Routing.AddEdge(old(world), sender.id, addr, receiver.id)
    {
      ghost var v := world.heap[sender.id];
      assert sender.Shows(v) && EdgesOwned(heap, sender);
      sender.receivers := sender.receivers[addr := receiver];
      v := v.(receivers := v.receivers[addr := receiver.id]);
      ShownUpdate(heap, world.heap, sender, v);
      Changed(sender, v);
    }

    /** The takeover: one guard on the map, every receiver that stays is told the new address. */
    method Redirect(sender: Client, addr: Addr)
      requires Valid() && Owned(heap, sender)
      modifies this`world, heap
      ensures Valid() && world == TakeOver(old(world), sender.id, addr)
    {
      ReceiversShown(heap, world.heap, sender);
      var kept := map b | b in sender.receivers && b != addr :: sender.receivers[b];
      ghost var ids := Kept(world, sender.id, addr);
      Tell(kept, ids, addr);
      Keep(sender, kept, ids);
    }

    method Tell(receivers: map<Addr, Client>, ghost ids: map<Addr, Id>, addr: Addr)
      requires Valid() && receivers.Keys == ids.Keys
      requires forall b <- receivers :: Owned(heap, receivers[b]) && receivers[b].id == ids[b]
      modifies this`world, receivers.Values`senderAddr
      ensures Valid() && world == Told(old(world), ids.Values, addr)
    {
      forall c | c in receivers.Values {
        c.senderAddr := Some(addr);
      }
      forall i | 0 <= i < |heap|
        ensures heap[i].Shows(Told(world, ids.Values, addr).heap[i]) && EdgesOwned(heap, heap[i])
      {
        assert old(heap[i].Shows(world.heap[i]) && EdgesOwned(heap, heap[i]));
        SameReceivers(receivers, ids, heap[i]);
      }
      world := Told(world, ids.Values, addr);
      ShownInBounds(heap, world);
    }

    method Keep(sender: Client, kept: map<Addr, Client>, ghost ids: map<Addr, Id>)
      requires Valid() && Owned(heap, sender) && kept.Keys == ids.Keys
      requires forall b <- kept :: Owned(heap, kept[b]) && kept[b].id == ids[b]
      modifies this`world, sender
      ensures Valid()
      ensures world == old(world).(heap := old(world).heap[sender.id := old(world).heap[sender.id].(receivers := ids)])
    {
      ghost var v := world.heap[sender.id];
      assert sender.Shows(v);
      sender.receivers := kept;
      v := v.(receivers := ids);
      ShownUpdate(heap, world.heap, sender, v);
      Changed(sender, v);
    }

    lemma SameReceivers(kept: map<Addr, Client>, ids: map<Addr, Id>, c: Client)
      requires kept.Keys == ids.Keys && Owned(heap, c)
      requires forall b <- kept :: Owned(heap, kept[b]) && kept[b].id == ids[b]
      ensures c in kept.Values <==> c.id in ids.Values
    {
      if c in kept.Values {
        var b :| b in kept && kept[b] == c;
        assert b in ids && ids[b] == c.id;
      }
      if c.id in ids.Values {
        var b :| b in ids && ids[b] == c.id;
        assert b in kept && kept[b] == c;
      }
    }

    method HandleMediaAddr(addr: Addr, media: MediaTable, seeds: Runtimes)
      requires Valid()
      modifies this`world, heap
      ensures Valid() && world == MediaStep(old(world), addr, media, seeds)
    {
      if addr in table {
        AddRuntimes(table[addr], media.Frequencies(), seeds);
        Publish(table[addr], media);
      }
    }

    method AddRuntimes(c: Client, frequencies: set<u32>, seeds: Runtimes)
      requires Valid() && Owned(heap, c)
      modifies this`world, c
      ensures Valid()
      ensures var v := old(world).heap[c.id];
              world == old(world).(heap := old(world).heap[c.id :=
                v.(runtimes := WithRuntimes(v.runtimes, frequencies, seeds))])
    {
      ghost var v := world.heap[c.id];
      assert c.Shows(v) && EdgesOwned(heap, c);
      c.runtimes := WithRuntimes(c.runtimes, frequencies, seeds);
      v := v.(runtimes := c.runtimes);
      ShownUpdate(heap, world.heap, c, v);
      Changed(c, v);
    }

    method Publish(c: Client, media: MediaTable)
      requires Valid() && Owned(heap, c)
      modifies this`world, c
      ensures Valid()
      ensures world == old(world).(heap := old(world).heap[c.id := old(world).heap[c.id].(media := Some(media))])
    {
      ghost var v := world.heap[c.id];
      assert c.Shows(v) && EdgesOwned(heap, c);
      c.media := Some(media);
      v := v.(media := Some(media));
      ShownUpdate(heap, world.heap, c, v);
      Changed(c, v);
    }
  }
}
