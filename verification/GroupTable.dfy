/** What the group table holds: who is found as the last sender of a group. */
module GroupTable {
  import opened Base
  import opened Routing

  function Holder(w: World, g: nat): Option<Addr> {
    if g in w.groups then Some(w.groups[g]) else None
  }

  /** The message puts its address into the group: a sender always does, a receiver if nobody is there. */
  predicate Announces(w: World, e: Event, g: nat) {
    e.GroupId? && e.group == g && (e.isSender || Holder(w, g) == None)
  }

  /** The message deletes the client at this address. */
  predicate Deletes(w: World, e: Event, a: Addr) {
    e == Delete(a) && a in w.table
  }

  /** One message: an announcement puts its address in, the deletion of the client at the address held
      takes it out, everything else leaves the group as it is. */
  lemma HolderStep(w: World, e: Event, g: nat)
    requires Inv(w)
    ensures Holder(Step(w, e), g) ==
            if Announces(w, e, g) then Some(e.addr)
            else if Holder(w, g).Some? && Deletes(w, e, Holder(w, g).value) then None
            else Holder(w, g)
  {
  }

  /** Who a group message is answered with: the holder before it, or its own address. */
  lemma LastSenderIsHolder(w: World, g: nat, a: Addr)
    ensures Some(LastSender(w.groups, g, a)) == if Holder(w, g) == None then Some(a) else Holder(w, g)
  {
  }

  /** What a message does that matters to a group: put an address in, or delete a client. */
  datatype Mark = Put(addr: Addr) | Gone(addr: Addr) | Other

  function MarkOf(w: World, e: Event, g: nat): Mark {
    if Announces(w, e, g) then Put(e.addr)
    else if e.Delete? && Deletes(w, e, e.addr) then Gone(e.addr)
    else Other
  }

  ghost function MarkAt(es: seq<Event>, g: nat, k: nat): Mark
    requires k < |es|
  {
    MarkOf(Run(EMPTY_WORLD, es[..k]), es[k], g)
  }

  /** The marks of a run, each in the world its message found. */
  ghost function Marks(es: seq<Event>, g: nat): seq<Mark> {
    seq(|es|, k requires 0 <= k < |es| => MarkAt(es, g, k))
  }

  lemma MarkOfFront(es: seq<Event>, g: nat, k: nat)
    requires k < |es| - 1
    ensures MarkAt(es[..|es| - 1], g, k) == MarkAt(es, g, k)
  {
    assert es[..|es| - 1][..k] == es[..k];
  }

  lemma MarksSnoc(es: seq<Event>, g: nat)
    requires es != []
    ensures Marks(es, g) == Marks(es[..|es| - 1], g) + [MarkAt(es, g, |es| - 1)]
  {
    var n := |es| - 1;
    forall k | 0 <= k < n
      ensures Marks(es, g)[k] == Marks(es[..n], g)[k]
    {
      MarkOfFront(es, g, k);
    }
  }

  /** Mark k put `a` in, and nobody was put in and `a` was not deleted since. */
  ghost predicate LastPut(marks: seq<Mark>, k: nat, a: Addr) {
    && k < |marks| && marks[k] == Put(a)
    && forall j | k < j < |marks| :: !marks[j].Put? && marks[j] != Gone(a)
  }

  ghost predicate HasLastPut(marks: seq<Mark>, a: Addr) {
    exists k: nat :: LastPut(marks, k, a)
  }

  lemma LastPutSnoc(marks: seq<Mark>, m: Mark, a: Addr)
    ensures HasLastPut(marks + [m], a) <==> m == Put(a) || (HasLastPut(marks, a) && !m.Put? && m != Gone(a))
  {
    var all, n := marks + [m], |marks|;
    if m == Put(a) {
      assert LastPut(all, n, a);
    }
    if k: nat :| LastPut(all, k, a) && m != Put(a) {
      assert forall j | k < j < n :: marks[j] == all[j];
      assert LastPut(marks, k, a) && all[n] == m;
    }
    if k: nat :| LastPut(marks, k, a) && !m.Put? && m != Gone(a) {
      assert forall j | k < j < |all| :: j == n || all[j] == marks[j];
      assert LastPut(all, k, a);
    }
  }

  /** Over every run, a group is held by exactly the address that was announced there last, if its
      client has not been deleted since; otherwise it is empty. */
  lemma {:induction false} HolderIff(es: seq<Event>, g: nat, a: Addr)
    ensures Holder(Run(EMPTY_WORLD, es), g) == Some(a) <==> HasLastPut(Marks(es, g), a)
  {
    if es != [] {
      var front, e := es[..|es| - 1], es[|es| - 1];
      HolderIff(front, g, a);
      var w := Run(EMPTY_WORLD, front);
      HolderStep(w, e, g);
      MarksSnoc(es, g);
      LastPutSnoc(Marks(front, g), MarkOf(w, e, g), a);
    }
  }
}
