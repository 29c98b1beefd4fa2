/** The routing machine as its users see it: who gets whose RTP and where RTCP goes back to. */
module FanOutSpec {
  import opened Base
  import opened Media
  import opened Renumbering
  import opened Routing

  /** A group message that finds both its address and the group's last sender in the table. */
  ghost predicate Routed(w: World, e: Event) {
    && e.GroupId? && e.addr in w.table
    && var last := LastSender(w.groups, e.group, e.addr);
       last in w.table && (last != e.addr || e.isSender)
  }

  /** The client whose receivers such a message changes. */
  ghost function Target(w: World, e: Event): Id
    requires Routed(w, e)
  {
    w.table[LastSender(w.groups, e.group, e.addr)]
  }

  ghost predicate TakesOver(w: World, e: Event) {
    Routed(w, e) && e.isSender && LastSender(w.groups, e.group, e.addr) != e.addr
  }

  /** The simple form: `b` receives from client `i` after an event if it did before and was not
      deleted; joining the sender's group adds it, taking over from that sender removes it. */
  ghost predicate ReceivesAfter(w: World, e: Event, i: Id, b: Addr)
    requires Inv(w) && i < |w.heap|
  {
    if Routed(w, e) && Target(w, e) == i && e.addr == b then !TakesOver(w, e)
    else b in FanOut(w, i) && e != Delete(b)
  }

  /** Exactness of every step: the fan-out over maps of incarnations, with its deletions,
      re-creations and leftover edges, is the simple form. */
  lemma FanOutStep(w: World, e: Event, i: Id, b: Addr)
    requires Inv(w) && i < |w.heap|
    ensures Inv(Step(w, e)) && i < |Step(w, e).heap|
    ensures b in FanOut(Step(w, e), i) <==> ReceivesAfter(w, e, i, b)
  {
    StepKeepsInv(w, e);
    StepGrows(w, e);
    match e
    case Dtls(a) => DtlsFanOut(w, a, i, b);
    case Delete(a) => DeleteFanOut(w, a, i, b);
    case GroupId(g, a, isSender) => GroupFanOut(w, e, i, b);
    case MediaAddr(a, media, seeds) => MediaFanOut(w, a, media, seeds, i, b);
  }

  lemma MediaFanOut(w: World, a: Addr, media: MediaTable, seeds: Runtimes, i: Id, b: Addr)
    requires Inv(w) && Inv(MediaStep(w, a, media, seeds)) && i < |w.heap| <= |MediaStep(w, a, media, seeds).heap|
    ensures b in FanOut(MediaStep(w, a, media, seeds), i) <==> b in FanOut(w, i)
  {
    var w' := MediaStep(w, a, media, seeds);
    if a in w.table {
      MediaEffect(w, a, media, seeds);
    }
    assert w'.heap[i].receivers == w.heap[i].receivers;
    assert forall j | 0 <= j < |w.heap| :: w'.heap[j].deleted == w.heap[j].deleted;
  }

  lemma DtlsFanOut(w: World, a: Addr, i: Id, b: Addr)
    requires Inv(w) && Inv(DtlsStep(w, a)) && i < |w.heap| <= |DtlsStep(w, a).heap|
    ensures b in FanOut(DtlsStep(w, a), i) <==> b in FanOut(w, i)
  {
    var w' := DtlsStep(w, a);
    assert w'.heap[i].receivers == w.heap[i].receivers;
    assert forall j | 0 <= j < |w.heap| :: w'.heap[j].deleted == w.heap[j].deleted;
  }

  lemma DeleteFanOut(w: World, a: Addr, i: Id, b: Addr)
    requires Inv(w) && Inv(DeleteStep(w, a)) && i < |w.heap| == |DeleteStep(w, a).heap|
    ensures b in FanOut(DeleteStep(w, a), i) <==> b in FanOut(w, i) && a != b
  {
    FanOutIsLive(w, i, b);
    FanOutIsLive(DeleteStep(w, a), i, b);
    if a in w.table && i == w.table[a] {
      assert DeleteStep(w, a).heap[i].receivers == Surviving(Unlink(w, a).heap, w.heap[i].receivers);
    }
  }

  lemma GroupFanOut(w: World, e: Event, i: Id, b: Addr)
    requires Inv(w) && e.GroupId? && Inv(Step(w, e)) && i < |w.heap| == |Step(w, e).heap|
    ensures b in FanOut(Step(w, e), i) <==> ReceivesAfter(w, e, i, b)
  {
    var w' := Step(w, e);
    GroupEdges(w, e, i);
    FanOutIsLive(w, i, b);
    FanOutIsLive(w', i, b);
  }

  /** The edges a group message leaves at a client. */
  lemma GroupEdges(w: World, e: Event, i: Id)
    requires Inv(w) && e.GroupId? && i < |w.heap|
    ensures Step(w, e).table == w.table && i < |Step(w, e).heap|
    ensures var before := w.heap[i].receivers;
            Step(w, e).heap[i].receivers ==
            if !Routed(w, e) || Target(w, e) != i then before
            else if TakesOver(w, e) then before - {e.addr}
            else before[e.addr := w.table[e.addr]]
  {
    if Routed(w, e) {
      var last := LastSender(w.groups, e.group, e.addr);
      var w1 := w.(groups := InsertOrGetSender(w.groups, e.group, e.addr, e.isSender));
      if TakesOver(w, e) {
        TakeOverEffect(w1, w.table[last], e.addr);
      } else {
        AttachEdges(w1, w.table[last], w.table[e.addr], last, e.addr);
      }
    }
  }

  lemma AttachEdges(w: World, s: Id, r: Id, last: Addr, a: Addr)
    requires s < |w.heap| && r < |w.heap|
    ensures var w' := Attach(w, s, r, last, a);
            && |w'.heap| == |w.heap|
            && forall i | 0 <= i < |w.heap| ::
                 w'.heap[i].receivers == if i == s then w.heap[i].receivers[a := r] else w.heap[i].receivers
  {
  }

  /** Nothing in a run takes `b` off the receivers of `i`. */
  ghost predicate Undisturbed(es: seq<Event>, b: Addr) {
    forall i | 0 <= i < |es| :: es[i] != Delete(b) && !(es[i].GroupId? && es[i].addr == b && es[i].isSender)
  }

  /** A receiver that joined keeps receiving, as the same incarnation, through every run in which
      it is neither deleted nor becomes a sender, whatever happens to anyone else. */
  lemma {:induction false} JoinedStaysJoined(w: World, es: seq<Event>, i: Id, b: Addr)
    requires Inv(w) && i < |w.heap| && b in FanOut(w, i) && Undisturbed(es, b)
    ensures i < |Run(w, es).heap| && b in FanOut(Run(w, es), i)
    ensures FanOut(Run(w, es), i)[b] == FanOut(w, i)[b]
  {
    RunGrows(w, es);
    if es != [] {
      var front, e := es[..|es| - 1], es[|es| - 1];
      assert Undisturbed(front, b);
      JoinedStaysJoined(w, front, i, b);
      RunGrows(w, front);
      FanOutStep(Run(w, front), e, i, b);
      SameIncarnation(Run(w, front), e, b);
      FanOutIsLive(Run(w, front), i, b);
      FanOutIsLive(Step(Run(w, front), e), i, b);
    }
  }

  /** Only deletion moves an address to another incarnation. */
  lemma SameIncarnation(w: World, e: Event, b: Addr)
    requires Inv(w) && b in w.table && e != Delete(b)
    ensures b in Step(w, e).table && Step(w, e).table[b] == w.table[b]
  {
    if e.GroupId? {
      GroupKeepsInv(w, e.group, e.addr, e.isSender);
    }
  }

  /** Where client `i` sends RTCP back to after an event: joining sets the group's last sender;
      a takeover redirects every other receiver of the old sender to the new one. */
  ghost function SenderAfter(w: World, e: Event, i: Id): Option<Addr>
    requires Inv(w) && i < |w.heap|
  {
    if !Routed(w, e) then w.heap[i].senderAddr
    else if !TakesOver(w, e) then
      if i == w.table[e.addr] then Some(LastSender(w.groups, e.group, e.addr)) else w.heap[i].senderAddr
    else if w.heap[i].home != e.addr && w.heap[i].home in w.heap[Target(w, e)].receivers
         && w.heap[Target(w, e)].receivers[w.heap[i].home] == i
    then Some(e.addr)
    else w.heap[i].senderAddr
  }

  lemma SenderStep(w: World, e: Event, i: Id)
    requires Inv(w) && i < |w.heap|
    ensures i < |Step(w, e).heap| && Step(w, e).heap[i].senderAddr == SenderAfter(w, e, i)
  {
    StepGrows(w, e);
    if Routed(w, e) {
      var last := LastSender(w.groups, e.group, e.addr);
      var w1 := w.(groups := InsertOrGetSender(w.groups, e.group, e.addr, e.isSender));
      if TakesOver(w, e) {
        TakeOverEffect(w1, w.table[last], e.addr);
      } else {
        AttachEffect(w1, w.table[last], w.table[e.addr], last, e.addr);
      }
    }
  }

  // ---------------------------------------------------------------------
  // Clients that receive from themselves
  // ---------------------------------------------------------------------

  /** `a` announces itself as sender in a group that has no sender, or has it as sender already. */
  ghost predicate AnnouncesItself(w: World, e: Event, a: Addr) {
    e.GroupId? && e.addr == a && e.isSender && LastSender(w.groups, e.group, a) == a
  }

  /** Event k of a run is such an announcement and finds incarnation `i` already created. */
  ghost predicate AnnouncedAt(es: seq<Event>, k: nat, i: Id, a: Addr)
    requires k < |es|
  {
    i < |Run(EMPTY_WORLD, es[..k]).heap| && AnnouncesItself(Run(EMPTY_WORLD, es[..k]), es[k], a)
  }

  ghost predicate HasAnnounced(es: seq<Event>, i: Id, a: Addr) {
    exists k | 0 <= k < |es| :: AnnouncedAt(es, k, i, a)
  }

  /** One event, seen by an incarnation that was there before. */
  lemma SelfStep(w: World, e: Event, i: Id)
    requires Inv(w) && i < |w.heap|
    requires w.heap[i].home in FanOut(w, i) ==> !w.heap[i].deleted
    ensures Inv(Step(w, e)) && i < |Step(w, e).heap| && Step(w, e).heap[i].home == w.heap[i].home
    ensures var w', a := Step(w, e), w.heap[i].home;
            && (w'.heap[i].deleted <==> w.heap[i].deleted || e == Delete(a))
            && (a in FanOut(w', i) <==> !w'.heap[i].deleted && (a in FanOut(w, i) || AnnouncesItself(w, e, a)))
  {
    StepGrows(w, e);
    FanOutStep(w, e, i, w.heap[i].home);
    DeletedStep(w, e, i);
  }

  lemma DeletedStep(w: World, e: Event, i: Id)
    requires Inv(w) && i < |w.heap| <= |Step(w, e).heap|
    ensures Step(w, e).heap[i].deleted <==>
            w.heap[i].deleted || (e == Delete(w.heap[i].home))
  {
    if e.GroupId? {
      GroupKeepsInv(w, e.group, e.addr, e.isSender);
    }
  }

  lemma AnnouncedSnoc(es: seq<Event>, i: Id, a: Addr)
    requires es != []
    ensures var n := |es| - 1;
            HasAnnounced(es, i, a) <==> HasAnnounced(es[..n], i, a) || AnnouncedAt(es, n, i, a)
  {
    var n := |es| - 1;
    forall k | 0 <= k < n
      ensures AnnouncedAt(es, k, i, a) <==> AnnouncedAt(es[..n], k, i, a)
    {
      assert es[..n][..k] == es[..k];
    }
  }

  /** A client is among its own receivers if and only if it is not deleted and, since it was
      created, its address was announced as sender in a group that had no sender or had it. */
  lemma {:induction false} SelfReceivesIff(es: seq<Event>, i: Id)
    requires i < |Run(EMPTY_WORLD, es).heap|
    ensures var w := Run(EMPTY_WORLD, es);
            w.heap[i].home in FanOut(w, i) <==> !w.heap[i].deleted && HasAnnounced(es, i, w.heap[i].home)
  {
    var n := |es| - 1;
    var front, e := es[..n], es[n];
    var w := Run(EMPTY_WORLD, front);
    if i < |w.heap| {
      SelfReceivesIff(front, i);
      SelfStep(w, e, i);
      AnnouncedSnoc(es, i, w.heap[i].home);
    } else {
      NewClientIsEmpty(w, e, i);
      NotAnnounced(es, i, Run(EMPTY_WORLD, es).heap[i].home);
    }
  }

  lemma NewClientIsEmpty(w: World, e: Event, i: Id)
    requires Inv(w) && |w.heap| <= i < |Step(w, e).heap|
    ensures InBounds(Step(w, e)) && FanOut(Step(w, e), i) == map[]
  {
    StepKeepsInv(w, e);
    if e.GroupId? {
      GroupKeepsInv(w, e.group, e.addr, e.isSender);
    }
  }

  /** Nothing was announced for an incarnation before it existed. */
  lemma NotAnnounced(es: seq<Event>, i: Id, a: Addr)
    requires es != [] && i >= |Run(EMPTY_WORLD, es[..|es| - 1]).heap|
    ensures !HasAnnounced(es, i, a)
  {
    var n := |es| - 1;
    forall k | 0 <= k < |es|
      ensures !AnnouncedAt(es, k, i, a)
    {
      HeapGrows(es[..n], k);
      assert es[..n][..k] == es[..k];
    }
  }

  lemma {:induction false} HeapGrows(es: seq<Event>, k: nat)
    requires k <= |es|
    ensures |Run(EMPTY_WORLD, es[..k]).heap| <= |Run(EMPTY_WORLD, es).heap|
    decreases |es|
  {
    if k < |es| {
      var n := |es| - 1;
      HeapGrows(es[..n], k);
      assert es[..n][..k] == es[..k];
      StepGrows(Run(EMPTY_WORLD, es[..n]), es[n]);
    } else {
      assert es[..k] == es;
    }
  }
}
