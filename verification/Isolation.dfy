/** Group isolation over whole runs of the routing machine. */
module Isolation {
  import opened Base
  import opened Routing
  import opened FanOutSpec

  /** Which addresses may announce themselves in which groups. */
  type Policy = (nat, Addr) -> bool

  ghost predicate Permits(p: Policy, e: Event) {
    e.GroupId? ==> p(e.group, e.addr)
  }

  ghost predicate PermitsAll(p: Policy, es: seq<Event>) {
    forall i | 0 <= i < |es| :: Permits(p, es[i])
  }

  /** Two addresses that may announce one common group. */
  ghost predicate Share(p: Policy, a: Addr, b: Addr) {
    exists g :: p(g, a) && p(g, b)
  }

  /** Sharing a group reaches no further than one step. */
  ghost predicate Transitive(p: Policy) {
    forall a, b, c :: Share(p, a, b) && Share(p, b, c) ==> Share(p, a, c)
  }

  /** Group entries are permitted and every forwarding edge joins addresses that share a group. */
  ghost predicate EdgesIsolated(p: Policy, w: World) {
    && (forall g <- w.groups :: p(g, w.groups[g]))
    && (forall i, b | 0 <= i < |w.heap| && b in w.heap[i].receivers :: Share(p, w.heap[i].home, b))
  }

  /** Every sender address a client remembers shares a group with the client. */
  ghost predicate ReturnsIsolated(p: Policy, w: World) {
    forall i | 0 <= i < |w.heap| && w.heap[i].senderAddr.Some? ::
      Share(p, w.heap[i].home, w.heap[i].senderAddr.value)
  }

  ghost predicate Isolated(p: Policy, w: World) {
    EdgesIsolated(p, w) && ReturnsIsolated(p, w)
  }

  lemma StepKeepsEdges(p: Policy, w: World, e: Event)
    requires Inv(w) && Permits(p, e) && EdgesIsolated(p, w)
    ensures EdgesIsolated(p, Step(w, e))
  {
    if e.GroupId? {
      GroupKeepsEdges(p, w, e.group, e.addr, e.isSender);
    }
  }

  lemma GroupKeepsEdges(p: Policy, w: World, g: nat, a: Addr, isSender: bool)
    requires Inv(w) && p(g, a) && EdgesIsolated(p, w)
    ensures EdgesIsolated(p, GroupStep(w, g, a, isSender))
  {
    var last := LastSender(w.groups, g, a);
    var w1 := w.(groups := InsertOrGetSender(w.groups, g, a, isSender));
    assert p(g, last) && p(g, a);
    assert Share(p, last, a);
    if (last == a && !isSender) || a !in w.table || last !in w.table {
    } else if last != a && isSender {
      TakeOverEffect(w1, w.table[last], a);
      RoutesKeepEdges(p, w1, TakeOver(w1, w.table[last], a), w.table[last], w.table[a], a);
    } else {
      AttachEffect(w1, w.table[last], w.table[a], last, a);
      RoutesKeepEdges(p, w1, Attach(w1, w.table[last], w.table[a], last, a), w.table[last], w.table[a], a);
    }
  }

  lemma RoutesKeepEdges(p: Policy, w: World, w': World, s: Id, r: Id, a: Addr)
    requires EdgesIsolated(p, w) && RoutesOnly(w, w') && EdgesFrom(w, w', s, r, a)
    requires s < |w.heap| && Share(p, w.heap[s].home, a) && w'.groups == w.groups
    ensures EdgesIsolated(p, w')
  {
  }

  lemma StepKeepsReturns(p: Policy, w: World, e: Event)
    requires Inv(w) && Permits(p, e) && Isolated(p, w) && (Transitive(p) || !TakesOver(w, e))
    ensures ReturnsIsolated(p, Step(w, e))
  {
    if e.GroupId? {
      GroupKeepsReturns(p, w, e.group, e.addr, e.isSender);
    }
  }

  lemma GroupKeepsReturns(p: Policy, w: World, g: nat, a: Addr, isSender: bool)
    requires Inv(w) && p(g, a) && Isolated(p, w) && (Transitive(p) || !TakesOver(w, GroupId(g, a, isSender)))
    ensures ReturnsIsolated(p, GroupStep(w, g, a, isSender))
  {
    var last := LastSender(w.groups, g, a);
    var w1 := w.(groups := InsertOrGetSender(w.groups, g, a, isSender));
    assert p(g, last) && p(g, a);
    assert Share(p, last, a) && Share(p, a, last);
    if (last == a && !isSender) || a !in w.table || last !in w.table {
    } else if last != a && isSender {
      assert TakesOver(w, GroupId(g, a, isSender));
      TakeOverEffect(w1, w.table[last], a);
      forall b | b in w.heap[w.table[last]].receivers
        ensures Share(p, b, a)
      {
        assert Share(p, last, b);
        ShareSymmetric(p, last, b);
      }
    } else {
      AttachEffect(w1, w.table[last], w.table[a], last, a);
    }
  }

  lemma ShareSymmetric(p: Policy, a: Addr, b: Addr)
    requires Share(p, a, b)
    ensures Share(p, b, a)
  {
    var g :| p(g, a) && p(g, b);
    assert p(g, b) && p(g, a);
  }

  /** Fan-out isolation needs no condition at all: on every permitted run, whatever groups an
      address announces, every group entry is permitted and every edge joins sharing addresses. */
  lemma {:induction false} RunKeepsEdges(p: Policy, es: seq<Event>)
    requires PermitsAll(p, es)
    ensures EdgesIsolated(p, Run(EMPTY_WORLD, es))
  {
    if es != [] {
      var front := es[..|es| - 1];
      assert PermitsAll(p, front);
      RunKeepsEdges(p, front);
      StepKeepsEdges(p, Run(EMPTY_WORLD, front), es[|es| - 1]);
    }
  }

  lemma {:induction false} RunKeepsIsolation(p: Policy, es: seq<Event>)
    requires PermitsAll(p, es) && Transitive(p)
    ensures Isolated(p, Run(EMPTY_WORLD, es))
  {
    if es != [] {
      var front := es[..|es| - 1];
      assert PermitsAll(p, front);
      RunKeepsIsolation(p, front);
      StepKeepsEdges(p, Run(EMPTY_WORLD, front), es[|es| - 1]);
      StepKeepsReturns(p, Run(EMPTY_WORLD, front), es[|es| - 1]);
    }
  }

  /** Event k of a run makes a new sender take over from the last one. */
  ghost predicate TakeoverAt(es: seq<Event>, k: nat)
    requires k < |es|
  {
    TakesOver(Run(EMPTY_WORLD, es[..k]), es[k])
  }

  ghost predicate TakeoverFree(es: seq<Event>) {
    forall k | 0 <= k < |es| :: !TakeoverAt(es, k)
  }

  /** Without takeovers, isolation needs no condition on the policy. */
  lemma {:induction false} RunWithoutTakeover(p: Policy, es: seq<Event>)
    requires PermitsAll(p, es) && TakeoverFree(es)
    ensures Isolated(p, Run(EMPTY_WORLD, es))
  {
    if es != [] {
      var n := |es| - 1;
      var front := es[..n];
      assert PermitsAll(p, front);
      TakeoverFreePrefix(es, n);
      RunWithoutTakeover(p, front);
      assert !TakeoverAt(es, n);
      StepKeepsEdges(p, Run(EMPTY_WORLD, front), es[n]);
      StepKeepsReturns(p, Run(EMPTY_WORLD, front), es[n]);
    }
  }

  lemma TakeoverFreePrefix(es: seq<Event>, n: nat)
    requires TakeoverFree(es) && n <= |es|
    ensures TakeoverFree(es[..n])
  {
    forall k | 0 <= k < n
      ensures !TakeoverAt(es[..n], k)
    {
      assert es[..n][..k] == es[..k] && !TakeoverAt(es, k);
    }
  }

  // ---------------------------------------------------------------------
  // A run that breaks isolation, given the takeover's intended effect: Dtls from r, s and t;
  // GroupId(g, s, sender); GroupId(g, r, receiver); GroupId(h, s, sender); GroupId(h, t, sender).
  // `s` serves `r` in one group and is then replaced by `t` in another, so `r` is told to send its
  // RTCP to `t`.
  // ---------------------------------------------------------------------

  /** A set of worlds closed under permitted events. */
  ghost predicate ClosedUnder(p: Policy, reach: World -> bool) {
    forall w, e | reach(w) && Inv(w) && Permits(p, e) :: reach(Step(w, e))
  }

  lemma Breach(p: Policy, reach: World -> bool, g: nat, h: nat, r: Addr, s: Addr, t: Addr) returns (w: World)
    requires ClosedUnder(p, reach) && reach(EMPTY_WORLD)
    requires p(g, r) && p(g, s) && p(h, s) && p(h, t) && g != h && r != s && s != t && r != t
    ensures reach(w) && |w.heap| == 3
    ensures w.heap[0].home == r && w.heap[0].senderAddr == Some(t) && RtcpReturn(w, 0) == Some(t)
  {
    w := FirstDtls(p, reach, EMPTY_WORLD, r);
    w := FirstDtls(p, reach, w, s);
    w := FirstDtls(p, reach, w, t);
    w := FirstSender(p, reach, w, g, s);
    w := Joins(p, reach, w, g, r, s);
    w := FirstSender(p, reach, w, h, s);
    w := Replaces(p, reach, w, h, r, s, t);
  }

  /** The first datagram from an address creates a client there. */
  lemma FirstDtls(p: Policy, reach: World -> bool, w: World, a: Addr) returns (w': World)
    requires ClosedUnder(p, reach) && reach(w) && Inv(w) && a !in w.table
    ensures reach(w') && Inv(w')
    ensures |w'.heap| == |w.heap| + 1 && forall i | 0 <= i < |w.heap| :: w'.heap[i] == w.heap[i]
    ensures w'.table == w.table[a := |w.heap|] && w'.groups == w.groups
    ensures w'.heap[|w.heap|].home == a && w'.heap[|w.heap|].receivers == map[]
  {
    w' := Step(w, Dtls(a));
    DtlsKeepsInv(w, a);
  }

  /** `s`, which is client 1, registers as the first sender of a group. */
  lemma FirstSender(p: Policy, reach: World -> bool, w: World, g: nat, s: Addr) returns (w': World)
    requires ClosedUnder(p, reach) && reach(w) && Inv(w) && p(g, s)
    requires |w.heap| == 3 && s in w.table && w.table[s] == 1 && g !in w.groups
    ensures reach(w') && Inv(w')
    ensures w'.table == w.table && w'.groups == w.groups[g := s] && |w'.heap| == 3
    ensures w'.heap[0] == w.heap[0] && w'.heap[1].receivers == w.heap[1].receivers[s := 1]
  {
    w' := Step(w, GroupId(g, s, true));
    GroupKeepsInv(w, g, s, true);
  }

  /** `r`, which is client 0, joins the group `s` sends to. */
  lemma Joins(p: Policy, reach: World -> bool, w: World, g: nat, r: Addr, s: Addr) returns (w': World)
    requires ClosedUnder(p, reach) && reach(w) && Inv(w) && p(g, r)
    requires |w.heap| == 3 && r != s && g in w.groups && w.groups[g] == s
    requires s in w.table && w.table[s] == 1 && r in w.table && w.table[r] == 0
    ensures reach(w') && Inv(w')
    ensures w'.table == w.table && w'.groups == w.groups && |w'.heap| == 3
    ensures w'.heap[0].home == w.heap[0].home && w'.heap[0].receivers == w.heap[0].receivers
    ensures w'.heap[1].receivers == w.heap[1].receivers[r := 0]
  {
    w' := Step(w, GroupId(g, r, false));
    GroupKeepsInv(w, g, r, false);
  }

  /** `t` replaces `s`, and `r` is redirected. */
  lemma Replaces(p: Policy, reach: World -> bool, w: World, h: nat, r: Addr, s: Addr, t: Addr) returns (w': World)
    requires ClosedUnder(p, reach) && reach(w) && Inv(w) && p(h, t)
    requires |w.heap| == 3 && h in w.groups && w.groups[h] == s && s != t && r != t
    requires s in w.table && w.table[s] == 1 && t in w.table && w.heap[0].receivers == map[]
    requires r in w.heap[1].receivers && w.heap[1].receivers[r] == 0
    ensures reach(w') && w'.table == w.table && |w'.heap| == 3
    ensures w'.heap[0].home == w.heap[0].home && w'.heap[0].senderAddr == Some(t) && w'.heap[0].receivers == map[]
  {
    w' := Step(w, GroupId(h, t, true));
    TakeOverEffect(w.(groups := w.groups[h := t]), 1, t);
  }

  /** Some permitted run ends in this world. */
  ghost predicate ReachableUnder(p: Policy, w: World) {
    exists es :: PermitsAll(p, es) && Run(EMPTY_WORLD, es) == w
  }

  lemma ReachableStep(p: Policy, w: World, e: Event)
    requires ReachableUnder(p, w) && Inv(w) && Permits(p, e)
    ensures ReachableUnder(p, Step(w, e))
  {
    var es :| PermitsAll(p, es) && Run(EMPTY_WORLD, es) == w;
    RunSnoc(es, e);
    assert PermitsAll(p, es + [e]);
  }

  lemma RunSnoc(es: seq<Event>, e: Event)
    ensures Run(EMPTY_WORLD, es + [e]) == Step(Run(EMPTY_WORLD, es), e)
  {
    assert (es + [e])[..|es|] == es;
  }

  lemma ReachableUnderClosed(p: Policy)
    ensures ClosedUnder(p, w => ReachableUnder(p, w)) && ReachableUnder(p, EMPTY_WORLD)
  {
    assert PermitsAll(p, []) && Run(EMPTY_WORLD, []) == EMPTY_WORLD;
    forall w, e | ReachableUnder(p, w) && Inv(w) && Permits(p, e)
      ensures ReachableUnder(p, Step(w, e))
    {
      ReachableStep(p, w, e);
    }
  }

  /** Group isolation, exactly: all permitted runs keep every group entry, forwarding edge and
      return address between addresses that share a group if and only if sharing is transitive
      under the policy. The takeover has its intended effect here. */
  lemma IsolationIff(p: Policy)
    ensures (forall es :: PermitsAll(p, es) ==> Isolated(p, Run(EMPTY_WORLD, es))) <==> Transitive(p)
  {
    if Transitive(p) {
      forall es | PermitsAll(p, es)
        ensures Isolated(p, Run(EMPTY_WORLD, es))
      {
        RunKeepsIsolation(p, es);
      }
    } else {
      var r, s, t :| Share(p, r, s) && Share(p, s, t) && !Share(p, r, t);
      var w := Breached(p, r, s, t);
      var es :| PermitsAll(p, es) && Run(EMPTY_WORLD, es) == w;
      assert !ReturnsIsolated(p, Run(EMPTY_WORLD, es));
    }
  }

  lemma Breached(p: Policy, r: Addr, s: Addr, t: Addr) returns (w: World)
    requires Share(p, r, s) && Share(p, s, t) && !Share(p, r, t)
    ensures ReachableUnder(p, w) && !ReturnsIsolated(p, w)
  {
    var g :| p(g, r) && p(g, s);
    var h :| p(h, s) && p(h, t);
    ReachableUnderClosed(p);
    w := Breach(p, w => ReachableUnder(p, w), g, h, r, s, t);
  }

  /** One group per address is such a policy: then every fan-out and return target of every
      reachable state is in the source's own group. */
  lemma OneGroupPerAddress(p: Policy, groupOf: Addr -> nat, es: seq<Event>, i: Id)
    requires forall g, a | p(g, a) :: g == groupOf(a)
    requires PermitsAll(p, es) && i < |Run(EMPTY_WORLD, es).heap|
    ensures var w := Run(EMPTY_WORLD, es);
            && (forall b <- FanOut(w, i) :: groupOf(b) == groupOf(w.heap[i].home))
            && (RtcpReturn(w, i).Some? ==> groupOf(RtcpReturn(w, i).value) == groupOf(w.heap[i].home))
  {
    forall a, b, c | Share(p, a, b) && Share(p, b, c)
      ensures Share(p, a, c)
    {
      var g :| p(g, a) && p(g, b);
      var h :| p(h, b) && p(h, c);
      assert p(g, a) && p(g, c);
    }
    RunKeepsIsolation(p, es);
  }
}
