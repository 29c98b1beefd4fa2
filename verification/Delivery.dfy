/** From flushed buffers to RtcActor (src/server/udp.rs:157-174): every flush gets a task that hands
    over its packets one after the other, each only when the one before was handled; the tasks of
    different flushes are not ordered among each other. */
module Delivery {
  import opened Base
  import opened Wire
  import opened Jitter

  /** The packets of a flush as positions in the stream its address submitted: those from `start` to
      `next` are handled, those up to `end` are still to come. */
  datatype Batch = Batch(start: nat, next: nat, end: nat) {
    predicate Unfinished() { next < end }
  }

  /** The controller's storage, and for one address the number of packets flushed, the tasks in the
      order of their flushes, and the positions handled so far. */
  datatype Pipeline = Pipeline(storage: Storage, total: nat, tasks: seq<Batch>, order: seq<nat>)

  const EMPTY_PIPELINE := Pipeline(map[], 0, [], [])

  datatype Move = Input(e: Event) | Deliver(i: nat)

  /** The part of an answer that is delivered to `a` by a task. */
  function FlushedTo(r: Response, e: Event, a: Addr): seq<Bytes> {
    if r.Buffer? && r.flushed.Some? && e.addr == a then r.flushed.value else []
  }

  function Proceed(p: Pipeline, x: Move, a: Addr): Pipeline {
    match x
    case Input(e) =>
      var (st, r) := Step(p.storage, e);
      var n := |FlushedTo(r, e, a)|;
      if n == 0 then p.(storage := st)
      else p.(storage := st, total := p.total + n, tasks := p.tasks + [Batch(p.total, p.total, p.total + n)])
    case Deliver(i) => DeliverNext(p, i)
  }

  function DeliverNext(p: Pipeline, i: nat): Pipeline {
    if i >= |p.tasks| || !p.tasks[i].Unfinished() then p
    else
      var t := p.tasks[i];
      p.(tasks := p.tasks[i := t.(next := t.next + 1)], order := p.order + [t.next])
  }

  function ProceedAll(xs: seq<Move>, a: Addr): Pipeline {
    if xs == [] then EMPTY_PIPELINE else Proceed(ProceedAll(xs[..|xs| - 1], a), xs[|xs| - 1], a)
  }

  // ---------------------------------------------------------------------
  // One flush
  // ---------------------------------------------------------------------

  /** Tasks cover consecutive stretches of the stream, and what was handled of a stretch lies below
      where its task has got to. */
  ghost predicate PipeOk(p: Pipeline) {
    && (forall i | 0 <= i < |p.tasks| :: p.tasks[i].start <= p.tasks[i].next <= p.tasks[i].end <= p.total)
    && (forall i, j | 0 <= i < j < |p.tasks| :: p.tasks[i].end <= p.tasks[j].start)
    && (forall x, i | 0 <= x < |p.order| && 0 <= i < |p.tasks| && Within(p.order[x], p.tasks[i]) ::
          p.order[x] < p.tasks[i].next)
    && (forall x | 0 <= x < |p.order| :: p.order[x] < p.total)
  }

  predicate Within(x: nat, t: Batch) {
    t.start <= x < t.end
  }

  /** Packets of one flush are handled in their order. */
  ghost predicate FlushOrdered(p: Pipeline) {
    forall x, y, i | 0 <= x < y < |p.order| && 0 <= i < |p.tasks|
      && Within(p.order[x], p.tasks[i]) && Within(p.order[y], p.tasks[i]) :: p.order[x] < p.order[y]
  }

  lemma ProceedKeepsOk(p: Pipeline, x: Move, a: Addr)
    requires PipeOk(p) && FlushOrdered(p)
    ensures PipeOk(Proceed(p, x, a)) && FlushOrdered(Proceed(p, x, a))
  {
    if x.Deliver? {
      DeliverKeepsOk(p, x.i);
    } else {
      InputKeepsOk(p, x.e, a);
    }
  }

  lemma InputKeepsOk(p: Pipeline, e: Event, a: Addr)
    requires PipeOk(p) && FlushOrdered(p)
    ensures PipeOk(Proceed(p, Input(e), a)) && FlushOrdered(Proceed(p, Input(e), a))
  {
    var p' := Proceed(p, Input(e), a);
    forall x, i | 0 <= x < |p.order| && 0 <= i < |p'.tasks| && Within(p.order[x], p'.tasks[i])
      ensures i < |p.tasks|
    {
    }
  }

  lemma DeliverKeepsOk(p: Pipeline, i: nat)
    requires PipeOk(p) && FlushOrdered(p)
    ensures PipeOk(DeliverNext(p, i)) && FlushOrdered(DeliverNext(p, i))
  {
    if i < |p.tasks| && p.tasks[i].Unfinished() {
      NextIsOwn(p, i);
      DeliverKeepsOrder(p, i);
    }
  }

  /** The next position of a task belongs to no other flush. */
  lemma NextIsOwn(p: Pipeline, i: nat)
    requires PipeOk(p) && i < |p.tasks| && p.tasks[i].Unfinished()
    ensures forall j | 0 <= j < |p.tasks| && Within(p.tasks[i].next, p.tasks[j]) :: j == i
  {
  }

  lemma DeliverKeepsOrder(p: Pipeline, i: nat)
    requires PipeOk(p) && FlushOrdered(p) && i < |p.tasks| && p.tasks[i].Unfinished()
    requires forall j | 0 <= j < |p.tasks| && Within(p.tasks[i].next, p.tasks[j]) :: j == i
    ensures FlushOrdered(DeliverNext(p, i))
  {
    var q, n := DeliverNext(p, i), |p.order|;
    forall x, y, j | 0 <= x < y < |q.order| && 0 <= j < |q.tasks|
      && Within(q.order[x], q.tasks[j]) && Within(q.order[y], q.tasks[j])
      ensures q.order[x] < q.order[y]
    {
      assert Within(q.order[x], p.tasks[j]) && Within(q.order[y], p.tasks[j]);
      if y == n {
        assert j == i && q.order[x] == p.order[x];
      }
    }
  }

  /** In every run, whatever else is going on, the packets of one flush are handled in their order. */
  lemma {:induction false} FlushesStayInOrder(xs: seq<Move>, a: Addr)
    ensures PipeOk(ProceedAll(xs, a)) && FlushOrdered(ProceedAll(xs, a))
  {
    if xs != [] {
      FlushesStayInOrder(xs[..|xs| - 1], a);
      ProceedKeepsOk(ProceedAll(xs[..|xs| - 1], a), xs[|xs| - 1], a);
    }
  }

  // ---------------------------------------------------------------------
  // The whole stream
  // ---------------------------------------------------------------------

  /** What was handled is the beginning of the stream, in order. */
  ghost predicate InOrder(order: seq<nat>) {
    forall x | 0 <= x < |order| :: order[x] == x
  }

  /** Every task has handled its share of the first |order| positions. */
  ghost predicate Filled(p: Pipeline) {
    && |p.order| <= p.total
    && (forall i | 0 <= i < |p.tasks| :: FilledTo(p.tasks[i], |p.order|))
    && (forall n | 0 <= n < p.total :: Covered(p.tasks, n))
  }

  /** Position n belongs to one of these flushes. */
  ghost predicate Covered(tasks: seq<Batch>, n: nat) {
    exists i :: 0 <= i < |tasks| && Within(n, tasks[i])
  }

  predicate FilledTo(t: Batch, n: nat) {
    t.next == if n <= t.start then t.start else if n >= t.end then t.end else n
  }

  /** The packet comes from the oldest flush that has any left. */
  ghost predicate FromOldest(p: Pipeline, i: nat) {
    forall j | 0 <= j < i && j < |p.tasks| :: !p.tasks[j].Unfinished()
  }

  lemma InputKeepsFilled(p: Pipeline, e: Event, a: Addr)
    requires PipeOk(p) && Filled(p)
    ensures Filled(Proceed(p, Input(e), a)) && Proceed(p, Input(e), a).order == p.order
  {
    var p' := Proceed(p, Input(e), a);
    forall n | 0 <= n < p'.total
      ensures Covered(p'.tasks, n)
    {
      if n < p.total {
        assert Covered(p.tasks, n);
        var i :| 0 <= i < |p.tasks| && Within(n, p.tasks[i]);
        assert Within(n, p'.tasks[i]);
      } else {
        assert Within(n, p'.tasks[|p.tasks|]);
      }
    }
  }

  /** A delivery goes on in order exactly if it takes from the oldest flush that has any left. */
  lemma DeliverInOrderIff(p: Pipeline, i: nat)
    requires PipeOk(p) && Filled(p) && InOrder(p.order) && i < |p.tasks| && p.tasks[i].Unfinished()
    ensures InOrder(DeliverNext(p, i).order) <==> FromOldest(p, i)
    ensures FromOldest(p, i) ==> Filled(DeliverNext(p, i))
  {
    var n, t := |p.order|, p.tasks[i];
    assert FilledTo(t, n);
    assert DeliverNext(p, i).order[n] == t.next;
    if FromOldest(p, i) {
      OldestIsNext(p, i);
      DeliverKeepsFilled(p, i);
    } else {
      var j :| 0 <= j < i && j < |p.tasks| && p.tasks[j].Unfinished();
      assert FilledTo(p.tasks[j], n) && p.tasks[j].end <= t.start;
    }
  }

  lemma OldestIsNext(p: Pipeline, i: nat)
    requires PipeOk(p) && Filled(p) && i < |p.tasks| && p.tasks[i].Unfinished() && FromOldest(p, i)
    ensures p.tasks[i].next == |p.order| < p.tasks[i].end
  {
    var n := |p.order|;
    assert FilledTo(p.tasks[i], n);
    assert n < p.tasks[i].end && Covered(p.tasks, n);
    var j :| 0 <= j < |p.tasks| && Within(n, p.tasks[j]);
    assert FilledTo(p.tasks[j], n) && p.tasks[j].Unfinished();
    assert j == i;
  }

  lemma DeliverKeepsFilled(p: Pipeline, i: nat)
    requires PipeOk(p) && Filled(p) && i < |p.tasks| && p.tasks[i].next == |p.order| < p.tasks[i].end
    ensures Filled(DeliverNext(p, i))
  {
    var p' := DeliverNext(p, i);
    forall j | 0 <= j < |p'.tasks|
      ensures FilledTo(p'.tasks[j], |p'.order|)
    {
      assert FilledTo(p.tasks[j], |p.order|);
    }
    forall n | 0 <= n < p'.total
      ensures Covered(p'.tasks, n)
    {
      assert Covered(p.tasks, n);
      var j :| 0 <= j < |p.tasks| && Within(n, p.tasks[j]);
      assert Within(n, p'.tasks[j]);
    }
  }

  /** Move k of a run delivers, if it delivers at all, from the oldest flush that has any left. */
  ghost predicate OldestAt(xs: seq<Move>, k: nat, a: Addr)
    requires k < |xs|
  {
    var p := ProceedAll(xs[..k], a);
    xs[k].Deliver? && xs[k].i < |p.tasks| && p.tasks[xs[k].i].Unfinished() ==> FromOldest(p, xs[k].i)
  }

  ghost predicate NoOvertaking(xs: seq<Move>, a: Addr) {
    forall k | 0 <= k < |xs| :: OldestAt(xs, k, a)
  }

  lemma NoOvertakingSnoc(xs: seq<Move>, a: Addr)
    requires xs != []
    ensures var n := |xs| - 1; NoOvertaking(xs, a) <==> NoOvertaking(xs[..n], a) && OldestAt(xs, n, a)
  {
    var n := |xs| - 1;
    forall k | 0 <= k < n
      ensures OldestAt(xs, k, a) <==> OldestAt(xs[..n], k, a)
    {
      assert xs[..n][..k] == xs[..k];
    }
  }

  /** A stream is handled in order, exactly: if and only if no packet of a later flush is handed over
      while an earlier flush has any left. */
  lemma {:induction false} InOrderIff(xs: seq<Move>, a: Addr)
    ensures InOrder(ProceedAll(xs, a).order) <==> NoOvertaking(xs, a)
    ensures NoOvertaking(xs, a) ==> Filled(ProceedAll(xs, a))
  {
    if xs != [] {
      var front, x := xs[..|xs| - 1], xs[|xs| - 1];
      var p := ProceedAll(front, a);
      InOrderIff(front, a);
      NoOvertakingSnoc(xs, a);
      FlushesStayInOrder(front, a);
      OrderGrows(p, x, a);
      if NoOvertaking(front, a) {
        MoveInOrder(p, x, a);
      }
    }
  }

  lemma MoveInOrder(p: Pipeline, x: Move, a: Addr)
    requires PipeOk(p) && Filled(p) && InOrder(p.order)
    ensures var oldest := x.Deliver? && x.i < |p.tasks| && p.tasks[x.i].Unfinished() ==> FromOldest(p, x.i);
            && (InOrder(Proceed(p, x, a).order) <==> oldest)
            && (oldest ==> Filled(Proceed(p, x, a)))
  {
    if x.Input? {
      InputKeepsFilled(p, x.e, a);
    } else if x.i < |p.tasks| && p.tasks[x.i].Unfinished() {
      DeliverInOrderIff(p, x.i);
    }
  }

  lemma OrderGrows(p: Pipeline, x: Move, a: Addr)
    ensures InOrder(Proceed(p, x, a).order) ==> InOrder(p.order)
  {
    var more := Proceed(p, x, a).order;
    assert |p.order| <= |more| && more[..|p.order|] == p.order;
    assert forall k | 0 <= k < |p.order| :: more[k] == p.order[k];
  }

  // ---------------------------------------------------------------------
  // Overlapping flushes
  // ---------------------------------------------------------------------

  /** Two flushes of the address have packets left. */
  ghost predicate Overlap(p: Pipeline) {
    exists i, j :: 0 <= i < j < |p.tasks| && p.tasks[i].Unfinished() && p.tasks[j].Unfinished()
  }

  function DeliverAll(p: Pipeline, schedule: seq<nat>): Pipeline {
    if schedule == [] then p
    else DeliverNext(DeliverAll(p, schedule[..|schedule| - 1]), schedule[|schedule| - 1])
  }

  /** However the tasks are scheduled from here on, packets are handled in order. */
  ghost predicate AlwaysInOrder(p: Pipeline) {
    forall schedule :: InOrder(DeliverAll(p, schedule).order)
  }

  lemma {:induction false} LoneFlushInOrder(p: Pipeline, schedule: seq<nat>)
    requires PipeOk(p) && FlushOrdered(p) && Filled(p) && InOrder(p.order) && !Overlap(p)
    ensures var q := DeliverAll(p, schedule);
            PipeOk(q) && FlushOrdered(q) && Filled(q) && InOrder(q.order) && !Overlap(q)
  {
    if schedule != [] {
      var q, i := DeliverAll(p, schedule[..|schedule| - 1]), schedule[|schedule| - 1];
      LoneFlushInOrder(p, schedule[..|schedule| - 1]);
      DeliverKeepsOk(q, i);
      if i < |q.tasks| && q.tasks[i].Unfinished() {
        DeliverInOrderIff(q, i);
      }
      NoNewOverlap(q, i);
    }
  }

  lemma NoNewOverlap(p: Pipeline, i: nat)
    requires !Overlap(p)
    ensures !Overlap(DeliverNext(p, i))
  {
    var q := DeliverNext(p, i);
    forall j | 0 <= j < |q.tasks|
      ensures q.tasks[j].Unfinished() ==> p.tasks[j].Unfinished()
    {
    }
  }

  /** Exact condition: after a run handled in order so far, the rest is handled in order under every
      schedule of the tasks if and only if no two flushes of the address overlap. */
  lemma OverlapIff(xs: seq<Move>, a: Addr)
    requires InOrder(ProceedAll(xs, a).order)
    ensures AlwaysInOrder(ProceedAll(xs, a)) <==> !Overlap(ProceedAll(xs, a))
  {
    var p := ProceedAll(xs, a);
    InOrderIff(xs, a);
    FlushesStayInOrder(xs, a);
    if Overlap(p) {
      var i, j :| 0 <= i < j < |p.tasks| && p.tasks[i].Unfinished() && p.tasks[j].Unfinished();
      DeliverInOrderIff(p, j);
      assert [j][..0] == [];
      assert DeliverAll(p, [j]) == DeliverNext(p, j);
    } else {
      forall schedule
        ensures InOrder(DeliverAll(p, schedule).order)
      {
        LoneFlushInOrder(p, schedule);
      }
    }
  }

  // ---------------------------------------------------------------------
  // What was submitted
  // ---------------------------------------------------------------------

  function Inputs(xs: seq<Move>): seq<Event> {
    if xs == [] then []
    else Inputs(xs[..|xs| - 1]) + (if xs[|xs| - 1].Input? then [xs[|xs| - 1].e] else [])
  }

  /** The pipeline's storage and count are those of the controller on its inputs. */
  lemma {:induction false} PipelineFollowsController(xs: seq<Move>, a: Addr)
    ensures ProceedAll(xs, a).storage == Run(map[], Inputs(xs))
    ensures ProceedAll(xs, a).total == |Flushed(map[], Inputs(xs), a)|
  {
    if xs != [] {
      var front, x := xs[..|xs| - 1], xs[|xs| - 1];
      PipelineFollowsController(front, a);
      if x.Input? {
        assert (Inputs(front) + [x.e])[..|Inputs(front)|] == Inputs(front);
      } else {
        assert Inputs(front) + [] == Inputs(front);
      }
    }
  }

  function PacketsAt(stream: seq<Bytes>, order: seq<nat>): seq<Bytes>
    requires forall k | 0 <= k < |order| :: order[k] < |stream|
  {
    seq(|order|, k requires 0 <= k < |order| => stream[order[k]])
  }

  /** What RtcActor handles of an address are packets the address submitted; without overtaking they
      are the first ones it submitted, in order. */
  lemma HandledFollowsSubmitted(xs: seq<Move>, a: Addr)
    ensures forall k | 0 <= k < |ProceedAll(xs, a).order| :: ProceedAll(xs, a).order[k] < |Submitted(Inputs(xs), a)|
    ensures NoOvertaking(xs, a) ==>
              var order, stream := ProceedAll(xs, a).order, Submitted(Inputs(xs), a);
              |order| <= |stream| && PacketsAt(stream, order) == stream[..|order|]
  {
    var p, stream := ProceedAll(xs, a), Submitted(Inputs(xs), a);
    FlushesStayInOrder(xs, a);
    PipelineFollowsController(xs, a);
    Conservation(map[], Inputs(xs), a);
    assert p.total <= |stream|;
    if NoOvertaking(xs, a) {
      InOrderIff(xs, a);
    }
  }

  // ---------------------------------------------------------------------
  // Nothing is lost
  // ---------------------------------------------------------------------

  /** Every flushed position belongs to a task, what a task has passed was handled, and nothing was
      handled twice. */
  ghost predicate Complete(p: Pipeline) {
    && (forall n | 0 <= n < p.total :: Covered(p.tasks, n))
    && (forall i, x | 0 <= i < |p.tasks| && Passed(p.tasks[i], x) :: x in p.order)
    && (forall x, y | 0 <= x < y < |p.order| :: p.order[x] != p.order[y])
    && (forall x <- p.order :: Covered(p.tasks, x))
  }

  predicate Passed(t: Batch, x: nat) {
    t.start <= x < t.next
  }

  lemma InputKeepsComplete(p: Pipeline, e: Event, a: Addr)
    requires PipeOk(p) && Complete(p)
    ensures Complete(Proceed(p, Input(e), a))
  {
    var q := Proceed(p, Input(e), a);
    forall n: nat | Covered(p.tasks, n)
      ensures Covered(q.tasks, n)
    {
      var i :| 0 <= i < |p.tasks| && Within(n, p.tasks[i]);
      assert Within(n, q.tasks[i]);
    }
    forall n | p.total <= n < q.total
      ensures Covered(q.tasks, n)
    {
      assert Within(n, q.tasks[|p.tasks|]);
    }
  }

  lemma DeliverKeepsComplete(p: Pipeline, i: nat)
    requires PipeOk(p) && Complete(p)
    ensures Complete(DeliverNext(p, i))
  {
    if i < |p.tasks| && p.tasks[i].Unfinished() {
      var n := p.tasks[i].next;
      assert Within(n, p.tasks[i]) && Covered(p.tasks, n);
      assert forall x | 0 <= x < |p.order| :: Within(p.order[x], p.tasks[i]) ==> p.order[x] < n;
      DeliverKeepsCover(p, i);
      DeliverKeepsPassed(p, i);
    }
  }

  lemma DeliverKeepsCover(p: Pipeline, i: nat)
    ensures forall n: nat | Covered(p.tasks, n) :: Covered(DeliverNext(p, i).tasks, n)
  {
    var q := DeliverNext(p, i);
    forall n: nat | Covered(p.tasks, n)
      ensures Covered(q.tasks, n)
    {
      var j :| 0 <= j < |p.tasks| && Within(n, p.tasks[j]);
      assert Within(n, q.tasks[j]);
    }
  }

  lemma DeliverKeepsPassed(p: Pipeline, i: nat)
    requires i < |p.tasks| && p.tasks[i].Unfinished()
    requires forall j, x | 0 <= j < |p.tasks| && Passed(p.tasks[j], x) :: x in p.order
    ensures var q := DeliverNext(p, i);
            forall j, x | 0 <= j < |q.tasks| && Passed(q.tasks[j], x) :: x in q.order
  {
    var q, n := DeliverNext(p, i), p.tasks[i].next;
    forall j, x | 0 <= j < |q.tasks| && Passed(q.tasks[j], x)
      ensures x in q.order
    {
      if !(j == i && x == n) {
        assert Passed(p.tasks[j], x);
      }
    }
  }

  lemma {:induction false} PipelineIsComplete(xs: seq<Move>, a: Addr)
    ensures Complete(ProceedAll(xs, a))
  {
    if xs != [] {
      var front, x := xs[..|xs| - 1], xs[|xs| - 1];
      PipelineIsComplete(front, a);
      FlushesStayInOrder(front, a);
      if x.Input? {
        InputKeepsComplete(ProceedAll(front, a), x.e, a);
      } else {
        DeliverKeepsComplete(ProceedAll(front, a), x.i);
      }
    }
  }

  ghost predicate Finished(p: Pipeline) {
    forall i | 0 <= i < |p.tasks| :: !p.tasks[i].Unfinished()
  }

  function Remaining(tasks: seq<Batch>): nat {
    if tasks == [] then 0
    else
      var t := tasks[|tasks| - 1];
      Remaining(tasks[..|tasks| - 1]) + (if t.Unfinished() then t.end - t.next else 0)
  }

  lemma {:induction false} RemainingAfter(tasks: seq<Batch>, i: nat)
    requires i < |tasks| && tasks[i].Unfinished()
    ensures Remaining(tasks[i := tasks[i].(next := tasks[i].next + 1)]) + 1 == Remaining(tasks)
  {
    var n, after := |tasks| - 1, tasks[i := tasks[i].(next := tasks[i].next + 1)];
    if i < n {
      RemainingAfter(tasks[..n], i);
      assert after[..n] == tasks[..n][i := tasks[i].(next := tasks[i].next + 1)];
    } else {
      assert after[..n] == tasks[..n];
    }
  }

  /** From every state the tasks can be run to their end. */
  lemma {:induction false} CanFinish(p: Pipeline) returns (schedule: seq<nat>)
    ensures Finished(DeliverAll(p, schedule))
    decreases Remaining(p.tasks)
  {
    schedule := [];
    if i :| 0 <= i < |p.tasks| && p.tasks[i].Unfinished() {
      RemainingAfter(p.tasks, i);
      var later := CanFinish(DeliverNext(p, i));
      schedule := [i] + later;
      DeliverFirst(p, i, later);
    }
  }

  lemma {:induction false} DeliverFirst(p: Pipeline, i: nat, later: seq<nat>)
    ensures DeliverAll(p, [i] + later) == DeliverAll(DeliverNext(p, i), later)
  {
    if later == [] {
      assert [i] + later == [i] && [i][..0] == [];
    } else {
      var n := |later| - 1;
      DeliverFirst(p, i, later[..n]);
      assert ([i] + later)[..n + 1] == [i] + later[..n];
    }
  }

  /** Once the tasks have run to their end, every flushed packet was handled exactly once. */
  lemma EachIsHandledOnce(xs: seq<Move>, a: Addr)
    requires Finished(ProceedAll(xs, a))
    ensures var p := ProceedAll(xs, a);
            && (forall n | 0 <= n < |Flushed(map[], Inputs(xs), a)| :: n in p.order)
            && (forall x <- p.order :: x < |Flushed(map[], Inputs(xs), a)|)
            && (forall x, y | 0 <= x < y < |p.order| :: p.order[x] != p.order[y])
  {
    var p := ProceedAll(xs, a);
    FlushesStayInOrder(xs, a);
    PipelineIsComplete(xs, a);
    PipelineFollowsController(xs, a);
    forall n | 0 <= n < p.total
      ensures n in p.order
    {
      assert Covered(p.tasks, n);
      var i :| 0 <= i < |p.tasks| && Within(n, p.tasks[i]);
      assert Passed(p.tasks[i], n);
    }
  }
}
