/** The jitter buffer and its controller (src/rtp/jitter.rs). Each handler reads the clock once. */
module Jitter {
  import opened Base
  import opened Wire
  import RtpCore

  const STEP: nat := 10 * MILLI
  const START_DELAY: nat := 50 * MILLI

  datatype JitterBuffer = JitterBuffer(buffer: seq<Bytes>, time: nat, delay: nat)
  type Storage = map<Addr, JitterBuffer>

  datatype Event =
    | Increase(addr: Addr, now: nat)
    | Decrease(addr: Addr, now: nat)
    | Arrive(addr: Addr, data: Bytes, now: nat)

  datatype Response = Silent | Buffer(flushed: Option<seq<Bytes>>) | Packet(data: Bytes)

  /** entry(addr).or_default() */
  function EntryOf(st: Storage, a: Addr, now: nat): JitterBuffer {
    if a in st then st[a] else JitterBuffer([], now, START_DELAY)
  }

  function Step(st: Storage, e: Event): (Storage, Response) {
    match e
    case Increase(a, now) =>
      var j := EntryOf(st, a, now);
      (st[a := j.(delay := j.delay + STEP)], Silent)
    case Decrease(a, _) =>
      if a !in st || st[a].delay <= START_DELAY then (st, Silent)
      else (st[a := st[a].(delay := st[a].delay - STEP)], Silent)
    case Arrive(a, data, now) =>
      if RtpCore.IsRtcp(data) then (st, Packet(data))
      else
        var j := EntryOf(st, a, now);
        var filled := j.buffer + [data];
        if now >= j.time + j.delay then (st[a := JitterBuffer([], now, j.delay)], Buffer(Some(filled)))
        else (st[a := j.(buffer := filled)], Buffer(None))
  }

  class JitterControlActor {
    var storage: Storage

    constructor ()
      ensures storage == map[]
    {
      storage := map[];
    }

    method HandleIncrease(addr: Addr, now: nat)
      modifies this
      ensures storage == Step(old(storage), Increase(addr, now)).0
    {
      if addr !in storage {
        storage := storage[addr := JitterBuffer([], now, START_DELAY)];
      }
      storage := storage[addr := storage[addr].(delay := storage[addr].delay + STEP)];
    }

    method HandleDecrease(addr: Addr, now: nat)
      modifies this
      ensures storage == Step(old(storage), Decrease(addr, now)).0
    {
      if addr in storage {
        if storage[addr].delay <= START_DELAY {
          return;
        }
        storage := storage[addr := storage[addr].(delay := storage[addr].delay - STEP)];
      }
    }

    method HandleGetOrStore(addr: Addr, data: Bytes, now: nat) returns (r: Response)
      modifies this
      ensures (storage, r) == Step(old(storage), Arrive(addr, data, now))
    {
      if RtpCore.IsRtcp(data) {
        return Packet(data);
      }
      if addr !in storage {
        storage := storage[addr := JitterBuffer([], now, START_DELAY)];
      }
      storage := storage[addr := storage[addr].(buffer := storage[addr].buffer + [data])];
      assert storage == old(storage)[addr := storage[addr]];
      if now >= storage[addr].time + storage[addr].delay {
        var buffer := storage[addr].buffer;
        storage := storage[addr := storage[addr].(time := now, buffer := [])];
        assert storage == old(storage)[addr := storage[addr]];
        return Buffer(Some(buffer));
      } else {
        return Buffer(None);
      }
    }
  }

  // ---------------------------------------------------------------------
  // Runs
  // ---------------------------------------------------------------------

  function Run(st: Storage, es: seq<Event>): Storage {
    if es == [] then st else Step(Run(st, es[..|es| - 1]), es[|es| - 1]).0
  }

  /** The buffer flushed to address `a` by the last event of a run, if any. */
  function LastFlush(st: Storage, es: seq<Event>, a: Addr): Option<seq<Bytes>>
    requires es != []
  {
    var e := es[|es| - 1];
    match Step(Run(st, es[..|es| - 1]), e).1
    case Buffer(flushed) => if e.addr == a then flushed else None
    case _ => None
  }

  /** Everything flushed for `a`, in order. */
  function Flushed(st: Storage, es: seq<Event>, a: Addr): seq<Bytes> {
    if es == [] then []
    else
      Flushed(st, es[..|es| - 1], a) +
      (match LastFlush(st, es, a) case Some(b) => b case None => [])
  }

  /** The non-RTCP packets submitted for `a`, in order. */
  function Submitted(es: seq<Event>, a: Addr): seq<Bytes> {
    if es == [] then []
    else
      var e := es[|es| - 1];
      Submitted(es[..|es| - 1], a) +
      (if e.Arrive? && e.addr == a && !RtpCore.IsRtcp(e.data) then [e.data] else [])
  }

  function Held(st: Storage, a: Addr): seq<Bytes> {
    if a in st then st[a].buffer else []
  }

  /** Conservation: what was flushed followed by what is held is exactly what was submitted
      (after what was already held), in order, for every address and every run. */
  lemma {:induction false} Conservation(st: Storage, es: seq<Event>, a: Addr)
    ensures Flushed(st, es, a) + Held(Run(st, es), a) == Held(st, a) + Submitted(es, a)
  {
    if es != [] {
      var n := |es| - 1;
      Conservation(st, es[..n], a);
      ConservationStep(Run(st, es[..n]), es[n], a);
      var f, h := Flushed(st, es[..n], a), Held(Run(st, es[..n]), a);
      var out := match LastFlush(st, es, a) case Some(b) => b case None => [];
      var entering := if es[n].Arrive? && es[n].addr == a && !RtpCore.IsRtcp(es[n].data) then [es[n].data] else [];
      calc {
        Flushed(st, es, a) + Held(Run(st, es), a);
        (f + out) + Held(Run(st, es), a);
        { ConcatAssoc(f, out, Held(Run(st, es), a)); }
        f + (h + entering);
        { ConcatAssoc(f, h, entering); }
        (Held(st, a) + Submitted(es[..n], a)) + entering;
        { ConcatAssoc(Held(st, a), Submitted(es[..n], a), entering); }
        Held(st, a) + Submitted(es, a);
      }
    }
  }

  /** One event moves packets from the buffer to the flush and loses none. */
  lemma ConservationStep(st: Storage, e: Event, a: Addr)
    ensures var (st', r) := Step(st, e);
            var out := if r.Buffer? && e.addr == a && r.flushed.Some? then r.flushed.value else [];
            var entering := if e.Arrive? && e.addr == a && !RtpCore.IsRtcp(e.data) then [e.data] else [];
            out + Held(st', a) == Held(st, a) + entering
  {
  }

  /** An arrival flushes exactly when the delay has passed since the last flush. A flush is never
      empty: it ends with the packet that triggered it. RTCP touches nothing. */
  lemma FlushEndsWithArrival(st: Storage, a: Addr, data: Bytes, now: nat)
    ensures var (st', r) := Step(st, Arrive(a, data, now));
            if RtpCore.IsRtcp(data) then st' == st && r == Packet(data)
            else
              && r.Buffer?
              && (r.flushed.Some? <==> a in st && now >= st[a].time + st[a].delay)
              && (r.flushed.Some? <==> Held(st', a) == [])
              && (r.flushed.Some? ==> r.flushed.value != [] && r.flushed.value[|r.flushed.value| - 1] == data)
              && (forall b | b != a :: b in st <==> b in st')
              && (forall b | b != a && b in st :: st[b] == st'[b])
  {
  }

  // ---------------------------------------------------------------------
  // Flush rate
  // ---------------------------------------------------------------------

  /** A flush: when it happened and the delay then in force. */
  datatype Flush = Flush(at: nat, delay: nat)

  function Flushes(st: Storage, es: seq<Event>, a: Addr): seq<Flush> {
    if es == [] then []
    else
      Flushes(st, es[..|es| - 1], a) +
      (if LastFlush(st, es, a).Some? then [Flush(es[|es| - 1].now, Run(st, es)[a].delay)] else [])
  }

  /** 50 + 10k ms with k >= 0. */
  predicate OnGrid(delay: nat) {
    delay >= START_DELAY && (delay - START_DELAY) % STEP == 0
  }

  predicate DelaysOk(st: Storage) {
    forall a <- st :: OnGrid(st[a].delay)
  }

  lemma GridSteps(delay: nat)
    requires OnGrid(delay)
    ensures OnGrid(delay + STEP)
    ensures delay > START_DELAY ==> delay - STEP >= START_DELAY && OnGrid(delay - STEP)
  {
  }

  /** Each flush comes at least the delay in force after the previous one. */
  predicate Spaced(fs: seq<Flush>) {
    && (forall i | 0 <= i < |fs| :: fs[i].delay >= START_DELAY)
    && (forall i | 0 < i < |fs| :: fs[i].at >= fs[i - 1].at + fs[i].delay)
  }

  lemma {:induction false} DelaysStayOk(st: Storage, es: seq<Event>)
    requires DelaysOk(st)
    ensures DelaysOk(Run(st, es))
  {
    if es != [] {
      var before := Run(st, es[..|es| - 1]);
      DelaysStayOk(st, es[..|es| - 1]);
      GridSteps(EntryOf(before, es[|es| - 1].addr, 0).delay);
    }
  }

  /** `fs` are spaced and the entry's clock shows the last of them. */
  predicate Tracked(st: Storage, a: Addr, fs: seq<Flush>) {
    Spaced(fs) && (fs != [] ==> a in st && st[a].time == fs[|fs| - 1].at)
  }

  lemma {:induction false} FlushesAreSpaced(st: Storage, es: seq<Event>, a: Addr)
    requires DelaysOk(st)
    ensures Tracked(Run(st, es), a, Flushes(st, es, a))
  {
    if es != [] {
      var n := |es| - 1;
      FlushesAreSpaced(st, es[..n], a);
      DelaysStayOk(st, es[..n]);
      SpacedStep(Run(st, es[..n]), es[n], a, Flushes(st, es[..n], a));
      FlushesSnoc(st, es, a);
    }
  }

  function FlushOf(st: Storage, e: Event, a: Addr): seq<Flush> {
    var (st', r) := Step(st, e);
    if r.Buffer? && r.flushed.Some? && e.addr == a && a in st' then [Flush(e.now, st'[a].delay)] else []
  }

  lemma FlushesSnoc(st: Storage, es: seq<Event>, a: Addr)
    requires es != []
    ensures var front, e := es[..|es| - 1], es[|es| - 1];
            && Run(st, es) == Step(Run(st, front), e).0
            && Flushes(st, es, a) == Flushes(st, front, a) + FlushOf(Run(st, front), e, a)
  {
  }

  lemma SpacedStep(st: Storage, e: Event, a: Addr, fs: seq<Flush>)
    requires DelaysOk(st) && Tracked(st, a, fs)
    ensures Tracked(Step(st, e).0, a, fs + FlushOf(st, e, a))
  {
    FlushSpacing(st, e, a);
    var (st', r) := Step(st, e);
    if r.Buffer? && r.flushed.Some? && e.addr == a {
      SpacedSnoc(fs, Flush(e.now, st'[a].delay));
    } else {
      assert fs + [] == fs;
    }
  }

  /** An event flushes `a` only when its delay has passed since the last flush, and only a flush
      moves an existing entry's clock. */
  lemma FlushSpacing(st: Storage, e: Event, a: Addr)
    requires DelaysOk(st)
    ensures var (st', r) := Step(st, e);
            if r.Buffer? && r.flushed.Some? && e.addr == a
            then
              && a in st' && st'[a].time == e.now && st'[a].delay >= START_DELAY
              && (a in st ==> e.now >= st[a].time + st'[a].delay)
            else a in st ==> a in st' && st'[a].time == st[a].time
  {
  }

  lemma SpacedSnoc(fs: seq<Flush>, f: Flush)
    requires Spaced(fs) && f.delay >= START_DELAY
    requires fs != [] ==> f.at >= fs[|fs| - 1].at + f.delay
    ensures Spaced(fs + [f])
  {
  }

  /** The first message or packet of an address starts its clock, and flushes nothing: an increase
      leaves 60 ms and no packet, a packet 50 ms and itself; a decrease and RTCP create nothing. */
  lemma FirstEventStartsClock(st: Storage, e: Event)
    requires e.addr !in st
    ensures var (st', r) := Step(st, e);
            if e.Decrease? || (e.Arrive? && RtpCore.IsRtcp(e.data)) then st' == st
            else
              && st'.Keys == st.Keys + {e.addr} && st'[e.addr].time == e.now
              && (e.Increase? ==> st'[e.addr].delay == 60 * MILLI && st'[e.addr].buffer == [])
              && (e.Arrive? ==>
                    st'[e.addr].delay == 50 * MILLI && st'[e.addr].buffer == [e.data] && r == Buffer(None))
  {
  }

  /** And the first flush of an address comes at least its delay after its clock was started. */
  lemma {:induction false} FirstFlushWaits(st: Storage, es: seq<Event>, a: Addr)
    requires a in st
    ensures var fs := Flushes(st, es, a);
            if fs == [] then a in Run(st, es) && Run(st, es)[a].time == st[a].time
            else fs[0].at >= st[a].time + fs[0].delay
  {
    if es != [] {
      var front, e := es[..|es| - 1], es[|es| - 1];
      FirstFlushWaits(st, front, a);
      FlushesSnoc(st, es, a);
      ClockMoves(Run(st, front), e, a);
    }
  }

  /** An existing clock moves only with a flush, which comes when the delay has passed. */
  lemma ClockMoves(st: Storage, e: Event, a: Addr)
    ensures a in st ==>
              var st' := Step(st, e).0;
              && a in st'
              && if FlushOf(st, e, a) == [] then st'[a].time == st[a].time
                 else FlushOf(st, e, a) == [Flush(e.now, st'[a].delay)] && e.now >= st[a].time + st'[a].delay
  {
  }

  /** How many flushes fall into [from, to]. */
  function CountIn(fs: seq<Flush>, from: nat, to: nat): nat {
    if fs == [] then 0
    else CountIn(fs[..|fs| - 1], from, to) + (if from <= fs[|fs| - 1].at <= to then 1 else 0)
  }

  lemma {:induction false} SpacedCount(fs: seq<Flush>, from: nat, to: nat)
    requires Spaced(fs) && from <= to
    ensures var c := CountIn(fs, from, to);
            c > 0 ==> from + (c - 1) * START_DELAY <= to && from + (c - 1) * START_DELAY <= fs[|fs| - 1].at
  {
    if |fs| > 1 {
      SpacedCount(fs[..|fs| - 1], from, to);
    }
  }

  lemma QuotientBound(c: nat, window: nat, d: nat)
    requires d > 0 && c * d <= window
    ensures c <= window / d
  {
    var q := window / d;
    assert window < (q + 1) * d;
    assert c >= q + 1 ==> c * d >= (q + 1) * d;
  }

  /** Rate bound: any window of T nanoseconds holds at most T / 50 ms + 1 flushes of an address. */
  lemma FlushRateBound(st: Storage, es: seq<Event>, a: Addr, from: nat, window: nat)
    requires DelaysOk(st)
    ensures CountIn(Flushes(st, es, a), from, from + window) <= window / START_DELAY + 1
  {
    FlushesAreSpaced(st, es, a);
    SpacedRate(Flushes(st, es, a), from, window);
  }

  lemma SpacedRate(fs: seq<Flush>, from: nat, window: nat)
    requires Spaced(fs)
    ensures CountIn(fs, from, from + window) <= window / START_DELAY + 1
  {
    SpacedCount(fs, from, from + window);
    var c := CountIn(fs, from, from + window);
    if c > 0 {
      QuotientBound(c - 1, window, START_DELAY);
    }
  }
}

/** The jitter estimator (src/client/rtc_actor.rs:135-156) and how the controller follows it. */
module JitterEstimate {
  import opened Base
  import opened Wire
  import opened Modular
  import opened Jitter

  const VOLATILE: nat := 1000
  const RECHECK: nat := 10 * SECOND
  const START_MS: int := 50
  const STEP_MS: int := 10

  /** jitter_delay in milliseconds, and when it last changed. */
  datatype Stats = Stats(delay: u32, checked: nat)

  datatype Verdict = Keep | Grow | Shrink

  /** One packet's contribution: time since the previous one and the client's timestamp step. */
  datatype Sample = Sample(frequency: u32, realDiff: nat, clientDiff: u32, now: nat)

  function Transit(s: Sample): nat {
    var rate := s.frequency / 1000;
    var arrival := (s.realDiff / MILLI) % U32 * rate % U32;
    if arrival >= s.clientDiff then arrival - s.clientDiff else s.clientDiff - arrival
  }

  function Judge(st: Stats, s: Sample): Verdict {
    if Transit(s) > (st.delay * (s.frequency / 1000) + VOLATILE) % U32 then Grow
    else if s.now >= st.checked + RECHECK then Shrink
    else Keep
  }

  /** Wrapping arithmetic: the decrease has no floor. */
  function Apply(st: Stats, v: Verdict, now: nat): Stats {
    match v
    case Keep => st
    case Grow => Stats((st.delay + STEP_MS) % U32, now)
    case Shrink => Stats((st.delay - STEP_MS) % U32, now)
  }

  function SignOf(v: Verdict): seq<int> {
    match v case Keep => [] case Grow => [1] case Shrink => [-1]
  }

  /** The estimator after a run of packets. */
  function EstimateAll(st: Stats, samples: seq<Sample>): Stats {
    if samples == [] then st
    else
      var st', s := EstimateAll(st, samples[..|samples| - 1]), samples[|samples| - 1];
      Apply(st', Judge(st', s), s.now)
  }

  /** The sign of every message it sends to the controller on the way. */
  function Sent(st: Stats, samples: seq<Sample>): seq<int> {
    if samples == [] then []
    else
      var front := samples[..|samples| - 1];
      Sent(st, front) + SignOf(Judge(EstimateAll(st, front), samples[|samples| - 1]))
  }

  /** W: the walk 10 ms up or down per message, as an integer. */
  function Walk(from: int, signs: seq<int>): int {
    if signs == [] then from
    else Walk(from, signs[..|signs| - 1]) + STEP_MS * signs[|signs| - 1]
  }

  /** The least value of the walk over all prefixes. */
  function Lowest(from: int, signs: seq<int>): (r: int)
    ensures r <= from && r <= Walk(from, signs)
  {
    if signs == [] then from
    else
      var front, here := Lowest(from, signs[..|signs| - 1]), Walk(from, signs);
      if here < front then here else front
  }

  /** The messages the controller got for `a`, as signs. */
  function Signs(es: seq<Event>, a: Addr): seq<int> {
    if es == [] then []
    else
      var e := es[|es| - 1];
      Signs(es[..|es| - 1], a) +
      (if e.addr != a then []
       else match e case Increase(_, _) => [1] case Decrease(_, _) => [-1] case Arrive(_, _, _) => [])
  }

  function DelayOf(st: Storage, a: Addr): nat {
    if a in st then st[a].delay else START_DELAY
  }

  /** The walk pushed up by however far it has ever been below 50 ms. */
  function Reflected(from: int, signs: seq<int>): int {
    var low := Lowest(from, signs);
    Walk(from, signs) + (if low < START_MS then START_MS - low else 0)
  }

  /** Reflection law: after every run of messages the controller's delay is the reflected walk. */
  lemma {:induction false} Reflection(st: Storage, es: seq<Event>, a: Addr, from: int)
    requires from >= START_MS && from % STEP_MS == 0 && DelayOf(st, a) == MILLI * from
    ensures Reflected(from, Signs(es, a)) >= START_MS
    ensures DelayOf(Run(st, es), a) == MILLI * Reflected(from, Signs(es, a))
  {
    if es != [] {
      var n := |es| - 1;
      var front := Signs(es[..n], a);
      Reflection(st, es[..n], a, from);
      DelayStep(Run(st, es[..n]), es[n], a);
      ReflectedStep(from, front, 1);
      ReflectedStep(from, front, -1);
      assert front + [] == front;
    }
  }

  /** What one event does to the delay of `a`. */
  lemma DelayStep(st: Storage, e: Event, a: Addr)
    ensures var d := DelayOf(st, a);
            DelayOf(Step(st, e).0, a) ==
            if e.addr != a || e.Arrive? then d
            else if e.Increase? then d + MILLI * STEP_MS
            else if d <= MILLI * START_MS then d else d - MILLI * STEP_MS
  {
  }

  /** What one message does to the reflected walk: it never crosses 50 ms downwards. */
  lemma ReflectedStep(from: int, signs: seq<int>, sign: int)
    requires from >= START_MS && from % STEP_MS == 0 && (sign == 1 || sign == -1)
    ensures var r := Reflected(from, signs);
            && r >= START_MS
            && Reflected(from, signs + [sign]) ==
               if sign == 1 then r + STEP_MS else if r <= START_MS then r else r - STEP_MS
  {
    assert (signs + [sign])[..|signs|] == signs;
    WalkOnGrid(from, signs);
    LowestOnGrid(from, signs);
  }

  lemma {:induction false} WalkOnGrid(from: int, signs: seq<int>)
    requires from % STEP_MS == 0
    ensures Walk(from, signs) % STEP_MS == 0
  {
    if signs != [] {
      WalkOnGrid(from, signs[..|signs| - 1]);
    }
  }

  lemma {:induction false} LowestOnGrid(from: int, signs: seq<int>)
    requires from % STEP_MS == 0
    ensures Lowest(from, signs) % STEP_MS == 0
  {
    WalkOnGrid(from, signs);
    if signs != [] {
      LowestOnGrid(from, signs[..|signs| - 1]);
    }
  }

  /** The estimator's u32 field is the walk modulo 2^32, on every run. */
  lemma {:induction false} EstimatorWalks(st: Stats, samples: seq<Sample>)
    ensures EstimateAll(st, samples).delay == Walk(st.delay, Sent(st, samples)) % U32
  {
    if samples == [] {
      ModSmall(st.delay, U32);
    } else {
      var n := |samples| - 1;
      EstimatorWalks(st, samples[..n]);
      var st' := EstimateAll(st, samples[..n]);
      ApplyWalks(st.delay, Sent(st, samples[..n]), st', Judge(st', samples[n]), samples[n].now);
    }
  }

  lemma ApplyWalks(from: int, signs: seq<int>, st: Stats, v: Verdict, now: nat)
    requires st.delay == Walk(from, signs) % U32
    ensures Apply(st, v, now).delay == Walk(from, signs + SignOf(v)) % U32
  {
    match v {
      case Keep =>
        assert signs + [] == signs;
      case Grow =>
        assert (signs + [1])[..|signs|] == signs;
        ModAdd(Walk(from, signs), STEP_MS, U32);
      case Shrink =>
        assert (signs + [-1])[..|signs|] == signs;
        ModAdd(Walk(from, signs), -STEP_MS, U32);
    }
  }

  /** Starting the walk elsewhere shifts it. */
  lemma {:induction false} WalkShifts(from: int, to: int, signs: seq<int>)
    ensures Walk(to, signs) == Walk(from, signs) + (to - from)
    ensures Lowest(to, signs) == Lowest(from, signs) + (to - from)
  {
    if signs != [] {
      WalkShifts(from, to, signs[..|signs| - 1]);
    }
  }

  /** A new client's estimator, and the controller's delay for its address, which is `from` ms when
      the client is created and may be left over from an earlier client there. The field holds the
      walk W exactly while W stays inside u32. Then the controller is ahead of it by what was left
      over and by however far the controller's own walk has been below 50 ms; so they agree exactly
      if nothing was left over and W has never been below 50 ms. */
  lemma ControllerFollowsEstimator(
    st: Storage, es: seq<Event>, a: Addr, from: int, checked: nat, samples: seq<Sample>)
    requires from >= START_MS && from % STEP_MS == 0 && DelayOf(st, a) == MILLI * from
    requires Signs(es, a) == Sent(Stats(START_MS, checked), samples)
    ensures var signs := Signs(es, a);
            var w, low := Walk(START_MS, signs), Lowest(from, signs);
            var field, delay := EstimateAll(Stats(START_MS, checked), samples).delay, DelayOf(Run(st, es), a);
            && (field == w <==> 0 <= w < U32)
            && (0 <= w < U32 ==>
                  && delay == MILLI * (field + (from - START_MS) + (if low < START_MS then START_MS - low else 0))
                  && (delay == MILLI * field <==> from == START_MS && Lowest(START_MS, signs) >= START_MS))
  {
    Reflection(st, es, a, from);
    EstimatorWalks(Stats(START_MS, checked), samples);
    WalkShifts(START_MS, from, Signs(es, a));
    var w := Walk(START_MS, Signs(es, a));
    if 0 <= w < U32 {
      ModSmall(w, U32);
    }
  }

  // ---------------------------------------------------------------------
  // Streams without jitter
  // ---------------------------------------------------------------------

  /** Every packet arrives exactly as much later than the one before as its timestamp says. A
      runtime's first packet has no timestamp before it and is exact only if it comes at once. */
  predicate Exact(samples: seq<Sample>) {
    forall i | 0 <= i < |samples| :: Transit(samples[i]) == 0
  }

  function Downs(k: nat): seq<int> {
    if k == 0 then [] else Downs(k - 1) + [-1]
  }

  /** Such a stream never asks for more delay, only for less. */
  lemma {:induction false} ExactOnlyShrinks(st: Stats, samples: seq<Sample>) returns (n: nat)
    requires Exact(samples)
    ensures Sent(st, samples) == Downs(n) && |Sent(st, samples)| == n
  {
    n := 0;
    if samples != [] {
      var front, last := samples[..|samples| - 1], samples[|samples| - 1];
      n := ExactOnlyShrinks(st, front);
      ExactVerdict(EstimateAll(st, front), last);
      if Judge(EstimateAll(st, front), last) == Shrink {
        n := n + 1;
      }
    }
  }

  lemma ExactVerdict(st: Stats, s: Sample)
    requires Transit(s) == 0
    ensures Judge(st, s) == if s.now >= st.checked + RECHECK then Shrink else Keep
  {
  }

  lemma {:induction false} WalkDown(from: int, k: nat)
    ensures Walk(from, Downs(k)) == Lowest(from, Downs(k)) == from - STEP_MS * k
  {
    if k > 0 {
      WalkDown(from, k - 1);
      assert Downs(k)[..|Downs(k)| - 1] == Downs(k - 1);
    }
  }

  /** From any statistics and any delay such a stream, or the exact stretch of any stream, drains the
      estimator without limit, through zero and around, while the controller stops at 50 ms. */
  lemma ExactDrain(stats: Stats, samples: seq<Sample>, st: Storage, es: seq<Event>, a: Addr, from: int)
    returns (n: nat)
    requires Exact(samples) && Signs(es, a) == Sent(stats, samples)
    requires from >= START_MS && from % STEP_MS == 0 && DelayOf(st, a) == MILLI * from
    ensures |Sent(stats, samples)| == n && EstimateAll(stats, samples).delay == (stats.delay - STEP_MS * n) % U32
    ensures DelayOf(Run(st, es), a)
         == if from - STEP_MS * n >= START_MS then MILLI * (from - STEP_MS * n) else START_DELAY
  {
    n := ExactOnlyShrinks(stats, samples);
    EstimatorDrains(stats, samples, n);
    ControllerDrains(st, es, a, from, n);
  }

  lemma EstimatorDrains(stats: Stats, samples: seq<Sample>, n: nat)
    requires Sent(stats, samples) == Downs(n)
    ensures EstimateAll(stats, samples).delay == (stats.delay - STEP_MS * n) % U32
  {
    EstimatorWalks(stats, samples);
    WalkDown(stats.delay, n);
    SameRemainder(Walk(stats.delay, Downs(n)), stats.delay - STEP_MS * n);
  }

  lemma SameRemainder(x: int, y: int)
    requires x == y
    ensures x % U32 == y % U32
  {
  }

  lemma ControllerDrains(st: Storage, es: seq<Event>, a: Addr, from: int, n: nat)
    requires Signs(es, a) == Downs(n)
    requires from >= START_MS && from % STEP_MS == 0 && DelayOf(st, a) == MILLI * from
    ensures DelayOf(Run(st, es), a)
         == if from - STEP_MS * n >= START_MS then MILLI * (from - STEP_MS * n) else START_DELAY
  {
    WalkDown(from, n);
    Reflection(st, es, a, from);
  }
}
