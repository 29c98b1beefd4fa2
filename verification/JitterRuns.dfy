/** The estimator on runs of packets: what its samples are when the runtimes produce them. */
module JitterRuns {
  import opened Base
  import opened Wire
  import opened RtpCore
  import opened Renumbering
  import Jitter
  import opened JitterEstimate

  /** The clock has not run backwards since the packet's runtime was last used. */
  predicate Timely(rts: Runtimes, p: Packet) {
    && Handleable(rts, p)
    && rts[p.frequency].startedTime + rts[p.frequency].prevTimeDiff <= p.now
  }

  /** What a packet tells the estimator, given the runtimes it finds. */
  function SampleOf(rts: Runtimes, p: Packet): Sample
    requires Timely(rts, p)
  {
    var rt := rts[p.frequency];
    Sample(p.frequency, p.now - rt.startedTime - rt.prevTimeDiff, Gap(rt.clientTs, p.header.timestamp), p.now)
  }

  predicate AllTimely(rts: Runtimes, ps: seq<Packet>)
    requires AllHandleable(rts, ps)
  {
    ps == [] || (AllTimely(rts, ps[..|ps| - 1]) && Timely(HandleAll(rts, ps[..|ps| - 1]), ps[|ps| - 1]))
  }

  /** The samples of a run of packets, of any mix of frequencies. */
  function SamplesOf(rts: Runtimes, ps: seq<Packet>): seq<Sample>
    requires AllHandleable(rts, ps) && AllTimely(rts, ps)
  {
    if ps == [] then []
    else
      var front := ps[..|ps| - 1];
      SamplesOf(rts, front) + [SampleOf(HandleAll(rts, front), ps[|ps| - 1])]
  }

  /** Packets handled in the order of a clock that never runs backwards are timely. */
  predicate ClockOrdered(ps: seq<Packet>) {
    forall i, j | 0 <= i <= j < |ps| :: ps[i].now <= ps[j].now
  }

  lemma {:induction false} OrderedIsTimely(rts: Runtimes, ps: seq<Packet>)
    requires AllHandleable(rts, ps) && ClockOrdered(ps) && forall p <- ps :: Timely(rts, p)
    ensures AllTimely(rts, ps)
  {
    if ps != [] {
      var front, p := ps[..|ps| - 1], ps[|ps| - 1];
      OrderedIsTimely(rts, front);
      assert p in ps;
      ClockOfRuntime(rts, front, p.frequency, p.now);
    }
  }

  lemma {:induction false} ClockOfRuntime(rts: Runtimes, ps: seq<Packet>, f: u32, now: nat)
    requires AllHandleable(rts, ps) && f in rts && rts[f].startedTime + rts[f].prevTimeDiff <= now
    requires forall i | 0 <= i < |ps| :: ps[i].now <= now
    ensures HandleAll(rts, ps)[f].startedTime + HandleAll(rts, ps)[f].prevTimeDiff <= now
  {
    if ps != [] {
      ClockOfRuntime(rts, ps[..|ps| - 1], f, now);
    }
  }

  /** The time between two packets of a runtime is the difference of the clock readings. */
  lemma SampleSpansPackets(rts: Runtimes, p: Packet, q: Packet)
    requires Timely(rts, p) && p.frequency == q.frequency && p.now <= q.now && |q.plain| >= 8
    ensures Timely(Handle(rts, p), q) && SampleOf(Handle(rts, p), q).realDiff == q.now - p.now
  {
  }

  // ---------------------------------------------------------------------
  // When the delay grows and when it shrinks
  // ---------------------------------------------------------------------

  function Abs(x: int): nat {
    if x < 0 then -x else x
  }

  /** The estimator moves by `change` ms at time `now`, or stays as it is, and says so to the controller. */
  ghost predicate Moved(st: Stats, s: Sample, change: int) {
    && EstimateAll(st, [s]) == (if change == 0 then st else Stats((st.delay + change) % U32, s.now))
    && Sent(st, [s]) == (if change == 0 then [] else if change > 0 then [1] else [-1])
  }

  /** What a packet does to the estimator: `gap` is the time since the packet before it in whole ms,
      `step` how much its timestamp is ahead. It grows by 10 ms exactly if the two differ, in ticks, by
      more than the present delay and 1000; else it shrinks by 10 ms exactly if ten seconds have
      passed since its last move. */
  ghost predicate MovesBy(st: Stats, s: Sample, rate: nat, gap: nat, step: nat) {
    Moved(st, s,
          if Abs(gap * rate - step) > st.delay * rate + 1000 then 10
          else if s.now >= st.checked + 10_000_000_000 then -10
          else 0)
  }

  /** Two packets of one runtime, one after the other: what the second does, by the readings of the
      clock and the timestamps, while the products fit 32 bits. */
  lemma SecondPacketMoves(st: Stats, rts: Runtimes, p: Packet, q: Packet)
    requires Timely(rts, p) && p.frequency == q.frequency && p.now <= q.now && |q.plain| >= 8
    requires var rate := q.frequency / 1000;
             (q.now - p.now) / 1_000_000 * rate < U32 && st.delay * rate + 1000 < U32
    ensures Timely(Handle(rts, p), q)
    ensures var step := if p.header.timestamp == 0 || q.header.timestamp < p.header.timestamp then 0
                        else q.header.timestamp - p.header.timestamp;
            MovesBy(st, SampleOf(Handle(rts, p), q), q.frequency / 1000, (q.now - p.now) / 1_000_000, step)
  {
    SampleMoves(st, SampleOf(Handle(rts, p), q));
  }

  /** The first packet of a runtime: it has no timestamp before it, and counts from the runtime's
      creation. */
  lemma FirstPacketMoves(st: Stats, rts: Runtimes, q: Packet)
    requires Timely(rts, q) && rts[q.frequency].Fresh() && rts[q.frequency].prevTimeDiff == 0
    requires var rate := q.frequency / 1000;
             (q.now - rts[q.frequency].startedTime) / 1_000_000 * rate < U32 && st.delay * rate + 1000 < U32
    ensures MovesBy(st, SampleOf(rts, q), q.frequency / 1000, (q.now - rts[q.frequency].startedTime) / 1_000_000, 0)
  {
    SampleMoves(st, SampleOf(rts, q));
  }

  lemma SampleMoves(st: Stats, s: Sample)
    requires s.realDiff / 1_000_000 * (s.frequency / 1000) < U32 && st.delay * (s.frequency / 1000) + 1000 < U32
    ensures MovesBy(st, s, s.frequency / 1000, s.realDiff / 1_000_000, s.clientDiff)
  {
    OneSample(st, s);
    JudgeFits(st, s);
  }

  lemma JudgeFits(st: Stats, s: Sample)
    requires s.realDiff / 1_000_000 * (s.frequency / 1000) < U32 && st.delay * (s.frequency / 1000) + 1000 < U32
    ensures Judge(st, s) ==
            var rate := s.frequency / 1000;
            if Abs(s.realDiff / 1_000_000 * rate - s.clientDiff) > st.delay * rate + 1000 then Grow
            else if s.now >= st.checked + 10_000_000_000 then Shrink
            else Keep
  {
    TransitFits(s);
  }

  lemma OneSample(st: Stats, s: Sample)
    ensures EstimateAll(st, [s]) == Apply(st, Judge(st, s), s.now) && Sent(st, [s]) == SignOf(Judge(st, s))
  {
    assert [s][..0] == [];
  }

  lemma TransitFits(s: Sample)
    requires s.realDiff / 1_000_000 * (s.frequency / 1000) < U32
    ensures Transit(s) == Abs(s.realDiff / 1_000_000 * (s.frequency / 1000) - s.clientDiff)
  {
    ProductFits(s.realDiff / 1_000_000, s.frequency / 1000);
  }

  /** A product that fits, computed with wrapping. */
  lemma ProductFits(gap: nat, rate: nat)
    requires gap * rate < U32
    ensures gap % U32 * rate % U32 == gap * rate
  {
    if rate == 0 {
      assert gap % U32 * rate == 0;
    } else {
      assert gap <= gap * rate;
    }
  }

  /** A late packet raises the field and, once its message is handled, the controller's delay. */
  lemma LatePacketRaisesBoth(stats: Stats, s: Sample, st: Jitter.Storage, es: seq<Jitter.Event>, a: Addr, from: int)
    requires Moved(stats, s, 10) && Signs(es, a) == Sent(stats, [s])
    requires from >= START_MS && from % STEP_MS == 0 && DelayOf(st, a) == MILLI * from
    ensures EstimateAll(stats, [s]).delay == (stats.delay + 10) % U32
    ensures DelayOf(Jitter.Run(st, es), a) == DelayOf(st, a) + 10 * MILLI
  {
    Reflection(st, es, a, from);
    assert [1][..0] == [];
    assert Walk(from, [1]) == from + STEP_MS && Lowest(from, [1]) == from;
  }

  // ---------------------------------------------------------------------
  // A packet every ten seconds, with a timestamp to match
  // ---------------------------------------------------------------------

  const VIDEO: u32 := 90_000

  /** When packet k arrives, in nanoseconds, and its timestamp. */
  function At(k: nat): nat { k * 10_000_000_000 }
  function Ts(k: nat): nat { 1 + k * 900_000 }
  const FIRST: Runtimes := map[VIDEO := Runtime(None, 1, None, 1, 0, 0)]

  function QuietPacket(k: nat): Packet
    requires Ts(k) < U32
  {
    var h := RtpHeader(false, 96, 1 + k, Ts(k));
    Packet(VIDEO, h, EncodeRtp(128, h, [0, 0, 0, 0, 0]), At(k))
  }

  /** Packets 0 to k. */
  function Quiet(k: nat): (ps: seq<Packet>)
    requires Ts(k) < U32
    ensures AllHandleable(FIRST, ps)
  {
    if k == 0 then [QuietPacket(0)] else Quiet(k - 1) + [QuietPacket(k)]
  }

  /** The runtime, the samples and the estimator after packet k. */
  ghost predicate QuietAfter(rts: Runtimes, samples: seq<Sample>, k: nat) {
    && rts.Keys == {VIDEO}
    && rts[VIDEO].clientTs == Some(Ts(k)) && rts[VIDEO].startedTime == 0 && rts[VIDEO].prevTimeDiff == At(k)
    && Exact(samples)
    && EstimateAll(Stats(START_MS, 0), samples).checked == At(k)
    && |Sent(Stats(START_MS, 0), samples)| == k
  }

  lemma {:induction false} QuietRuns(k: nat)
    requires Ts(k) < U32
    ensures AllTimely(FIRST, Quiet(k)) && QuietAfter(HandleAll(FIRST, Quiet(k)), SamplesOf(FIRST, Quiet(k)), k)
  {
    if k == 0 {
      QuietFirst();
    } else {
      QuietRuns(k - 1);
      QuietStep(HandleAll(FIRST, Quiet(k - 1)), SamplesOf(FIRST, Quiet(k - 1)), k);
      SamplesSnoc(FIRST, Quiet(k - 1), QuietPacket(k));
    }
  }

  lemma QuietFirst()
    ensures AllTimely(FIRST, Quiet(0)) && QuietAfter(HandleAll(FIRST, Quiet(0)), SamplesOf(FIRST, Quiet(0)), 0)
  {
    assert Quiet(0) == [] + [QuietPacket(0)];
    SamplesSnoc(FIRST, [], QuietPacket(0));
    QuietStart();
    assert SampleOf(FIRST, QuietPacket(0)) == Sample(VIDEO, 0, 0, 0);
    assert SamplesOf(FIRST, Quiet(0)) == [Sample(VIDEO, 0, 0, 0)];
  }

  lemma QuietStep(rts: Runtimes, samples: seq<Sample>, k: nat)
    requires k > 0 && Ts(k) < U32 && QuietAfter(rts, samples, k - 1)
    ensures Timely(rts, QuietPacket(k))
    ensures QuietAfter(Handle(rts, QuietPacket(k)), samples + [SampleOf(rts, QuietPacket(k))], k)
  {
    ExactPacket(rts, QuietPacket(k), k);
    QuietEstimate(samples, Sample(VIDEO, RECHECK, 900_000, At(k)), k);
  }

  lemma SamplesSnoc(rts: Runtimes, front: seq<Packet>, p: Packet)
    requires AllHandleable(rts, front) && AllHandleable(rts, front + [p]) && AllTimely(rts, front)
    requires Timely(HandleAll(rts, front), p)
    ensures AllTimely(rts, front + [p]) && HandleAll(rts, front + [p]) == Handle(HandleAll(rts, front), p)
    ensures SamplesOf(rts, front + [p]) == SamplesOf(rts, front) + [SampleOf(HandleAll(rts, front), p)]
  {
    assert (front + [p])[..|front|] == front;
  }

  lemma QuietStart()
    ensures Exact([Sample(VIDEO, 0, 0, 0)])
    ensures EstimateAll(Stats(START_MS, 0), [Sample(VIDEO, 0, 0, 0)]) == Stats(START_MS, 0)
    ensures Sent(Stats(START_MS, 0), [Sample(VIDEO, 0, 0, 0)]) == []
  {
    var s := Sample(VIDEO, 0, 0, 0);
    assert [s][..0] == [] && Transit(s) == 0;
    ExactVerdict(Stats(START_MS, 0), s);
  }

  /** Any packet that comes ten seconds after the one before, with a timestamp to match. */
  lemma ExactPacket(rts: Runtimes, p: Packet, k: nat)
    requires k > 0 && p.frequency == VIDEO && p.header.timestamp == Ts(k) && p.now == At(k) && Timely(rts, p)
    requires var rt := rts[VIDEO];
             rt.clientTs == Some(Ts(k - 1)) && rt.startedTime == 0 && rt.prevTimeDiff == At(k - 1)
    ensures SampleOf(rts, p) == Sample(VIDEO, RECHECK, 900_000, At(k))
    ensures Transit(Sample(VIDEO, RECHECK, 900_000, At(k))) == 0
    ensures var rt := Handle(rts, p)[VIDEO];
            rt.clientTs == Some(Ts(k)) && rt.startedTime == 0 && rt.prevTimeDiff == At(k)
  {
  }

  lemma QuietEstimate(samples: seq<Sample>, s: Sample, k: nat)
    requires k > 0 && Transit(s) == 0 && s.now == At(k) && Exact(samples)
    requires EstimateAll(Stats(START_MS, 0), samples).checked == At(k - 1)
    requires |Sent(Stats(START_MS, 0), samples)| == k - 1
    ensures Exact(samples + [s])
    ensures EstimateAll(Stats(START_MS, 0), samples + [s]).checked == At(k)
    ensures |Sent(Stats(START_MS, 0), samples + [s])| == k
  {
    assert (samples + [s])[..|samples|] == samples;
    ExactVerdict(EstimateAll(Stats(START_MS, 0), samples), s);
  }

  /** They are packets with a header of their own, and no two have the same sequence number. */
  lemma QuietPacketsAreReal(k: nat)
    requires Ts(k) < U32
    ensures FromBuf(QuietPacket(k).plain) == Some(QuietPacket(k).header) && QuietPacket(k).header.sequence == 1 + k
  {
    HeaderRoundTrip(128, QuietPacket(k).header, [0, 0, 0, 0, 0]);
  }

  /** A run of packets that drains the estimator: after packet k it has sent k decreases, the
      controller that got them stays at 50 ms, and from the sixth on the field has wrapped. */
  lemma QuietDrain(es: seq<Jitter.Event>, a: Addr, k: nat)
    requires Ts(k) < U32
    requires AllTimely(FIRST, Quiet(k)) ==> Signs(es, a) == Sent(Stats(START_MS, 0), SamplesOf(FIRST, Quiet(k)))
    ensures AllTimely(FIRST, Quiet(k)) && DelayOf(Jitter.Run(map[], es), a) == Jitter.START_DELAY
    ensures EstimateAll(Stats(START_MS, 0), SamplesOf(FIRST, Quiet(k))).delay == (START_MS - STEP_MS * k) % U32
    ensures k >= 6 ==> EstimateAll(Stats(START_MS, 0), SamplesOf(FIRST, Quiet(k))).delay == U32 + START_MS - STEP_MS * k
  {
    QuietRuns(k);
    DrainFromStart(SamplesOf(FIRST, Quiet(k)), es, a, k);
    Wrapped(EstimateAll(Stats(START_MS, 0), SamplesOf(FIRST, Quiet(k))).delay, k);
  }

  lemma DrainFromStart(samples: seq<Sample>, es: seq<Jitter.Event>, a: Addr, k: nat)
    requires Exact(samples) && Signs(es, a) == Sent(Stats(START_MS, 0), samples)
    requires |Sent(Stats(START_MS, 0), samples)| == k
    ensures DelayOf(Jitter.Run(map[], es), a) == Jitter.START_DELAY
    ensures EstimateAll(Stats(START_MS, 0), samples).delay == (START_MS - STEP_MS * k) % U32
  {
    var n := ExactDrain(Stats(START_MS, 0), samples, map[], es, a, START_MS);
  }

  lemma Wrapped(field: u32, k: nat)
    requires STEP_MS * k <= U32 && field == (START_MS - STEP_MS * k) % U32
    ensures k >= 6 ==> field == U32 + START_MS - STEP_MS * k
  {
  }
}
