/** A frequency a thread has read from a media list is never missing from the runtimes. */
module CodecLookup {
  import opened Base
  import opened Wire
  import opened Media
  import opened Routing
  import opened Interleaving

  /** Every frequency of a published media list has a runtime. */
  ghost predicate MediaOk(c: ClientVal) {
    c.media.Some? ==> c.media.value.Frequencies() <= c.runtimes.Keys
  }

  ghost predicate CodecOk(w: World, t: Thread) {
    (t.MediaRead? || t.Decrypted?) && t.codec.Some? ==>
      t.c < |w.heap| && t.codec.value.1 in w.heap[t.c].runtimes.Keys
  }

  /** A list about to be published has its runtimes, or gets them just before. */
  ghost predicate PublishOk(w: World, pending: seq<Write>)
    requires PendingOk(w, pending)
  {
    && (|pending| >= 1 && pending[0].Publish? ==>
          pending[0].media.Frequencies() <= w.heap[pending[0].c].runtimes.Keys)
    && (|pending| == 2 && pending[1].Publish? ==>
          pending[0].Equip? && pending[0].c == pending[1].c && pending[0].media == pending[1].media)
  }

  ghost predicate CodecsOk(s: System) {
    && Bounded(s)
    && (forall i | 0 <= i < |s.world.heap| :: MediaOk(s.world.heap[i]))
    && PublishOk(s.world, s.pending)
    && (forall h <- s.threads :: CodecOk(s.world, s.threads[h]))
  }

  lemma GrowthKeepsCodecs(w: World, w': World, threads: map<nat, Thread>)
    requires Grows(w, w') && forall h <- threads :: CodecOk(w, threads[h])
    ensures forall h <- threads :: CodecOk(w', threads[h])
  {
    forall h | h in threads
      ensures CodecOk(w', threads[h])
    {
      assert CodecOk(w, threads[h]);
    }
  }

  lemma ActorKeepsCodecs(s: System, e: Event, spawned: nat)
    requires CodecsOk(s)
    ensures CodecsOk(ActorStep(s, e, spawned))
  {
    ActorKeepsBounds(s, e, spawned);
    GrowthKeepsCodecs(s.world, ActorStep(s, e, spawned).world, s.threads);
    if s.pending == [] {
      BegunKeepsContent(s.world, e);
    }
  }

  /** Taking up a message changes no media list and no runtime. */
  lemma BegunKeepsContent(w: World, e: Event)
    requires Inv(w)
    ensures var w' := Begun(w, e);
            && |w.heap| <= |w'.heap|
            && (forall i | 0 <= i < |w.heap| ::
                  w'.heap[i].media == w.heap[i].media && w'.heap[i].runtimes == w.heap[i].runtimes)
            && (forall i | |w.heap| <= i < |w'.heap| :: w'.heap[i].media == None)
  {
  }

  lemma WorkKeepsCodecs(s: System, choice: Id)
    requires CodecsOk(s)
    ensures CodecsOk(WorkStep(s, choice))
  {
    WorkKeepsBounds(s, choice);
    GrowthKeepsCodecs(s.world, WorkStep(s, choice).world, s.threads);
    if s.pending != [] {
      WriteKeepsMedia(s.world, s.pending[0], choice);
    }
  }

  /** Runtimes come before the list that needs them. */
  lemma WriteKeepsMedia(w: World, x: Write, choice: Id)
    requires Inv(w) && WriteOk(w, x) && forall i | 0 <= i < |w.heap| :: MediaOk(w.heap[i])
    requires x.Publish? ==> x.media.Frequencies() <= w.heap[x.c].runtimes.Keys
    ensures var w' := Perform(w, x, choice);
            && |w'.heap| == |w.heap|
            && (forall i | 0 <= i < |w'.heap| :: MediaOk(w'.heap[i]))
            && (x.Equip? ==> x.media.Frequencies() <= w'.heap[x.c].runtimes.Keys)
  {
    forall i | 0 <= i < |w.heap|
      ensures MediaOk(Perform(w, x, choice).heap[i])
    {
      assert MediaOk(w.heap[i]);
    }
  }

  /** A codec found in a media list has one of the list's frequencies. */
  lemma CodecFrequency(m: MediaTable, payload: u8)
    ensures CodecOf(Some(m), payload).Some? ==> CodecOf(Some(m), payload).value.1 in m.Frequencies()
  {
    if CodecOf(Some(m), payload).Some? {
      assert payload in m.frequencies && m.frequencies[payload] in m.frequencies.Values;
    }
  }

  lemma ThreadKeepsCodecs(s: System, l: Label)
    requires CodecsOk(s) && OfThread(l)
    ensures CodecsOk(ThreadStep(s, l))
  {
    ThreadKeepsBounds(s, l);
    var s' := ThreadStep(s, l);
    if l.thread in s.threads && !s.threads[l.thread].Finished? {
      var t := s.threads[l.thread];
      assert ThreadOk(s.world, t) && CodecOk(s.world, t);
      if l.ReplaceMeta? && t.Decrypted? && ClockOk(s.world, t, l.now) {
        MetaKeepsInv(s.world, t, l.now);
        GrowthKeepsCodecs(s.world, s'.world, s.threads);
      } else {
        CodecStaysOk(s, l);
      }
    }
  }

  lemma CodecStaysOk(s: System, l: Label)
    requires CodecsOk(s) && OfThread(l) && l.thread in s.threads
    requires ThreadOk(s.world, s.threads[l.thread]) && CodecOk(s.world, s.threads[l.thread])
    requires ThreadStep(s, l).world == s.world
    ensures l.thread in ThreadStep(s, l).threads && CodecOk(s.world, ThreadStep(s, l).threads[l.thread])
  {
    var t := s.threads[l.thread];
    if l.ReadMedia? && t.Looked? && s.world.heap[t.c].media.Some? {
      assert MediaOk(s.world.heap[t.c]);
      CodecFrequency(s.world.heap[t.c].media.value, t.header.payload);
    }
  }

  lemma TaskKeepsCodecs(s: System, l: Label)
    requires CodecsOk(s) && OfTask(l)
    ensures CodecsOk(TaskStep(s, l))
  {
    TaskKeepsBounds(s, l);
  }

  lemma LookKeepsCodecs(s: System, h: nat, a: Addr, message: Bytes)
    requires CodecsOk(s)
    ensures CodecsOk(LookStep(s, h, a, message))
  {
    LookKeepsBounds(s, h, a, message);
  }

  lemma NextKeepsCodecs(s: System, l: Label)
    requires CodecsOk(s)
    ensures CodecsOk(Next(s, l))
  {
    if OfTask(l) {
      TaskKeepsCodecs(s, l);
    } else if OfThread(l) {
      ThreadKeepsCodecs(s, l);
    } else if l.Look? {
      LookKeepsCodecs(s, l.thread, l.addr, l.message);
    } else if l.Actor? {
      ActorKeepsCodecs(s, l.event, l.spawned);
    } else {
      WorkKeepsCodecs(s, l.choice);
    }
  }

  lemma LinkedKeepsCodecs(s: System, s': System)
    requires Linked(s, s') && CodecsOk(s)
    ensures CodecsOk(s')
  {
    var l :| Next(s, l) == s';
    NextKeepsCodecs(s, l);
  }

  lemma {:induction false} ExecutionCodecs(ss: seq<System>, k: nat)
    requires Execution(ss) && k < |ss|
    ensures CodecsOk(ss[k])
  {
    if k == 0 {
      StartCodecs();
    } else {
      ExecutionCodecs(ss, k - 1);
      assert LinkedAt(ss, k);
      LinkedKeepsCodecs(ss[k - 1], ss[k]);
    }
  }

  lemma StartCodecs()
    ensures CodecsOk(START)
  {
  }

  /** A frequency of any media list ever published for a client has a runtime from then on. */
  lemma PublishedFrequencyStays(ss: seq<System>, j: nat, k: nat, i: Id, f: u32)
    requires Execution(ss) && j <= k < |ss| && i < |ss[j].world.heap|
    requires ss[j].world.heap[i].media.Some? && f in ss[j].world.heap[i].media.value.Frequencies()
    ensures i < |ss[k].world.heap| && f in ss[k].world.heap[i].runtimes
  {
    ExecutionCodecs(ss, j);
    assert MediaOk(ss[j].world.heap[i]);
    ExecutionGrows(ss, j, k);
  }

  // ---------------------------------------------------------------------
  // Where a thread's codec comes from
  // ---------------------------------------------------------------------

  /** Thread `h` read the media list of its client in state j, for this packet. */
  ghost predicate SnapshotAt(ss: seq<System>, j: nat, h: nat, t: Thread)
    requires t.MediaRead? || t.Decrypted?
  {
    j < |ss| && h in ss[j].threads && ReadsCodec(ss[j], ss[j].threads[h], t)
  }

  ghost predicate ReadsCodec(s: System, t: Thread, t': Thread)
    requires t'.MediaRead? || t'.Decrypted?
  {
    && t == Looked(t'.c, t'.turn, t'.header, t'.rtcp) && t'.c < |s.world.heap|
    && t'.codec == if t'.rtcp then None else CodecOf(s.world.heap[t'.c].media, t'.header.payload)
  }

  ghost predicate CarriesCodec(t: Thread, t': Thread)
    requires t'.MediaRead? || t'.Decrypted?
  {
    && (t.MediaRead? || t.Decrypted?)
    && t.c == t'.c && t.turn == t'.turn && t.header == t'.header && t.rtcp == t'.rtcp && t.codec == t'.codec
  }

  /** A codec is either just being read or was carried along. */
  lemma CodecOrigin(s: System, s': System, h: nat)
    requires Linked(s, s') && h in s'.threads && (s'.threads[h].MediaRead? || s'.threads[h].Decrypted?)
    ensures h in s.threads && (ReadsCodec(s, s.threads[h], s'.threads[h]) || CarriesCodec(s.threads[h], s'.threads[h]))
  {
    var l :| Next(s, l) == s';
    if OfThread(l) {
      ThreadOrigin(s, l, h);
    } else {
      OthersKeepThread(s, l, h);
    }
  }

  lemma OthersKeepThread(s: System, l: Label, h: nat)
    requires Bounded(s) && !OfThread(l) && h in Next(s, l).threads
    ensures (h in s.threads && Next(s, l).threads[h] == s.threads[h])
         || Next(s, l).threads[h].Looked? || Next(s, l).threads[h].Finished?
  {
  }

  lemma ThreadOrigin(s: System, l: Label, h: nat)
    requires Bounded(s) && OfThread(l) && h in ThreadStep(s, l).threads
    requires var t := ThreadStep(s, l).threads[h]; t.MediaRead? || t.Decrypted?
    ensures h in s.threads
    ensures var t' := ThreadStep(s, l).threads[h]; ReadsCodec(s, s.threads[h], t') || CarriesCodec(s.threads[h], t')
  {
    if l.thread != h || s.threads[h].Finished? {
      assert ThreadStep(s, l).threads[h] == s.threads[h];
    } else {
      OwnOrigin(s, l);
    }
  }

  lemma OwnOrigin(s: System, l: Label)
    requires Bounded(s) && OfThread(l) && l.thread in s.threads && l.thread in ThreadStep(s, l).threads
    requires var t := ThreadStep(s, l).threads[l.thread]; t.MediaRead? || t.Decrypted?
    ensures var t, t' := s.threads[l.thread], ThreadStep(s, l).threads[l.thread];
            ReadsCodec(s, t, t') || CarriesCodec(t, t')
  {
    assert ThreadOk(s.world, s.threads[l.thread]);
  }

  /** Every codec a thread holds was read from its client's media list earlier in the run. */
  lemma {:induction false} CodecWasRead(ss: seq<System>, k: nat, h: nat) returns (j: nat)
    requires Execution(ss) && k < |ss| && h in ss[k].threads
    requires ss[k].threads[h].MediaRead? || ss[k].threads[h].Decrypted?
    ensures j < k && SnapshotAt(ss, j, h, ss[k].threads[h])
  {
    assert LinkedAt(ss, k);
    CodecOrigin(ss[k - 1], ss[k], h);
    if ss[k - 1].threads[h].Looked? {
      j := k - 1;
    } else {
      j := CodecWasRead(ss, k - 1, h);
      SnapshotCarries(ss, j, h, ss[k - 1].threads[h], ss[k].threads[h]);
    }
  }

  lemma SnapshotCarries(ss: seq<System>, j: nat, h: nat, t: Thread, t': Thread)
    requires (t.MediaRead? || t.Decrypted?) && (t'.MediaRead? || t'.Decrypted?)
    requires SnapshotAt(ss, j, h, t) && CarriesCodec(t, t')
    ensures SnapshotAt(ss, j, h, t')
  {
  }

  /** In every interleaving, a decrypted RTP packet is refused for its codec exactly when the media
      list its thread read earlier had no name or no frequency for its payload type, whatever has
      been published since. */
  lemma CodecNotSetIff(ss: seq<System>, k: nat, h: nat) returns (j: nat)
    requires Execution(ss) && k < |ss| && h in ss[k].threads && ss[k].threads[h].Decrypted?
    requires !ss[k].threads[h].rtcp
    ensures j < k && SnapshotAt(ss, j, h, ss[k].threads[h])
    ensures var t := ss[k].threads[h];
            && t.c < |ss[k].world.heap|
            && forall now | ClockOk(ss[k].world, t, now) ::
                 AfterMeta(ss[k].world, t, now) == Finished(CodecNotSet) <==>
                 CodecOf(ss[j].world.heap[t.c].media, t.header.payload) == None
  {
    j := CodecWasRead(ss, k, h);
    ExecutionCodecs(ss, k);
    assert ThreadOk(ss[k].world, ss[k].threads[h]);
    assert CodecOk(ss[k].world, ss[k].threads[h]);
  }

  /** What a thread finds in a list folded from rtpmaps: a name and a frequency for a payload type,
      exactly if the last rtpmap mentioning the type or the name pairs them and has that frequency. */
  lemma CodecIsLastPairing(ms: seq<Rtpmap>, payload: u8, name: Name, f: u32)
    ensures CodecOf(Some(Fold(ms)), payload) == Some((name, f)) <==>
            exists k: nat :: LastPairing(ms, k, payload, name) && ms[k].frequency == f
    ensures CodecOf(None, payload) == None
  {
    FoldCharacterisation(ms, payload, name);
  }

  /** When a snapshot of the media list lacks a codec. With a list folded from rtpmaps a named
      payload type always has a frequency, so only the name can be missing. */
  lemma MissingCodec(ms: seq<Rtpmap>, payload: u8)
    ensures CodecOf(Some(Fold(ms)), payload) == None <==> Fold(ms).GetName(payload) == None
  {
    FoldIsBijective(ms);
  }
}
