/** The part of RtcActor::handle that rewrites a decrypted RTP packet in place and updates the
    client's runtime and jitter statistics (src/client/rtc_actor.rs:97-157). */
module RtcObjects {
  import opened Base
  import opened Wire
  import opened RtpCore
  import opened Renumbering
  import opened JitterEstimate
  import opened JitterRuns
  import opened ClientObjects

  datatype RtpOutcome = CodecNotSet | Renumbered(verdict: Verdict)

  /** `frequency` is the one the media list gave for the packet's payload type, if any. The
      verdict is the message sent to the jitter controller while the statistics are locked. */
  method ReplaceMeta(c: Client, frequency: Option<u32>, h: RtpHeader, message: array<u8>, now: nat)
    returns (r: RtpOutcome)
    requires message.Length >= 8
    requires forall f <- c.runtimes :: c.runtimes[f].startedTime + c.runtimes[f].prevTimeDiff <= now
    modifies c`runtimes, c`jitter, message
    ensures r == CodecNotSet <==> frequency == None || frequency.value !in old(c.runtimes)
    ensures r == CodecNotSet ==>
              c.runtimes == old(c.runtimes) && c.jitter == old(c.jitter) && message[..] == old(message[..])
    ensures r.Renumbered? ==>
              var f := frequency.value;
              var p := Packet(f, h, old(message[..]), now);
              && c.runtimes == Handle(old(c.runtimes), p)
              && message[..] == Rewritten(old(message[..]), c.runtimes[f].serverSequence, c.runtimes[f].serverTs)
              && r.verdict == Judge(old(c.jitter), SampleOf(old(c.runtimes), p))
              && c.jitter == Apply(old(c.jitter), r.verdict, now)
  {
    if frequency == None || frequency.value !in c.runtimes {
      return CodecNotSet;
    }
    var f := frequency.value;
    var rt, clientDiff, realDiff := Update(c.runtimes[f], h, now);
    c.runtimes := c.runtimes[f := rt];
    ReplaceSequenceAndTimestamp(message, rt.serverSequence, rt.serverTs);

    var verdict := UpdateJitter(c, Sample(f, realDiff, clientDiff, now));
    return Renumbered(verdict);
  }

  /** The jitter statistics: grow at once, shrink only after the recheck time. */
  method UpdateJitter(c: Client, s: Sample) returns (verdict: Verdict)
    modifies c`jitter
    ensures verdict == Judge(old(c.jitter), s) && c.jitter == Apply(old(c.jitter), verdict, s.now)
    ensures verdict == Keep <==> c.jitter == old(c.jitter)
  {
    var rate := s.frequency / 1000;
    var millis := (s.realDiff / MILLI) % U32;
    var arrival := millis * rate % U32;
    var transit := arrival - s.clientDiff;
    if transit < 0 {
      transit := -transit;
    }
    if transit > (c.jitter.delay * rate + 1000) % U32 {
      c.jitter := Stats((c.jitter.delay + 10) % U32, s.now);
      verdict := Grow;
    } else if s.now >= c.jitter.checked + 10 * SECOND {
      c.jitter := Stats((c.jitter.delay - 10) % U32, s.now);
      verdict := Shrink;
    } else {
      verdict := Keep;
    }
  }

  /** The runtime update, field by field. */
  method Update(was: Runtime, h: RtpHeader, now: nat) returns (rt: Runtime, clientDiff: u32, realDiff: nat)
    requires was.startedTime + was.prevTimeDiff <= now
    ensures rt == Renumber(was, h, now)
    ensures clientDiff == Gap(was.clientTs, h.timestamp)
    ensures realDiff == now - was.startedTime - was.prevTimeDiff
  {
    rt := was;
    clientDiff := Gap(rt.clientTs, h.timestamp);
    var increase := Gap(rt.clientSequence, h.sequence);
    rt := rt.(clientSequence := NonZero(h.sequence), clientTs := NonZero(h.timestamp));
    rt := rt.(serverSequence := (rt.serverSequence + increase) % U16, serverTs := (rt.serverTs + clientDiff) % U32);
    var currentTime := now - rt.startedTime;
    realDiff := currentTime - rt.prevTimeDiff;
    rt := rt.(prevTimeDiff := currentTime);
  }
}
