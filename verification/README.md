# r-streamer: a Dafny model of its routing, renumbering and codecs

r-streamer is a WebRTC forwarding unit. A sender's RTP is decrypted, given the server's own
sequence numbers and timestamps, and fanned out to the receivers of the sender's group; a
receiver's RTCP goes back to its sender. This project models the parts of that work that
r-streamer does itself and proves what they keep over whole runs and interleavings.

| file | component |
|---|---|
| `Routing.dfy`, `GroupTable.dfy`, `FanOut.dfy`, `Isolation.dfy` | clients, groups and forwarding edges as values; what each message does to who receives what; group isolation |
| `ClientActor.dfy` | the same machine as objects updated in place; every handler refines its step |
| `Interleaving.dfy`, `Refinement.dfy` | `ClientActor` write by write, its handshake tasks and any number of `RtcActor` threads, interleaved; what that has to do with the routing machine |
| `Connection.dfy`, `Handshakes.dfy` | the connection state and what becomes of it |
| `CodecLookup.dfy`, `Picks.dfy`, `Turns.dfy`, `Handling.dfy`, `GoesThrough.dfy`, `ConcurrentRenumbering.dfy`, `EndToEnd.dfy` | what becomes of packets in every interleaving: codecs, targets, isolation, numbering, and the bytes that are sent |
| `Locks.dfy`, `LockReach.dfy` | lock acquisition of both actors as written, the waits-for relation, and which worlds are reached |
| `Renumbering.dfy`, `RtcActor.dfy`, `RtpCore.dfy` | RTP headers and the sequence and timestamp rewrite |
| `Jitter.dfy`, `JitterRuns.dfy`, `Delivery.dfy` | the jitter buffer, its controller, the estimator that steers it, and the delivery of flushed buffers |
| `StunFormat.dfy`, `StunParser.dfy`, `StunWriter.dfy` | the STUN codec of RFC 5389 |
| `MediaList.dfy`, `Sessions.dfy`, `Demux.dfy` | codec table, session tables, sorting of datagrams |
| `Wire.dfy` | bytes, big-endian fields and bitwise operators |

`dafny verify dfyconfig.toml` checks everything.

## How the model is built

Clients are shared objects that outlive their table entry, so a client is an *incarnation*,
numbered in order of creation; an address that is deleted and used again names a new one. The
handlers of `ClientActor` are methods on objects, proved equal to steps on a value `World`; every
result about runs is about those steps. `Interleaving` takes the handlers apart again: every write
to a shared object is a step, and so is every lock or flag a handshake task or an RTP thread looks
at. `Refinement` proves that whatever comes in between, the writes amount to the steps.

Integers are unbounded; where the source has u16 and u32 fields the remainder is written out,
because the release profile does not turn overflow checks on. Instants are naturals in nanoseconds.
HMAC-SHA1, CRC-32, UTF-8 validation and random start values are parameters, so results hold for
every choice of them.

## What the code does not keep

Where a promise fails, the exact condition under which it holds is proved.

- **Takeover.** `src/client/actor.rs:202-204` asks for a read guard on the map whose write guard is
  held since line 200. `Locks` models what is written: this is the only cyclic wait
  (`CyclicIffTakeover`), a message can lead into it if and only if it takes over in the world it
  finds (`HangsIff`), and there is no way on from it (`TakeoverIsForever`). Two senders of one group
  are enough (`SecondSenderHangs`), and so are a viewer that comes first and its sender
  (`ViewerFirstHangs`). So the worlds reached are exactly those of the runs without
  takeover (`WorldsIff`). `Routing.TakeOver` is the intended effect, with the map read under the one
  guard.
- **Isolation.** Forwarding edges always stay inside a group. As far as the code as written gets, so
  do RTCP return addresses, whatever addresses announce (`WrittenCodeIsIsolated`,
  `RunWithoutTakeover`). With the takeover's intended effect they do so for every run if and only if
  sharing a group is transitive under the rule that says which address may announce which group
  (`IsolationIff`); one group per address is such a rule. Otherwise a takeover in one group would
  redirect receivers that joined through another.
- **Second handshake.** Two tasks can both read New; the loser leaves Shutdown behind on a connected
  client that keeps its transport (`SecondConnectShutsDown`). A connected client stays connected in
  every continuation if and only if no task that read New is still to call connect
  (`StaysConnectedIff`).
- **USERNAME near the end.** The parser compares an absolute offset with the body length, so a
  USERNAME is found only if at least 20 message bytes follow its padded end (`ParseIff`,
  `ParseOfEncoding`); a request whose only attribute is USERNAME is refused (`LoneUserIsRejected`).
- **Translation.** The rewrite is a fixed offset if and only if the client's numbers never step back
  and never leave zero (`TranslationIff`); a client's own wrap-around is a step back.
- **Jitter.** The estimator has no floor, the controller has one and keeps its delay when a client is
  deleted; `ControllerFollowsEstimator` says by how much they differ and exactly when they agree.
  Wherever packets keep arriving as their timestamps say, the field drains (`ExactDrain`), and
  `QuietDrain` is a run of packets on which it wraps from the sixth recheck on.
- **Order.** The packets of an address reach `RtcActor` in the order they were submitted if and only if
  no packet of a later flush is handed over while an earlier flush has any left (`InOrderIff`); no
  schedule of the delivery tasks can break the order if and only if no two flushes overlap
  (`OverlapIff`).
- **Session sweep.** Sessions and media stay in step if and only if no expired session shares its
  client user with one that stays (`SweepKeepsStepIff`), which a single server user guarantees.
- **Own receivers.** A client receives its own packets if and only if it was announced as sender in
  a group that had no sender or had it already (`SelfReceivesIff`).

## Model

| member | source | states |
|---|---|---|
| `GroupTable.HolderStep` | src/client/group.rs:12-28 | after any message: an announcement by a sender, or in an empty group, puts its address into the group; the deletion of the client at the address held empties it; everything else leaves it |
| `GroupTable.HolderIff` | src/client/group.rs:12-28 | over every run, a group is held by exactly the address last announced there whose client has not been deleted since |
| `GroupTable.LastSenderIsHolder` | src/client/actor.rs:189 | a group message is answered with the holder before it, or with its own address |
| `FanOutSpec.FanOutStep` | src/client/actor.rs:157-219 | after any message, an address is in a client's fan-out exactly if the simple rule says so: joining the sender adds it, its deletion or its takeover removes it, everything else (re-creation, other clients, leftover edges) leaves it |
| `FanOutSpec.SenderStep` | src/client/actor.rs:199-217 | the RTCP return address after any message: set to the last sender on joining, to the new sender for every other receiver on takeover, untouched otherwise |
| `FanOutSpec.JoinedStaysJoined` | src/client/rtc_actor.rs:181-184 | a receiver keeps receiving as the same incarnation through every run in which it is neither deleted nor announced as sender |
| `FanOutSpec.SelfReceivesIff` | src/client/actor.rs:189-216 | after every run, a client is among its own receivers if and only if it is not deleted and, since its creation, its address was announced as sender in a group that had no sender or had it |
| `FanOutSpec.GroupEdges` | src/client/actor.rs:199-216 | the exact receivers of every client after a group message |
| `Routing.StepKeepsInv` | src/client/actor.rs:57-238 | every message keeps: the table holds exactly the undeleted incarnations under their own addresses, each edge leads to an incarnation of its address, each client has one outgoing stream |
| `Routing.Run` | src/client/actor.rs:57-238 | every reachable world satisfies that invariant |
| `Routing.AttachEffect` | src/client/actor.rs:213-216 | joining changes one sender address and adds at most one edge |
| `Routing.UpdateKeepsInv` | src/client/actor.rs:170-235 | any change to one client's edges, sender address, media list or runtimes keeps the invariant, as long as edges lead to incarnations of their addresses |
| `Routing.TakeOverEffect` | src/client/actor.rs:201-212 | takeover drops the new sender from the old one's receivers and tells exactly the remaining receivers |
| `Routing.DtlsEffect` | src/client/actor.rs:59-70 | the first datagram from an address creates one client there, without routes, media or runtimes, with its stream attached; any other changes nothing |
| `Routing.DeleteEffect` | src/client/actor.rs:165-177 | deletion flags one client, drops exactly its own edges to deleted clients and leaves all other clients as they were |
| `Routing.MediaEffect` | src/client/actor.rs:229-236 | a media list replaces the last one and adds runtimes for exactly its new frequencies, keeping every existing runtime and every other client |
| `Routing.GroupKeepsInv` | src/client/actor.rs:184-218 | a group message changes edges and sender addresses and nothing else |
| `Routing.FanOutIsLive` | src/client/rtc_actor.rs:181-184 | the deleted-flag filter selects an edge exactly if its incarnation is the one the table holds now |
| `Routing.RunGrows` | src/client/clients.rs:188-194 | over every run incarnations and runtimes are never removed and the deleted flag never clears |
| `Routing.StaleEdgesNeverRevive` | src/client/rtc_actor.rs:181-184 | once an incarnation is deleted, no fan-out after any further run selects it, even if its address is used again |
| `Isolation.RunKeepsEdges` | src/client/actor.rs:189-216 | on every run, group entries follow the policy and every forwarding edge joins addresses that share a group |
| `Isolation.RunKeepsIsolation` | src/client/actor.rs:157-219 | with transitive sharing, also every remembered sender address, takeovers included |
| `Isolation.RunWithoutTakeover` | src/client/actor.rs:189-216 | without takeovers, every permitted run is isolated under every policy |
| `Isolation.IsolationIff` | src/client/actor.rs:157-219 | given the takeover's intended effect, all permitted runs are isolated if and only if sharing is transitive |
| `Isolation.Breach` | src/client/actor.rs:201-212 | the run, ending with a takeover that has its intended effect, that leads RTCP out of its groups otherwise |
| `Isolation.OneGroupPerAddress` | src/client/rtc_actor.rs:159-223 | with one group per address, every RTP and RTCP target in every reachable state is in the source's group |
| `ClientObjects.ClientActor.HandleDtls` | src/client/actor.rs:59-70 | on objects: get or create the client and attach its stream once, exactly as the step does; created objects are fresh |
| `ClientObjects.ClientActor.HandleDelete` | src/client/actor.rs:160-178 | on objects: exactly the delete step, always true |
| `ClientObjects.ClientActor.HandleGroupId` | src/client/actor.rs:184-218 | on objects: exactly the group step, with clients shared between the table and many receiver maps |
| `ClientObjects.ClientActor.Redirect` | src/client/actor.rs:202-212 | on objects: exactly the takeover |
| `ClientObjects.ClientActor.Join` | src/client/actor.rs:214-215 | on objects: exactly the joining, also when sender and receiver are one object |
| `ClientObjects.ClientActor.HandleMediaAddr` | src/client/actor.rs:224-237 | on objects: runtimes first, then the media list |
| `ClientObjects.Group.InsertOrGetSenderInPlace` | src/client/group.rs:12-23 | returns the previous sender, or the caller; afterwards a sender holds the group, a receiver only if nobody did, and no other group changes |
| `ClientObjects.Group.RemoveSenderInPlace` | src/client/group.rs:25-28 | afterwards no group has that sender, and the groups that had another one are exactly those left, unchanged |
| `ClientObjects.Client.constructor` | src/client/clients.rs:212-228 | a new client: no flags, no edges, no media, 50 ms estimate |
| `Interleaving.NextKeepsBounds` | src/client/rtc_actor.rs:49-227 | every step of every actor, task and thread keeps the table invariant and leaves no dangling reference |
| `Interleaving.WriteKeepsInv` | src/client/actor.rs:165-235 | so does every single write of a handler, with the handler unfinished |
| `Refinement.ProgramIsStep` | src/client/actor.rs:157-238 | the writes of each handler amount to its step |
| `Refinement.WorkKeepsOutcome` | src/client/actor.rs:202-212 | every write leaves the handler's outcome as it was, in whatever order a takeover tells the receivers |
| `Refinement.ExecutionRefinesRun` | src/client/actor.rs:157-238 | in every interleaving, once the handler in progress is done, clients, table, groups, edges, sender addresses and media lists are those of the one-step machine after the messages taken up so far |
| `Interleaving.ExecutionGrows` | src/client/clients.rs:188-194 | along every interleaving incarnations and runtimes persist and deletion is for good |
| `Interleaving.MetaKeepsInv` | src/client/rtc_actor.rs:99-133 | renumbering changes the values of one client's runtimes, never their keys, and nothing else |
| `Connection.ClientState.Connect` | src/dtls/connector.rs:18-49 | result and status in every case: Connected exactly after a successful handshake from New, Shutdown after a failed one or from any other status, unchanged if no session could be made |
| `Handshakes.HandshakeMonotonicity` | src/dtls/connector.rs:18-49 | over every interleaving, from any point to any later one: the visible status only moves New, Connected, Shutdown; connect succeeds at most once per incarnation; a stored transport means past New; one stream per client |
| `Handshakes.NextKeepsHandshakes` | src/client/actor.rs:83-101 | every step keeps at most one handshake in progress per client, and only under the state lock |
| `Handshakes.ConnectionMoves` | src/dtls/connector.rs:18-49 | in every interleaving every change to a connection is a handshake that begins from New, one that ends Connected with one more success or Shutdown with none, a failing call that leaves Shutdown, or the storing of a transport |
| `Handshakes.TasksDoMove` | src/client/actor.rs:83-101 | and each of these happens when a task in the right phase takes its step |
| `Handshakes.ConnectedIsReached` | src/client/actor.rs:83-101 | a reachable state with a connected client, its transport stored and no task that could change that |
| `Handshakes.StaysConnectedIff` | src/dtls/connector.rs:18-36 | a connected client of a reachable state stays connected in every continuation if and only if no task that read New is still to call connect |
| `Handshakes.SecondConnectShutsDown` | src/client/actor.rs:83-101 | a reachable state with a stored transport behind a shut-down connection: the condition does fail |
| `CodecLookup.PublishedFrequencyStays` | src/client/actor.rs:229-236 | a frequency of any media list ever published for a client has a runtime in every later state of every interleaving |
| `CodecLookup.CodecNotSetIff` | src/client/rtc_actor.rs:101-108 | a decrypted RTP packet is refused with CodecNotSet exactly if the media list its thread read earlier had no name or no frequency for its payload type, whatever was published since |
| `CodecLookup.CodecWasRead` | src/client/rtc_actor.rs:63-75 | the codec a thread carries was read from its own client's media list, for the same header, earlier in the run |
| `CodecLookup.CodecIsLastPairing` | src/client/rtc_actor.rs:67-73 | a thread finds a name and a frequency for a payload type exactly if the last rtpmap mentioning the type or the name pairs them and has that frequency |
| `CodecLookup.MissingCodec` | src/client/rtc_actor.rs:68-73 | for lists built from rtpmaps only the name can be missing |
| `Picks.NextPicksLive` | src/client/rtc_actor.rs:159-223 | whatever a thread picks is, at that moment, an undeleted incarnation of the address: the one the table holds, or one just taken out and about to be flagged |
| `Picks.NoStalePick` | src/client/rtc_actor.rs:181-184 | in every interleaving, nothing picks an incarnation after it was deleted, fan-outs in progress included |
| `Picks.SendsWerePicked` | src/client/rtc_actor.rs:161-223 | in every interleaving, a packet is only ever sent to a target picked before for this same packet in this same turn |
| `Handling.HandlingIsComplete` | src/client/rtc_actor.rs:159-224 | in every interleaving, if a thread with a prepared packet goes on to report success, RTP, and RTCP of a client with receivers, was sent to every receiver the client had when they were opened, unless deleted; other RTCP was sent to the sender address then remembered, unless that was not in the table or had no transport |
| `Handling.HandlingIsExact` | src/client/rtc_actor.rs:159-224 | and nothing else is ever sent in that turn |
| `GoesThrough.PacketGoesThrough` | src/client/rtc_actor.rs:49-226 | from every state, a packet from a client with a transport, with its codec and runtime if it is RTP, can get through to every undeleted receiver if these have transports, with the numbers its runtime gives it, and success is reported |
| `GoesThrough.RtcpGoesBack` | src/client/rtc_actor.rs:161-175 | RTCP of a client without receivers can get back to the sender it remembers |
| `GoesThrough.LookTakesUp` | src/client/rtc_actor.rs:50-62 | a packet is taken up for the client the table holds for its address, with its own header, or not at all |
| `GoesThrough.DecryptRefuses` | src/client/rtc_actor.rs:77-94 | the refusals before renumbering and exactly when each is given |
| `GoesThrough.RtcpGoesOn` | src/client/rtc_actor.rs:97 | RTCP goes on as decrypted and leaves every runtime alone |
| `GoesThrough.ProtectReports` | src/client/rtc_actor.rs:187-199 | which error a failed protection leaves, and that it does not stop the others |
| `GoesThrough.ConcludeReports` | src/client/rtc_actor.rs:181-226 | a fan-out reports an error it met, and success only when nobody is left |
| `GoesThrough.ReturnReports` | src/client/rtc_actor.rs:161-179 | on the return path a missing sender or transport is no error, a failed protection is |
| `Picks.FanOutIsComplete` | src/client/rtc_actor.rs:181-223 | from opening the receivers to reporting success, this packet was protected for and sent, in this turn, to every receiver in the map, unless it was deleted |
| `Turns.ExecutionTurns` | src/client/rtc_actor.rs:49-227 | in every interleaving turns are unique to their threads, nothing is picked in a turn before its receivers are opened, a turn renumbers at most one packet, and RTP on its way out is that packet |
| `Turns.NoStaleSend` | src/client/rtc_actor.rs:159-223 | a turn that opened its receivers after an incarnation was deleted never sends to it |
| `Picks.PicksAreIsolated` | src/client/rtc_actor.rs:159-223 | every target ever picked or sent to in any interleaving shares a group with its source, if sharing is transitive or the takeover branch was not entered |
| `ConcurrentRenumbering.RenumberingIsSequential` | src/client/rtc_actor.rs:97-157 | in every interleaving, each client's runtime of each frequency goes through exactly the updates of its own packets, in the order of the runtime lock; new offers, deletions and other clients do not disturb it |
| `ConcurrentRenumbering.InterleavedTranslation` | src/client/rtc_actor.rs:110-133 | while the client's numbers are straight in that order, the runtime's numbers after each packet are the client's plus one offset, whichever threads wrote them |
| `EndToEnd.LogIsReplayed` | src/client/rtc_actor.rs:110-133 | every renumbered packet carries the numbers that its client's and frequency's packets, replayed in lock order, lead up to |
| `EndToEnd.SentWasRenumbered` | src/client/rtc_actor.rs:97-223 | every RTP packet ever sent was renumbered in its turn, and the bytes protected are those it was given |
| `EndToEnd.SentIsTranslated` | src/client/rtc_actor.rs:97-223 | while the client's numbers are straight in lock order, every RTP packet sent by any thread to any receiver reads back as the client's numbers plus one offset, every other byte as decrypted |
| `ConcurrentRenumbering.WriteKeepsRuntime` | src/client/actor.rs:229-236 | no write of a handler, new offers included, touches the numbering in progress |
| `Locks.ActorEdgeEffect` | src/client/actor.rs:60-235 | in `ClientActor`, passing a lock request adds exactly that lock and any other move only releases |
| `Locks.ThreadEdgeEffect` | src/client/rtc_actor.rs:54-198 | the same in `RtcActor` |
| `Locks.RunIsExclusive` | src/client/rtc_actor.rs:54-198 | no lock is held in conflicting modes along any run of any number of threads |
| `Locks.MoveKeepsFit` | src/client/actor.rs:160-236 | phase, message and world fit together along every run, and only a handler that returns changes the world |
| `Locks.WaitingDescends` | src/client/actor.rs:194-215 | outside takeover, whoever is waited for has a smaller rank |
| `Locks.CyclicIffTakeover` | src/client/actor.rs:200-204 | a cyclic wait exists if and only if `ClientActor` is in the takeover branch, whatever the threads do |
| `Locks.CyclicOnlyInTakeover` | src/client/actor.rs:200-204 | along every run a cyclic wait means that the message in hand takes over in the world it finds |
| `LockReach.HangsIff` | src/client/actor.rs:184-204 | whatever the threads are doing when `ClientActor` takes up a message, it can end in a cyclic wait if and only if the message takes over in the world it finds |
| `LockReach.SecondSenderHangs` | src/client/actor.rs:184-204 | a run from the start that ends in a cyclic wait: two clients announce themselves as sender of one group |
| `LockReach.ViewerFirstHangs` | src/client/group.rs:18-22 | another: a viewer is announced in an empty group, then its sender |
| `LockReach.ThreadsDrain` | src/client/rtc_actor.rs:54-198 | with `ClientActor` idle, all threads can run to their end, whatever they are doing |
| `LockReach.HandlerReturns` | src/client/actor.rs:57-238 | a handler that does not take over can return, with the effect of its step |
| `LockReach.WorldsIff` | src/client/actor.rs:157-238 | the code as written gets to exactly the worlds of the runs without takeover |
| `Locks.TakeoverIsForever` | src/client/actor.rs:200-204 | a handler of such a message never returns: it has no way but into the branch and none out of it |
| `Locks.WrittenCodeIsIsolated` | src/client/actor.rs:157-219 | as far as any run of the code as written gets, group entries, edges and return addresses are isolated under every policy |
| `Locks.SomeoneCanRun` | src/client/actor.rs:194-235 | outside takeover, the waits of every blocked process lead to one that can run |
| `Renumbering.FieldIsIdealModulo` | src/client/rtc_actor.rs:110-123 | the u16 or u32 server field is the ideal counter modulo 2^16 or 2^32 after every run |
| `Renumbering.GainIsTotalVariation` | src/client/rtc_actor.rs:110-123 | the ideal counter gains, over each zero-free run of client values, last minus first plus total backward movement; zero restarts |
| `Renumbering.GainOfNonZeroRun` | src/client/rtc_actor.rs:114-122 | that law on runs without zero |
| `Renumbering.TranslationIff` | src/client/rtc_actor.rs:110-123 | written numbers are the client's plus one fixed offset if and only if the client's never step back and never leave zero |
| `Renumbering.RuntimeSeesOwnPackets` | src/client/rtc_actor.rs:101-108 | the runtime of a frequency evolves by exactly that frequency's packets; others leave it untouched |
| `Renumbering.PacketTranslation` | src/client/rtc_actor.rs:99-133 | re-reading each outgoing packet gives the original numbers plus one offset; marker, payload type and all bytes outside 2..8 are kept |
| `RtcObjects.ReplaceMeta` | src/client/rtc_actor.rs:97-157 | on objects: refusal exactly when the codec or its runtime is missing, with nothing changed; else the runtime, the bytes, the statistics and the message to the controller |
| `RtcObjects.Update` | src/client/rtc_actor.rs:110-127 | the field-by-field update equals the runtime step and yields both time differences |
| `RtcObjects.UpdateJitter` | src/client/rtc_actor.rs:137-155 | the u32 arithmetic written out equals the estimator step; the statistics change exactly if a message goes to the controller |
| `JitterRuns.SecondPacketMoves` | src/client/rtc_actor.rs:110-155 | by the clock readings and timestamps of two packets of a runtime, while the products fit 32 bits: the delay grows by 10 ms exactly if time and timestamp step differ by more than the delay and 1000 ticks; else it shrinks exactly if ten seconds have passed since it last moved |
| `JitterRuns.FirstPacketMoves` | src/client/rtc_actor.rs:110-155 | the same for a runtime's first packet, counted from the runtime's creation |
| `JitterRuns.LatePacketRaisesBoth` | src/rtp/jitter.rs:60-69 | a late packet raises the field and the controller's delay by 10 ms |
| `RtpCore.HeaderRoundTrip` | src/rtp/core.rs:39-53 | a header laid out as in section 5.1 of RFC 3550 is read back exactly if its version is 2 and it is long enough, and refused otherwise |
| `RtpCore.HeaderIsFaithful` | src/rtp/core.rs:39-53 | every buffer that is read is the encoding of what was read |
| `RtpCore.RtcpIsMarkedPayload` | src/rtp/core.rs:5-14 | RTCP is exactly an RTP-shaped header with marker and payload 72..78 (section 4 of RFC 5761) |
| `RtpCore.PayloadByteRoundTrip` | src/client/rtc_actor.rs:237-240 | marker and payload rebuild the byte they were read from |
| `RtpCore.RewrittenReadsBack` | src/client/rtc_actor.rs:242-245 | the rewrite reads back and changes nothing else |
| `RtpCore.ReplaceSequenceAndTimestamp` | src/client/rtc_actor.rs:242-245 | in place: exactly that rewrite |
| `Jitter.JitterControlActor.HandleIncrease` | src/rtp/jitter.rs:60-76 | the increase step on the whole storage |
| `Jitter.JitterControlActor.HandleDecrease` | src/rtp/jitter.rs:78-98 | the decrease step, with its floor and without creating entries |
| `Jitter.JitterControlActor.HandleGetOrStore` | src/rtp/jitter.rs:100-125 | storage and answer of the arrival step |
| `Jitter.Conservation` | src/rtp/jitter.rs:100-125 | over every run and address, all flushes followed by the buffer are exactly the non-RTCP packets submitted, in order |
| `Jitter.FlushEndsWithArrival` | src/rtp/jitter.rs:108-123 | an arrival flushes exactly when the delay has passed, the flush ends with that packet, RTCP and other addresses are untouched |
| `Jitter.FirstEventStartsClock` | src/rtp/jitter.rs:23-37 | the first message or packet of an address starts its clock at that moment and flushes nothing |
| `Jitter.FirstFlushWaits` | src/rtp/jitter.rs:112-123 | the first flush of an address comes at least its delay after its clock was started |
| `Jitter.DelaysStayOk` | src/rtp/jitter.rs:60-98 | every delay is always 50 + 10k ms |
| `Jitter.FlushesAreSpaced` | src/rtp/jitter.rs:112-123 | consecutive flushes of an address are at least the delay in force at the later one apart |
| `Jitter.FlushRateBound` | src/rtp/jitter.rs:112-123 | any window of T holds at most T / 50 ms + 1 flushes of an address |
| `JitterEstimate.Reflection` | src/rtp/jitter.rs:60-98 | after every run the controller's delay is the walk W pushed up by however far W has been below 50 ms |
| `JitterEstimate.EstimatorWalks` | src/client/rtc_actor.rs:141-155 | the estimator's u32 field is W modulo 2^32 on every run of packets |
| `JitterEstimate.ControllerFollowsEstimator` | src/client/rtc_actor.rs:141-155 | the field equals W exactly while W fits u32; then the controller is ahead by the delay left over at its address when the client was created and by however far its own walk has been below 50 ms, so they agree exactly if nothing was left over and W was never below 50 ms |
| `JitterEstimate.ExactDrain` | src/client/rtc_actor.rs:141-155 | from any statistics and any delay, packets that arrive as their timestamps say drain the field by 10 per message, modulo 2^32, while the controller stops at 50 ms |
| `JitterRuns.OrderedIsTimely` | src/client/rtc_actor.rs:125-127 | packets of any mix of frequencies handled in clock order never make a time difference negative |
| `JitterRuns.SampleSpansPackets` | src/client/rtc_actor.rs:125-127 | the time the estimator sees between two packets of a runtime is the difference of their clock readings |
| `JitterRuns.QuietPacketsAreReal` | src/rtp/core.rs:39-53 | the packets of the next row have headers of their own and different sequence numbers |
| `JitterRuns.QuietDrain` | src/client/rtc_actor.rs:149-155 | a run of packets, one every ten seconds with matching timestamps, on which the field wraps from the sixth recheck on |
| `Delivery.FlushesStayInOrder` | src/server/udp.rs:160-166 | in every run, the packets of one flush are handled in their order |
| `Delivery.InOrderIff` | src/server/udp.rs:157-174 | the packets of an address are handled in the order of the flushes if and only if no packet of a later flush is handed over while an earlier one has any left |
| `Delivery.OverlapIff` | src/server/udp.rs:157-174 | after a run handled in order, every schedule of the tasks keeps the order if and only if no two flushes of the address overlap |
| `Delivery.HandledFollowsSubmitted` | src/server/udp.rs:157-174 | what is handled was submitted, and without overtaking it is the beginning of what was submitted, in order |
| `Delivery.EachIsHandledOnce` | src/server/udp.rs:157-174 | once the tasks have run to their end every flushed packet was handled exactly once |
| `Delivery.CanFinish` | src/server/udp.rs:157-174 | from every state the tasks can be run to their end |
| `StunParser.ParseBindingRequest` | src/stun/mod.rs:17-74 | the whole parser, for every byte string, with all indexing in bounds |
| `StunParser.FindUser` | src/stun/mod.rs:43-73 | the attribute loop ends and yields what the scan yields |
| `StunParser.EncodingIsAligned` | src/stun/mod.rs:48-71 | every attribute starts at a multiple of four |
| `StunParser.MaskRoundsUp` | src/stun/mod.rs:48 | the mask form of padding rounds up to four at every word width that holds the sum |
| `StunParser.SplitUser` | src/stun/mod.rs:53-69 | what is returned joins back with a colon to the value, with a colon-free server part, both within 128 bytes and valid UTF-8 |
| `StunParser.SplitUserComplete` | src/stun/mod.rs:53-69 | every such split is found |
| `StunParser.ParseIff` | src/stun/mod.rs:17-74 | on every byte string, a request is returned if and only if the bytes are an encoded binding-request header, well-formed attributes that end with the first USERNAME at least 20 bytes before the announced end, and anything after them, and the value joins the two users with the first colon, within 128 bytes and valid UTF-8 |
| `StunFormat.FixedBytes` | src/stun/mod.rs:174-196 | the message types, cookie and attribute types on the wire |
| `StunParser.ParseOfEncoding` | src/stun/mod.rs:17-74 | on every message of an independent encoder for sections 6 and 15 of RFC 5389, with any trailing bytes: the first USERNAME, split, if at least 20 message bytes follow its padded end; nothing otherwise |
| `StunParser.LoneUserIsRejected` | src/stun/mod.rs:43-51 | a request whose only attribute is USERNAME is refused |
| `StunParser.ParseDependsOnBody` | src/stun/mod.rs:18-73 | the result depends only on the first max(20, length) bytes and on whether 20 + length bytes are there |
| `StunWriter.WriteSuccessResponse` | src/stun/mod.rs:76-172 | in place: too small exactly when it does not fit and then nothing is written; else header, address, HMAC over the first length, CRC over the final one, and bytes past the end kept |
| `StunWriter.WriteAddress` | src/stun/mod.rs:111-134 | in place: the XOR-mapped attribute for both families |
| `StunWriter.XorRange` | src/stun/mod.rs:198-202 | in place: XOR of exactly that range with the key |
| `StunWriter.Relength` | src/stun/mod.rs:153 | rewriting the length turns the HMAC's input into the CRC's |
| `StunWriter.ResponseRoundTrip` | src/stun/mod.rs:76-172 | a reader following sections 15.2, 15.4 and 15.5 of RFC 5389 recovers address and port and finds both checks satisfied, for every address, transaction id, HMAC and CRC |
| `StunWriter.AddressIsXored` | src/stun/mod.rs:111-134 | the address attribute bit by bit: behind zero and the family, each bit of port and address is inverted exactly where the cookie, or for IPv6 the cookie followed by the transaction id, has a bit set |
| `StunWriter.FingerprintIsXored` | src/stun/mod.rs:169 | the fingerprint bit by bit: the CRC inverted where 0x5354554e has a bit set |
| `Wire.BitXorBits` | src/stun/mod.rs:198-202 | XOR bit by bit: set exactly if set in one and not in the other |
| `Wire.BitAndBits` | src/stun/mod.rs:48 | the same for the mask's AND |
| `Wire.FieldsAreBigEndian` | src/stun/mod.rs:26-31 | all fields are read in network byte order |
| `Wire.BitXorInvolution` | src/stun/mod.rs:198-202 | XOR with the same key twice is the identity |
| `Media.MediaList.Insert` | src/sdp/media.rs:30-33 | in place: the overwriting insert on both halves and the frequencies |
| `Media.MediaList.FromAttributes` | src/sdp/media.rs:36-47 | the table of exactly the rtpmap lines, in order |
| `Media.FoldIsBijective` | src/sdp/media.rs:16-33 | id and name lookups are mutual inverses and every named id has a frequency |
| `Media.FoldCharacterisation` | src/sdp/media.rs:16-47 | an id has a name exactly if the last rtpmap mentioning either is that pair, and its frequency comes from that rtpmap |
| `Media.FrequencyIsLast` | src/sdp/media.rs:23-33 | the frequency of an id is that of the last rtpmap mentioning it, whatever became of its name |
| `Media.FrequenciesAreLast` | src/sdp/media.rs:26-28 | the frequencies announced are those of the last rtpmap of each id |
| `Media.RtpmapsOfConcat` | src/sdp/media.rs:37-45 | the rtpmap lines are kept in order, part by part |
| `Sessions.UdpRecv.HandleSession` | src/server/udp.rs:207-218 | inserts the session and leaves the media table alone |
| `Sessions.UdpRecv.HandleMediaUser` | src/server/udp.rs:220-230 | inserts the media list and leaves the sessions alone |
| `Sessions.UdpRecv.HandleClearData` | src/server/udp.rs:188-205 | the loop removes exactly the expired sessions and their users' media, in any order |
| `Sessions.OfferStores` | src/server/udp.rs:207-230 | an offer stores its item under the session and its media under the client's user and touches nothing else |
| `Sessions.SessionIff` | src/server/udp.rs:188-218 | over every run, a session has an item exactly if its last offer carried it and no sweep since has found it older than 60 s |
| `Sessions.SweepKeepsStepIff` | src/server/udp.rs:188-205 | a sweep keeps both tables in step if and only if no expired session shares its client user with one that stays |
| `Sessions.TablesInStep` | src/sdp/mod.rs:78-101 | with one server user, every run keeps the tables in step and every sweep keeps exactly the sessions at most 60 s old or dated in the future, with their media, unchanged |
| `Demux.TestsAreDisjoint` | src/server/udp.rs:345-358 | no datagram passes two of the RTP, STUN and DTLS tests |
| `Demux.ClassifyIff` | src/server/udp.rs:345-358 | each class by first byte and length: RTP from 128 to 191 and longer than 12, DTLS from 20 to 64, STUN what the parser accepts |
| `Demux.OrderIsIrrelevant` | src/server/udp.rs:345-358 | every order of the tests classifies every non-empty datagram alike (section 5.1.2 of RFC 5764, with the code's own upper bound 64) |
| `Demux.RenumberingKeepsClass` | src/client/rtc_actor.rs:242-245 | rewriting a header keeps the class and whether it is RTCP |
| `Demux.OwnResponsesAreUnknown` | src/stun/mod.rs:106-109 | the server's own STUN responses are none of the three |

## Left out

- UDP sockets, actix mailboxes and spawning, tokio timers and HTTP routes: only message order and atomic handler steps remain.
- OpenSSL, the DTLS handshake, SRTP, HMAC-SHA1, CRC-32 and UTF-8 validation: parameters or success flags; of a digest only its length is known.
- SDP parsing and answers in src/sdp/mod.rs: only the pair of session and media inserts is modelled.
- src/client/stream.rs, src/server/crypto.rs, src/server/meta.rs, src/main.rs: adapters and set-up.
- The STUN branch of UdpRecv (src/server/udp.rs:104-140), which turns a request into GroupId and MediaAddr messages: any such messages are allowed instead, in any order.
- The payload-type rewrite at src/client/rtc_actor.rs:201-215: it needs an RTCP packet with a codec, and no codec is looked up for RTCP.
- Liveness of jitter flushes: the source flushes only when a packet arrives.
- The order in which RtcActor threads reach the runtime lock with packets of overlapping flushes: renumbering results are about that order, and Delivery says when it is the order of arrival.
- Several clock readings within one handler count as one.
- Panics of debug builds on overflow: arithmetic wraps, as in the release profile.
- RtcActor::handle apart from lines 97-157 is modelled on values, one step per lock or flag; the copies of the message made for each receiver are not.
- Interleaving leaves out all locks but the connection state's, which allows more interleavings than the source has. Adding runtimes under one guard, and creating a client, are single steps.
- Of several errors in one fan-out the model reports the first.
- Locks does not model the connection state lock and the writer lock of the DTLS channel, which are awaited and not blocked on, nor the workers of the parallel fan-out: a thread protects for one receiver at a time. Its world changes when a handler returns.
- The messages a handshake task sends to delete its client are ordinary Delete events that may come at any time.
- Demux.Classify: gives None for an empty datagram, on which the source would index out of bounds.
- StunWriter.WriteAddress: copies and XORs an IPv6 address in two pieces where the source copies it at once; flow label and scope are not part of an address here.
- RtcObjects.ReplaceMeta: requires the clock not to have run backwards, which std::time::Instant guarantees.
