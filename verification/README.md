# Verification model of ParsTanel

A Dafny model of the parts of ParsTanel that are hard to get right: small concurrent or stateful
components whose claims are about every interleaving or every run. `dafny verify dfyconfig.toml`
checks all of it.

| file | component | form |
|---|---|---|
| Admission.dfy | a server run: accepting goroutines racing with the publisher of the control channel | state machine |
| Connections.dfy | what becomes of one connection over such a run, by what it announced and where it came from | lemmas over runs |
| Handshake.dfy | the control answer and the mux version each end settles on | functions |
| LegacyProbe.dfy | the client's fallback to the legacy handshake | class and histories |
| Framing.dfy | length-prefixed strings on a connection | methods over arrays |
| TtlCache.dfy | the single-flight cache: its locked sections, and any number of goroutines in them | class and state machine |
| UdpFlow.dfy | one datagram flow over a stream: queue, reader, incremental decoder | class and call sequences |
| UdpRegistry.dfy | the flows of a forwarded UDP port | state machine |
| Slots.dfy | connection slots from accept to the end of the transfer, TCP and QUIC | state machine |
| Backends.dfy | backend lists, round robin over health, the bounded pool of groups | classes and functions |
| Watchdog.dfy | restarts, cooldown and flap suppression | class and runs of looks |
| ClientHello.dfy | the ClientHello builder against a reader written from the RFCs | method and functions |
| Socks.dfy | SOCKS5 client and server together, each alone against any stream, and the UDP datagrams | state machine and methods |
| DialFailures.dfy | the lock-free record of failing dials | state machine |
| History.dfy | the two-resolution history against the full log | class and functions |
| PoolController.dfy | the pool-size controller and the request handler | state machine |
| IpRange.dfy | IPv4 expansion and first-seen union | methods |
| Bytes.dfy | bytes, 16-bit lengths, options | functions |

In a state machine one action is one access to shared memory, a lock or a channel, so a run is an
arbitrary interleaving. Clocks, probes, dials, random blocks and what the network does are parameters
or arbitrary values of an action. The history a theorem speaks about (logs, answers, counts of what was
done) is part of the model's state and decides nothing.

## What does not hold as promised

For each of these there is a lemma with a run or inputs that show it, and one that says exactly when the
promise holds.

- tcpmux: a pool connection that presents the nonce after it is published but before the mux version is
  stored gets a version 1 session although both ends agreed on 2 (`Admission.SessionMayMissTheVersion`,
  `Connections.SessionVersionIff`).
- Legacy pool connections: the server waits for an announcement from a connection that looked for the
  control channel before it was set, although a legacy client sends none (`Admission.LegacyConnMayBeListenedTo`,
  `Admission.RoutedIff`, `Admission.AnnouncesIffRead`).
- Pool connections racing in behind the handshake: the client is told the nonce before the server publishes
  it, so a connection can present it too early and be closed (`Admission.NonceMayBeRefused`,
  `Connections.NonceIsVerifiedIff`).
- Connection limit: a connection is refused while a slot is free when the refusal of another has not been
  rolled back yet (`Slots.FreeSlotMayBeRefused`, `Slots.RefusedIff`).
- SOCKS5: the client does not refuse fields of more than 255 bytes, and their length byte wraps
  (`SocksEnds.LongHostIsMisread`, `SocksHandshake.AgreedIffFits`).
- The cache: a read that panics, with the panic recovered further up, leaves every waiter blocked for ever
  (`TtlRuns.WaiterMayBeStranded`, `TtlRuns.PanicBlocksForEver`,
  `TtlRuns.WaiterIsOwedAClose`).
- Legacy handshake: the two ends may settle on different mux versions (`Handshake.LegacyVersionsMayDiffer`,
  `Handshake.LegacyVersionsAgreeIff`).
- The cache: a value returned after `forget` may come from a read that had returned before it and only
  took the lock later (`TtlRuns.ReadMayPredateForget`, `TtlRuns.ReadPredatesForgetIff`).
- Slots: the limiter outlives a run, and a connection still queued when the run is over, or being
  paired by a TCP loop that sees it end, never gives its slot back (`Slots.SlotMayOutliveRun`,
  `Slots.SlotsReturnIff`); the limit shrinks by as much (`Slots.CapacityShrinks`).
- CIDR blocks: `::ffff:1.2.3.0/120` passes the IPv4 check and expands to nothing without an error
  (`IpRange.MappedBlockComesOutEmpty`, `IpRange.BlockIsExactIff`).
- Framing: a message of 65536 bytes or more does not survive (`Framing.LongMessageIsLost`,
  `Framing.TransportRoundTripIff`).

## Model

| member | source | states |
|---|---|---|
| Connections.PoolPresentedTheNonce | internal/server/transport/tcp.go:476-484 | Over every interleaving of accepting goroutines with the publisher: whatever is put on the tunnel channel before the nonce is taken back is put there after the nonce was published, and announced exactly that nonce when the control channel was opened with SG_ChanV2. |
| Connections.LegacyPoolSharesTheHost | internal/server/transport/tcp.go:451-462 | In a run opened with SG_Chan, every connection pooled while the control channel is up was accepted from the host the control connection was accepted from. |
| Admission.OneCandidatePerRun | internal/server/transport/tcp.go:235-256 | Once a candidate is being published, no later state of the run publishes another, and a published control channel stays published. |
| Admission.GivenUpStays | internal/server/transport/tcp.go:236-238 | A publisher that saw the run cancelled before it took a candidate never publishes one. |
| Admission.WritesSoFar | internal/server/transport/tcp.go:163-234 | Nonce, control channel and phase of the run are, in every state of every run, what the writes among the actions so far make of them. |
| Admission.EndsAgree | internal/server/transport/announce.go:112-121 | Whenever the published connection is one a client adopted, both ends hold the same nonce and signal, the nonce is empty exactly for SG_Chan, under SG_ChanV2 on tcpmux both store the same mux version whatever their files say, and plain TCP promises none. |
| Admission.RoutedIff | internal/server/transport/tcp.go:446-472 | Per connection, over every run: until the control channel is torn down, in a legacy run the server reads an announcement from exactly the connections that looked before the control channel was set, and in an SG_ChanV2 run from all. |
| Admission.ByAddressIff | internal/server/transport/tcp.go:451-462 | A connection that found the control channel set goes by its source address if and only if the handshake was SG_Chan or the nonce has been taken back; otherwise it has to announce itself. |
| Admission.LooksIff | internal/server/transport/tcp.go:451-451 | A connection finds the control channel if and only if it has been set and not yet torn down, and is otherwise listened to. |
| Admission.AnnouncesIffRead | internal/client/transport/handshake.go:95-107 | Per connection, over every run: the server reads an announcement from it exactly when the client announces, if and only if the handshake was SG_ChanV2 or the connection looked after the control channel was set. |
| Admission.LegacyConnMayBeListenedTo | internal/server/transport/tcp.go:446-472 | A concrete legacy run in which the server waits for an announcement its client never sends. |
| Connections.NonceIsVerifiedIff | internal/server/transport/tcp.go:476-484 | In an SG_ChanV2 run a pool connection is let in by the nonce check if and only if what it announced is the nonce of the run and the check comes after the nonce is published and before it is taken back. |
| Connections.SignalDecides | internal/server/transport/tcp.go:472-490 | An announcement is taken as a claim, as a nonce or as nothing by its signal alone, with exactly what was announced. |
| Connections.ClaimGoesOnIff | internal/server/transport/tcp.go:494-512 | Over every run, a claim goes on if and only if no control channel is set and the payload its connection announced is the token; otherwise it is refused with in-use or with token, in that order. |
| Connections.AnsweredIff | internal/server/transport/tcp.go:514-526 | A claim that goes on came with the token; its answer carries the token, and under SG_ChanV2 the nonce and version in front, and it becomes a candidate if and only if that answer could be sent. |
| Connections.AnswerNeedsTheToken | internal/server/transport/tcp.go:494-526 | Over every run, whoever got an answer that is not a refusal had announced the token, with the signal it was answered with. |
| Connections.CandidateNeedsTheToken | internal/server/transport/tcp.go:235-256 | Over every run, the connection published as the control channel, or about to be, had announced the token. |
| Connections.OfferedIff | internal/server/transport/tcp.go:528-533 | A candidate is kept if and only if the one before it has been received; otherwise its connection is closed. |
| Connections.HostDecidesIff | internal/server/transport/tcp.go:451-462 | A connection taken by its source address is let in if and only if it was accepted from the host of the control connection or the control channel has been torn down. |
| Connections.PooledIff | internal/server/transport/tcp.go:538-545 | An admitted connection is pooled if and only if the tunnel channel has room for it, and closed otherwise. |
| Connections.ClosedStays | internal/server/transport/tcp.go:427-545 | A connection that was dropped or closed is never used again. |
| Admission.NonceMayBeRefused | internal/server/transport/tcp.go:494-536 | A concrete run in which a connection presents the nonce of the run before it is published and is closed. |
| Connections.SessionVersionIff | internal/server/transport/tcpmux.go:281-300 | A session pooled before teardown was built at a step of the run, and has the version the run settled on if and only if that version is 1 or had been stored before that step; sessions admitted by source address always have it. |
| Connections.BuiltSince | internal/server/transport/tcpmux.go:556-570 | A connection has its session built at one step only, and the session keeps what was stored then into the pool. |
| Admission.SessionMayMissTheVersion | internal/server/transport/tcpmux.go:556-570 | A concrete run in which a connection presents the nonce between its publication and the storing of the mux version, and its session is built with version 1 where both ends store 2. |
| Admission.StepKeepsInv | internal/server/transport/tcp.go:427-545 | Every access of every goroutine to the nonce, the control pointer, the claim channel and the pool keeps the admission invariant. |
| Handshake.DecodeInvertsEncode | internal/utils/network/poolnonce.go:56-72 | The token, nonce and version of an answer come back exactly, for every token. |
| Handshake.EncodeInvertsDecode | internal/utils/network/poolnonce.go:63-72 | Every answer is either the packing of what it decodes to or is rejected whole. |
| Handshake.AnswerIsUnderstood | internal/server/transport/announce.go:97-121 | The client reads from the answer exactly the nonce and version the server recorded for it; the nonce is empty exactly without SG_ChanV2. |
| Handshake.ResolveMuxVersion | internal/utils/network/mux.go:41-46 | The resolved version is 1 exactly when 1 is configured, and otherwise 2. |
| Handshake.ServerVersion | internal/server/transport/tcpmux.go:99-109 | The version the server stores: 1 exactly when 1 was negotiated, or nothing was and its file leaves it open or says 1; otherwise 2. |
| Handshake.ClientVersion | internal/client/transport/tcpmux.go:431-439 | The version the client stores: 2 exactly when 2 was negotiated, or nothing was and its file says 2; otherwise 1. |
| Handshake.LegacyVersionsAgreeIff | internal/client/transport/tcpmux.go:431-439 | Without negotiation the two files lead to one version exactly under a stated condition on the two settings. |
| Handshake.LegacyVersionsMayDiffer | internal/server/transport/tcpmux.go:99-109 | Two concrete settings that lead to versions 2 and 1. |
| LegacyProbes.LegacyProbe.constructor | internal/client/transport/handshake.go:33-38 | A new probe is what an empty history makes. |
| LegacyProbes.LegacyProbe.Signal | internal/client/transport/handshake.go:40-45 | The signal is SG_Chan if and only if, in everything that has happened, SG_ChanV2 was never answered and two SG_ChanV2 attempts missed since the last reset with no answer between them. |
| LegacyProbes.LegacyProbe.Ack | internal/client/transport/handshake.go:47-53 | The fields after an answer are again what the history, longer by this event, makes of them. |
| LegacyProbes.LegacyProbe.Miss | internal/client/transport/handshake.go:55-72 | The fields after a miss, warning included, are again what the history, longer by this event, makes of them. |
| LegacyProbes.LegacyProbe.Reset | internal/client/transport/handshake.go:74-77 | The fields after a restart are again what the history, longer by this event, makes of them. |
| LegacyProbes.FallsBackIff | internal/client/transport/handshake.go:33-77 | The client opens with SG_Chan if and only if SG_ChanV2 was never answered and, since the last reset, two SG_ChanV2 attempts missed with no answer between them. |
| LegacyProbes.StateOfHistory | internal/client/transport/handshake.go:33-77 | All fields of the probe, read off the whole history of answers, misses and resets. |
| LegacyProbes.AnsweredNeverFallsBack | internal/client/transport/handshake.go:47-72 | After one answered SG_ChanV2 no sequence of events falls back. |
| LegacyProbes.WarnsAtMostOnce | internal/client/transport/handshake.go:55-72 | The warning is logged at most once in any history. |
| LegacyProbes.WarnedIff | internal/client/transport/handshake.go:55-72 | The warning is logged, once, if and only if the history ever made the client fall back. |
| LegacyProbes.MissesAreCounted | internal/client/transport/handshake.go:47-77 | The miss counter is the number of SG_ChanV2 attempts that missed since the last answer or restart, as long as none was answered. |
| LegacyProbes.MissesStayBounded | internal/client/transport/handshake.go:55-72 | Driven by the dialer the miss counter never passes the threshold, so its 32 bits cannot wrap. |
| Framing.SendBinaryTransportString | internal/utils/binary.go:77-106 | Writes the length, the signal and the message as one frame. |
| Framing.ReceiveBinaryTransportString | internal/utils/binary.go:108-147 | Returns what the frame parser reads from the stream and leaves the rest unread. |
| Framing.SendBinaryString | internal/utils/binary.go:11-37 | Writes the length and the message as one frame. |
| Framing.ReceiveBinaryString | internal/utils/binary.go:39-75 | Returns what the frame parser reads from the stream and leaves the rest unread. |
| Framing.TransportRoundTripIff | internal/utils/binary.go:77-147 | A message with its signal survives the wire, with what follows untouched, if and only if it is shorter than 65536 bytes. |
| Framing.StringRoundTripIff | internal/utils/binary.go:11-75 | The same for the form without a signal. |
| Framing.LongMessageIsLost | internal/utils/binary.go:77-147 | Any message of 65536 bytes is read back empty, with all of its bytes left over. |
| TtlStore.TtlCache.Enter | internal/manage/ttlcache.go:50-81 | The locked section at the top of get: waits on a read in flight, reuses a value younger than ttl, or installs an entry of its own and prunes; the new store is the specified one. |
| TtlStore.TtlCache.PruneLocked | internal/manage/ttlcache.go:111-117 | Removes exactly the finished entries past the prune age. |
| TtlStore.TtlCache.Publish | internal/manage/ttlcache.go:82-92 | Stores the value and time in the entry and nothing else; a later call finds that value if and only if it comes less than ttl after that time, and otherwise reads anew. |
| TtlStore.TtlCache.Forget | internal/manage/ttlcache.go:98-106 | Removes exactly the entries no read is in flight for. |
| TtlRuns.StepKeepsInv | internal/manage/ttlcache.go:50-117 | Every lock, read, close, forget and clock step of any number of goroutines keeps the cache invariant. |
| TtlRuns.SingleFlight | internal/manage/ttlcache.go:50-92 | In every reachable state at most one goroutine runs read for a key. |
| TtlRuns.InFlightStays | internal/manage/ttlcache.go:98-117 | An entry in flight is never replaced, pruned or forgotten by any step. |
| TtlRuns.ClosedOnce | internal/manage/ttlcache.go:82-92 | No two steps of a run close the same done channel, and whoever closes one has stored the value first. |
| TtlRuns.WokenLooksAgain | internal/manage/ttlcache.go:60-67 | Whoever waited and is woken goes back to the lock in the same call, with nothing else changed; the entry it waited for is finished. |
| TtlRuns.WaiterIsOwedAClose | internal/manage/ttlcache.go:50-70 | Whoever waits on an open channel waits for another goroutine; it owes the close, is live and can take its next step towards it, if and only if its read has not panicked. |
| TtlRuns.PanicBlocksForEver | internal/manage/ttlcache.go:81-91 | Once a read has panicked its channel is never closed and its entry never replaced, pruned or forgotten, in every continuation. |
| TtlRuns.WaiterMayBeStranded | internal/manage/ttlcache.go:50-91 | A concrete run that ends with a goroutine waiting for a read that panicked. |
| TtlRuns.CloseNeverRecedes | internal/manage/ttlcache.go:50-117 | No step of anybody puts that close further off. |
| TtlRuns.ForgetIsEffective | internal/manage/ttlcache.go:50-106 | Every call that returns is answered with what a read for its key returned at some step and stored at a later one; no forget that had returned before the call began came after that store; and a value that was there already was stored less than ttl before. |
| TtlRuns.ReaderIsAnswered | internal/manage/ttlcache.go:81-92 | Whoever read and closed the channel returns what its own read returned. |
| TtlRuns.ReusedIff | internal/manage/ttlcache.go:50-81 | A call that finds a finished entry is answered with its value if and only if the step that stored it is less than ttl ago; otherwise it reads anew. |
| TtlRuns.YoungIsReused | internal/manage/ttlcache.go:50-117 | A value stored less than ttl and no more than prune ago, and not forgotten since, answers every call for its key without a read. |
| TtlRuns.LeavesIff | internal/manage/ttlcache.go:72-117 | A stored value leaves the cache at a step if and only if that step is a forget, or a call that has to read and either is for the same key or finds the value more than prune old. |
| TtlRuns.ReadPredatesForgetIff | internal/manage/ttlcache.go:82-106 | The read behind an answer had itself returned before the last forget the call began after, if and only if that forget ran between the return of the read and its lock. |
| TtlRuns.ReadMayPredateForget | internal/manage/ttlcache.go:82-106 | A concrete run in which that happens. |
| UdpFlows.UdpFlow.Deliver | internal/server/transport/udpforward.go:255-263 | Queues the datagram unless 256 are waiting or the flow is closed; accepted datagrams stay a subsequence of the arrivals. |
| UdpFlows.UdpFlow.Read | internal/server/transport/udpforward.go:265-296 | Yields the framing of the accepted datagrams in order into any buffer, and reports the end only when closed with everything yielded. |
| UdpFlows.UdpFlow.Write | internal/server/transport/udpforward.go:298-341 | Takes the first n bytes of the chunk without losing or repeating one, sends every datagram they complete, holds the rest in hdr, hdrN, body and want, and after a failed send holds that datagram whole; on a closed flow it takes nothing and fails; terminates. |
| UdpFlows.UdpFlow.Advance | internal/server/transport/udpforward.go:309-337 | One turn of the loop: takes at least a byte, or retries the datagram already complete. |
| UdpFlows.ChunkIndependence | internal/server/transport/udpforward.go:298-339 | However a stream is cut into calls and whichever sends failed before, once a call succeeds the datagrams sent and the bytes held are the decoding of the whole stream. |
| UdpFlows.ChunkingIsInvisible | internal/server/transport/udpforward.go:298-339 | Two ways of cutting the same stream leave the same state. |
| UdpFlows.RoundTrip | internal/server/transport/udpforward.go:255-339 | What Read yields, fed to Write in any chunks, sends exactly the accepted datagrams in order and holds nothing back. |
| UdpFlows.RetryComesFirst | internal/server/transport/udpforward.go:298-339 | After a failed send the next nonempty Write sends that datagram before any other or takes no byte at all. |
| UdpFlows.RunConserves | internal/server/transport/udpforward.go:298-339 | Over any sequence of calls, failed ones included, the frames sent and the bytes held are exactly the bytes taken. |
| DatagramStream.DecodeUnique | internal/server/transport/udpforward.go:298-339 | A stream has one decoding: any framing of datagrams with an incomplete rest is it. |
| UdpRegistry.OneOpenFlowPerSource | internal/server/transport/udpforward.go:119-208 | In every reachable state a source has at most one unclosed flow, and it is the one in the registry. |
| UdpRegistry.DatagramGoesHome | internal/server/transport/udpforward.go:119-159 | A datagram is handed to the flow its own source has in the registry, or to a new one filed under it when there is none; only a source without a flow after close ends the runner instead. |
| UdpRegistry.FlowGetsItsOwn | internal/server/transport/udpforward.go:119-159 | A flow is handed exactly the datagrams of its own source that were read while the registry named it, in the order they came. |
| UdpRegistry.OfferedOnce | internal/server/transport/udpforward.go:119-159 | Every flow is offered to the transport exactly once, in the order the flows were made and before the next datagram is read; it is taken if and only if that offer was accepted. |
| UdpRegistry.DoneIff | internal/server/transport/udpforward.go:200-208 | A flow is done, and out of the registry, exactly when its close did so, and no flow starts out closed. |
| UdpRegistry.PhasesIff | internal/server/transport/udpforward.go:186-198 | The forwarder is closed, has finished closing and has stopped reading exactly when one of its own steps made it so, and it stops reading only after close. |
| UdpRegistry.NoStrandedFlow | internal/server/transport/udpforward.go:119-159 | Every flow in the registry was taken by the transport or is still being offered or refused. |
| UdpRegistry.ForgetSparesOthers | internal/server/transport/udpforward.go:200-208 | Finishing one flow removes no other, a newer one for the same source included. |
| UdpRegistry.AbsentUntilDatagram | internal/server/transport/udpforward.go:119-159 | Only a datagram from a source puts a flow under it. |
| UdpRegistry.RefusedSourceTriesAgain | internal/server/transport/udpforward.go:119-159 | A refused flow is gone, so the next datagram of that source is offered as a new flow. |
| UdpRegistry.NothingAfterClose | internal/server/transport/udpforward.go:186-198 | Nothing is added after close, and when close returns every flow is closed. |
| UdpRegistry.StepKeepsInv | internal/server/transport/udpforward.go:119-208 | Every step of the runner, the reaper, the handlers and the shutdown keeps the registry invariant. |
| Slots.LimitHolds | internal/server/transport/limits.go:57-74 | The slots really out, with those earlier runs lost, never exceed maxConns under any interleaving of increments and their rollbacks. |
| Slots.RefusedIff | internal/server/transport/limits.go:57-66 | A connection is refused a slot if and only if the slots out, those lost and the refusals still to be rolled back fill the limit. |
| Slots.FreeSlotMayBeRefused | internal/server/transport/limits.go:57-66 | A concrete run in which a connection is refused although nobody has a slot. |
| Slots.SlotsAreConserved | internal/server/transport/tcp.go:663-782 | The counter equals what earlier runs lost, increments being rolled back, connections being queued, queued, held by a handle loop and relayed, plus after cancellation those a TCP loop left behind; each held connection is held by exactly one loop. |
| Slots.DequeuedEndsOneWay | internal/server/transport/quic.go:585-643 | A dequeued connection is still held, or timed out, was paired once, or ended with the cancelled run, and never more than one of these. |
| Slots.TimedOutIff | internal/server/transport/tcp.go:742-755 | A handle loop gives a connection up if and only if more than 3000 ms have passed since that connection was queued. |
| Slots.PairedIff | internal/server/transport/tcp.go:757-776 | A connection is paired if and only if a loop that was pairing it got the request through to a tunnel connection. |
| Slots.RetryKeeps | internal/server/transport/tcp.go:761-767 | A tunnel connection that fails changes no connection and no slot; the loop goes on with the same one, the TCP loop by way of the clock. |
| Slots.QueueIsFifo | internal/server/transport/tcp.go:710-742 | Connections leave the queue in the order they joined it, and whoever joined and has not left is still in it. |
| Slots.DroppedIff | internal/server/transport/tcp.go:710-731 | A connection with a slot is dropped if and only if the queue is full. |
| Slots.EndsAreFinal | internal/server/transport/tcp.go:737-782 | How a connection ended never changes. |
| Slots.EndedIff | internal/server/transport/limits.go:57-74 | A connection is refused exactly when its increment was rolled back, and finished exactly when its transfer ended. |
| Slots.ExitedIff | internal/server/transport/tcp.go:737-742 | A handle loop ends if and only if it sees the run end, when idle or, on TCP, while it is pairing; otherwise it goes on to the next connection. |
| Slots.LeftBehindIff | internal/server/transport/tcp.go:737-782 | A connection keeps its slot in a TCP handle loop if and only if, at some step of the run, a loop that was pairing it saw the run end. |
| Slots.SlotsReturnIff | internal/server/transport/tcp.go:737-782 | A run that is over has given back every slot it took if and only if nothing was queued and no TCP loop saw the end while it was pairing. |
| Slots.CapacityShrinks | internal/server/transport/limits.go:57-74 | Over any sequence of runs sharing the limiter, the counter is the slots earlier runs lost plus what the current one holds, and only the rest of the limit can be given out. |
| Slots.SlotMayOutliveRun | internal/server/transport/tcp.go:663-735 | A concrete run that ends with a slot taken for good. |
| Slots.StepKeepsInv | internal/server/transport/udpforward.go:379-396 | Every step, the admission of a UDP flow among them, keeps the slot invariant. |
| BackendList.Trim | internal/client/transport/backendpool.go:247-247 | The result has no blanks around it, holds no new separator, and is the input when that had none. |
| BackendList.TrimIff | internal/client/transport/backendpool.go:247-247 | Trimming takes the blanks off either end and nothing else: the result is the one trimmed string the input holds with only blanks around it. |
| BackendList.Cut | internal/client/transport/backendpool.go:246-246 | There is at least one piece and none holds a separator. |
| BackendList.JoinCut | internal/client/transport/backendpool.go:244-252 | Cutting and joining give the string back. |
| BackendList.SplitBackends | internal/client/transport/backendpool.go:244-252 | The loop computes the specified list. |
| BackendList.BackendsAreAddresses | internal/client/transport/backendpool.go:244-252 | Every address of a parsed list is nonempty, trimmed and free of separators. |
| BackendList.BackendsIff | internal/client/transport/backendpool.go:244-252 | A target parses to a list of addresses if and only if its pieces are those addresses in order, with blanks around them and blank pieces between them. |
| BackendList.KeyRoundTrip | internal/client/transport/backendpool.go:76-81 | A list joined into a key parses back to itself, so a list has one key and a key one list. |
| BackendPicks.RoundRobin | internal/client/transport/backendpool.go:153-173 | With the flags fixed and some member up, as many consecutive picks as there are members up return each of them exactly once, from any counter value. |
| BackendPicks.PickIsNextUp | internal/client/transport/backendpool.go:163-169 | A pick returns the first member in turn that is up. |
| BackendPicks.PickWhenAllDown | internal/client/transport/backendpool.go:170-172 | With every member down a pick returns one all the same, the next in turn. |
| BackendPicks.TurnIsNext | internal/client/transport/backendpool.go:153-173 | The backend a turn names is the member at the first position from the counter on that is up; with all down, the next one a round later. |
| BackendPicks.EachBackendOnce | internal/client/transport/backendpool.go:153-173 | As many turns in a row as there are members up hand out the name of each of those members once. |
| BackendPicks.AnyRound | internal/client/transport/backendpool.go:163-169 | Any round of counter values shows every member that is up exactly once. |
| BackendPicks.DownIff | internal/client/transport/backendpool.go:207-221 | Over any probe history a member is down if and only if its last three probes all failed. |
| Balancer.BackendGroup.constructor | internal/client/transport/backendpool.go:99-108 | A new group has every member healthy and an empty probe history. |
| Balancer.BackendGroup.Pick | internal/client/transport/backendpool.go:153-173 | Hands out the first backend in turn that is up, by name, and moves the counter past it; with all down the next in turn; an empty group gives the empty string. |
| Balancer.BackendGroup.Check | internal/client/transport/backendpool.go:207-221 | One pass appends one answer to the probe history of every member, and flags and counters follow from the history. |
| Balancer.BackendPool.OldestKey | internal/client/transport/backendpool.go:115-123 | The scan finds a group no other was used before. |
| Balancer.BackendPool.EvictOldest | internal/client/transport/backendpool.go:115-125 | Removes exactly that group. |
| Balancer.BackendPool.Group | internal/client/transport/backendpool.go:86-110 | Returns the group of the list, making it when new; the pool stays within 256 groups, loses at most its least recently used one, and every group keeps 2 to 32 addresses under the key they join to. |
| Balancer.BackendPool.Balance | internal/client/transport/backendpool.go:78-81 | Hands out the first backend of the list in turn that is up, or the first member of a new group; other groups keep their turns. |
| Balancer.BackendPool.Pick | internal/client/transport/backendpool.go:65-81 | Passes a single target through, and for a list hands out the first of its members in turn that is up; the pool invariant holds, so the modulus is never zero. |
| Watchdog.Watch.RecentRestarts | internal/manage/watchdog.go:211-219 | Keeps the restarts younger than the window and adds this one. |
| Watchdog.Watch.ReportRestart | internal/manage/watchdog.go:221-237 | Decides the alert and remembers only a flapping one. |
| Watchdog.Watch.CountUnhealthy | internal/manage/watchdog.go:54-66 | Counts the unhealthy look and restarts exactly when specified; other tunnels are untouched. |
| Watchdog.Watch.LookAt | internal/manage/watchdog.go:45-66 | One look moves this tunnel as specified and no other. |
| Watchdog.Watch.Tick | internal/manage/watchdog.go:36-68 | One round moves every tunnel by exactly the looks at it. |
| Watchdog.RestartIff | internal/manage/watchdog.go:45-66 | A look restarts the tunnel if and only if it and the look before are unhealthy, an earlier one was healthy, the look before was not itself a restart, and the cooldown has passed. |
| Watchdog.CountersHold | internal/manage/watchdog.go:29-65 | What the counters mean in terms of the looks, after any run. |
| Watchdog.FailsAreCounted | internal/manage/watchdog.go:45-66 | The failure counter is the number of unhealthy looks in a row, of a tunnel once seen healthy, that have led to no restart. |
| Watchdog.RestartsKeepCooldown | internal/manage/watchdog.go:52-60 | With a monotone clock any two restarts of a tunnel are more than the cooldown apart, each caused by an unhealthy look. |
| Watchdog.WindowRefinesLog | internal/manage/watchdog.go:211-219 | Seen from any later time, the bounded list and the log of all restarts show the same last hour. |
| Watchdog.WindowHolds | internal/manage/watchdog.go:211-219 | The list is exactly the restarts of the hour before the latest. |
| Watchdog.WindowIsBounded | internal/manage/watchdog.go:211-219 | It never holds more than twenty. |
| Watchdog.AlertsAreDue | internal/manage/watchdog.go:221-237 | Every restart is reported by itself unless the third before it was within the hour, then as flapping unless that was reported within the hour, else it is covered by that report. |
| Watchdog.IndividualAlertsAreRare | internal/manage/watchdog.go:221-237 | At most three restarts are reported by themselves in less than an hour. |
| Watchdog.FlapAlertsAreRare | internal/manage/watchdog.go:221-237 | At most one flapping report is made in less than an hour. |
| SniHello.BuildHello | internal/snispoof/hello.go:53-110 | Fails for an empty domain and for one over 219 bytes, and otherwise returns the 517 bytes laid out around the domain and the random blocks. |
| SniHello.HelloIsWellFormed | internal/snispoof/hello.go:41-110 | A reader written from RFC 8446 accepts every hello as one ClientHello in one record with all lengths in agreement, and finds the random blocks, suites and extensions that were put in. |
| SniHello.HelloSays | internal/snispoof/hello.go:41-110 | Its server_name names exactly the domain (RFC 6066), its key_share holds the key drawn, its padding is zeros filling the rest (RFC 7685), and its twelve extension types are the listed ones, each once. |
| SniHello.HelloOffers | internal/snispoof/hello.go:41-110 | A reader finds in every hello the offered suites, point formats, groups, protocols h2 and http/1.1 (RFC 7301), signature schemes, versions 0x0304 and 0x0303 and key exchange mode, value by value, and the three empty extensions empty. |
| SniHello.SniOf | internal/snispoof/hello.go:115-125 | Succeeds exactly when the length field and the name fit, and returns what stands there. |
| SniHello.NameIsRead | internal/snispoof/hello.go:115-153 | Every built hello looks like one, and the name read from its fixed place is the domain and nothing else. |
| TlsReader.ExtensionsOf | internal/snispoof/hello.go:88-104 | A block laid out extension by extension is read as those extensions, to its last byte. |
| SocksHandshake.ConnectedMeansAgreed | internal/socks/dialer.go:36-121 | Under any interleaving, a client that is through has a server that replied success for exactly its host, port and credentials, with no byte of either stream left over; a client that failed has a server that closed. |
| SocksHandshake.SettledIff | internal/socks/socks5.go:62-136 | When nothing is left to read both ends succeeded or neither did, and they did if and only if both want the same kind of authentication, the server accepts the credentials and the target can be dialled. |
| SocksHandshake.HandshakeEnds | internal/socks/socks5.go:62-136 | A run takes at most fifteen steps that are not traffic. |
| SocksHandshake.AgreedIffFits | internal/socks/dialer.go:56-80 | For fields of any length: a settled exchange that is accepted and can be dialled leaves the server with exactly the client target and credentials, and no byte astray, if and only if user, password and host have at most 255 bytes and the port at most 16 bits. |
| SocksEnds.LongHostIsMisread | internal/socks/dialer.go:76-84 | Any host of 256 bytes or more makes the server dial the beginning of the host at a port made of the next two bytes, and send it the rest of the request as traffic. |
| SocksHandshake.StepKeeps | internal/socks/socks5.go:62-188 | Every read of either side, and what it writes, keeps the two in step. |
| SocksEnds.HasMethod | internal/socks/socks5.go:190-197 | Finds the method exactly when it is offered. |
| SocksEnds.ReadAuth | internal/socks/socks5.go:138-156 | Consumes the stream as the steps of the server do, with every early end a refusal. |
| SocksEnds.ReadAddr | internal/socks/socks5.go:158-184 | Consumes the stream as the steps of the server do. |
| SocksEnds.Greet | internal/socks/socks5.go:62-93 | The greeting and authentication leave the stream, the output and the identity as the steps do. |
| SocksEnds.Answer | internal/socks/socks5.go:95-135 | The request is answered as the steps do, with every reply code. |
| SocksEnds.Handle | internal/socks/socks5.go:62-136 | The whole server, on any input stream, ends, leaves and writes what its steps do. |
| SocksEnds.AwaitReply | internal/socks/dialer.go:79-119 | The reply is consumed to its last byte as the steps do. |
| SocksEnds.Negotiate | internal/socks/dialer.go:36-121 | The whole client, on any input stream, ends, leaves and writes what its steps do. |
| SocksStreams.RequestServed | internal/socks/socks5.go:95-135 | Any request for a command on an IPv4, IPv6 or named target is served as that command asks: CONNECT relays to exactly that target after a success reply or closes with code 5, UDP ASSOCIATE goes on, anything else is refused with code 7. |
| SocksStreams.NoRequestServed | internal/socks/socks5.go:95-184 | Any stream that is no request ends closed, with code 7, 8 or 1 by where it goes wrong. |
| SocksStreams.RelaysIff | internal/socks/socks5.go:95-135 | The server relays to a target, leaving the rest of the stream, if and only if the stream asks to be connected to it and the dial succeeds. |
| SocksStreams.GreetingServed | internal/socks/socks5.go:62-93 | Whatever methods are offered, the server chooses the one its authentication needs if and only if that is among them, and otherwise says so and closes. |
| SocksStreams.PasswordServed | internal/socks/socks5.go:138-156 | Exactly the user and password sent are asked about, and the server goes on or closes by the answer. |
| SocksStreams.NoGreetingServed | internal/socks/socks5.go:62-78 | A stream that is no greeting, of another version or cut off, is closed without a word. |
| SocksStreams.NoPasswordServed | internal/socks/socks5.go:138-156 | A stream that is no user and password, wherever it goes wrong or ends, is refused with 1, 1. |
| SocksStreams.SessionServed | internal/socks/socks5.go:62-136 | A whole session of any client, from the greeting to the request: what is dialled, what is left unread and every byte said. |
| SocksStreams.SuccessConsulted | internal/socks/dialer.go:86-119 | A success reply naming a bound address of any kind lets the client through with exactly the rest left. |
| SocksStreams.ThroughIff | internal/socks/dialer.go:36-121 | Against any stream the client is through if and only if it is let in as it asked and then gets a success reply, and it has said its greeting, its password if it has one and its request. |
| SocksDatagrams.ParseUdpDatagram | internal/socks/udpassociate.go:185-223 | Succeeds exactly on encoded datagrams (RFC 1928 section 7), with the target and data encoded; header and data are the input. |
| SocksDatagrams.EncodingIsUnique | internal/socks/udpassociate.go:185-223 | No two datagrams share an encoding. |
| DialFailures.PointerShowsCurrentRun | internal/metrics/metrics.go:143-171 | Under any interleaving of reports the pointer shows exactly the current run of identical failures, how many and since when, and nothing after a success. |
| DialFailures.EveryReportCountsOnce | internal/metrics/metrics.go:151-165 | A report that returned took effect exactly once, as what it reported; one still in the loop has not. |
| DialFailures.EffectFollowsRealTime | internal/metrics/metrics.go:151-171 | A report that returned before another began takes effect before it. |
| DialFailures.InOrderIsLastRun | internal/metrics/metrics.go:151-165 | Reports taken one at a time leave the longest run of identical failures at the end of the log. |
| DialFailures.FinishEndsIff | internal/metrics/metrics.go:151-171 | A swap goes through if and only if the pointer is what the call had loaded or the call clears it; a call starts over only when another one took effect meanwhile. |
| DialFailures.LoadEndsIff | internal/metrics/metrics.go:167-171 | A success that finds no run of failures ends at once, and every other call goes on with what it loaded. |
| History.Store.Record | internal/tunhist/tunhist.go:97-127 | After any sequence of calls the store holds the last 288 readings and the last 720 hourly buckets of everything recorded. |
| History.Store.Prune | internal/tunhist/tunhist.go:131-137 | Drops exactly the tunnels that no longer exist. |
| History.ViewGrows | internal/tunhist/tunhist.go:104-127 | The bounded record carries itself on: one more reading of the full log is one more reading of the record. |
| History.ViewIsTheEnd | internal/tunhist/tunhist.go:97-127 | The record is the end of the log, index by index: the last 288 readings and the last 720 hours. |
| History.HourCoversItsReadings | internal/tunhist/tunhist.go:104-127 | Every bucket begins at a multiple of 3600 seconds, covers each of its readings and holds the byte counts of the last of them. |
| History.GroupsPartition | internal/tunhist/tunhist.go:109-127 | The buckets stand for the readings cut exactly where the hour changes, none lost and none repeated. |
| History.HoursAscend | internal/tunhist/tunhist.go:109-127 | With a clock that does not run backwards no hour appears twice. |
| History.HoursAccountForAll | internal/tunhist/tunhist.go:109-127 | The checks of all buckets add up to the readings and their up-checks to the readings that were up; UpN never exceeds N. |
| PoolController.DialsAreAccountedFor | internal/client/transport/tcp.go:211-270 | Over any run the target stays between the configured size and four times it, at most 100 tokens wait, and dials launched are requests handled plus target plus shrink tokens outstanding. |
| PoolController.SpareDialsAreBounded | internal/client/transport/tcp.go:307-317 | Dials beyond the requests stay between the configured size and four times it plus 101, whatever the load does. |
| PoolController.StepKeeps | internal/client/transport/tcp.go:211-317 | Every step of the ticker loop and of the control-channel handler keeps the accounting. |
| PoolController.WantsMoreIff | internal/client/transport/poolload.go:80-96 | Throughput asks for a connection if and only if every live one carries 12 Mbit/s and there is room to grow. |
| PoolController.GrowsIff | internal/client/transport/tcp.go:216-262 | A load tick grows the pool if and only if there is room below four times the configured size and the requests outrun the connections by the factor of the mode, or every live connection carries 12 Mbit/s. |
| PoolController.ShrinksIff | internal/client/transport/tcp.go:216-267 | A load tick shrinks the pool if and only if it does not grow it, the connections outrun the requests by the factor of the mode, and the pool is larger than configured. |
| PoolController.RequestDialsIff | internal/client/transport/tcp.go:307-317 | A request dials nothing if and only if a shrink token has been sent that no earlier request used up. |
| PoolController.FillingIff | internal/client/transport/tcp.go:211-214 | Watching the load begins once as many connections as configured have been dialled. |
| IpRange.ExpandCidr | internal/spooftest/iprange.go:63-79 | A dotted block gives exactly its addresses, ascending and without wrapping; a block written as IPv6 over an IPv4 address gives none. |
| IpRange.BlockIsExactIff | internal/spooftest/iprange.go:63-79 | The expansion of a block is the addresses of the block if and only if it was written in dotted form. |
| IpRange.MappedBlockComesOutEmpty | internal/spooftest/iprange.go:63-79 | A concrete block of 256 addresses that expands to none without an error. |
| IpRange.BlockFits | internal/spooftest/iprange.go:71-77 | A masked block never runs past the last address. |
| IpRange.ExpandRange | internal/spooftest/iprange.go:81-101 | A range is all addresses from the lower end to the higher, ascending, up to 255.255.255.255 without wrapping, whichever way round it was written. |
| IpRange.AppendUnique | internal/spooftest/iprange.go:127-137 | Appends the values not seen before, in order. |
| IpRange.ExpandSpec | internal/spooftest/iprange.go:24-38 | Expands one specification of any of the three kinds. |
| IpRange.ExpandList | internal/spooftest/iprange.go:43-61 | The first-seen union of all expansions, or failure exactly when one of them fails. |
| IpRange.FirstSeenIsASet | internal/spooftest/iprange.go:127-137 | The union has exactly the values of the list, each once. |
| IpRange.FirstSeenInOrder | internal/spooftest/iprange.go:127-137 | And in first-seen order. |

## Left out

- Connections.PoolPresentedTheNonce: one run at a time; the overlap of two generations around a restart is not modelled, nor is the reset of the stored mux version after the nonce is cleared.
- Admission: reads and writes of whole frames are single steps, the token fits one frame, and deadlines appear as a read that fails.
- Handshake.ServerVersion: how a version is carried out by smux is not part of this model.
- TtlRuns.ForgetIsEffective: bounds when the value was stored, not when it was read, because the stronger bound is false; ReadPredatesForgetIff gives the exact condition.
- TtlRuns: time does not move inside a locked section.
- UdpFlows.UdpFlow.Write: another goroutine's Close becomes visible at one chosen look; a receive buffer larger than 65535 bytes does not occur.
- UdpFlows.UdpFlow.Read: a read that would block returns WouldBlock instead of waiting.
- UdpRegistry: which flows the reaper finds idle is arbitrary, so last-seen times are not modelled.
- Slots: tcpmux and kcp sessions, whose timed-out branch keeps the slot; the counter's 32 bits; the bandwidth bucket.
- Slots.CapacityShrinks: a run starts only when the one before it is over, so transfers that outlast their run are not modelled.
- Balancer.BackendGroup.Check: a pass is one method, and the pacing of passes in startCheck is left to the caller.
- Balancer.BackendGroup.Pick: the counter is unbounded where Go's is 64 bits wide.
- Balancer.BackendPool.Pick: calls run one at a time; in the source the group is picked from after the pool's lock is released, so another call may evict it in between.
- BackendList.Trim: blanks are characters; text that is not valid UTF-8 is not modelled.
- Watchdog.Watch.Tick: whether a tunnel is active and healthy, and the recovery report, are inputs or left out.
- SniHello.BuildHello: hexadecimal text of the template is written as bytes; a failing random source is not modelled.
- SocksHandshake: a write always reaches the peer; deadlines, resets and the copying of traffic after the handshake are left out, and so is the bind reply of UDP ASSOCIATE.
- SocksHandshake.ConnectedMeansAgreed: stated for fields the protocol can carry; AgreedIffFits says that it holds for no others.
- SocksDatagrams.ParseUdpDatagram: addresses stay bytes; their text form is the standard library's. The reserved bytes are not looked at by the code and may be anything.
- DialFailures: the failure counter is unbounded where Go's is 64 bits wide.
- History.Store.Record: writing the file and reading it back are left out.
- PoolController: how throughput is measured (poolload.go:57-74) is left out: a reading is arbitrary. The udp and ws maintainers do not consult the growth limit and are not modelled.
- IpRange.ExpandSpec: the text of addresses and of lists is parsed by the standard library; a specification is what that gives.
- Noise, TLS, smux, kcp-go, quic-go, websockets, tokens as secrets and random generation: libraries or cryptography.
- Sockets, listeners, systemd, sysctl, iptables, menus, presets, updater, backup and restore: user interface or effects outside the process.
