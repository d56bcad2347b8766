# BackhaulPlus: verified model

BackhaulPlus is a reverse tunnel. A server accepts connections and datagrams and carries them over
connections that a client dialed to it. This project models the parts in which an error would lose
data, mix up clients or stall the tunnel, and proves what they promise.

| files | part of the program |
|---|---|
| `Bytes`, `Net` | byte strings, big-endian integers; a connection as a byte stream whose reads are cut anywhere, with partial writes and deadlines |
| `MuxScheduler`, `MuxDemand`, `MuxStall`, `MuxProgress`, `MuxServer` | the tcpmux server's queue, sessions, slots and counters |
| `ControlChannels`, `Probe` | round-robin signals, heartbeats, and the probe that promotes a connection or gives it back |
| `UdpSessions`, `UdpService`, `UdpServer` | the table of UDP sessions, its listener, dispatcher and handlers |
| `UdpFraming`, `UdpTunnel` | datagrams over TCP in both directions, and the congestion timestamp |
| `WsHandover`, `WsServer` | handing a WebSocket tunnel over from its pinger to a connection |
| `PoolMachine`, `ClientPool` | the tcp client's pool control |
| `HttpPreread`, `HttpRender`, `HostFields`, `HostNames`, `Sni`, `SniEncoding`, `SniExact` | routing by HTTP Host (RFC 9112 sections 3 and 3.2) and by TLS server name (RFC 8446 sections 4.1.2 and 5.1, RFC 6066 section 3) |
| `Relay`, `Gateway`, `GatewayKeys` | replaying inspected bytes, copying, route tables, the gateways' connection handling |
| `PortMappings`, `Listeners`, `ListenerRequests` | port mapping entries and the listener conflict check |
| `UsageStore`, `UsageRuns` | traffic counting and saving |

The concurrent parts are step machines: a state, an event for every atomic action (a critical
section, a channel operation, an atomic add, the beginning and the end of a write), and `Run`/`After`
over event sequences, in which steps of different goroutines interleave freely. Beside each machine
stands a class with the program's fields; its methods change them in place on the program's branches,
and each is proved to lead from the old to the new state by the steps it names, so that what holds on
every run holds of the methods. Loops over connections and buffers are methods with loops. Where the
bytes of a stream are cut and what a timeout catches is not determined, so every statement covers all of
it. "Arrive" parameters say how many bytes come before a deadline. A connection or socket may have
room for only so much before writing fails; what is delivered is then stated exactly, as that much
of the whole. The clock is, for each end of a UDP tunnel, a fixed sequence of readings.

## What does not hold

Some expectations fail. Each has a proved counterexample and a statement of when it does hold.

* After a failed address send the slot is never returned. Such sends can leave a waiting connection
  that no session can take and no session is requested for (`MuxDemand.DemandUnsoundAfterFailures`);
  a session whose slots are all lost never does anything again (`MuxDemand.LeakedSessionIsStuck`).
  `MuxDemand.DemandIff` says exactly when the test asks and `MuxDemand.DemandWrongIff` exactly when it
  is wrong; without failed sends it is sound (`MuxDemand.DemandSoundWithoutFailures`).
* A worker that cannot open a stream, or cannot send an address, sends its connection back before
  anything else. On a full channel all workers can be blocked on that or out of slots for good, with
  no session ever asked for (`MuxStall.StallIsPermanent`); `MuxStall.StallIff` says exactly for which
  sizes, and `MuxProgress.CanBeTakenIff` exactly when a waiting connection can still be served.
* The UDP listener can send the first packet on a closed channel, if it stalls for the whole idle
  timeout between its two sends (`UdpSessions.LateFirstSendPanics`), and in no other case
  (`UdpSessions.RunPanicsIff`, `UdpSessions.FirstPacketPanics`).
* A UDP session that finds the dispatcher queue full stays in the table: its client is never served
  again (`UdpSessions.FullQueueStrandsClient`). That is the only way not to be served
  (`UdpService.NeverServedIff`).
* Overlapping saves of the usage file lose counts (`UsageRuns.OverlappingSavesLose`), and a single
  save loses what a file with a repeated port reports in all but its last entry
  (`UsageStore.RepeatedPortLoses`); `UsageRuns.FinishConserves` says exactly when a save keeps them.
* The congestion flag misses old packets across ten-minute boundaries; `UdpTunnel.FlagMissedIff` says
  exactly which.
* A WebSocket client mistakes the one-byte address `0x02` for a ping, and only that one
  (`WsHandover.ClientGetsAddressIff`).
* The client's load reading loses a signal exactly if it arrives between the read and the reset
  (`PoolMachine.LoadReadExactlyIff`).
* The listener check is documented as rejecting two servers on one port, wildcard overlaps included
  (README.md lines 1080-1094 of the repository). The code skips overlaps within one server without
  recording them, which hides overlaps with other servers (`Listeners.SkippedOverlapHidesAnother`),
  and its verdict can depend on map order (`Listeners.VerdictDependsOnMapOrder`), exactly under the
  condition of `Listeners.MapOrderMattersIff`. `Listeners.DisjointIff` says exactly what a passed
  check is worth.
* A host name with a dash cannot be used in a port mapping: the dash makes the entry a range, which
  is then refused (`PortMappings.DashedHostRefused`).
* A port in a Host field is ignored for routing only if the host has no colon and no bracket: the key
  of `[::1]` keeps its brackets and that of `[::1]:80` loses them (`HttpPreread.PortIgnoredIff`).

## Model

| member | source | states |
|---|---|---|
| MuxScheduler.InvKept | internal/server/transport/tcpmux.go:558-804 | every atomic step of enqueueing, sessions and streams keeps the invariant behind conservation, whatever goroutine takes it |
| MuxScheduler.ConnectionsConserved | internal/server/transport/tcpmux.go:558-804 | on every run an accepted connection is in exactly one of queue, one worker, one stream, closed; stream counter plus pending increments is queued + held + active; session counter is the number of live sessions |
| MuxScheduler.StreamsBounded | internal/server/transport/tcpmux.go:741-787 | no session ever carries more than MuxCon streams |
| MuxDemand.Capacity | internal/server/transport/tcpmux.go:741-787 | what the live sessions can carry, with the connections of dead ones, is exactly what is in use, spare, owed and leaked |
| MuxDemand.DemandSound | internal/server/transport/tcpmux.go:562-570 | when the test asks for no session, the waiting connections and those of dead sessions are fewer than the slots spare, owed or leaked and the uncounted enqueuers together, even if the int32 product wraps |
| MuxDemand.DemandIff | internal/server/transport/tcpmux.go:562-570 | exactly when the test asks, on every run in which the product fits an int32: iff waiting and dead connections take up all spare, owed and leaked slots and one per uncounted enqueuer |
| MuxDemand.DemandWrongIff | internal/server/transport/tcpmux.go:562-570 | exactly when it fails to ask in a shortage of slots, and exactly when it asks without one; in all other cases not asking leaves more free slots than waiting connections |
| MuxDemand.DemandSoundWithoutFailures | internal/server/transport/tcpmux.go:562-570 | without failed address sends, not asking means fewer waiting connections than free slots and uncounted enqueuers together; with no uncounted enqueuer some live session has a slot free or about to be |
| MuxDemand.DemandUnsoundAfterFailures | internal/server/transport/tcpmux.go:772-777 | for any positive MuxCon, with failed address sends a connection can wait with no slot anywhere and no session requested |
| MuxDemand.LeakedSessionIsStuck | internal/server/transport/tcpmux.go:741-777 | a session whose MuxCon tokens have all leaked stays as it is on every run |
| MuxDemand.RequestsCounted | internal/server/transport/tcpmux.go:564-570 | on every run the requests waiting and those passed on are the ones there were plus one for each test that found the streams reach the capacity and each failed worker, while the channel had room |
| MuxStall.StallIsPermanent | internal/server/transport/tcpmux.go:741-804 | once every worker is blocked on the full channel, has lost all its slots or is gone, no run without a new session frees a place, accepts a connection or asks for a session |
| MuxStall.StallNeedsRoom | internal/server/transport/tcpmux.go:558-804 | on every run on which nobody asked, a stall of b sessions with n workers blocked means channel size + n < b * MuxCon |
| MuxStall.StallHappens | internal/server/transport/tcpmux.go:558-804 | and whenever that holds there is such a run |
| MuxStall.StallIff | internal/server/transport/tcpmux.go:558-804 | a stall of b sessions, n of their workers blocked and the others out of slots, with no session ever asked for, is reachable iff channel size + n < b * MuxCon |
| MuxProgress.ServeQueued | internal/server/transport/tcpmux.go:741-787 | while some worker can serve, a connection with k others ahead of it in the queue has a continuation, without a new session, in which it is taken |
| MuxProgress.NobodyServes | internal/server/transport/tcpmux.go:741-804 | once no worker can serve, none can on any run without a new session |
| MuxProgress.CanBeTakenIff | internal/server/transport/tcpmux.go:741-804 | on every run, each waiting connection can still get a worker without a new session iff some worker is not gone, blocked for good or out of slots |
| MuxProgress.StalledServesNobody | internal/server/transport/tcpmux.go:741-804 | in a stall no worker can serve |
| MuxServer.TcpMuxServer.EnqueueInbound | internal/server/transport/tcpmux.go:558-575 | refuses exactly on a full channel with no effect; otherwise queues the connection, counts it, and sends exactly one request if the new count reaches sessions times MuxCon (as int32) and the request channel has room, none otherwise; keeps the invariant; if a session could have been asked for and was not, fewer connections wait than there are slots free or leaked and other uncounted enqueuers |
| MuxServer.TcpMuxServer.Tested | internal/server/transport/tcpmux.go:564-570 | the comparison: at most one request, sent iff streams reach the capacity and there is room; not asking with room to ask gives that bound, leaked slots and uncounted enqueuers included |
| MuxServer.TcpMuxServer.AcceptSession | internal/server/transport/tcpmux.go:726-739 | counts a session and starts its worker, keeping the invariant |
| MuxServer.TcpMuxServer.ServeHeld | internal/server/transport/tcpmux.go:754-786 | a held connection is closed if older than 3 s, started on a stream, or requeued, by machine steps that keep the invariant and the bound on streams; a failed address send keeps its slot |
| MuxServer.TcpMuxServer.ExpireHeld | internal/server/transport/tcpmux.go:755-763 | closes the connection, uncounts it and returns the slot |
| MuxServer.TcpMuxServer.HandleSessionError | internal/server/transport/tcpmux.go:789-804 | uncounts the session, requeues the connection and sends exactly one request if there is room, then the worker ends; on a full channel it blocks before asking, and if it was the last at work the server is stalled |
| ControlChannels.Pick | internal/server/transport/tcpmux.go:491-500 | the first working channel from an index, going round - none between is - or none at all |
| ControlChannels.OnwardIs | internal/server/transport/tcpmux.go:491-500 | the i-th attempt is at index (start + i) mod n |
| ControlChannels.TriedIs | internal/server/transport/tcpmux.go:491-500 | the channels tried by so many attempts are exactly those at that many indices from the start, going round |
| ControlChannels.EachLiveOnce | internal/server/transport/tcpmux.go:477-503 | with k working channels any k consecutive signals reach each of them exactly once, from any index |
| ControlChannels.ControlSet.SendNewConnSignalRoundRobin | internal/server/transport/tcpmux.go:477-503 | at most one attempt per channel; errs iff none works; otherwise one signal goes to the first that works, at the position the number of attempts says, and the index moves behind it; exactly the channels tried before it are closed |
| ControlChannels.ControlSet.ServeSignals | internal/server/transport/tcpmux.go:273-278 | consecutive requests go to consecutive targets of the round, across calls |
| ControlChannels.ControlSet.BroadcastHeartbeat | internal/server/transport/tcpmux.go:505-542 | leaves exactly the working extras in their order, heartbeats exactly the working channels, closes the others, errs iff there is no channel or the main one fails |
| ControlChannels.FilterDistinct | internal/server/transport/tcpmux.go:519-536 | pruning keeps exactly the working channels and keeps them distinct |
| ControlChannels.FilterNext | internal/server/transport/tcpmux.go:519-536 | one channel at a time: kept in its place iff it works |
| Probe.MessageRoundTrip | internal/utils/binary.go:87-166 | a message reads back whole, with the rest of the stream untouched, iff it is shorter than 64 KiB; a longer one is cut and desynchronizes the stream |
| Probe.MessageLayout | internal/utils/binary.go:87-119 | a message on the wire is its length with the high byte first, the transport byte and the text |
| Probe.UnframeIsFrame | internal/utils/binary.go:87-166 | any bytes that read as a message are the encoding of that message and the rest |
| Probe.SendBinaryTransportString | internal/utils/binary.go:87-119 | as much of the frame is written as the connection accepts, and it errs iff that is not all of it |
| Probe.ReceiveBinaryTransportString | internal/utils/binary.go:121-166 | returns the message at the front of what arrives and consumes exactly it, or fails |
| Probe.OfferedIff | internal/server/transport/tcpmux.go:412-438 | a connection offers a token iff it starts with that token's frame and the token has 1 to 512 bytes |
| Probe.OfferStands | internal/server/transport/tcpmux.go:412-438 | an offer seen in time is not changed by later bytes |
| Probe.ReadOffer | internal/server/transport/tcpmux.go:407-436 | either the offered token with exactly its frame consumed, or a connection that still yields the complete original stream |
| Probe.TryPromoteExtraControlChannel | internal/server/transport/tcpmux.go:404-453 | not control iff no token was offered in time, and then the full stream is given back; promoted iff the token matches and the connection accepts the whole acknowledgement, keeping the set valid; closed otherwise |
| UdpSessions.InvKept | internal/server/transport/accept_udp.go:53-187 | every step of listener, dispatcher, handlers and the unlocked flag keeps the session table invariant |
| UdpSessions.ReceiveKeeps | internal/server/transport/accept_udp.go:62-86 | the lookup step keeps it and its send for an existing connection never panics |
| UdpSessions.TableFinish | internal/server/transport/accept_udp.go:180-186 | an unflagged session that finishes is the one its key maps to |
| UdpSessions.OneSessionPerClient | internal/server/transport/accept_udp.go:53-121 | on every run a client has at most one open unflagged session, and the table maps to it |
| UdpSessions.ExistingBranchIsSafe | internal/server/transport/accept_udp.go:72-84 | in every reachable state the existing-connection branch does not send on a closed channel |
| UdpSessions.FinishDeletesOwnEntry | internal/server/transport/accept_udp.go:180-186 | finishing removes an entry only if it is the session's own and unflagged; all other entries stay |
| UdpSessions.LogIsArrivals | internal/server/transport/accept_udp.go:53-62 | the ledger of datagrams is the sequence of arrivals |
| UdpSessions.DatagramsKept | internal/server/transport/accept_udp.go:53-121 | a session's datagrams are its client's, in order, none twice, in no other session, and earlier than those of the client's later sessions |
| UdpSessions.DatagramsAccounted | internal/server/transport/accept_udp.go:53-121 | between datagrams each one that arrived was dropped or is with exactly one session |
| UdpSessions.FirstPacketPanics | internal/server/transport/accept_udp.go:107-110 | the first packet meets a closed channel iff the handler has finished, which takes an idle timeout with nothing ever queued |
| UdpSessions.FinishedIff | internal/server/transport/accept_udp.go:180-186 | on every run a session is finished iff the end of its handler is among the steps |
| UdpSessions.RunPanicsIff | internal/server/transport/accept_udp.go:62-118 | exactly when a run panics at its next step: at the send of a first packet, iff that session's handler has ended before it |
| UdpSessions.NoTimeoutNoPanic | internal/server/transport/accept_udp.go:107-110 | runs without idle timeouts never send on a closed channel |
| UdpSessions.LateFirstSendPanics | internal/server/transport/accept_udp.go:107-110 | a run in which the listener stalls between its sends panics |
| UdpSessions.FullQueueStrandsClient | internal/server/transport/accept_udp.go:101-118 | after a full dispatcher queue, on every further run, the client's datagrams are dropped or queued in a channel nobody reads, and it gets no other session |
| UdpService.WaitKept | internal/server/transport/accept_udp.go:101-157 | every step keeps each waiting session with the listener, in the queue or with the dispatcher |
| UdpService.DroppedIffFull | internal/server/transport/accept_udp.go:107-118 | on every run a session is dropped iff it met a full queue |
| UdpService.ServeQueued | internal/server/transport/accept_udp.go:128-157 | a session with k others ahead of it in the queue has a continuation in which it gets its handler |
| UdpService.CanBeServed | internal/server/transport/accept_udp.go:101-157 | so has every session that was not dropped |
| UdpService.NeverServedIff | internal/server/transport/accept_udp.go:101-157 | a session is never served on any continuation iff it met a full queue |
| UdpServer.UdpServer.Buffer | internal/server/transport/accept_udp.go:76-84 | appends the datagram to the open session's payload, or drops it if 100000 are there, as one machine step; every other field stays |
| UdpServer.UdpServer.StoreConnection | internal/server/transport/accept_udp.go:89-105 | the client's key maps to the new session |
| UdpServer.UdpServer.Announce | internal/server/transport/accept_udp.go:107-118 | queues the session and its first packet, or drops the packet, as machine steps |
| UdpServer.UdpServer.ReadFromUDP | internal/server/transport/accept_udp.go:53-121 | one turn of the listener is exactly the steps of the branch taken, keeps the invariants, leaves the client mapped to a usable session; where the datagram went, or that it was dropped, is stated for each branch in terms of the channels' fill |
| UdpServer.UdpServer.HandleUDPLoop | internal/server/transport/accept_udp.go:128-157 | the oldest queued session goes to the first tunnel connection that takes the whole address, those before it are closed, those behind it untouched; with none it keeps waiting |
| UdpServer.UdpServer.Finish | internal/server/transport/accept_udp.go:180-186 | closes the session, deletes the client's entry unless flagged, touches no entry of another session, keeps the invariant |
| UdpFraming.RoundTrip | internal/server/transport/accept_udp.go:189-320 | a framed sequence decodes to itself iff every datagram fits the receiver's 16 KiB buffer, with or without timestamps |
| UdpFraming.FrameLayout | internal/client/transport/accept_udp.go:120-140 | a frame is the stamp, two bytes of length with the high byte first, and the data |
| UdpFraming.DecodeCut | internal/client/transport/accept_udp.go:42-90 | of any first part of the stream exactly the datagrams that are there whole are decoded, in order |
| UdpFraming.OversizedStops | internal/client/transport/accept_udp.go:59-63 | an oversized datagram ends the exchange after the ones before it |
| UdpTunnel.AgeIs | internal/server/transport/accept_udp.go:255-262 | the computed age is the true age less ten minutes per window boundary in between |
| UdpTunnel.AgeExactIff | internal/server/transport/accept_udp.go:255-262 | it is exact iff both clock readings fall into one ten-minute window, and never too large |
| UdpTunnel.LateIff | internal/server/transport/accept_udp.go:162-267 | the test compares with three measured round trips, or with 300 ms where none was measured |
| UdpTunnel.FlagIsSound | internal/server/transport/accept_udp.go:264-267 | the flag is set only for packets truly older than three measured round trips, or 300 ms, across any number of wraps |
| UdpTunnel.FlagMissedIff | internal/server/transport/accept_udp.go:255-267 | an old packet is missed exactly when the wraps hide the excess over three measured round trips, or 300 ms |
| UdpTunnel.ClientUdpToTCP | internal/client/transport/accept_udp.go:92-153 | the connection gets exactly as much of all the stamped frames as it accepts; one datagram and one clock reading is used per frame started |
| UdpTunnel.ServerUdpToTCP | internal/server/transport/accept_udp.go:189-236 | the connection gets exactly as much of the frames of the queued datagrams as it accepts |
| UdpTunnel.ReadSized | internal/client/transport/accept_udp.go:46-70 | yields the data of the frame at the front iff it is there whole and fits the buffer |
| UdpTunnel.ClientTcpToUDP | internal/client/transport/accept_udp.go:42-90 | sends on exactly the non-empty decoded datagrams, in order, as many as the socket sends |
| UdpTunnel.ReadStamp | internal/server/transport/accept_udp.go:243-267 | flags the session exactly if the clock modulo 600000 less the stamp exceeds three times the measured round trip, or 300 where none was measured |
| UdpTunnel.ServerTcpToUDP | internal/server/transport/accept_udp.go:238-320 | as the client's; uses one clock reading per stamp it reads, and the session ends flagged iff it was or one of these readings was late for its stamp |
| UdpTunnel.ClientTurn | internal/client/transport/accept_udp.go:102-151 | one turn of the client's loop keeps what was written a front of all frames, and ends only as the connection or the socket does |
| UdpTunnel.ServerTurn | internal/server/transport/accept_udp.go:243-318 | one turn of the server's loop keeps decoding, sends, stamps and flag in step |
| UdpTunnel.AllStampsRead | internal/server/transport/accept_udp.go:243-267 | when no send fails every stamp that arrives is read, at most one more than whole packets |
| UdpTunnel.LateIsOld | internal/server/transport/accept_udp.go:255-267 | the late stamps of a cut stream are those of the sender's readings, and each packet is truly older than three measured round trips, or 300 ms, whenever the receiver read its clock after that |
| UdpTunnel.StampsCut | internal/server/transport/accept_udp.go:243-267 | the stamps read from any first part of the stream are the senders', in order |
| UdpTunnel.CutAllKeeps | internal/client/transport/accept_udp.go:104-112 | reading into a buffer leaves a datagram that fits as it is and every other with its first bytes |
| UdpTunnel.CutAllAppends | internal/client/transport/accept_udp.go:66-80 | datagram by datagram: an empty one is not passed on, any other as far as it fits the buffer |
| UdpTunnel.ClientToServer | internal/client/transport/accept_udp.go:92-153 | end to end, determined by the inputs: the whole frames among the bytes accepted and arrived come out as datagrams with the same boundaries, those of at most 16378 bytes unchanged, as many as the socket sends, all if every byte is through; flagged iff one of the pairs of clock readings, modulo ten minutes, is more than three measured round trips (or 300 ms) apart, the server reading at any time after the client did for that packet, and then the packet truly is that old |
| UdpTunnel.ServerToClient | internal/server/transport/accept_udp.go:189-236 | the same from the server's payload channel to the client's socket, with the listener's buffer: datagrams of at most 16382 bytes come out unchanged |
| WsHandover.InvKept | internal/server/transport/ws.go:505-570 | every step of acceptor, pingers, workers and relays keeps the handover invariant |
| WsHandover.ActsWrite | internal/server/transport/ws.go:552-570 | a ping and each piece of relayed data is written at the end of the tunnel iff it gets through; nothing else a pinger or relay does writes |
| WsHandover.OneWriter | internal/server/transport/ws.go:505-570 | no two goroutines write on a tunnel at once, and at most one worker serves it |
| WsHandover.PingClosedOnce | internal/server/transport/ws.go:522-523 | closing the ping channel never meets a closed one |
| WsHandover.HandoverOrder | internal/server/transport/ws.go:522-570 | on every interleaving a tunnel carries pings, at most one address, its connection's, and data only behind it; no connection is relayed on two tunnels, mid-write included |
| WsHandover.TunnelClient.TunnelDialer | internal/client/transport/ws.go:294-333 | takes the first message that is not a ping, leaves the rest for the relay, and restores the pool count |
| WsHandover.FirstOther | internal/client/transport/ws.go:298-320 | the address taken is the first message other than the one byte 2, at any position; with no such message there is none |
| WsHandover.WrittenAt | internal/server/transport/ws.go:522-570 | message by message: a ping is the byte 2, an address and data are sent as they are |
| WsHandover.ClientTakesAddress | internal/client/transport/ws.go:298-320 | of any first part of an addressed tunnel's messages the client takes the address as soon as it is there |
| WsHandover.ClientGetsAddressIff | internal/client/transport/ws.go:298-320 | end to end the client gets the server's address for every cut iff it is not the one byte that means ping |
| WsServer.WsTransport.AcceptTunnel | internal/server/transport/ws.go:265-279 | a full channel refuses the tunnel, otherwise it is queued and gets its pinger; the invariant is kept |
| WsServer.WsTransport.HandOver | internal/server/transport/ws.go:519-534 | takes the oldest tunnel, ends its pinger, and unless the pinger holds the mutex owns it for good and writes exactly its connection's address; a tunnel that then relays has carried pings and exactly that address |
| WsServer.WsTransport.SendAddress | internal/server/transport/ws.go:522-533 | lock, address and relay, as machine steps |
| WsServer.WsTransport.KeepAliveTick | internal/server/transport/ws.go:552-567 | a tick writes exactly one ping, at the end, if the mutex was free and the write gets through, and gives the mutex back, otherwise or after a failure the pinger stops; nothing is written on a tunnel whose address is being or has been sent |
| PoolMachine.GrowOrShrink | internal/client/transport/tcp.go:226-246 | for both factor sets no reading asks for growing and shrinking at once |
| PoolMachine.TestsExactly | internal/client/transport/tcp.go:191-239 | both tests as comparisons of whole numbers, for both factor sets |
| PoolMachine.Average | internal/client/transport/tcp.go:225-229 | ten readings averaged, rounded up |
| PoolMachine.TicksAdd | internal/client/transport/tcp.go:217-229 | every tick adds the number of waiting tunnels, and ten ticks average to it |
| PoolMachine.TestsAreMonotone | internal/client/transport/tcp.go:232-246 | more load or a smaller pool never stops growth, less load or a larger pool never stops shrinking |
| PoolMachine.InvKept | internal/client/transport/tcp.go:186-292 | every step keeps the accounting of dials, tokens, dialers and load |
| PoolMachine.DialsAccounted | internal/client/transport/tcp.go:186-292 | on every run after filling: dials = pool size + signals + unused tokens, of which there are at most 100, pool size at least the configured one, so dials cover configuration and signals |
| PoolMachine.DialersAccounted | internal/client/transport/tcp.go:320-345 | every dial is under way, in the pool or over, and poolConnections is the number in the pool |
| PoolMachine.LoadReadExactlyIff | internal/client/transport/tcp.go:223-226 | a load tick accounts for every signal iff none arrives between its read and its reset; each that does is lost |
| PoolMachine.BlockedUntilServed | internal/client/transport/tcp.go:239-245 | a maintainer blocked on 100 tokens does nothing until a signal is served |
| ClientPool.TcpTransport.FillPool | internal/client/transport/tcp.go:187-189 | starts exactly the configured number of dials and leaves the books balanced |
| ClientPool.TcpTransport.LoadTick | internal/client/transport/tcp.go:223-246 | reads and resets both sums and then grows by one dial, shrinks by one token or does nothing; measures every signal not missed before; dials stay pool size + signals + unused tokens |
| ClientPool.TcpTransport.Resize | internal/client/transport/tcp.go:231-246 | the decision: size, dials, tokens and blocking |
| ClientPool.TcpTransport.HandleChan | internal/client/transport/tcp.go:281-292 | a signal uses up a token if there is one and starts a dial otherwise, and the books stay balanced |
| HttpPreread.NormalizeForgetsSpelling | internal/server/transport/http_preread.go:226-238 | surrounding space, case - each letter A to Z for its lower-case one -, one final dot and a port never change the routing key of a host name, which is the name as spelled without capitals |
| HttpPreread.CaseForgotten | internal/server/transport/http_preread.go:226-238 | two texts that differ only by 32 at capital letters have the same key, whatever they are |
| HttpPreread.PortIgnoredIff | internal/server/transport/http_preread.go:226-238 | a port leaves the key of a host unchanged iff the host has no colon and no bracket; what becomes of an IPv6 literal in brackets |
| HostNames.SplitExactly | internal/server/transport/http_preread.go:232-235 | a value splits iff it is a bare host, or a bracketed one without brackets inside, a colon and a port with neither |
| HostNames.OneDot | internal/server/transport/http_preread.go:236-238 | one dot at the end goes, a second one stays |
| HostNames.HostKeyExactly | internal/server/transport/http_preread.go:226-238 | the key of any Host value: between white space, without capitals, its host if it splits, then without one final dot |
| HttpPreread.RequestLineIff | internal/server/transport/http_preread.go:198-222 | accepted iff it is method SP target SP HTTP/1.0 or HTTP/1.1 |
| HttpPreread.ParseHeaderByLine | internal/server/transport/http_preread.go:147-191 | taking lines off the front one at a time agrees with splitting on CRLF up to the blank line and filtering |
| HttpPreread.ParseHttpHost | internal/server/transport/http_preread.go:147-191 | the scanning loop computes split, then filter, on any bytes |
| HttpPreread.NonHttpSeen | internal/server/transport/http_preread.go:125-141 | the first byte decides about non-HTTP traffic, whatever follows |
| HttpPreread.EarlyRequestLine | internal/server/transport/http_preread.go:83-92 | rejecting on the first line alone is what parsing the whole header would do |
| HttpPreread.TerminatorSeen | internal/server/transport/http_preread.go:94-106 | once the terminator is there the decision does not depend on what follows |
| HttpPreread.Inspect | internal/server/transport/http_preread.go:76-110 | one turn of the loop decides only what the whole stream would |
| HttpPreread.ReadHTTPHost | internal/server/transport/http_preread.go:55-117 | for every cut into reads: succeeds iff the one-shot parse of the bytes in time does, with the same host; hands back every byte consumed, at most the limit plus one chunk |
| HostFields.NamesHostIff | internal/server/transport/http_preread.go:174 | a field name is compared equal to "host" iff it is those four letters, in any case, between white space |
| HostFields.HostFieldIff | internal/server/transport/http_preread.go:165-181 | a line is a Host field iff such a name is in front of its first colon, and its value is all the bytes behind that colon |
| HostFields.RequestRouted | internal/server/transport/http_preread.go:76-117 | a printed request of allowed size is routed to the normalized bytes behind the colon of its only Host line, whatever the other lines and the body; no Host line, two of them, or an empty value are refused as such |
| HostFields.RefusedAtOnceIff | internal/server/transport/http_preread.go:125-141 | refused on the first byte exactly for control bytes and DEL |
| HostFields.RequestLineRefusal | internal/server/transport/http_preread.go:198-222 | a request line of three fields is refused for its version, every other invalid one as malformed |
| HostFields.MaxHeaderIs | internal/server/transport/http_preread.go:55-63 | the limit is the configured number, or 32768 where none is positive |
| HttpRender.ParsePrinted | internal/server/transport/http_preread.go:147-191 | parsing a printed header sees the request line and exactly the printed field lines |
| HttpRender.PrintedEnd | internal/server/transport/http_preread.go:94-95 | the terminator found is the end of the printed header, whatever body follows |
| HttpRender.PrintedRequest | internal/server/transport/http_preread.go:94-106 | a printed request is routed by its only Host field and refused exactly for length, request line, or not exactly one usable Host |
| HttpRender.OneHostSelects | internal/server/transport/http_preread.go:156-190 | one Host field among other fields selects its normalized value |
| Sni.ParseServerNameExtension | internal/server/transport/sni.go:164-192 | the loop stays in range, ends, and computes the scan of the name list, on any bytes |
| Sni.ParseSniFromClientHello | internal/server/transport/sni.go:106-162 | the same for the ClientHello |
| Sni.AssembledEnough | internal/server/transport/sni.go:69-94 | reassembly ends, within the stream and 64 KiB |
| Sni.ReadRecord | internal/server/transport/sni.go:44-67 | takes exactly one record off the connection, or fails as the bytes say |
| Sni.ReadUntil | internal/server/transport/sni.go:69-94 | takes exactly the records needed |
| Sni.ReadTLSClientHelloSNI | internal/server/transport/sni.go:32-102 | the outcome depends only on the bytes in time; on success exactly the bytes handed back were consumed, at most 64 KiB |
| Sni.NormalizeSniForgetsSpelling | internal/server/transport/sni.go:196-200 | surrounding space, case - each letter A to Z for its lower-case one - and one final dot never change the routing key of a server name, which is the name as spelled without capitals |
| Sni.SniCaseForgotten | internal/server/transport/sni.go:196-200 | two names that differ only by 32 at capital letters have the same key |
| HostNames.SniKeyExactly | internal/server/transport/sni.go:196-200 | the key of any server name: the same without splitting |
| SniEncoding.ServerNameRoundTrip | internal/server/transport/sni.go:164-192 | parsing an encoded name list gives its first host_name |
| SniEncoding.HelloRoundTrip | internal/server/transport/sni.go:106-162 | parsing an encoded ClientHello gives what its first server_name extension says, for any other fields |
| SniEncoding.HelloNamesHost | internal/server/transport/sni.go:148-159 | whatever extensions come first |
| SniEncoding.AssembleStages | internal/server/transport/sni.go:73-94 | reading four bytes first and then the rest is reading all of it |
| SniEncoding.FragmentationIndependent | internal/server/transport/sni.go:32-102 | any cut of one ClientHello into complete records within 64 KiB, followed by anything, gives its name and consumes exactly those records |
| SniEncoding.SplitsAgree | internal/server/transport/sni.go:32-102 | two cuts of one ClientHello give the same result |
| SniExact.ScanNamesIff | internal/server/transport/sni.go:164-192 | on any bytes: a name comes out of a name list iff it is its first host_name, behind complete entries of other types |
| SniExact.ScanExtensionsIff | internal/server/transport/sni.go:148-162 | on any bytes: iff the first server_name extension, behind complete other ones, gives it |
| SniExact.ServerNameIff | internal/server/transport/sni.go:164-192 | on any bytes: the list may be shorter than its announced length |
| SniExact.HelloIff | internal/server/transport/sni.go:106-162 | on any bytes: a body gives a name iff it is random, session id, ciphers and compression methods in their lengths and an extension block that gives it |
| SniExact.KeyComesFromHello | internal/server/transport/sni.go:32-102 | a key comes out only of complete handshake records within 64 KiB that begin with a ClientHello whose body parses to a name with that key, and of no more of them than needed |
| Relay.NewPrefixedConn | internal/server/transport/prefixed_conn.go:25-31 | the result yields the prefix and then the connection; an empty prefix gives the connection itself |
| Relay.PrefixedConn.Read | internal/server/transport/prefixed_conn.go:36-47 | every read takes the next bytes of prefix followed by connection, for any buffer size |
| Relay.CopyLoop | internal/utils/tcpConnHandler.go:37-73 | exactly as much of the stream is written as the destination accepts; exactly the completely written chunks are counted |
| Relay.ManyAreCredits | internal/utils/tcpConnHandler.go:70-72 | counting chunk by chunk credits one port with their sum and leaves the others |
| Relay.TransferData | internal/utils/tcpConnHandler.go:32-75 | the destination gets exactly as much of what can be read as it accepts, all of it if no write fails; both ends are closed; usage grows by what was completely written |
| Gateway.BuildRoutes | cmd/validate.go:313-341 | the loop over one gateway's routes succeeds iff no route has a problem, with the table of all routes by normalized host, and otherwise reports the first problem |
| Gateway.ProblemMeans | cmd/validate.go:313-341 | a route is good iff host, server and target are there, no earlier route has its normalized host, and the server exists and is no UDP server; each complaint says which of these fails |
| Gateway.OneRoutePerKey | cmd/validate.go:244-344 | a key leads to the one configured route that has it |
| Gateway.SpellingsShareRoute | cmd/validate.go:314-340 | operator and client may spell a host differently - capitals, surrounding space, a final dot, a port - and the route is found |
| Gateway.SniSpellingsShareRoute | cmd/validate.go:259-288 | the same for server names, without the port |
| Gateway.Gate.Inspect | internal/server/transport/http_gateway.go:99-107 | the key depends only on the bytes in time, and every byte taken is handed back |
| Gateway.Gate.HandleConn | internal/server/transport/http_gateway.go:99-136 | handed over iff the key is in the routes, its route's server is registered and ready and its channel has room, and then to that server's runtime, with the route's target, the complete stream readable; closed otherwise and never both; every other runtime untouched |
| Gateway.InboundTarget.EnqueueInbound | internal/server/transport/tcpmux.go:548-575 | accepts iff ready and not full |
| Gateway.ServeConn | internal/server/transport/gateway.go:94-131 | end to end: under exactly those conditions the service receives exactly as much of what the client sent as it accepts, from the first byte on, all of it if no write fails, and otherwise nothing and the connection is closed |
| GatewayKeys.HttpKey | internal/server/transport/http_gateway.go:99-117 | an HTTP request of allowed size is routed by the normalized bytes behind the colon of its only Host line; with none or two it has no key |
| GatewayKeys.SniKey | internal/server/transport/gateway.go:94-112 | a ClientHello in any cut into complete records is routed by the first host_name of its server_name extension, other extensions in front or not |
| GatewayKeys.SniKeyOnlyFromHello | internal/server/transport/gateway.go:94-112 | and a key comes from no other bytes |
| PortMappings.PortMappingListenAddrs | cmd/validate.go:494-537 | the loops compute the mapping's addresses or its error; there is at least one and every port is in 1..65535 |
| PortMappings.MappingRoundTrip | cmd/validate.go:494-550 | every mapping - port, range, host and port, bracketed host and port - with any spacing and any remote side is accepted iff its ports are in 1..65535 and in order, opens exactly the addresses it means, and is refused with the error for its form otherwise |
| PortMappings.AddressRoundTrip | cmd/validate.go:540-550 | a host:port address with any spacing reads back iff the port is in 1..65535 |
| PortMappings.BracketedRoundTrip | cmd/validate.go:540-550 | the same for [host]:port, whose host may contain colons |
| PortMappings.WildcardIff | cmd/validate.go:553-559 | a host means every interface iff it is, between white space, nothing, 0.0.0.0, ::, [::] or * |
| PortMappings.DashedHostRefused | cmd/validate.go:501-521 | a host with a dash in front of a port is refused, whatever the port |
| PortMappings.EmptyLocalRefused | cmd/validate.go:495-499 | a mapping with nothing but space in front of its "=" is refused |
| PortMappings.ThreeEndsRefused | cmd/validate.go:502-506 | a range with more than two ends is refused |
| PortMappings.AtoiDecimal | cmd/validate.go:507-533 | a printed port reads back |
| PortMappings.NumberIff | cmd/validate.go:507-533 | a text is a number iff it is digits behind at most one sign |
| Listeners.Table.Register | cmd/validate.go:372-395 | records an address iff it overlaps no recorded one, wildcards included; otherwise names an entry that really overlaps; entries stay pairwise non-overlapping |
| Listeners.NoClash | cmd/validate.go:372-395 | the two map lookups decide overlap with all entries |
| Listeners.CrossDisjointPasses | cmd/validate.go:399-434 | addresses that overlap at most within one server always pass |
| Listeners.DisjointIff | cmd/validate.go:366-462 | no two parties overlap iff the check passes and no address that overlaps its own server's also overlaps somebody else's, for every map order |
| Listeners.AcceptedIffDisjoint | cmd/validate.go:366-462 | without overlaps inside one server: passes iff pairwise non-overlapping |
| Listeners.SkippedOverlapHidesAnother | cmd/validate.go:422-428 | a family of configurations with a cross-server overlap that always pass |
| Listeners.VerdictDependsOnMapOrder | cmd/validate.go:377-381 | a family of configurations that pass or fail with the order of a map |
| Listeners.OpenIff | cmd/validate.go:372-432 | whether one request passes is open iff it is a server's wildcard on a port where itself and somebody else are recorded |
| Listeners.MapOrderMattersIff | cmd/validate.go:366-462 | a configuration that can pass can also be rejected iff it has such a request |
| Listeners.SomeChoicePasses | cmd/validate.go:372-395 | some order of the maps lets a configuration pass iff it may be accepted |
| Listeners.SomeChoiceFails | cmd/validate.go:372-395 | some order rejects it unless it must be accepted |
| Listeners.ChoicesBetween | cmd/validate.go:372-395 | for every order passing lies between must and may |
| Listeners.Admit | cmd/validate.go:403-432 | one address: recorded, skipped for its own server, or a real clash reported |
| Listeners.AdmitServer | cmd/validate.go:399-434 | one server's bind address and ports, in order |
| Listeners.AdmitGates | cmd/validate.go:437-459 | the gateways of one kind; any overlap is a clash |
| Listeners.ValidateListeners | cmd/validate.go:366-462 | accepted configurations parse, every ports entry and gateway address of them, and may pass; ones without cross-party overlap are accepted; a reported clash is a real overlap of two different addresses |
| ListenerRequests.OverlapExactly | cmd/validate.go:366-395 | two addresses overlap iff they have one port and one host, or one port and a wildcard |
| ListenerRequests.BindListed | cmd/validate.go:399-409 | every bind address that parses is registered for its server |
| ListenerRequests.PortListed | cmd/validate.go:411-419 | so is every address of every ports entry |
| ListenerRequests.SniGateListed | cmd/validate.go:437-443 | so is every SNI gateway address |
| ListenerRequests.HttpGateListed | cmd/validate.go:449-455 | so is every HTTP gateway address |
| ListenerRequests.RequestWritten | cmd/validate.go:399-459 | and nothing is registered that the configuration does not have, with that owner |
| ListenerRequests.PairVerdict | cmd/validate.go:403-459 | of two addresses the second passes iff it does not overlap the first, or is a server's and the first has that name too; a gateway's must not overlap |
| ListenerRequests.TwoServersIff | cmd/validate.go:399-434 | from the configuration's text: two servers with one host:port each pass iff the ports differ or the hosts do and neither is a wildcard |
| UsageStore.Usage.AddOrUpdatePort | internal/web/sniffer.go:161-176 | one port grows by the amount modulo 2^64, the others stay |
| UsageStore.Usage.Collect | internal/web/sniffer.go:311-324 | empties the store into a list without repeats, in any order |
| UsageStore.MergeLists | internal/web/sniffer.go:199-217 | the map of the file's last entries plus the current ones |
| UsageStore.LastEntryStands | internal/web/sniffer.go:202-205 | the last entry of a port in the file is the one that stands |
| UsageStore.MergeAdds | internal/web/sniffer.go:199-217 | the merge has exactly the ports of file and memory and adds what they say |
| UsageStore.MergedReports | internal/web/sniffer.go:199-226 | for every port the merged list reports the file's last entry plus memory, which is file plus memory when no port repeats |
| UsageStore.ToList | internal/web/sniffer.go:219-226 | every map entry once, in any order, with their sum |
| UsageStore.TotalAdds | internal/web/sniffer.go:219-226 | the total is zero for nothing, an entry's usage for one entry, and adds up |
| UsageStore.TotalForgetsOrder | internal/web/sniffer.go:219-226 | the order in which the map is ranged over does not change the total |
| UsageStore.Wraps | internal/web/sniffer.go:161-226 | uint64 sums are modulo 2^64 |
| UsageStore.ReportedAdds | internal/web/sniffer.go:199-226 | what a list reports for a port is the sum over exactly the entries of that port |
| UsageStore.Usage.SaveUsageData | internal/web/sniffer.go:178-240 | a written save leaves file plus memory of a port unchanged iff the last entry the file has for it reports all of it, so of every port in a file without repeats, and the total equal to the file's sum; an undecodable file changes nothing |
| UsageStore.RepeatedPortLoses | internal/web/sniffer.go:202-205 | of two entries for one port the first is lost, unless it reports nothing |
| UsageRuns.UsageConserved | internal/web/sniffer.go:161-240 | over every run of counts and non-overlapping written saves, per port, what was counted is on file, in a pending save or in memory |
| UsageRuns.CollectConserves | internal/web/sniffer.go:311-324 | taking the store, later than reading the file, keeps the books |
| UsageRuns.FinishConserves | internal/web/sniffer.go:178-240 | a finishing save keeps the books of a port iff the last entry it read reports what the file reports now, or, unwritten, had taken nothing; for every file, repeated ports included |
| UsageRuns.OverlappingSavesLose | internal/web/sniffer.go:178-240 | two overlapping saves lose counted bytes |

## Left out

- `Restart`, shutdown and everything across generations: the machines model one generation.
- Sockets, TLS, smux, gorilla/websocket and quic-go internals: a connection is a byte stream or a message queue, an operation on it succeeds or fails.
- A read that returns bytes together with an error, and a failing SetReadDeadline.
- Operations that move no byte and report no error.
- internal/server/transport/wsmux.go, internal/server/transport/udp.go and the other client transports: they repeat the scheduler, table and pool code.
- The control handshake, the heartbeat timer, RTT measurement, the probe's choice by remote address (internal/server/transport/tcpmux.go:455-475).
- SendBinaryString without a transport byte, which differs from the modelled frame by one header byte.
- The width of the int32 counters, except in the product of the demand test; the two atomic loads of that test are one step.
- HttpPreread.ReadHTTPHost: which error comes back when no whole header of an allowed size arrives depends in the code on how the stream is cut, so only that there is an error is stated then.
- The bound of the WebSocket server's local channel: its machine accepts every connection, and a closed tunnel shows only in that writes on it fail.
- The UDP idle timeout may fire at any moment in the machine, not only after 60 quiet seconds.
- The ages that decide whether a held connection is too old are parameters; in the machines either branch may be taken.
- The request for a tunnel connection that follows the first UDP packet, and traffic counting in the UDP loops (the copy loop's is modelled).
- In the machine of the UDP sessions a failed send of the address changes nothing and is not a step; UdpServer.HandleUDPLoop has it.
- A write that fails although the peer would accept more: failing is modelled as the end of what the peer accepts.
- A UDP session's flag test and its send are one step under the mutex; a flag written in between acts like one written after.
- Two directions of one relayed connection running at once; each direction is modelled alone, and the two ends of a UDP tunnel run one after the other on the bytes that arrive.
- Writing the usage file is all or nothing; JSON itself is not modelled.
- Case folding and trimming are ASCII, and hosts are compared as written: two spellings of one IP address are different hosts.
- net.SplitHostPort and strconv.Atoi are modelled from their documented behaviour; the port ranges exclude what overflows an int.
- The text of error messages; a verdict carries the parties instead. Port reporting for statistics, duplicate server names, and the gateways' own settings beside their routes (listen_addr, default_action, max_header_bytes).
- Agreement of the configuration's port mappings with what the runtime parses from them.
- parseByteSize, parseOptionalDuration, defaults, the registry, PortFromTarget: they would only add easy members.
