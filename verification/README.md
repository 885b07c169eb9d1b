# Verification model of the MASQUE tunnel

This project models the parts of the user-space MASQUE (CONNECT-IP) client where buffers, packets, clocks and
fallible system calls interact, and proves what they promise:

- **The packet pump** (`Pump`, `PumpInvariants`, `PumpTheorems`, `PumpLogs`, `PumpCode`, `History`). The TUN reader and the pump
  are two tasks sharing a bounded pool of reusable buffers and a bounded channel. They are a transition system whose
  steps are the pieces of code between points where the other task can run; TUN, quiche and the sockets are
  arguments of the steps, so every answer is covered. Over every interleaving: no buffer is lost, every packet is
  uploaded at most once and in order whatever stale bytes the buffers held, the pump never sleeps on work it could
  do, received traffic cannot starve the upload, the session stops with its CONNECT-IP stream, and in any interleaving
  in which nothing fails, every waiting packet is accepted or refused within a bounded number of pump steps, whatever
  quiche answers and the reader adds behind it. The loops themselves are methods over mutable state, proved to compute what the
  transition system's steps compute.
- **UDP batching** (`UdpBatch`). The paced sender with partial kernel sends and the receiver that shares its length
  array, as a class; whole sessions of interleaved flushes and drains lose, repeat and reorder nothing.
- **Socket-buffer search** (`SocketBuffer`). The doubling and bisecting search against an arbitrary kernel, and its
  exact result against a kernel with a fixed cap.
- **Packet arithmetic** (`InternetChecksum`, `Packet`, `Icmp`). Both Internet-checksum implementations
  (RFC 1071), the TTL rewrite, and every ICMP and ICMPv6 packet the tunnel composes.
- **CONNECT-IP framing** (`ConnectIp`). QUIC variable-length integers (section 16 of RFC 9000), the flow prefix, and
  the exact language the parser accepts.
- **Single packets** (`OnePacket`). The path of the one packet that brings an idle tunnel up, with its retries, and
  exactly when that packet reaches quiche.
- **Endpoints, failover, device state and timers** (`Endpoints`, `Supervisor`, `NativeTun`, `Timers`, `H3Control`).
  The supervisor and the timers of the loop are each a pure step function with theorems about every run, and classes
  whose methods are proved to follow it.

Bytes are integers below 256, sizes are unbounded naturals with 16-, 32- and 64-bit limits written out where the
code depends on them. `Bytes` and `Arithmetic` hold the shared vocabulary. Verify with `dafny verify dfyconfig.toml`.

Where a property one would expect does not hold of the code, the exact condition is proved instead:

- The IPv4 "fragmentation needed" reply stores its MTU in bytes 24..26, not in the next-hop MTU field of section 4 of
  RFC 1191 (bytes 26..28); a standard reader learns the MTU only if it is zero (`Icmp.ComposeIpv4FragNeeded`).
- The MTU in a reply helps the sender exactly if it leaves room for the flow prefix on the path that refused the
  packet (`PumpCode.AdviceHelps`); before the interface has followed the path it need not (`PumpCode.StaleAdvice`).
- A packet captured while the tunnel is idle is not lost while no session can be established, but it can be lost by
  the session that takes it; it reaches quiche exactly under the condition of `Supervisor.PacketMeetsItsFate`, and
  `Supervisor.ExpiredPacketIsLost` is a packet that does not.
- A rewritten IPv4 header verifies exactly when its IHL is at least 3, or its first bytes already verified before the
  rewrite (`Packet.PreparedHeaderVerifies`).
- The socket-buffer search comes within one 64 KiB granule of the cap only under the condition `SocketBuffer.Fine`;
  otherwise it stays between one and two granules below (`SocketBuffer.Shortfall`).

## Model

| member | source | states |
|---|---|---|
| PumpTheorems.BuffersConserved | src/api/masque.rs:570-627 | in every interleaving, while the reader lives, free + reader-held + channel + queue + in hand is the pool size, containers keep their capacities, and whenever a buffer is about to be returned the free channel has room, so the ignored `try_send` cannot fail |
| PumpTheorems.BuffersAlwaysFit | src/api/masque.rs:592-598 | the slice bounds the reader and the pump rely on always hold |
| PumpTheorems.TunPacketsFit | src/api/masque.rs:577-597 | a buffer of `max_tun_mtu + 128` bytes takes every packet an interface at or below that ceiling can deliver |
| PumpTheorems.ExactlyOnceInOrder | src/api/masque.rs:592-620 | the datagrams quiche accepted encode an in-order subsequence of the packets read, and every packet read is accepted, counted as dropped, or still in the reader, the channel, the queue or the pump's hand |
| PumpLogs.AcceptedIsWhatQuicheTook | src/api/masque.rs:957-1010 | in every run the accepted datagrams are exactly those quiche said yes to, in that order, and the drop counter counts those too long for the path, those whose send failed and the packets the reader rejected |
| PumpLogs.AnswerMeans | src/api/masque.rs:957-1010 | what each answer of quiche does to the datagram in hand: taken, back to the front of the queue, or dropped and counted |
| PumpTheorems.PeerRecoversPackets | src/api/masque.rs:990-997 | the peer parses each accepted datagram back to the packet read, one hop older and valid, with a verifying IPv4 header if its IHL is at least 3 |
| PumpTheorems.DeliveredExactly | src/api/masque.rs:1129-1143 | the packets of a burst written to the TUN device are, in order and once each, those its datagrams frame and that are plausible |
| PumpLogs.DeliveredOverRuns | src/api/masque.rs:1121-1155 | in every run what reached the TUN device is, in order and once each, the packet of every datagram received so far that brings one |
| PumpTheorems.StarvedReaderImpliesWork | src/api/masque.rs:592-594 | a reader waiting for a buffer means the whole pool is in the channel, the queue or the pump's hand |
| PumpTheorems.NeverSleepsOnWork | src/api/masque.rs:772-811 | `select!` is reached only after a receive burst that was not full, with an empty queue or a push-back; the tasks can wait for each other only while quiche pushes back |
| PumpTheorems.ReceiveCannotStarveUpload | src/api/masque.rs:772-783 | between two receive bursts every control and upload stage runs exactly once, and a burst takes at most 32 datagrams |
| PumpLogs.FullReceiveNeverSleeps | src/api/masque.rs:772-783 | after a receive burst of 32 datagrams the pump does not wait before it has received again |
| PumpLogs.SpinsOnlyOnWork | src/api/masque.rs:778-783 | the pump goes round again without waiting only after a full receive burst or a full upload burst with more queued |
| PumpTheorems.StoppedIsFinal | src/api/masque.rs:859-863 | after the pump stops nothing more reaches quiche or the TUN device |
| PumpTheorems.StreamEndStopsTraffic | src/api/masque.rs:650-652 | once a poll ends the CONNECT-IP stream or fails, no later packet is uploaded or delivered in that session |
| PumpTheorems.GoodStepProgresses | src/api/masque.rs:645-858 | for a datagram waiting at any position, every pump step in which nothing fails settles the one in front, uses up a bound on the steps until its own turn, or is a push-back, which costs a bounded number more |
| PumpTheorems.ReaderOnlyAppends | src/api/masque.rs:588-627 | whatever the reader does meanwhile adds only behind it and costs the pump nothing |
| PumpTheorems.GoodStepExists | src/api/masque.rs:645-858 | such a step is always enabled: the pump is never stuck |
| PumpTheorems.EveryPacketSettles | src/api/masque.rs:704-783 | in any interleaving of the two tasks in which no pump step fails, the datagram at position k of hand, queue and channel is given to quiche or dropped and counted, after those before it, within a bounded number of pump steps and at most 4096 more for each push-back |
| PumpTheorems.EveryQuietRunDrains | src/api/masque.rs:704-783 | if the reader adds nothing meanwhile, hand, queue and channel are emptied within the bound of the last datagram |
| PumpTheorems.ReaderEndLosesNothing | src/api/masque.rs:760-762 | a session that ends because the reader ended abandons no packet: those read are those accepted and those counted as dropped |
| PumpTheorems.ReaderEndStopsPump | src/api/masque.rs:704-762 | once the reader has gone and if nothing fails, the pump settles what is left and ends the session within a bounded number of steps and at most 4096 more for each push-back |
| PumpInvariants.Reachable | src/api/masque.rs:645-858 | every state of every run satisfies the shape, conservation, control, turn and accounting invariants |
| PumpInvariants.KeepsPrefix | src/api/masque.rs:595-616 | whatever a recycled buffer held, its first `prefix + n` bytes become the flow prefix and the rewritten packet |
| PumpInvariants.ConservedStep | src/api/masque.rs:592-627 | every step of either task keeps buffer conservation and the capacities |
| PumpInvariants.InControlStep | src/api/masque.rs:704-783 | every step keeps what the pump knows at each point of its loop: push-back implies a waiting datagram, a finished burst was full or left nothing |
| PumpInvariants.InTurnStep | src/api/masque.rs:645-783 | every step keeps the stages in turn |
| PumpInvariants.AccountedStep | src/api/masque.rs:592-620 | every step keeps the books: accepted, dropped and pending packets partition those read, in order |
| PumpInvariants.DepartureEffect | src/api/masque.rs:957-1010 | an accepted or refused datagram leaves the front of the pipeline, its first `wire_len` bytes going to quiche if accepted |
| History.SettleEffect | src/api/masque.rs:957-1010 | deciding the oldest pending packet moves it to the end of the sent packets or to the dropped ones and changes nothing else |
| History.PickIsSubsequence | src/api/masque.rs:592-620 | packets picked by fate are an in-order subsequence |
| Pump.Configure | src/api/masque.rs:323-327 | pool, queue, channel and burst sizes are those of the options where they are possible and the nearest possible ones otherwise; the flow is that of the CONNECT stream |
| PumpCode.ReadInto | src/api/masque.rs:595-616 | the reader's in-place writes leave prefix, rewritten packet and stale tail exactly as the transition system says |
| PumpCode.PumpState.QueueTxDatagrams | src/api/masque.rs:941-1013 | the burst loop computes exactly the transition system's burst, and owes one valid ICMP reply per answerable too-big packet, in order |
| PumpCode.PumpState.SendNext | src/api/masque.rs:957-1010 | one turn of the burst loop is one answer of the transition system |
| PumpCode.PumpState.Offer | src/api/masque.rs:983-1009 | a full queue or `Done` push the datagram back to the front and change nothing else, `Ok` hands its bytes over, counts and recycles, an error drops and counts it |
| PumpCode.PumpState.DropTooLong | src/api/masque.rs:962-981 | a datagram longer than the path is counted as dropped, answered if it can be, and its buffer recycled |
| PumpCode.AdviceHelps | src/api/masque.rs:962-981 | packets up to the reported MTU pass where the last one was refused exactly if that MTU plus the prefix fits the path, as it does once the interface has followed it |
| PumpCode.StaleAdvice | src/api/masque.rs:720-728 | with the interface at 1280 and a path of 1200, a packet of 1280 bytes is refused, the reply reports 1280, and the next packet of that length is refused again |
| PumpCode.PumpState.DrainIncoming | src/api/masque.rs:1121-1155 | exactly the framed, plausible packets of the datagrams taken reach the TUN device, and the result says whether 32 were taken |
| PumpCode.TakenAreTheFirst | src/api/masque.rs:1126-1149 | a receive burst takes the first answers as they come, up to the first that is no datagram or the limit |
| PumpCode.BurstIsRun | src/api/masque.rs:941-1013 | the burst is a run of the transition system: pops and answers lead from its start to its end state |
| H3Control.PollH3 | src/api/masque.rs:1043-1119 | polling fails exactly when Finished or Reset on the CONNECT-IP stream, or a poll error, comes before `Done` |
| H3Control.PollFailsIff | src/api/masque.rs:1043-1119 | that is, when an error, or Finished or Reset of the CONNECT-IP stream, comes before `Done` |
| H3Control.AuxiliaryStreamsAreIndependent | src/api/masque.rs:1024-1041 | events of other streams can be added or removed without changing the outcome |
| UdpBatch.UdpBatchIo.constructor | src/api/masque/udp.rs:39-52 | batch size clamped to 1..64 at both ends, buffers at least 1500 bytes |
| UdpBatch.UdpBatchIo.FlushQuic | src/api/masque/udp.rs:54-88 | a successful flush gives the kernel exactly what quiche produced, in order and none before its send time, any other a prefix; it fails only on an error of quiche or the socket, waits only while the socket will take no more, and so succeeds whenever the socket takes something as often as there are datagrams |
| UdpBatch.UdpBatchIo.FillSlots | src/api/masque/udp.rs:63-79 | each filled slot's length and deadline are those quiche wrote in the same flush |
| UdpBatch.UdpBatchIo.SendPacedBatches | src/api/masque/udp.rs:90-117 | the batches cover the slots once each, in order, whatever the kernel takes at a time, unless the socket fails or takes no more |
| UdpBatch.UdpBatchIo.DueUntil | src/api/masque/udp.rs:105-112 | a batch is the longest run of slots already due |
| UdpBatch.UdpBatchIo.AwaitDeadline | src/api/masque/udp.rs:97-103 | after the pacing wait the next datagram is due, and the pacing counters have the wait |
| UdpBatch.UdpBatchIo.SendBatch | src/api/masque/udp.rs:131-159 | partial sends are resumed where they stopped until the range is taken; failure exactly on a socket error, waiting only when the socket will take no more |
| UdpBatch.UdpBatchIo.TryRecvBatch | src/api/masque/udp.rs:207-224 | lengths and buffers hold this batch's datagrams, zero length for truncated ones; as many as the socket gives, failure exactly on its error |
| UdpBatch.UdpBatchIo.DrainQuic | src/api/masque/udp.rs:172-205 | quiche is given, whole and in order, exactly the datagrams taken that are not empty and not longer than a receive buffer, whatever the length array held before; the drain goes on until a batch that is not full or an error |
| UdpBatch.DrainStopsRight | src/api/masque/udp.rs:178-204 | before the last batch of a drain all were full, and it fails exactly if the last answer is an error |
| UdpBatch.ReadableMeans | src/api/masque/udp.rs:187-199 | the datagrams handed on are those of 1 to the buffer size bytes, whole, at increasing positions |
| UdpBatch.DrainTakesAll | src/api/masque/udp.rs:178-204 | against a kernel that hands over as much as it has, a drain leaves nothing waiting |
| UdpBatch.Session | src/api/masque/udp.rs:54-205 | over any interleaving of flushes and drains sharing the length array, the kernel is given exactly what quiche produced and quiche exactly the datagrams that fit, whole and in order; the session fails only on an error and waits only if the socket takes something less often than there are datagrams |
| UdpBatch.ReadableConcat | src/api/masque/udp.rs:187-199 | what quiche reads of two batches is what it reads of each |
| SocketBuffer.TuneSocketBuffer | src/api/masque/udp.rs:323-404 | for any kernel: the target is the request or 64 KiB, requests above the default and within the target, accepted sizes increasing, at most 2k requests for a target of up to 2^k granules (one for k = 0), a truthful report; for a capped kernel the closed form, and in terms of the request: all of it if the cap allows, else within 128 KiB of the cap, or 64 KiB for whole granules, once the cap allows twice the default |
| SocketBuffer.Bisect | src/api/masque/udp.rs:360-380 | for any kernel at most log2 of the gap in calls; for a capped kernel the settled size |
| SocketBuffer.SoundMeans | src/api/masque/udp.rs:348-353 | the default is never lowered and accepted sizes strictly increase |
| SocketBuffer.CappedKernel | src/api/masque/udp.rs:485-502 | there is a capped kernel for every default and cap |
| SocketBuffer.Shortfall | src/api/masque/udp.rs:360-380 | the result is within 128 KiB below the cap, and within 64 KiB exactly under the stated condition |
| SocketBuffer.CoarseShortfallExists | src/api/masque/udp.rs:366-368 | a target and cap for which the 64 KiB bound fails |
| SocketBuffer.SettlesAt | src/api/masque/udp.rs:362-379 | where the bisection stops, for targets that are and are not whole granules |
| InternetChecksum.Checksum | src/api/icmp.rs:128-141 | the loop computes the RFC 1071 checksum of any buffer up to 131074 bytes, and with wrap-around beyond |
| InternetChecksum.Rfc1071Example | src/api/icmp.rs:128-141 | the worked example of RFC 1071, and an odd last byte counts as the high one |
| InternetChecksum.SumWords | src/api/icmp.rs:129-136 | the accumulator is the word sum modulo 2^32 |
| InternetChecksum.FoldAndComplement | src/api/icmp.rs:137-140 | the fold loop ends with the ones'-complement residue, zero only for a zero sum |
| InternetChecksum.FoldKeepsResidue | src/api/icmp.rs:137-139 | each fold shrinks the sum and keeps it modulo 65535 |
| InternetChecksum.AccumulatorFits | src/api/icmp.rs:129-136 | no u32 overflow up to 131074 bytes |
| InternetChecksum.AccumulatorBoundIsTight | src/api/icmp.rs:129-136 | one byte more can overflow |
| InternetChecksum.StoredFieldVerifies | src/api/icmp.rs:92-95 | storing the checksum in a zeroed even-aligned field makes the range verify |
| InternetChecksum.StoredFieldVerifiesIff | src/api/icmp.rs:92-95 | no value other than the checksum, modulo 65535, verifies |
| InternetChecksum.CorruptionDetected | src/api/icmp.rs:128-141 | a changed word is noticed unless 0x0000 and 0xffff were exchanged |
| Packet.CalculateIpv4Checksum | src/api/packet.rs:90-112 | agrees with the other implementation on the header with its checksum field zeroed |
| Packet.OutgoingVerdictIs | src/api/packet.rs:23-61 | exactly the IPv4 packets of 20 bytes and a TTL above 1 and the IPv6 packets of 40 bytes and a hop limit above 1 are uploaded, and each other one gets the right error |
| Packet.IncomingVerdictIs | src/api/packet.rs:63-88 | exactly the IPv4 packets of 20 bytes and the IPv6 packets of 40 bytes are taken from the network, and each other one gets the right error |
| Packet.PrepareOutgoing | src/api/packet.rs:23-61 | the in-place rewrite yields the specified packet or leaves it alone, and touches nothing outside its slice |
| Packet.PreparedFrame | src/api/packet.rs:40-57 | only bytes 8, 10 and 11 (IPv4) or 7 (IPv6) change, and only on success |
| Packet.PreparedAges | src/api/packet.rs:36-57 | success takes one hop and keeps the packet plausible |
| Packet.PreparedHeaderVerifies | src/api/packet.rs:40-43 | the rewritten header verifies exactly when IHL >= 3 or its covered bytes already verified |
| Packet.ShortIhlBreaksHeader | src/api/packet.rs:91-92 | a packet with IHL 1 leaves with a header that does not verify |
| Packet.ValidateIncoming | src/api/packet.rs:63-88 | accepts exactly IPv4 packets of 20 bytes or more and IPv6 packets of 40 or more |
| Icmp.ComposeIcmpTooLarge | src/api/icmp.rs:56-65 | a valid reply exists exactly for packets incoming validation would accept |
| Icmp.ComposeIpv4FragNeeded | src/api/icmp.rs:67-97 | verifying IPv4 and ICMP checksums, swapped addresses, an exact prefix quoted, at most 576 bytes, MTU at bytes 24..26; the next-hop MTU field of RFC 1191 agrees exactly for a zero MTU |
| Icmp.ComposeIpv6PacketTooBig | src/api/icmp.rs:99-126 | verifying pseudo-header checksum, swapped addresses, an exact prefix quoted, at most 1280 bytes, 32-bit MTU |
| Icmp.Icmpv6Checksum | src/api/icmp.rs:143-151 | the checksum of the pseudo-header of section 8.1 of RFC 8200 and the message |
| Icmp.ComposeEchoRequest | src/api/icmp.rs:9-48 | a valid echo request for equal families, refused exactly for mixed ones |
| Icmp.SealIpv4 | src/api/icmp.rs:92-95 | both IPv4 checksums verify and nothing else changes |
| Icmp.SealIpv6 | src/api/icmp.rs:123-124 | the ICMPv6 checksum verifies and nothing else changes |
| Icmp.PrepareProbe | src/api/masque.rs:1172-1177 | the TTL rewrite never refuses an echo request of either family and leaves it fully valid |
| ConnectIp.ParserLanguage | src/api/masque/connect_ip.rs:23-38 | the parser yields a payload exactly for any-width flow id, any-width zero context id, non-empty payload |
| ConnectIp.FramingRoundTrip | src/api/masque/connect_ip.rs:11-38 | prefix and payload parse back under the same flow id and under no other |
| ConnectIp.PrefixIsShortest | src/api/masque/connect_ip.rs:11-21 | no other framing of the same packet is shorter |
| ConnectIp.BuildFlowPrefix | src/api/masque/connect_ip.rs:11-21 | the cursor writes produce the flow prefix |
| ConnectIp.DecodeEncode | src/api/masque/connect_ip.rs:24-29 | any-width encodings of a value decode to it whatever follows |
| ConnectIp.EncodeDecode | src/api/masque/connect_ip.rs:24-29 | whatever decodes is an encoding |
| ConnectIp.VarintExamples | src/api/masque/connect_ip.rs:24-29 | the examples of appendix A.1 of RFC 9000 |
| ConnectIp.FlowId | src/api/masque.rs:414 | every 64-bit stream id yields its quarter, which can be encoded |
| Endpoints.SelectEndpoints | src/config.rs:150-227 | the nested loops, `seen` set and sort compute the first occurrences of all candidates in stable class order, with the first problem as error |
| Endpoints.SortByClass | src/config.rs:221-225 | the stable sort |
| Endpoints.StableSortIsUnique | src/config.rs:217-225 | 443, others, 1701, each in original order, is the only stable sort |
| Endpoints.SelectionIsSound | src/config.rs:171-227 | not empty, no socket and key twice, everything any peer offers and nothing else, each with the host and key of a peer that offers it; port 443 first and 1701 last, or the override throughout |
| Endpoints.PreferredFamilyFirst | src/config.rs:190-225 | within one peer and port class the endpoints at the preferred address come first |
| Endpoints.SelectionFailsIff | src/config.rs:171-215 | selection fails exactly if a peer has a bad key or address, or no peer has an address |
| Endpoints.PreferenceOnlyReorders | src/config.rs:190-194 | `prefer_ipv6` keeps the same endpoints and the same success or failure |
| Endpoints.FreshIsComplete | src/config.rs:202-208 | deduplication keeps one endpoint per socket and key and loses none |
| Endpoints.AddAddress | src/config.rs:200-209 | the port loop of one address, failing exactly when it does not parse |
| Endpoints.AddPeer | src/config.rs:171-211 | one peer's contribution, or the right error |
| Supervisor.FailoverRotates | src/api/masque/supervisor.rs:8-14 | the next endpoint is the number of failures since the last established session, wrapped round |
| Supervisor.EachEndpointOnceInOrder | src/api/masque/supervisor.rs:78-79 | from the start or after a session, n failures try each of the n endpoints once, in class order |
| Supervisor.SupervisorState.Maintain | src/api/masque/supervisor.rs:16-87 | for any rounds and failing device calls the loop makes exactly the trips the rounds call for, until a device call fails, a wait brings no packet or there is no endpoint; the device is safe throughout |
| Supervisor.AttemptsFollowRounds | src/api/masque/supervisor.rs:21-86 | in any run each attempt is made at the endpoint failover selects, on a device back at the initial MTU, with IPv6 withdrawn if path MTU discovery is to come or the tunnel has none and otherwise on exactly if managed and the MTU is at least 1280; it is established as its round says, and only an established one takes the packet |
| Supervisor.CapturedAreTakenOrPending | src/api/masque/supervisor.rs:21-40 | the packets captured while idle are, in order, those some session took, once each, then the pending one |
| Supervisor.TakenAreHandedOverOrLost | src/api/masque.rs:1160-1259 | of the packets taken, those at increasing positions were given to quiche and all others were dropped or caught in an error |
| Supervisor.PendingFollowsRounds | src/api/masque/supervisor.rs:30-40 | the packets captured are the wakes of the rounds that start with nothing pending |
| Supervisor.PacketsFollowRounds | src/api/masque.rs:431-496 | each established attempt takes the packet captured last, with the fate its answers decide, and no other attempt takes any |
| Supervisor.PacketMeetsItsFate | src/api/masque.rs:481-496 | a captured packet survives every attempt that establishes no session and is taken by the first that does; it reaches quiche, and the peer, exactly if it can be aged and fits the path and quiche has room for it within 512 tries and before any failure, and takes it |
| Supervisor.RejectedPacketIsLost | src/api/masque.rs:1253-1257 | a packet that cannot be aged brings the tunnel up and is then dropped, whatever quiche answers |
| Supervisor.ExpiredPacketIsLost | src/api/masque.rs:1253-1257 | an IPv4 header with TTL 1 is such a packet |
| OnePacket.ReachesQuicheIff | src/api/masque.rs:1160-1259 | when a single packet is given to quiche, when it is dropped, and when it is caught in an error, for any answers |
| OnePacket.PeerRecoversPacket | src/api/masque.rs:1172-1182 | the peer parses the datagram back to the packet, one hop older and valid |
| OnePacket.PacketSender.SendPacketDatagram | src/api/masque.rs:1160-1259 | the packet is aged in place and its datagram given to quiche or dropped, with the counters to match; one too long for the path, and only such a one, is answered with a valid ICMP reply |
| OnePacket.PacketSender.Retry | src/api/masque.rs:1199-1251 | up to 512 tries: the datagram is offered as soon as the queue has room, and a failed wait is an error |
| Supervisor.EagerRunsCaptureNothing | src/api/masque/supervisor.rs:30 | with reconnecting always, no packet is taken from the device or sent outside the pump |
| Supervisor.EndsAsRun | src/api/masque/supervisor.rs:25-77 | a loop that ends in the middle of a trip leaves the attempts and packets of a run of whole trips |
| Supervisor.SupervisorState.Trip | src/api/masque/supervisor.rs:24-85 | one trip has the effect of the step function and leaves the device reset, IPv6 withdrawn if discovery is to come, or ends the loop for one of the three reasons |
| Supervisor.SupervisorState.MakeAttempt | src/api/masque/supervisor.rs:42-70 | the attempt is recorded with the index, the device and the outcome of its session, which alone decides what happens to the pending packet |
| Supervisor.SupervisorState.RunTunnelSession | src/api/masque.rs:431-517 | an established session, and no other, takes the pending packet, whatever becomes of it; one that gets to the pump with path MTU discovery on leaves the device set for the last discovered length or a device call failed, any other leaves the device alone |
| Supervisor.SupervisorState.AwaitActivity | src/api/masque/supervisor.rs:30-40 | the packet that ends the wait is captured and pending, exactly when none was; it fails exactly if none or an empty one comes |
| Supervisor.SupervisorState.FollowPathMtu | src/api/masque.rs:684-702 | any discovered lengths leave the device safe; it fails exactly if a device call fails, and otherwise leaves the device set for the last of them |
| NativeTun.TunRsDevice.constructor | src/native_tun.rs:99-160 | a device created from accepted options starts safe |
| NativeTun.TunRsDevice.SetMtu | src/native_tun.rs:48-54 | the cached MTU follows the device exactly when the device call succeeds |
| NativeTun.TunRsDevice.SetIpv6Enabled | src/native_tun.rs:60-83 | no device call without a managed address or change; the flag follows the device exactly when its call succeeds |
| NativeTun.TunRsDevice.ApplyPathMtu | src/native_tun.rs:85-97 | after every device call, whichever fails, IPv6 implies a managed address and 1280 bytes, and the MTU stays below the ceiling; it fails exactly if a device call fails, and makes none without need |
| NativeTun.CapTunMtu | src/api/masque/timing.rs:28-31 | the largest inner MTU that fits the writable length and the ceiling |
| Timers.SleepMeetsDeadlines | src/api/masque.rs:785-803 | the sleep never exceeds an enabled deadline and ends at the least one, or after an hour without any |
| Timers.TripFires | src/api/masque.rs:655-856 | exactly which trip starts a report, sends a PING, revalidates or runs the QUIC timeout, and when |
| Timers.FirstTripReports | src/api/masque.rs:634-635 | the first trip of a session reports at once |
| Timers.WakesAct | src/api/masque.rs:804-856 | with any deadline enabled a timer wake performs a due action, or the next trip starts the report that was due |
| Timers.EventsKeepTheirDistance | src/api/masque.rs:825-852 | over any run, PINGs, revalidations and report starts i and j are at least j - i periods apart |
| Timers.EventsAreFew | src/api/masque.rs:632-857 | over any run there are no more PINGs or revalidations than periods, and no more reports than one more than that |
| Timers.RunOnlyAdds | src/api/masque.rs:645-858 | no run forgets an event or takes a byte of a report back |
| Timers.RunKeepsClocks | src/api/masque.rs:632-857 | over any run the `last_*` instants are those of the last events, and every report stream holds a prefix of its own body, all of it when finished |
| Timers.SpacedApart | src/api/masque.rs:825-852 | events a period apart from their neighbours are j - i periods apart from each other |
| Timers.LoopTimers.Run | src/api/masque.rs:645-858 | the loop has the effect of the step function on clocks, logs and report streams |
| Timers.LoopTimers.SleepAndWake | src/api/masque.rs:785-856 | a timer wake finds the clocks at the end of the sleep and does what the step function says |
| Timers.LoopTimers.OnTimer | src/api/masque.rs:817-856 | each due PING, revalidation and QUIC timeout is performed whatever else is due, and quiche is flushed exactly if any was |
| Timers.LoopTimers.StartReportIfDue | src/api/masque.rs:655-665 | exactly a due report starts, with its body if there is one, and otherwise nothing changes |
| Timers.ReportSender.Flush | src/api/masque.rs:223-236 | the stream is given the next bytes of its body and only those; finished exactly when it has all |
| Timers.FlushedMeans | src/api/masque.rs:223-236 | a write of n bytes advances the report by n, or by what was left, which ends it; nothing done changes nothing; an error gives the report up |
| Timers.ReportSender.Start | src/api/masque.rs:205-221 | a report starts only when no other is unfinished |

## Left out

- quiche, tun-rs, tokio, socket2 and libc internals: they appear as oracles (any partial count within range, any answer, sleeps at least as long as asked).
- UdpBatch.UdpBatchIo.SendBatch: models the FreeBSD `sendmmsg`/`recvmmsg` path; the portable one-datagram path of other targets is not modelled, nor is the unsafe marshalling.
- UdpBatch: `try_io` readiness bookkeeping; a call that waits for readiness for ever is the status `Waiting`.
- Timers.SleepFor: the readings of the three elapsed times in one trip are taken as one instant, the time between them being part of the oversleep.
- Timers: the failure exit of `send_ack_eliciting`, the telemetry and diagnostics intervals.
- Pump: ICMP replies and their writes to the TUN device are in `PumpCode.PumpState.QueueTxDatagrams`, not in the transition system; a packet the TUN device refuses counts as delivered to it, as the code only logs it.
- PumpCode.PumpState: its methods run without the reader in between; interleaving is the business of the transition system, which `PumpCode.BurstIsRun` ties to them.
- Packets still queued when a session ends, other than because the reader ended, are discarded uncounted, so the accounting of `PumpTheorems.ExactlyOnceInOrder` ends with the session.
- Fairness of the scheduler: `PumpTheorems.EveryPacketSettles` counts pump steps; that the scheduler lets the pump run, or the reader hand over the packet it holds, is not modelled.
- The activation probe, connect and disconnect hooks, and their pairing (the early exits skip the disconnect side).
- Endpoints: trimming, bracket stripping, IP parsing and PEM decoding are parameters; error message text is not modelled.
- InternetChecksum.Checksum: debug builds panic where the accumulator overflows; the wrapping of release builds is modelled.
- TLS, registration, enrollment, Mesh HTTP calls, device-state payloads, MDM, CLI parsing, logging and statistics text.
