# Model and proofs of the modem's protocol and coding cores

A modem that speaks over sound and light keeps its protocols and codes in C files
that do no input or output. This project models them in Dafny and proves
what they are for.

Each part has the same shape. Functions on values say what one step of the
source does: same branches, same constants, same error cases. Classes and
methods do that step the way the source does it, in place, with loops over
rings, arrays and queues, and are proved equal to the functions. Theorems are then
proved about the functions: over every run of two ends and a hostile channel,
over every input of a codec, over every image.

- **Packet transport** (`PacketTransport`, `ByteStream`, `TransportInvariant`,
  `TransportSteps`, `TransportRuns`, `TransportWindow`, `TransportCalls`, `TransportProgress`,
  `TransportResend`, `TransportDelivery`,
  `RetrySelection`; in place `PacketQueues`, `PacketEndpoints`): selective repeat with sixteen-slot rings, back-pressure, and a
  packet stream cut into 83-byte cells. Frames may be lost, repeated
  and reordered without bound.
- **Session** (`LightSession`, `SessionRoute`, `SessionRuns`, `SessionReconnect`,
  `SessionRecovery`, `SessionProgress`, `SessionDelivery`, `SessionSilence`; in place `LightPeers`): the four-way handshake, timeouts, crashes
  and restarts, and the reset of sequence spaces when the peer is a new one.
- **Streams** (`LightStreams`, `StreamRuns`, `StreamDelivery`, `StreamSession`; in place
  `StreamPeers`): the bulk transfer of two byte streams, and the exact
  course of a session without loss.
- **Code** (`ConvolutionalCode`, `Viterbi`, `CodeDistance`, `CodeCorrection`,
  `PuncturedDistance`, `Interleaver`, `BitPacking`, `BlockCodec`, `BlockWhitening`; in place `ViterbiDecoder`): maximum
  likelihood, lower bounds on the distance of codewords at all three rates, what is corrected, and block round trips.
- **Optical frame** (`LightFrames`, `FrameKeys`, `FrameOrientations`, `FrameDamage`,
  `ByteBits`, `LightLocator`, `FrameFinding`): encoding and decoding under the eight
  symmetries of the square, and the flood fill, which finds every frame.
- **Audio proxy** (`ProxyWire`, `ProxyLink`, `ProxyWindows`, `ProxyRuns`,
  `ProxyDelivery`, `ProxyToken`, `ProxyNumbers`, `ProxyPairs`, `ProxyProgress`,
  `ProxyRecovery`, `ProxyStaleTurn`, `ProxyWrap`, `ProxyQueues`, `ProxyFlows`,
  `ProxyAdmission`, `ProxyBatch`, `ProxyTurns`; in place `ProxyStates`): one token, windows repaired from bitmaps until
  they are through, and a bounded queue that keeps TCP flows in order.
- **Calibration** (`Calibration`, `CalibrationGuard`, `CalibrationSearch`,
  `CalibrationFrontier`, `CalibrationProbes`, `CalibrationRanking`; in place
  `CalibrationSearcher`): the guard, the bounded search, and the ranking.
- **Checksums** (`Crc`, `CrcWords`, `CrcDivision`, `InternetChecksum`, `NetworkStream`,
  `TrafficReplies`, `DnsRejection`, `RejectedQuestion`; in place `ByteBuffers`,
  `NetworkBuffers`, `ReplyBuffers`): the cyclic redundancy check as a division of bit
  strings, the one's complement checksum of section 1 of RFC 1071, streams of packets that validate, and the
  replies of the traffic policy.

Five properties one might expect do not hold; each has a counterexample and the
condition under which it does. In the
packet transport a cell may be due and yet not be sent again in that frame,
because the draw changes the state that decides what is due
(`RetrySelection.RetryExact`, `RetrySelection.RetryCanMiss`). The guard of a valid mode
may be no mode at all, on nine families of bands (`Calibration.GuardExact`,
`Calibration.GuardCanFail`); it always is one for the modes a search can hold
(`CalibrationSearch.EveryNodeIsGuarded`). The rejection of a DNS query may not carry
its question, when the name is read through the flags the reply rewrites
(`RejectedQuestion.RejectionKeepsQuestion`, `RejectedQuestion.RejectionCanLoseQuestion`).
In the audio proxy a late message can end a session: exactly an offer of a turn that is over,
heard by an end that waits (`ProxyStaleTurn.StaleOfferBreaksExactly`,
`ProxyStaleTurn.StaleOfferBreaks`). And its token is safe only while no message is heard 65536
turns or windows late, because its numbers have sixteen bits (`ProxyWrap.SixteenBitsSuffice`,
`ProxyWrap.LateMessagesBreakToken`).

`dafny verify dfyconfig.toml` checks the whole project.

## Model

| member | source | states |
|---|---|---|
| TransportRuns.DequeuedIsPrefix | src/light_packet.c:492-612 | in every run over a channel that loses, repeats and reorders frames, what either end dequeued is byte for byte a prefix of what the other end accepted |
| TransportRuns.NoFrameIsRejected | src/light_packet.c:567-612 | in every run, processing any frame the peer ever built, however late or repeated, succeeds |
| TransportRuns.DequeueNeverBreaks | src/light_packet.c:509-536 | in every run the drain inside dequeue meets no record of impossible length |
| TransportRuns.NothingIsLost | src/light_packet.c:269-373 | in every run each sequence cut is still held by the sender or was received; held cells lie in [remote base, next); the next slot is free whenever the window has room |
| TransportDelivery.EverythingArrives | src/light_packet.c:492-612 | from every reachable state, whatever was lost before: one exchange without loss, and then a pause of at most twice the retransmit delay (four frames more than it, if it is short; one exchange more if the frames cross) for every packet, byte and cell outstanding, and the application that keeps dequeuing has all that was accepted while the sender holds no cell; only 4 GB of records in one generation use up the sequence space before |
| TransportDelivery.ExchangeMoves | src/light_packet.c:509-612 | an exchange without loss, its frames crossing or not, never leaves more to do, and leaves less unless nothing was dequeued and no cell was sent |
| TransportDelivery.PatienceHelps | src/light_packet.c:538-565 | as many exchanges as the sender is patient leave less to do, unless nothing is left |
| TransportDelivery.PauseHelps | src/light_packet.c:538-612 | a pause of exchanges leaves less to do, unless nothing is left, also when the frames of the two ends cross |
| TransportDelivery.ExchangeSwaps | src/light_packet.c:492-612 | an exchange of crossing frames is the same exchange seen from the other end, so it serves both directions |
| TransportDelivery.IdleIsFinished | src/light_packet.c:269-299 | two ends that have been idle for that long have delivered everything |
| TransportDelivery.StepGood | src/light_packet.c:375-431 | in every run a receiver stops draining only when the next cell is missing or its queue is full |
| TransportDelivery.ExchangeIsSteps | src/light_packet.c:492-612 | an exchange without loss is six events of a run: a dequeue and a build at either end, and two deliveries |
| TransportDelivery.ReachableSwaps | src/light_packet.c:492-612 | what holds of one direction in every run holds of the other |
| TransportResend.SilenceIsBounded | src/light_packet.c:538-565 | in every run: a sender that holds a cell and hears nothing sends data again at most twice the retransmit delay (or four frames more than it) after the last frame it sent data in |
| TransportResend.NotRepeatedEarly | src/light_packet.c:180-226 | in every run a held cell is not sent again before its retransmit delay has passed |
| TransportWindow.WindowHolds | src/light_packet.c:168-299 | in every run neither end holds more cells than its window |
| TransportWindow.NewCellExactly | src/light_packet.c:538-565 | in every run a built frame carries a new sequence if and only if no held cell is picked again, a packet waits, fewer cells are held than the window, the next sequence is below the remote base plus sixteen, and sequence space is left |
| TransportWindow.BuildCounts | src/light_packet.c:269-299 | building adds one held cell exactly when a new sequence is used |
| TransportCalls.EnqueueExact | src/light_packet.c:492-507 | a packet is accepted exactly when its length is legal and the queue has room, and then waits last |
| TransportCalls.DequeueExact | src/light_packet.c:509-536 | in every run: the status of a dequeue is decided by the room given and the oldest packet waiting, which is handed out or stays |
| TransportCalls.RefusedExactly | src/light_packet.c:567-612 | a frame is refused exactly when its header names what was not sent, its data is malformed or out of reach, or the drain fails; what a refused frame changes is said for each case |
| TransportResend.OldIsPicked | src/light_packet.c:180-226 | when every held cell has waited the longest delay the two passes of the selection agree, and one of the cells is sent again |
| TransportResend.OldIsDue | src/light_packet.c:180-194 | a cell that has waited the longest delay is due in every random state |
| TransportResend.RunStamps | src/light_packet.c:538-565 | in every run no cell was last sent after the latest frame built |
| TransportProgress.ExchangeRetires | src/light_packet.c:538-612 | in every run: a frame with data that arrives, followed by an answer that arrives, retires its cell and with it every other cell the peer has received |
| TransportProgress.AckRetires | src/light_packet.c:301-373 | the acknowledgement of a receiver frees every cell it has received |
| TransportProgress.CellArrives | src/light_packet.c:567-612 | the cell of a frame that arrives has been received |
| TransportRuns.RunKeeps | src/light_packet.c:492-612 | the two-ended invariant behind these, kept by every run |
| TransportRuns.StepKeeps | src/light_packet.c:492-612 | the invariant is kept by every enqueue, dequeue, build and delivery at either end |
| TransportRuns.DeliverKeeps | src/light_packet.c:567-612 | delivering any frame of the past succeeds and keeps both directions |
| TransportRuns.StartOk | src/light_packet.c:433-479 | two new transports with one packet limit satisfy the invariant |
| TransportSteps.ApplyAckOk | src/light_packet.c:339-373 | an acknowledgement that claims only received cells is accepted and frees only received cells |
| TransportSteps.AckResult | src/light_packet.c:327-373 | after an acknowledgement a slot is empty exactly when its cell lies below the base or is named by a mask bit; other slots are untouched |
| TransportSteps.AckHeaderOk | src/light_packet.c:301-325 | the header a receiver writes claims only what it received |
| TransportSteps.AcceptOk | src/light_packet.c:580-611 | a cell of the peer always fits the window, never collides in its ring slot, and taking it hands over the next accepted packets in order |
| TransportSteps.SlotHoldsCell | src/light_packet.c:599-606 | an occupied slot of the receive window holds the very sequence that belongs there, so the collision error cannot arise |
| TransportSteps.SlotIsFree | src/light_packet.c:283-287 | a new cell always finds its slot free |
| TransportSteps.CreateCellOk | src/light_packet.c:269-299 | cutting a cell appends one chunk to the sent stream and keeps every cell in flight |
| TransportSteps.ProcessOk | src/light_packet.c:567-612 | a frame the peer built is accepted and keeps both directions |
| TransportSteps.BuildOk | src/light_packet.c:538-565 | a built frame carries a true acknowledgement and, if it has data, a cell inside the peer's window |
| TransportSteps.ResendOk | src/light_packet.c:550-564 | sending a held cell again repeats its bytes exactly |
| TransportSteps.EnqueueOk | src/light_packet.c:492-507 | an accepted packet joins the end of the stream and disturbs nothing sent before |
| TransportSteps.DequeueOk | src/light_packet.c:509-536 | dequeue hands out the oldest packet and then drains the next accepted ones |
| TransportInvariant.DrainOk | src/light_packet.c:375-431 | a drain never fails on the peer's cells, hands over exactly the next accepted packets, and stops only when the next cell is missing or its packet would overflow the queue |
| TransportInvariant.TurnOk | src/light_packet.c:377-430 | each turn of the drain loop stops in order or hands over at most the next packet |
| ByteStream.SerializeContinues | src/light_packet.c:228-267 | serializing resumes the length-prefixed stream exactly at the byte where the last cell ended, across record and packet boundaries |
| ByteStream.SentPrefix | src/light_packet.c:228-267 | what has been serialized is a prefix of the records of the accepted packets |
| PacketTransport.SerializeStep | src/light_packet.c:234-265 | one record taken as far as there is room, then the rest of the queue |
| RetrySelection.PickDueExact | src/light_packet.c:213-225 | the second pass finds the due cell with exactly the drawn number of due cells before it, if there is one |
| RetrySelection.RetryExact | src/light_packet.c:196-226 | a cell is picked if and only if some cell was due and the drawn choice is below the number due under the random state after the draw |
| RetrySelection.RetryCanMiss | src/light_packet.c:180-226 | a concrete ring, state and frame where a cell is due and none is picked |
| PacketQueues.PacketQueue.constructor | src/light_packet.c:101-119 | an empty queue of fixed capacity and slot width |
| PacketQueues.PacketQueue.Push | src/light_packet.c:134-146 | appends, or refuses exactly when full, leaving the contents alone |
| PacketQueues.PacketQueue.Head | src/light_packet.c:148-157 | the oldest packet |
| PacketQueues.PacketQueue.Pop | src/light_packet.c:159-166 | drops the oldest packet; nothing happens to an empty queue |
| PacketEndpoints.PacketEndpoint.constructor | src/light_packet.c:433-479 | a fresh transport with a nonzero instance id |
| PacketEndpoints.PacketEndpoint.EnqueuePacket | src/light_packet.c:492-507 | the in-place enqueue is the step TransportRuns reasons about, status included |
| PacketEndpoints.PacketEndpoint.CountInFlight | src/light_packet.c:168-178 | the number of occupied transmit slots |
| PacketEndpoints.PacketEndpoint.SerializeRecord | src/light_packet.c:234-265 | one turn of the serializer, after which the rest of the cell is what remains to be done |
| PacketEndpoints.PacketEndpoint.SerializeCell | src/light_packet.c:228-267 | the bytes, queue and record offset of the serializing step, from an in-place loop |
| PacketEndpoints.PacketEndpoint.CutCell | src/light_packet.c:269-299 | a cell is cut exactly when window, sequence space and queue allow it |
| PacketEndpoints.PacketEndpoint.ChooseRetry | src/light_packet.c:196-226 | the slot and random state of the two-pass selection |
| PacketEndpoints.PacketEndpoint.WriteAck | src/light_packet.c:301-325 | the header with the base and the mask of the sixteen sequences from it |
| PacketEndpoints.PacketEndpoint.ReleaseCell | src/light_packet.c:327-337 | empties the one slot that holds the sequence |
| PacketEndpoints.PacketEndpoint.TakeAck | src/light_packet.c:339-373 | the new ring, base and status of the acknowledgement step, all error cases included |
| PacketEndpoints.PacketEndpoint.ParseByte | src/light_packet.c:385-426 | one byte of the record parser, the full queue included |
| PacketEndpoints.PacketEndpoint.RetireCell | src/light_packet.c:428-429 | the finished front cell leaves and the base moves up |
| PacketEndpoints.PacketEndpoint.DrainReceive | src/light_packet.c:375-431 | the receiver state and status of the drain, from the nested loops |
| PacketEndpoints.PacketEndpoint.DequeuePacket | src/light_packet.c:509-536 | packet, status and state of the dequeue step |
| PacketEndpoints.PacketEndpoint.BuildFrame | src/light_packet.c:538-565 | frame and state of the build step, and whether it is a retransmission |
| PacketEndpoints.PacketEndpoint.ProcessFrame | src/light_packet.c:567-612 | status and state of the process step; the state stays legal unless the drain itself meets a record of impossible length |
| PacketEndpoints.PacketEndpoint.ForgetGeneration | src/light_packet.c:626-642 | rings, sequence spaces, half-sent record and parser are reset; both queues stay |
| LightSession.ControlReads | src/light_session.c:412-436 | a control payload is valid for a peer exactly when both use one packet limit, and it names its sender's instance |
| SessionRuns.ConnectedPeersAgree | src/light_session.c:759-931 | with crashes and fresh ids: once the client has an offer and the gateway a client, a common session; both connected implies each knows the other's real instance, equal limits, and agreeing sequence spaces in both directions |
| SessionRuns.NothingTwice | src/light_session.c:678-698 | across crashes and restarts, what each receiver side handed out is a subsequence of everything accepted on the other side: in order, nothing twice |
| SessionRuns.NothingRejected | src/light_session.c:700-757 | in every such run no stream frame of its own session is ever rejected by either peer |
| SessionRuns.RunKeeps | src/light_session.c:1380-1437 | the invariant of the lock-step system, kept by every run with restarts |
| SessionRuns.StepKeeps | src/light_session.c:1380-1437 | the invariant is kept by every queue operation, round and restart |
| SessionRuns.RoundsKeep | src/light_session.c:1380-1437 | both frames built, each delivered or dropped, timeouts checked: the invariant is kept |
| SessionRuns.GatewayTakesKeeps | src/light_session.c:759-834 | every frame the client can have sent this round leaves the gateway in a legal state |
| SessionRuns.ClientTakesKeeps | src/light_session.c:836-893 | every frame the gateway can have sent this round leaves the client in a legal state |
| SessionRuns.TimeoutsKeep | src/light_session.c:901-931 | a timeout with a fresh session id keeps the invariant |
| SessionRuns.ClientRestarts | src/light_session.c:1263-1292 | a client restarted with fresh ids keeps the invariant |
| SessionRuns.GatewayRestarts | src/light_session.c:1263-1292 | a gateway restarted with a fresh instance keeps the invariant |
| SessionRoute.Joins | src/light_session.c:678-698 | when both ends have reset for each other, their sequence spaces agree and the packets of earlier generations stay accounted for |
| SessionRoute.SenderResets | src/light_packet.c:626-642 | a sender that resets alone never makes the receiver repeat a packet |
| SessionRoute.ReceiverResets | src/light_packet.c:626-642 | a receiver that resets alone never repeats a packet |
| SessionRoute.SenderCrashes | src/light_session.c:1263-1292 | a new sender starts a new generation without touching what was delivered |
| SessionRoute.ReceiverCrashes | src/light_session.c:1263-1292 | a new receiver loses only what had not been handed out |
| SessionRoute.HandedIsSent | src/light_packet.c:228-267 | a packet the receiver was handed has left the sender's queue, so a new generation cannot send it again |
| SessionRoute.ProcessMoves | src/light_session.c:700-749 | between joined ends a stream frame is accepted and both histories stay in order |
| SessionRoute.TagsMean | src/light_session.c:678-698 | the ghost tags of delivered packets are strictly increasing places in the log, hence a subsequence |
| SessionReconnect.ReconnectingLosesNothing | src/light_session.c:678-698 | without crashes, reconnecting after timeouts with the same instances loses nothing: both directions stay exact prefixes |
| SessionReconnect.RunCalm | src/light_session.c:901-931 | no run without restarts starts a second generation |
| SessionRecovery.Recovers | src/light_session.c:759-931 | from every reachable state, 5 rounds more than the longer timeout without loss connect both peers |
| SessionRecovery.LosslessRound | src/light_session.c:1380-1437 | a round without loss keeps two connected peers connected, and otherwise lowers a rank |
| SessionRecovery.RankBound | src/light_session.c:901-931 | the rank is bounded by the timeouts, and rank zero is both connected |
| SessionSilence.ClientBearsSilence | src/light_session.c:901-931 | a client that hears nothing keeps phase and session exactly until its timeout has passed since the last frame it heard, whatever else happens, restarts of the gateway included |
| SessionSilence.GatewayBearsSilence | src/light_session.c:901-931 | so does the gateway |
| SessionSilence.NobodyWaitsLonger | src/light_session.c:901-931 | in every run, with crashes and restarts, a peer in a handshake or a connection has heard a frame within its timeout |
| SessionSilence.ConnectionsEndBySilence | src/light_session.c:759-931 | in every run a connected peer stays connected in its session until it is restarted or has heard nothing for its timeout: no discovery of another session, repeated handshake or damaged cell ends a connection |
| SessionSilence.FramesKeepConnections | src/light_session.c:759-893 | no frame whatever disconnects a peer |
| SessionProgress.RoundGetsThrough | src/light_session.c:759-893 | in every run with both peers connected: in a round without loss both peers send stream frames, the cell of each data frame is received at the other end, and each sender frees every cell the other end had received |
| SessionProgress.RoundParts | src/light_session.c:1380-1437 | such a round is, in the transports, two builds and two deliveries |
| SessionDelivery.PacketsGetThrough | src/light_session.c:1380-1437 | in every run without restarts: six rounds without loss more than the longer timeout, and then a pause for every packet, byte and cell of the logs, and both applications, dequeuing every round, have dequeued exactly what the other end accepted, in both directions |
| SessionDelivery.ConnectedDelivers | src/light_session.c:1380-1437 | the same for peers that are connected, without the rounds to connect |
| SessionDelivery.TurnAlike | src/light_session.c:1380-1437 | a turn of a connected session is an exchange of the two transports in it |
| SessionDelivery.TurnKeeps | src/light_session.c:901-931 | a turn without loss keeps limits, logs and the invariant, whatever the phases |
| SessionDelivery.RunTends | src/light_session.c:1380-1437 | in every run receivers stay drained and no cell was sent in a frame to come |
| LightPeers.LightPeer.constructor | src/light_session.c:1263-1292 | a new peer: nonzero ids, discovering and listening |
| LightPeers.LightPeer.AdvanceFrame | src/light_session.c:1007-1016 | the local frame counter moves forward only |
| LightPeers.LightPeer.BuildControl | src/light_session.c:412-436 | the control frame of the present state |
| LightPeers.LightPeer.BuildStreamFrame | src/light_session.c:438-499 | the stream frame of the transport, in packet mode |
| LightPeers.LightPeer.BuildClientFrame | src/light_session.c:501-520 | frame and state of the client's turn in every phase |
| LightPeers.LightPeer.BuildGatewayFrame | src/light_session.c:522-544 | frame and state of the gateway's turn in every phase |
| LightPeers.LightPeer.AcceptInstance | src/light_session.c:678-698 | a new remote instance resets the generation, a known one does not |
| LightPeers.LightPeer.ProcessStreamFrame | src/light_session.c:700-749 | the transport takes the stream part, status included; the peer stays legal unless the drain fails |
| LightPeers.LightPeer.TakeDiscover | src/light_session.c:766-793 | a discovery is refused only while another session is connected |
| LightPeers.LightPeer.ProcessGatewayReceive | src/light_session.c:759-834 | the gateway's reaction to any frame, as SessionRuns reasons about it; it stays legal unless the drain fails |
| LightPeers.LightPeer.ProcessClientReceive | src/light_session.c:836-893 | the client's reaction to any frame, as SessionRuns reasons about it; it stays legal unless the drain fails |
| LightPeers.LightPeer.CheckTimeouts | src/light_session.c:901-931 | only a client's timeout draws a session id |
| LightPeers.LightPeer.BuildPeerFrame | src/light_session.c:1095-1120 | frame and state for a local frame number, or a refusal to go back |
| LightPeers.LightPeer.ProcessPeerFrame | src/light_session.c:1122-1151 | the frame, if any, is taken and then the timeout is checked |
| StreamRuns.CompleteIsWhole | src/light_session.c:1165-1183 | completion seen at either peer implies that both sinks equal their sources |
| StreamRuns.StreamsStayInOrder | src/light_session.c:257-410 | in every run: acknowledged chunks were received intact, the base is the exact contiguous prefix, chunks in flight stay within the window, and no frame of the peer is refused |
| StreamRuns.RunKeeps | src/light_session.c:280-410 | the two-ended stream invariant, kept by every run |
| StreamRuns.AckKeeps | src/light_session.c:280-308 | a true acknowledgement is accepted and marks only received chunks |
| StreamRuns.ChunkKeeps | src/light_session.c:310-337 | a true chunk is accepted, lands in its place, and the base stays exact |
| StreamRuns.SelectKeeps | src/light_session.c:368-410 | a chunk is chosen only if it is in flight already or the window has room |
| StreamRuns.DeliverKeeps | src/light_session.c:700-749 | any frame of the past is accepted and keeps the invariant |
| StreamDelivery.StreamArrives | src/light_session.c:257-410 | from every reachable state, with a window no larger than the retransmit delay: one exchange without loss, and then a bounded pause for every chunk still lacking, and the sink equals the source while the sender knows that every chunk arrived |
| StreamDelivery.KnowingHelps | src/light_session.c:352-410 | a sender that knows what the receiver can tell brings another chunk over within its patience and a window of frames |
| StreamDelivery.AckExact | src/light_session.c:257-308 | an acknowledgement marks exactly the chunks the receiver has below its base and in the sixteen from it |
| StreamDelivery.ChunkArrives | src/light_session.c:310-337 | the chunk of a true frame that arrives has been received; a repeated one changes nothing |
| StreamDelivery.NotRepeatedEarly | src/light_session.c:352-410 | in every run a chunk is not sent again before its retransmit delay has passed, nor after it was acknowledged |
| LightStreams.RetryFinds | src/light_session.c:352-410 | a chunk is repeated exactly when one is due, and it is the one the draw names: unlike in the packet transport, the second pass always finds it |
| LightStreams.PickFinds | src/light_session.c:382-397 | a choice below the number of due chunks is found, with that many due chunks before it |
| LightStreams.ChunkInside | src/light_session.c:231-239 | the chunks tile the stream without gap or overlap |
| StreamPeers.LightStream.constructor | src/light_session.c:185-220 | a stream with nothing sent, acknowledged or received |
| StreamPeers.LightStream.SenderDoneCheck | src/light_session.c:241-250 | whether every chunk is acknowledged |
| StreamPeers.LightStream.WriteAck | src/light_session.c:257-278 | the acknowledgement of the present state |
| StreamPeers.LightStream.TakeAck | src/light_session.c:280-308 | new flags and status of the acknowledgement step |
| StreamPeers.LightStream.StoreChunk | src/light_session.c:324-331 | the chunk in its place, the rest of the sink unchanged |
| StreamPeers.LightStream.AdvanceBase | src/light_session.c:332-335 | the base moves to the first missing chunk |
| StreamPeers.LightStream.ReceiveChunk | src/light_session.c:310-337 | new sink, flags, base and status of the receive step |
| StreamPeers.LightStream.CountInFlight | src/light_session.c:339-350 | the number of chunks sent and not acknowledged |
| StreamPeers.LightStream.CountDue | src/light_session.c:374-381 | the number of chunks due for a repeat |
| StreamPeers.LightStream.PickDue | src/light_session.c:382-397 | the due chunk the draw names |
| StreamPeers.LightStream.NextUnsent | src/light_session.c:402-408 | the first chunk never sent |
| StreamPeers.LightStream.SelectChunk | src/light_session.c:368-410 | choice, kind and random state of the selection |
| StreamPeers.BuildStreamFrame | src/light_session.c:438-499 | frame and new flags of a connected peer in stream mode |
| StreamPeers.ProcessStreamFrame | src/light_session.c:700-749 | new flags, sink and status in stream mode |
| StreamSession.LosslessSession | src/light_session.c:1380-1437 | without loss, window and delay at least 2: no retransmission, no timeout, both sinks whole, at most 6 frames more than the longer stream has chunks |
| StreamSession.Simulate | src/light_session.c:1380-1437 | the simulation loop is the session function the theorem is about |
| StreamSession.StepsExpected | src/light_session.c:1380-1437 | each frame takes the closed-form state of a lossless session to the next one |
| StreamSession.BuildNext | src/light_session.c:352-410 | a side in step sends its next chunk and draws nothing |
| StreamSession.TakeNext | src/light_session.c:280-337 | taking the frame of a side in step acknowledges and stores exactly one more chunk |
| Viterbi.MaximumLikelihood | src/fec.c:107-191 | for every soft input of the right length and every rate, no data word correlates better than the decoded one |
| Viterbi.SelectIsBest | src/fec.c:158-173 | after the add-compare-select loop no way into a state beats its metric |
| Viterbi.SelectIsReal | src/fec.c:158-173 | a selected metric belongs to a real predecessor and input |
| Viterbi.MetricIsBest | src/fec.c:147-177 | every path of t inputs scores at most the metric of its last state |
| Viterbi.TraceIsBest | src/fec.c:179-185 | the traceback is a path into the state with exactly its metric |
| Viterbi.TraceIsDecoded | src/fec.c:179-185 | state zero is reached and the best path into it ends in the six tail bits |
| Viterbi.DepunctureKeepsCorrelation | src/fec.c:141-145 | zeros at punctured places change no correlation |
| ViterbiDecoder.FillDepunctured | src/fec.c:141-145 | the received values at kept places, zeros elsewhere |
| ViterbiDecoder.TryRegister | src/fec.c:160-172 | one candidate extends the minimum over the candidates tried so far, with its predecessor |
| ViterbiDecoder.SelectStep | src/fec.c:152-176 | one trellis step writes the best metric and predecessor of each of the 64 states |
| ViterbiDecoder.RunTrellis | src/fec.c:147-177 | all steps, the predecessor rows kept for the traceback |
| ViterbiDecoder.TraceBack | src/fec.c:179-185 | walking the predecessors back from state zero writes the data bits of the best path |
| ViterbiDecoder.DecodeBits | src/fec.c:107-191 | decoded bits or the argument error, exactly as the lengths say; the buffer beyond is untouched |
| PuncturedDistance.FreeDistance | src/fec.c:11-105 | codewords of different data words of one length differ in at least ten places at rate 1/2 and in at least five at rates 2/3 and 3/4 |
| PuncturedDistance.PuncturedPathsApart | src/fec.c:69-105 | different paths are, in the outputs the pattern keeps, at least the potential of their difference apart |
| PuncturedDistance.PotentialRises | src/fec.c:11-13 | at every place of every pattern the 64-state potential rises by no more than the kept output weight of the step |
| CodeDistance.PotentialStep | src/fec.c:161-163 | the 64-state potential drops by no more than the output weight of a step |
| CodeCorrection.ErrorsAreCorrected | src/fec.c:107-191 | at every rate, e wrong signs among values between two bounds decode to exactly the data while (d - e) times the lower bound exceeds e times the upper one, where d is 10 at rate 1/2 and 5 at the others |
| CodeCorrection.EqualErrorsAreCorrected | src/fec.c:107-191 | among values of one magnitude four wrong signs at rate 1/2, and two at the others, are corrected |
| CodeCorrection.FourErrorsAreCorrected | src/fec.c:107-191 | at rate 1/2 up to four wrong signs among equal magnitudes decode to exactly the data |
| CodeCorrection.GainBound | src/fec.c:107-191 | how much better the sent word correlates than any other, from their distance and the number of wrong signs |
| CodeCorrection.DecodeUndoesEncode | src/fec.c:69-191 | at every rate soft values with the right signs, of any nonzero size, decode to the data |
| CodeCorrection.CodewordsDiffer | src/fec.c:11-105 | at every rate the punctured code is injective |
| CodeCorrection.PathsAreTold | src/fec.c:11-105 | equal punctured outputs come from equal inputs |
| CodeCorrection.OutputsFlip | src/fec.c:161-163 | both outputs tap the newest input |
| ConvolutionalCode.FirstTaps | src/fec.c:35-41 | folding the masked register is the sum of the tapped inputs modulo two |
| ConvolutionalCode.SecondTaps | src/fec.c:35-41 | the same for the second polynomial |
| ConvolutionalCode.ZeroStateIsTail | src/fec.c:69-105 | a path ends in state zero exactly when it ends in the tail |
| ConvolutionalCode.EncodedBits | src/fec.c:43-67 | the count from whole groups and a remainder is the number of kept bits; zero exactly for a length that would overflow |
| ConvolutionalCode.EncodeBits | src/fec.c:69-105 | the encoder writes the punctured codeword of the lowest bits of any values, or reports the capacity error and writes nothing |
| Interleaver.GcdSize | src/crc.c:60-68 | the Euclidean loop computes the greatest common divisor |
| Interleaver.StrideIsCoprime | src/interleave.c:3-20 | the stride is coprime to the count, and the largest such number from the starting value (five eighths of the count plus one, but below the count) down |
| Interleaver.InterleaveStride | src/interleave.c:3-20 | the decrementing loop finds that stride |
| Interleaver.PlaceIsInjective | src/interleave.c:22-34 | no two inputs go to one place, for every count |
| Interleaver.InterleavedAt | src/interleave.c:22-34 | input i is output element i * stride mod count, and nothing else is there |
| Interleaver.DeinterleaveUndoes | src/interleave.c:22-48 | interleaving and deinterleaving undo each other both ways |
| Interleaver.InterleaveBits | src/interleave.c:22-34 | the loop writes the interleaved sequence, or refuses one buffer for both |
| Interleaver.DeinterleaveSoft | src/interleave.c:36-48 | the loop writes the deinterleaved sequence, or refuses one buffer for both |
| BitPacking.FromBitsUndoes | src/crc.c:36-58 | packing undoes unpacking |
| BitPacking.BytesToBits | src/crc.c:36-46 | eight bits a byte, highest first, nothing else written |
| BitPacking.BitsToBytes | src/crc.c:48-58 | the packed lowest bits of any values, a last partial byte filled with zeros |
| BlockCodec.BlockRoundTrip | src/modem.c:1099-1138 | decoding undoes encoding for all bytes, rates and capacities, from any values of the right signs |
| BlockCodec.BlockErrorsAreCorrected | src/modem.c:1099-1138 | at every rate wrong values of a block, wherever they fall, still give back the bytes while the right ones outweigh them |
| BlockCodec.FourBlockErrorsAreCorrected | src/modem.c:1099-1138 | at rate 1/2 any four wrong values among equal magnitudes still give back the bytes |
| BlockWhitening.WhitenedAt | src/modem.c:450-497 | a coded bit is flipped exactly by its whitening bit, and filler bits are the whitening itself |
| BlockWhitening.HalfBegins | src/modem.c:450-460 | the first whitening bits of a block of eight bytes at rate 1/2 |
| BlockWhitening.TwoThirdsBegins | src/modem.c:450-460 | the same at rate 2/3 |
| BlockWhitening.ThreeQuartersBegins | src/modem.c:450-460 | the same at rate 3/4 |
| BlockCodec.CodeBytes | src/modem.c:478-489 | the coded bits, or the capacity error |
| BlockCodec.Whiten | src/modem.c:490-497 | coded and filler bits whitened in place |
| BlockCodec.EncodeBlock | src/modem.c:462-511 | the interleaved block of the round trip theorem, or the capacity error |
| BlockCodec.DecodeBlock | src/modem.c:1099-1138 | the bytes of the round trip theorem, or the truncation and length errors |
| LightFrames.FrameRoundTrip | src/light.c:254-323 | every frame, seen through any of the eight orientations with dark and light on the right sides of the threshold, decodes under that orientation to its type, session, sequence and payload with zero corrected bits |
| LightFrames.DamagedFrame | src/light.c:813-908 | a frame with e wrong modules and soft values between two bounds decodes to its content while (10 - e) times the lower bound exceeds e times the upper one, and the number of corrected bits is exactly e |
| LightFrames.FourWrongModules | src/light.c:813-908 | with even contrast, whatever it is, any four modules may be wrong |
| LightFrames.OrientInjective | src/light.c:773-811 | each orientation is a permutation of the grid |
| FrameOrientations.AllSymmetries | src/light.c:773-811 | every map of the grid that keeps distances is one of the eight orientations |
| FrameOrientations.KeepsDistances | src/light.c:773-811 | every orientation keeps all distances, so neighbours stay neighbours |
| FrameOrientations.Distinct | src/light.c:773-811 | no two of the eight show the frame alike |
| FrameOrientations.BackUndoes | src/light.c:773-811 | every orientation can be undone |
| FrameDamage.BurstIsRefused | src/light.c:866-883 | a raw frame damaged inside any 32 consecutive bits of the bytes its checksum covers, the length field apart, is refused: with a header error if the damage reaches the magic or the version, else with a checksum error |
| FrameDamage.WrongByteIsRefused | src/light.c:866-883 | so is a raw frame with any one wrong byte there |
| LightFrames.RawReads | src/light.c:291-303 | the raw frame reads back as its content: magic, version, lengths and checksum agree |
| LightFrames.KeyedTwice | src/light.c:94-101 | whitening undoes itself |
| FrameKeys.KeyBegins | src/light.c:94-101 | the first bytes of the key stream |
| FrameKeys.KeyIsNotZero | src/light.c:94-101 | the generator of the key never reaches zero |
| FrameKeys.ZerosShowKey | src/light.c:94-101 | zeros are whitened to the key stream itself |
| Crc.ComputeCrc | src/crc.c:3-17 | the bit-by-bit loop computes the checksum function |
| CrcDivision.ChecksumIsRemainder | src/crc.c:3-17 | the complement of the checksum is the remainder, modulo the generator polynomial over the field of two elements, of the message followed by 32 zeros with its first 32 bits inverted: stated with products and sums of bit strings, without the loop |
| CrcDivision.RemainderIsUnique | src/crc.c:3-17 | only one quotient and one remainder below degree 32 fit |
| CrcDivision.BurstIsCaught | src/crc.c:3-17 | two byte strings of one length that differ only inside 32 consecutive bits have different checksums |
| CrcDivision.WrongByteIsCaught | src/crc.c:3-17 | two byte strings that differ in one byte have different checksums |
| CrcDivision.StateIsFed | src/crc.c:8-14 | the loop feeds the register the bits of each byte, lowest first |
| CrcWords.StepUndone | src/crc.c:10-13 | no two register states step to the same one |
| LightFrames.Whiten | src/light.c:94-101 | the key stream applied in place |
| LightFrames.BuildRaw | src/light.c:291-304 | header, payload and checksum in one buffer |
| LightFrames.CodeFrame | src/light.c:305-314 | the coded and interleaved bits |
| LightFrames.DrawBorder | src/light.c:278-289 | border and quiet modules over the whole grid |
| LightFrames.EncodeFrame | src/light.c:254-323 | all modules of the frame, or the argument or capacity error with the buffer untouched |
| LightFrames.SampleBits | src/light.c:835-851 | clamped soft values of the data modules under an orientation |
| LightFrames.DecodeData | src/light.c:852-864 | decoded bits and the bytes they spell |
| LightFrames.Reconstruct | src/light.c:885-895 | the coded bits of what was decoded |
| LightFrames.CountDisagreements | src/light.c:896-901 | the number of places where seen and reconstructed bits differ |
| LightFrames.DecodeGrid | src/light.c:813-908 | status and content of the decoding function, every error included |
| LightLocator.FillComponent | src/light.c:630-662 | the flood fill marks exactly one 8-connected component and describes it: bounding box, count and the four extremal points |
| LightLocator.FindLocator | src/light.c:596-697 | the answer is decided by a qualifying component whose bounding box is of maximal area in the whole image, or by there being none |
| LightLocator.LookAround | src/light.c:639-661 | every dark neighbour is marked, each pixel is queued at most once, and the queue never overflows |
| LightLocator.LookAt | src/light.c:645-659 | one neighbour, inside the image, dark and new, is marked and queued |
| LightLocator.QueueRoom | src/light.c:655-659 | a pixel not in the queue still has room in it |
| LightLocator.FilledComponent | src/light.c:633-662 | an exhausted queue is the whole component |
| LightLocator.ClosedIsComponent | src/light.c:633-662 | a closed set of pixels connected to the start is its component |
| LightLocator.SameComponent | src/light.c:619-662 | connected pixels have one component, so components partition the dark pixels |
| LightLocator.AddBox | src/light.c:556-594 | one more pixel keeps the bounding box exact |
| LightLocator.AddCorners | src/light.c:556-594 | one more pixel keeps the four extremal points extremal |
| LightLocator.DescriptionsAgree | src/light.c:556-594 | any two descriptions of a component agree on box, count and qualification |
| LightLocator.BestNext | src/light.c:663-680 | comparing areas keeps the best over the components filled so far |
| FrameFinding.FrameIsFound | src/light.c:254-323 | every encoded frame is found in every upright picture of it, at any scale and under all eight orientations: whatever it carries, the locator answers with the four corners of its border, as long as a pixel around the grid is light and other things that could be a border are smaller |
| FrameFinding.GridIsFound | src/light.c:596-697 | the same for any grid with a dark border and a light separator |
| FrameFinding.FramesAreFramed | src/light.c:278-323 | every frame has that border and separator in every orientation, and shows each module where the camera sees it |
| FrameFinding.RingIsComponent | src/light.c:619-662 | the border is exactly one component: it hangs together, and the separator and the margin cut it off |
| FrameFinding.OnlyBorder | src/light.c:663-680 | no other component that could be a border has as large a box |
| FrameFinding.CoreIsSmall | src/light.c:663-680 | whatever the data modules look like, none of their components has as large a box as the border |
| ProxyToken.OneToken | src/live.c:4036-4384 | in every run at most one end holds the token, the turn numbers differ by at most one, and while neither end has given up the token is held or a commit for it is on its way |
| ProxyToken.WindowsArriveInOrder | src/live.c:3601-4034 | in every run the packets an end wrote are those of the peer's windows, in order, each once; a window the sender counts as finished was written whole |
| ProxyToken.NoWindowIsRefused | src/live.c:3870-4034 | no cell or end marker of the peer, however late or repeated, makes a receiver give up |
| ProxyStaleTurn.StaleOfferBreaksExactly | src/live.c:4091-4141 | in every run a message of the peer, however late or repeated, ends the session for another reason than a timeout if and only if it is an offer of a turn that is over and the end waits for the peer |
| ProxyStaleTurn.StaleOfferBreaks | src/live.c:4091-4141 | a concrete run in which nobody had given up, and a repeated first offer then ends the session with a header error |
| ProxyStaleTurn.OffersAreNotAhead | src/live.c:4091-4141 | in every run an end that waits never hears an offer of a turn to come |
| ProxyWrap.SixteenBitsSuffice | src/live.c:4036-4384 | with turn and window numbers of sixteen bits, in every run in which no message is heard 65536 or more turns or windows late: at most one token, it is held or on its way while neither end has given up, and the packets written are those of the first windows the peer started |
| ProxyWrap.LateMessagesBreakToken | src/live.c:4091-4141 | the bound is sharp: a run of sixteen-bit ends in which an offer and its commit, heard again after exactly 65536 turns, give the token to both ends |
| ProxyWrap.RunNarrow | src/live.c:4036-4384 | every such run of the sixteen-bit ends is the run with unbounded numbers, cut to sixteen bits |
| ProxyWrap.DeliverNarrow | src/live.c:4168-4384 | a sixteen-bit end takes a message that is not that late as the unbounded one does |
| ProxyNumbers.NoMessageIsAhead | src/live.c:3575-3599 | a message is at most one turn or window ahead of the end that hears it |
| ProxyNumbers.RunOrderly | src/live.c:3575-3599 | in every run the last commit and the last window finished are one behind the counters, and no end names a number it has not reached |
| ProxyToken.RunKept | src/live.c:4168-4384 | the whole invariant of token and windows, kept by every run |
| ProxyToken.TokenPlaces | src/live.c:3575-3599 | no step drops the token between holder, acceptor and commit on the way |
| ProxyRuns.RunSafe | src/live.c:4036-4141 | the token part of the invariant, kept by every run |
| ProxyRuns.TokenSteps | src/live.c:3784-3868 | any move that follows the token rules keeps the token safe |
| ProxyDelivery.RunLanes | src/live.c:3601-4034 | both directions of window transfer, kept in order by every run |
| ProxyDelivery.WindowReceives | src/live.c:3870-4034 | a true window message keeps what is written right |
| ProxyDelivery.CellReceives | src/live.c:3886-4034 | a true cell is stored, acknowledged, and written only when the window is whole |
| ProxyDelivery.AckSends | src/live.c:3708-3748 | the acknowledgement that ends a window is heard only after the peer wrote it |
| ProxyDelivery.RoundSends | src/live.c:3650-3704 | a repair round sends only cells of the current window |
| ProxyDelivery.TimeoutLanes | src/live.c:3705-3761 | a timeout at either end keeps both directions |
| ProxyProgress.WindowGetsThrough | src/live.c:3601-4034 | in every run: a sender with two rounds left and a waiting receiver, whatever was lost before: one repair round without loss, probe and answer included, and the receiver has written exactly the packets of the window, the sender counts it as finished, and the token is where the handoff says |
| ProxyProgress.FreshWindowGetsThrough | src/live.c:3601-4034 | in every run: a window the holder starts is written and finished by one round without loss, and the token changes hands if the sender yields and the receiver wants it |
| ProxyTurns.QueueGetsThrough | src/live.c:3176-4034 | in every run: a holder whose queue is not empty starts a window with packets of it, and one round without loss writes exactly these at the other end, in the order of the batch |
| ProxyTurns.TurnExact | src/live.c:4269-4384 | a holder offers its token exactly when it has nothing to send, and starts a window exactly when its batch fits one and a try is allowed |
| ProxyProgress.TokenGetsThrough | src/live.c:4036-4141 | in every run: a token offered, accepted and committed without loss is held by the other end |
| ProxyProgress.CellsComplete | src/live.c:3886-4034 | a receiver that hears a round with every cell it lacks completes the window with the last message |
| ProxyProgress.CellHeard | src/live.c:3886-4034 | one cell heard is recorded and nothing else is, and it completes the window exactly when it ends the round and no cell is missing |
| ProxyRecovery.Recovers | src/live.c:4168-4384 | from every reachable state in which both ends have tries left, a bounded exchange without loss leaves one end holding the token and the other waiting, with equal turns and nothing half done |
| ProxyRecovery.AcceptedWindow | src/live.c:3784-3868 | a piggybacked handoff whose answer or commit was lost is finished by the next repair round |
| ProxyRecovery.OfferGetsThrough | src/live.c:4041-4141 | an offer repeated without loss hands the token over, however many were lost before |
| ProxyRecovery.LostCommit | src/live.c:4036-4046 | a commit that was lost is repeated when the acceptor asks again |
| ProxyRecovery.SilenceEnds | src/live.c:4168-4384 | an end that waits and hears nothing gives up with a timeout exactly after its allowance, and for no other reason |
| ProxyPairs.RunPairs | src/live.c:4036-4384 | in every run the modes of the two ends fit each other: which pairs can occur, and which cells, turns and windows they then share |
| ProxyWindows.FullMeansWhole | src/live.c:3952-3972 | a full bitmap means that the buffer holds exactly the batch that was sent |
| ProxyWindows.RoundFits | src/live.c:3666-3703 | the cells of a round cover the missing part of the batch |
| ProxyWindows.StoresRight | src/live.c:3929-3948 | a cell of the window sets its bit, its bytes are in the buffer at its offset, and nothing else changes; an end marker changes nothing |
| ProxyWindows.OpensRight | src/live.c:3917-3928 | the first cell of a window opens it; later ones agree with it |
| ProxyWire.InspectExact | src/live.c:3400-3436 | a body is accepted if and only if it is a batch of one to 255 well-formed packets, and its reading is unique |
| ProxyWire.InspectProxyBatch | src/live.c:3400-3436 | id, yield bit, count and payload bytes from the walking loop, or the header error |
| ProxyWire.CellReads | src/live.c:3444-3482 | every valid cell reads back, the yield bit never touched by the length |
| ProxyQueues.BatchConserves | src/live.c:3176-3283 | batch and remainder together are the queue, and each TCP flow leaves in queue order |
| ProxyQueues.BatchIsSendable | src/live.c:3176-3310 | for all limits in 128..2048 and packets within the link MTU: a nonempty batch in at most five cells, below the yield flag, that inspects to exactly its packets |
| ProxyQueues.MtuFits | src/live.c:3285-3310 | a packet of the link MTU fits a window in both directions |
| ProxyQueues.AdmitKeeps | src/live.c:2874-2984 | admission keeps at most 64 packets, 48 of DNS priority and 4 discovery queries |
| ProxyQueues.AdmitKeepsOrder | src/live.c:2874-2984 | admission changes a flow only at its end or by replacing a superseded acknowledgement in place; another flow loses at most its last packet |
| ProxyAdmission.NewPacketJoins | src/live.c:2874-2984 | a valid packet that is not suppressed, matches none waiting and is within both limits joins the end of a queue that is not full, and everything else stays |
| ProxyAdmission.FullQueueExact | src/live.c:2949-2984 | what of a full queue may leave has no later kin and, when a reply comes in, is not of its flow; the packet gets in if and only if one of these has lower priority, or equal priority when it is a reply to the conversation heard last; then exactly one leaves, the latest of the lowest priority, and the packet joins the end |
| ProxyAdmission.MatchingPacketStays | src/live.c:2898-2918 | a packet that waits already changes nothing; one that supersedes others replaces the first of them |
| ProxyAdmission.OthersAreDropped | src/live.c:2874-2948 | an invalid packet is an error; a suppressed one or one beyond a limit is dropped |
| ProxyQueues.TakeKeepsOrder | src/live.c:2587-2639 | a packet with no earlier kin is the first of its flow |
| ProxyQueues.DropKeepsOrder | src/live.c:2600-2611 | a packet with no later kin is the last of its flow |
| ProxyQueues.SomethingToPick | src/live.c:2613-2700 | from a nonempty queue something can always be picked, whatever the DNS quota says |
| ProxyBatch.BatchStops | src/live.c:3176-3283 | a batch that has begun stops if and only if the queue is empty, it is full or closed, or nothing that waits may join it |
| ProxyBatch.BatchEnds | src/live.c:3176-3283 | the same of every batch built from a well-formed queue |
| ProxyBatch.OthersAreServed | src/live.c:3199-3230 | after a burst of DNS a waiting packet of another kind comes first, unless a reply is due |
| ProxyBatch.DnsWithinBurst | src/live.c:3199-3230 | while other traffic is left waiting, a batch carries no more DNS than what is left of the burst, a reply apart |
| ProxyBatch.InteractiveIsShort | src/live.c:3231-3283 | a batch that begins with DNS or control fits the interactive capacity, or is that one packet |
| ProxyBatch.BatchHasOneFlow | src/live.c:3231-3283 | a batch carries the data of one TCP flow only |
| ProxyBatch.ReplyComesFirst | src/live.c:3199-3230 | a batch begins with the first waiting packet that answers the conversation heard last, if there is one |
| ProxyQueues.SupersededIsKin | src/live.c:2332-2350 | a replaced acknowledgement is of the same flow |
| ProxyFlows.SharesExactly | src/live.c:2502-2578 | the flow keys the queue is stated with are equal exactly when version, addresses and ports of two TCP packets compare equal field by field |
| ProxyFlows.ReversesExactly | src/live.c:2502-2585 | a packet has the opposite key exactly when addresses and ports compare exchanged |
| ProxyFlows.AnswersAnswer | src/live.c:2502-2585 | answering goes both ways, and the answer to an answer is of the flow itself |
| ProxyFlows.NewerWins | src/live.c:2332-2350 | of two bare acknowledgements of one flow and sequence number the one ahead replaces the other; each does only if both acknowledge the same, and none only if they are half the number space apart |
| ProxyFlows.ReplacedIsBare | src/live.c:2312-2350 | what is replaced is of the same flow, carries no data and opens or closes nothing, and its stand-in has the same priority |
| ProxyFlows.SelectiveIsKept | src/live.c:2287-2330 | an acknowledgement with selective blocks is never replaced |
| ProxyFlows.StampedIsPlain | src/live.c:2287-2311 | the usual padded time stamp does not keep an acknowledgement from being replaced |
| ProxyQueues.FillOk | src/live.c:3176-3283 | every turn of the batch loop conserves the queue and respects the limits |
| ProxyStates.ProxyState.HasEarlierKin | src/live.c:2587-2598 | whether an earlier packet shares the flow |
| ProxyStates.ProxyState.HasLaterKin | src/live.c:2600-2611 | whether a later packet shares the flow |
| ProxyStates.ProxyState.CountNonDns | src/live.c:2491-2500 | whether anything but DNS waits |
| ProxyStates.ProxyState.SelectIndex | src/live.c:2613-2639 | the eligible packet of highest priority, the earliest of equals |
| ProxyStates.ProxyState.SelectReply | src/live.c:2657-2700 | the packet that continues the conversation heard last |
| ProxyStates.ProxyState.PickNext | src/live.c:3199-3230 | reply first, then the selection under the DNS quota |
| ProxyStates.ProxyState.BuildBatch | src/live.c:3176-3283 | the batch taken and the queue left of the conservation theorem |
| ProxyStates.ProxyState.LowestIndex | src/live.c:2949-2977 | the packet to give up when the queue is full, if any |
| ProxyStates.ProxyState.CountKinds | src/live.c:2919-2947 | how many packets count against the two limits |
| ProxyStates.ProxyState.AdmitPacket | src/live.c:2874-2984 | queue and status of the admission theorems |
| Calibration.GuardExact | src/calibration.c:122-200 | the guard of a valid mode fails if and only if the measured band is one of nine families: it starts just below the edge its upper end is taken to, or ends just above the edge its lower end is taken to |
| Calibration.GuardNeedsNineBins | src/calibration.c:184-200 | the guard succeeds exactly when the band it leaves has nine bins |
| Calibration.GuardCanFail | src/calibration.c:122-200 | the valid band 295..362 has no guarded mode |
| Calibration.GuardNeverShortens | src/calibration.c:79-200 | a guarded frame is never shorter in samples than the measured one, for any payload |
| CalibrationGuard.GuardBacksOff | src/calibration.c:122-200 | for every valid mode no guarded field is less robust than the measured one; prefix, window, sync, gap and training are as measured or exactly at their margins, and no less than those; constellation and rate each take one step back while there is one, and with neither the repetitions are at least two |
| CalibrationGuard.GuardMovesEdges | src/calibration.c:147-182 | an edge outside 64..298 moves to the next explored one inside, unless that would leave the band |
| Calibration.CountDataCarriers | src/modem.c:240-253 | the counting loop equals the closed form: a pilot every twelfth bin |
| Calibration.GuardedBand | src/calibration.c:147-182 | the guard only moves edges inward and never crosses them |
| Calibration.KeptOrder | src/fec.c:43-67 | a higher code rate never keeps more bits |
| Calibration.SymbolsGrow | src/calibration.c:79-108 | fewer carriers, fewer bits a carrier or more coded bits never need fewer symbols |
| CalibrationSearch.RunOk | src/calibration.c:284-557 | in every reachable search nodes are distinct and valid, parents come before children, and no more were tested than the budget |
| CalibrationSearch.EveryNodeIsGuarded | src/calibration.c:122-200 | the guard succeeds on every node of every search and never shortens its frame |
| CalibrationSearch.GuardHasRoom | src/calibration.c:122-200 | every band a search can hold leaves the guard at least nine bins |
| CalibrationSearch.AddKeeps | src/calibration.c:284-312 | adding keeps all of this, for invalid, known and surplus modes too |
| CalibrationSearch.FasterBand | src/calibration.c:349-501 | every mode added after a pass is in a band of the edge tables |
| CalibrationSearch.FallbacksBand | src/calibration.c:503-557 | every recovery mode is in such a band |
| CalibrationSearch.NextOk | src/calibration.c:787-823 | handing out a mode marks one untested node and keeps the budget |
| CalibrationSearch.RecordOk | src/calibration.c:825-840 | recording grows the frontier and keeps the invariant |
| CalibrationFrontier.NextExact | src/calibration.c:787-823 | a mode is handed out if and only if the budget is not used up and some node is untested and not suppressed; it is one of highest priority, and only its mark and the count change |
| CalibrationFrontier.AddsAll | src/calibration.c:284-312 | every valid mode offered is in the search afterwards, unless it is full, and nothing else is new |
| CalibrationFrontier.PassGrows | src/calibration.c:825-840 | a recorded pass puts every valid mode it leads to into the search, unless that is full |
| CalibrationFrontier.FailureGrows | src/calibration.c:503-557 | a recorded failure of a robust mode puts its recovery modes into the search |
| CalibrationProbes.ProbesAreSpared | src/live.c:1560-1696 | in the probing loop, however the probes come out: no step is tried with one value more than four times (two, three or one for most), nor passed with it more than twice, and every outcome can be recorded |
| CalibrationProbes.ProbingEnds | src/live.c:1560-1696 | the loop ends within the budget, whatever the priorities |
| CalibrationProbes.TryRecords | src/calibration.c:787-840 | a turn that finds a mode records it and adds what it leads to |
| CalibrationFrontier.AnchorsOffered | src/calibration.c:349-501 | the baseline leads to the default mode, and with high quality to both fast anchors |
| CalibrationFrontier.DenserOffered | src/calibration.c:349-501 | a passed mode leads to a denser one in each way there is: fewer repetitions, larger constellation, higher rate, shorter prefix |
| CalibrationFrontier.WiderOffered | src/calibration.c:349-501 | it leads to a wider band at each edge where one improves, and to less training |
| CalibrationFrontier.LeanerOffered | src/calibration.c:349-501 | with high quality also to a shorter sync, a shorter gap and a narrower band |
| CalibrationSearcher.Searcher.constructor | src/calibration.c:559-574 | a search that holds the baseline |
| CalibrationSearcher.Searcher.Add | src/calibration.c:284-312 | appends a new valid mode while there is room, else nothing |
| CalibrationSearcher.Searcher.Expand | src/calibration.c:349-557 | adds the modes in order |
| CalibrationSearcher.Searcher.Outcomes | src/calibration.c:612-631 | attempts and passes of one step and value |
| CalibrationSearcher.Searcher.IsSuppressed | src/calibration.c:689-704 | whether the limits of the step are used up |
| CalibrationSearcher.Searcher.Best | src/calibration.c:801-813 | the open node of highest priority, the first of equals |
| CalibrationSearcher.Searcher.SelectNext | src/calibration.c:787-823 | state and answer of the next step |
| CalibrationSearcher.Searcher.RecordResult | src/calibration.c:825-840 | state and status of the record step |
| CalibrationRanking.Rank | src/calibration.c:854-914 | min(capacity, viable) distinct viable ids: the best mode, its proven parents, the others by score, and a viable baseline last |
| CalibrationRanking.RankOthers | src/calibration.c:871-909 | the part before the baseline, in that order |
| CalibrationRanking.RankChain | src/calibration.c:877-895 | the winner and as many proven parents as there is room for; the walk ends because parents come first |
| CalibrationRanking.SelectBest | src/calibration.c:896-909 | the best viable mode not listed yet, the first of equals, or none |
| InternetChecksum.ComplementVerifies | src/traffic_policy.c:508-514 | adding its checksum makes any sum verify, also when UDP sends all ones for zero |
| InternetChecksum.VerifiesExactly | src/traffic_policy.c:508-514 | a sum verifies exactly when it is a positive multiple of 65535 |
| InternetChecksum.OneByteIsCaught | src/traffic_policy.c:494-514 | two byte strings that differ in one byte never both verify |
| InternetChecksum.StoreAdds | src/traffic_policy.c:494-506 | a word stored over zero at an even place adds itself to the sum |
| InternetChecksum.SumBound | src/traffic_policy.c:494-506 | the sum over a packet stays far below 32 bits |
| InternetChecksum.ChecksumAdd | src/light_network.c:51-64 | the pairwise loop, odd lengths included, adds the words up |
| InternetChecksum.ChecksumFinish | src/light_network.c:66-72 | folding carries until none is left gives the complement of the folded sum |
| NetworkStream.StreamValidates | src/light_network.c:242-381 | the validator accepts every built stream, for all MTUs, counts, directions and seeds, and counts what the builder counted |
| NetworkStream.PacketValidates | src/light_network.c:174-354 | the validator accepts every packet made for its direction |
| NetworkStream.DamageIsCaught | src/light_network.c:292-354 | whatever packet the validator accepts, it accepts none that differs from it in one byte |
| NetworkStream.TotalsAddUp | src/light_network.c:242-290 | the two kinds together are all the packets |
| NetworkBuffers.BuildStream | src/light_network.c:242-290 | the records in the buffer and the builder's counts, which validate, and how many records span optical cells |
| NetworkStream.SpansExactly | src/light_network.c:268-274 | a record counts as spanning exactly when a boundary of 83-byte cells lies strictly inside it |
| NetworkBuffers.MakePacket | src/light_network.c:174-234 | the sealed packet in its place, the rest of the buffer untouched |
| NetworkBuffers.PutAddresses | src/light_network.c:140-163 | the addresses of the direction |
| NetworkBuffers.SumTransport | src/light_network.c:165-172 | the sum over pseudo header and segment |
| NetworkBuffers.CheckPacket | src/light_network.c:292-354 | the status of the packet validator |
| NetworkBuffers.CheckStream | src/light_network.c:356-381 | status and counts of the stream validator |
| TrafficReplies.UnreachableVerifies | src/traffic_policy.c:516-560 | the reply verifies under both checksums, goes back to the sender, and quotes the header and eight bytes of the packet |
| TrafficReplies.UnreachableIsStaleExactly | src/traffic_policy.c:387-409 | the policy drops a reply of its own as stale exactly when the packet it answers came from port 53 |
| ReplyBuffers.BuildPortUnreachable | src/traffic_policy.c:516-560 | the reply in the caller's buffer, or a refusal that writes nothing |
| DnsRejection.RejectionVerifies | src/traffic_policy.c:562-616 | the reply verifies under both checksums, its addresses and ports exchanged |
| DnsRejection.RejectionIsNoQuery | src/traffic_policy.c:562-616 | a rejection is never rejected in turn |
| RejectedQuestion.RejectionKeepsQuestion | src/traffic_policy.c:562-616 | the question reads the same in the rejection if and only if its name can be read without the flag bytes: neither is a length or inside a label, and a pointer at byte 1, whose low half is a flag byte, leads to the same name before and after |
| RejectedQuestion.NameKept | src/traffic_policy.c:218-281 | the same for names: a name that can be read keeps its text in the rejection exactly when its reading avoids the flags |
| RejectedQuestion.PastHeaderAvoids | src/traffic_policy.c:218-281 | a name whose pointers all stay past the header avoids the flags |
| RejectedQuestion.RejectionCanLoseQuestion | src/traffic_policy.c:562-616 | a 46-byte query whose name is a pointer to its flags: it parses as the root, and its rejection parses as no question |
| DnsRejection.RejectFlagsMean | src/traffic_policy.c:592-595 | response and no such name are set; opcode and the two request bits are kept |
| DnsRejection.RejectedCounts | src/traffic_policy.c:591-597 | identifier, question count and everything after the counts stay |
| DnsRejection.NameFits | src/traffic_policy.c:218-281 | a name read fits its buffer with room for the end mark |
| RejectedQuestion.NameExtends | src/traffic_policy.c:218-281 | a name read begins with what was read of it before |
| DnsRejection.ScanName | src/traffic_policy.c:218-281 | the loop with its bounded jumps reads that name |
| ReplyBuffers.ParseQuestion | src/traffic_policy.c:283-324 | the question or none, as the parser decides |
| ReplyBuffers.BuildDnsRejection | src/traffic_policy.c:562-616 | the rejection in the caller's buffer, or a refusal that writes nothing |

## Left out

- PacketEndpoints.PacketEndpoint.ProcessFrame: after a drain that met a record of impossible length the source's parser stays inside that record and would write past its packet buffer; the class then promises only its shape. No frame of a peer leads there (TransportRuns.NoFrameIsRejected).
- PacketEndpoints.PacketEndpoint.DequeuePacket: its header error comes only from such a drain, after which the same holds.
- TransportResend.SilenceIsBounded: some held cell is sent again in time; when one particular cell among several is, under loss, has no bound.
- PuncturedDistance.FreeDistance: that codewords with exactly these distances exist is not shown.
- SessionRuns.ConnectedPeersAgree: session and instance ids are drawn fresh; a 32-bit generator that repeats an id is not modelled.
- SessionRuns.NothingTwice: a channel that delays a frame past its round is not modelled at this level; TransportRuns covers one generation over such a channel.
- LightPeers.LightPeer.CheckTimeouts: a peer keeps the fields of both roles; those of the other role stay at their first values.
- StreamDelivery.StreamArrives: for a window no larger than the retransmit delay and one exchange a frame; with a larger window the draw may go on choosing chunks that arrived beyond what an acknowledgement can name.
- SessionDelivery.PacketsGetThrough: for runs without restarts; after a restart SessionRecovery.Recovers and SessionProgress.RoundGetsThrough hold.
- FrameDamage.BurstIsRefused: damage to the length field moves the end of what the checksum covers, and is not what it is about.
- ProxyRecovery.Recovers: its messages are delivered in turn; an end without tries left is not what it is about.
- StreamRuns.StreamsStayInOrder: the session above the streams is part of the channel: it decides only which frames a peer looks at.
- ProxyToken.OneToken: its turn and window numbers are unbounded; ProxyWrap.SixteenBitsSuffice carries it over to the sixteen bits of `src/live.c`, under the condition given there.
- ProxyToken.WindowsArriveInOrder: numbers as for ProxyToken.OneToken; both ends agree on the body limits and start with an empty transfer; a failing write to the network device is not modelled.
- ProxyToken.NoWindowIsRefused: it speaks of window messages; ProxyStaleTurn.StaleOfferBreaksExactly says of all messages which ones end a session.
- ProxyDelivery.RunLanes: messages carry decoded cells and bitmaps as sequences of bits; ProxyWire.CellReads closes the gap for cells.
- ProxyQueues.AdmitKeeps: whether a packet is a discovery query, and whether a DNS retry is suppressed, are parameters.
- Viterbi.MaximumLikelihood: soft values are real numbers; the sentinel of the source is a separate unreached value, which absorbs additions as the float does.
- LightFrames.DamagedFrame: the bounds on the soft values are given; how threshold and contrast come from the border of an image is not modelled.
- LightFrames.FrameRoundTrip: which orientation is tried first, and whether another one also decodes, is not modelled.
- FrameFinding.FrameIsFound: for pictures whose rows are parallel to the grid, with every module a square of whole pixels; a picture in perspective is not what it is about.
- LightLocator.FindLocator: corners come as pixel positions rather than floats, and which of several extremal pixels is named is left open.
- ConvolutionalCode.EncodedBits: an overflow of the group arithmetic itself, beyond the guard on the length, is not modelled.
- Interleaver.InterleaveBits: the product of index and stride is unbounded here.
- Calibration.GuardNeverShortens: lengths are unbounded integers; the rates computed from them in floats are not modelled.
- CalibrationSearch.RunOk: which of two modes sends faster, and every priority and score, are arbitrary parameters.
- InternetChecksum.ChecksumAdd: the 32-bit sum is unbounded here; SumBound shows that no packet reaches the bound.
- Status counters, logging, byte statistics and timing in every file.
- Null arguments, failed allocations and destroy functions.
- Audio, camera, window, tunnel-device, route, firewall and socket code (`src/audio.c`, `src/light_video.c`, `src/network.c`, `src/tcp_relay.c`, `src/main.c`).
- Floating-point signal processing: transforms, synchronization, phase models, constellation distances, homography, sampling and the threshold search (`src/modem.c`, `src/light.c`, `src/fft.c`, `src/qam.c`, `src/channel.c`).
- The phase search and retries of `um_light_decode_frame`, and rendering.
- The frame headers of `src/modem.c` around its blocks.
- The begin and completion messages of a proxy session, and its calibration handshakes (`src/live.c`).
- The calibration cache, its file format, and the audio of the probing loop.
- Domain block lists, multicast and broadcast rules of the traffic policy.
- The simulation drivers `src/session.c`, `src/validation.c` and `src/distortion.c`.
