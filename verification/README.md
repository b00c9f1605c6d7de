# A verified model of the tcp_vibe TCP stack

This project models the transport of tcp_vibe, a TCP written from scratch after RFC 9293
with RFC 5961, 5681, 7323, 2018 and 1122, and proves what it keeps: the byte stream end to
end, the sender's two records of unacknowledged data, flow control and its timers, the
connection state machine, congestion control, the connection multiplexer, and the wire
format. `dafny verify dfyconfig.toml` checks everything.

## How it is built

- `SeqNum` has the 32-bit circular comparisons and their exact relation to unbounded stream
  positions. All later reasoning goes through it.
- `Tcb` and `StateMachine` describe one connection. Every public call, timer tick and arriving
  segment runs under the connection's lock in the program, so each is one function from the
  control block (and the clock) to the next control block. `Conn` has the same connection in
  the program's own form, a class whose methods update the control block in place with the
  program's loops; every method is proved equal to its function.
- `Reassembly`, `Sack`, `Congestion`, `ChallengeAck` are the parts of a connection with
  theories of their own; `SenderRecords`, `SenderSteps`, `FlowControl`, `DelayedAck`,
  `Lifecycle` prove what every step keeps, for any arriving segment, forged ones included;
  `Runs` lifts that to whole runs from either open. `Frames` holds frame conditions.
- `Challenges`, `SackAnswers`, `Retries`, `ForgedText`, `PeerWindow`, `WindowUpdates`, `Nagle`,
  `Timers`, `Recovery`, `LossEvents` and `Timestamps` each follow one matter through all steps
  and runs: challenge ACKs, SACK answers, retransmissions, arbitrary data, the peer's window,
  our own, small segments, timers, duplicate ACKs, congestion events, timestamps. `Acceptance`
  has the tests every segment passes, `Log` what is written.
- `Exchange` and `Closing` show that undisturbed exchanges come to their end: handshake, data,
  close, refusal. `Witnesses` has the runs in which documented promises fail.
- `Positions` gives everything an endpoint writes its place in the stream given to Send.
  `EndToEnd` joins two endpoints by a network that may drop, duplicate, delay and reorder: the
  network is each side's log of written segments, any of which may be delivered any number of
  times or never. `OfferedWindow` and `EndOfFile` add where the sender's window comes from and
  when end of file is seen.
- `Mux` is the multiplexer as a state machine over lock-protected steps of the receive
  thread, the tick thread, any number of dialers and the users; `ConnTable` is its table as an
  object, `MuxPath` follows one segment, one tick round and one Dial through it. `Addresses`
  has the keys.
- `Bytes`, `Checksum`, `Options`, `Wire`, `Framing`, `Segments` are the wire layer;
  `Corruption` says which damaged packets it refuses.

The positions and the bytes read that `EndToEnd` carries are bookkeeping: no step depends on
them, and `EndToEnd.MoveOk` shows that they follow the 32-bit numbers exactly.

## Assumptions

- The receive buffer is at most 2^30 bytes and is sized before the open; buffered send data
  stays below 0x7FF00000 bytes.
- A delivered segment is a copy whose stream positions are less than 2^31 behind RCV.NXT and
  SND.UNA (the maximum segment lifetime). `EndToEnd.TimelyWhileShort` shows that this excludes
  nothing on streams shorter than 2^31.
- The end-to-end results (`Positions`, `EndToEnd`), `SenderSteps.StepKeepsRecords` and the
  results about a FIN in flight (`Runs.RecordsAgreeWithFin`, `Runs.RecordsEmptyAfterFin`)
  assume that Close is called only with nothing unsent; `SenderSteps.CloseIff` shows exactly
  what that buys. All other results about steps and runs allow Close at any time.
- The places of accepted segments that `PeerWindow.NewestWindow` compares are less than 2^31
  from the newest place before them.
- The estimator's timeouts are whole milliseconds.
- `cwnd` is a mathematical integer. The clock does not run backwards where a result says so.
- Keepalive is off, and the test setter for `cwnd` is not used.

## Where the code and its documentation differ

The model follows the code.

- tcp/transport/statemachine.go:429 promises at most 10 challenge ACKs in any 5-second window.
  The counting window restarts, so an arbitrary window can hold 19, and a connection can get
  there (`Witnesses.NineteenChallengesExample`). `ChallengeAck.ExactCount` gives the exact
  number and the requests for which it exceeds the promise; `Challenges.ChallengeAcksWritten`
  lifts both to what a connection writes.
- tcp/transport/statemachine.go:196-203 sends the FIN at SND.NXT even with unsent data in the
  buffer, so the FIN takes the number of the first unsent byte. `SenderSteps.CloseIff` says
  exactly when; `Witnesses.CloseUnsentExample` is a run that gets there.
- tcp/transport/data.go:114-116 caps a segment at 1360 bytes, not at the peer's advertised
  maximum. `FlowControl.FlushOversizeIff`, `FlowControl.OverrideOversizeIff` and
  `FlowControl.ProbeOversizeIff` say exactly when each of the three senders of new data writes
  a larger segment; `Witnesses.OversizeExample` is a run that gets there.
- tcp/transport/statemachine.go:732-738 leaves the retransmission queue in place on a reset,
  so a closed connection may still retransmit. `FlowControl.TickWritesIff` says exactly when;
  `Witnesses.ResendAfterResetExample` is a run that gets there. `Positions` covers those
  segments too.
- Section 3 of RFC 2018 wants SACK blocks isolated from each other. Insertion
  (tcp/transport/data.go:241-256) does not trim against what is held, so held fragments and
  the blocks reported for them may overlap: `Sack.SackDisjointIff` says exactly when,
  `Witnesses.OverlappingBlocksExample` is a run that gets there.
- Section 3.10.7.4 of RFC 9293 sets SND.WND, WL1 and WL2 on leaving SYN-RECEIVED. The code sets
  them only from a SYN in LISTEN or a SYN-ACK in SYN-SENT (tcp/transport/statemachine.go:630-640,
  868-879), so after a simultaneous open they are zero and the first window counts as older when
  its sequence number is in the upper half of the number space: `PeerWindow.FirstWindowIff` says
  exactly when, `Witnesses.MissedWindowExample` is a run that gets there.
- tcp/transport/congestion.go:40-41 says the byte counter is reset on an increment. The code
  subtracts `cwnd` and keeps the rest, which is what makes the conservation law exact.
  `Congestion.IncrementResetsIff` says exactly when the counter does end at zero;
  `Congestion.CounterKeptExample` is a run in which it does not.

## Model

| member | source | states |
|---|---|---|
| `SeqNum.CompareIsSign` | tcp/transport/seq.go:16-29 | SeqLT, SeqLEQ and SeqGT are exactly the sign of the signed circular distance, for every pair of 32-bit numbers |
| `SeqNum.ComparePositions` | tcp/transport/seq.go:3-29 | Sequence numbers of stream positions less than 2^31 apart compare as the positions do |
| `SeqNum.AcceptableAckExactIff` | tcp/transport/seq.go:31-34 | The acceptable-ACK test decides the interval (UNA, NXT] for all 2^32 acknowledgement numbers if and only if less than 2^31 is in flight |
| `SeqNum.InWindowExactIff` | tcp/transport/statemachine.go:507-513 | The window test decides [NXT, NXT+WND) (or {NXT} for a closed window) if and only if the window is below 2^31 |
| `SeqNum.AckInRangeExactIff` | tcp/transport/statemachine.go:758-762 | The range test of section 5.2 of RFC 5961 decides [lo, NXT] if and only if its width is positive and at most 2^31 |
| `Reassembly.TrimRefines` | tcp/transport/data.go:214-239 | Trimming keeps exactly the payload positions inside [RCV.NXT, RCV.NXT+RCV.WND), with their bytes |
| `Reassembly.InsertRefines` | tcp/transport/data.go:241-256 | Inserting a fragment adds exactly its positions to the held set and keeps the list sorted, duplicates included |
| `Reassembly.DrainRefines` | tcp/transport/data.go:258-300 | Draining terminates, moves RCV.NXT over exactly the held positions that follow without a gap, appends exactly their bytes and forgets nothing beyond |
| `Reassembly.AcceptRefines` | tcp/transport/data.go:172-239 | One arrival adds exactly its positions inside the window to the received set; RCV.NXT is the first missing position afterwards; the right window edge does not move (the saturating branch of the window update loses nothing) |
| `Reassembly.RunRefines` | tcp/transport/data.go:172-300 | After any run of arrivals the received set is the initial one plus everything brought left of the edge, and the buffer is the stream up to the first missing position |
| `Reassembly.RunOrderIndependent` | tcp/transport/data.go:172-300 | Two runs that bring the same positions, in any order, segmentation and duplication, end with the same RCV.NXT, window, buffer and received set |
| `Reassembly.ReadKeeps` | tcp/transport/data.go:141-161 | Reading removes exactly the bytes returned, never moves the right edge left, and keeps unread bytes plus window within the buffer |
| `Sack.BuildSackBlocks` | tcp/transport/sack.go:16-44 | The loop over held fragments, the swap to the front and the truncation compute the specified block list |
| `Sack.SackSound` | tcp/transport/sack.go:16-44 | Reported blocks cover only held positions strictly beyond RCV.NXT, and exactly the held ones if nothing was cut off |
| `Sack.SackAnswersArrival` | tcp/transport/data.go:243-256 | After an out-of-order arrival the first block of the block list spans that arrival (section 4 of RFC 2018) |
| `SackAnswers.TextReported` | tcp/transport/statemachine.go:453-488 | With SACK negotiated, text arriving out of order is answered by one ACK of RCV.NXT whose first SACK block spans it, at most 4 blocks, 3 with timestamps |
| `Sack.SackDisjoint` | tcp/transport/sack.go:20-43 | Non-overlapping held fragments give pairwise disjoint, non-adjacent blocks (section 3 of RFC 2018) |
| `Sack.SackDisjointIff` | tcp/transport/sack.go:20-43 | With no block cut off, the blocks are pairwise disjoint and non-adjacent if and only if no held fragments overlap |
| `Witnesses.OverlappingBlocksExample` | tcp/transport/data.go:241-256 | A run from an open in which [401, 421) and [411, 431) are both held and reported as two overlapping blocks |
| `Congestion.CongestionControl.NewAck` | tcp/transport/congestion.go:77-107 | The in-place update on a new ACK |
| `Congestion.CongestionControl.DupAck` | tcp/transport/congestion.go:109-125 | The in-place update on a duplicate ACK |
| `Congestion.CongestionControl.RtoTimeout` | tcp/transport/congestion.go:127-139 | The in-place update on a retransmission timeout |
| `Congestion.RunOk` | tcp/transport/congestion.go:63-149 | Over every mix of new ACKs, duplicates and timeouts: cwnd >= SMSS, ssthresh >= 2*SMSS, slow start iff cwnd < ssthresh, and in fast recovery cwnd = ssthresh + (3+k)*SMSS after k extra duplicates |
| `Congestion.RecoveryBounds` | tcp/transport/congestion.go:84-125 | Recovery ends with cwnd = ssthresh; it is entered exactly by the third duplicate, with ssthresh at half the flight or twice the SMSS |
| `Congestion.OneReductionPerLoss` | tcp/transport/congestion.go:127-139 | After a timeout, further timeouts and duplicates without a new ACK or a fast-recovery entry leave ssthresh unchanged |
| `Congestion.AvoidanceConservation` | tcp/transport/congestion.go:100-106 | Over any run of new ACKs in congestion avoidance, acknowledged bytes equal what the k increments cost, k*cwnd0 + SMSS*k(k-1)/2, plus the change of the counter |
| `Congestion.IncrementResetsIff` | tcp/transport/congestion.go:38-42 | An increment in congestion avoidance keeps the bytes beyond cwnd in the counter, which is therefore zero afterwards if and only if the count equalled cwnd |
| `Congestion.CounterKeptExample` | tcp/transport/congestion.go:100-106 | A run from a new connection whose last increment leaves 640 bytes in the counter |
| `Congestion.CounterBelowWindow` | tcp/transport/congestion.go:40-42 | If each ACK covers at most cwnd+SMSS bytes the byte counter stays below cwnd, over every run |
| `Congestion.InitialWindows` | tcp/transport/congestion.go:50-60 | The initial window of RFC 5681, three segments for this stack |
| `Congestion.SlowStartGrowth` | tcp/transport/congestion.go:91-98 | Over any run of new ACKs from slow start cwnd grows by the sum of min(acknowledged, SMSS) until it reaches ssthresh, where slow start ends |
| `Congestion.TimeoutBounds` | tcp/transport/congestion.go:127-139 | A timeout leaves one segment and slow start, with ssthresh at half the flight or twice the SMSS, once in a loss episode |
| `ChallengeAck.RateBound` | tcp/transport/statemachine.go:438-451 | Any closed interval of one window length holds at most 2*limit-1 grants of the throttle, over every run of requests with a non-decreasing clock |
| `ChallengeAck.ExactCount` | tcp/transport/statemachine.go:438-451 | The exact number of grants in such an interval: what is left of the counting window open at its start, plus the use of at most one new one; more than the limit if and only if the open window expires inside with more requests to follow than it had answered before, and these and the ones it still covers exceed the limit |
| `ChallengeAck.WindowCount` | tcp/transport/statemachine.go:438-451 | One counting window grants exactly as often as its counter says, never above the limit |
| `ChallengeAck.RateBoundAttained` | tcp/transport/statemachine.go:427-451 | The bound is attained, for every limit and window |
| `Challenges.StepChallenge` | tcp/transport/statemachine.go:427-451 | A step charges the throttle exactly when a challenged segment arrives (in-window RST, SYN, ACK out of range), and then writes one bare ACK of RCV.NXT exactly if the throttle allows it |
| `Challenges.ChallengeAcksWritten` | tcp/transport/statemachine.go:427-451 | Over every run with a non-decreasing clock, the challenge ACKs a connection writes in [a, a + 5 s] are exactly the two shares of ExactCount, at most 19, and more than the 10 the comment promises if and only if the requests overrun as stated there |
| `Witnesses.NineteenChallengesExample` | tcp/transport/statemachine.go:427-451 | A run from an open that writes 19 challenge ACKs within five seconds |
| `Checksum.Compute` | tcp/network/checksum.go:8-22 | The accumulator and carry-fold loops compute the specified checksum for every byte string, 32-bit wrap-around included |
| `Checksum.FoldTwoRounds` | tcp/network/checksum.go:17-20 | The carry fold is over within two rounds |
| `Checksum.VerifiesIff` | tcp/network/checksum.go:8-22 | A buffer verifies if and only if its word sum is a positive multiple of 2^16-1 |
| `Checksum.FillVerifies` | tcp/network/checksum.go:24-26 | Filling a zero checksum word always makes the buffer verify |
| `Checksum.ChangeUndetectedIff` | tcp/network/checksum.go:8-22 | A change of one 16-bit word of a verified buffer goes undetected if and only if it swaps 0x0000 and 0xFFFF while another word is non-zero |
| `Checksum.BitFlipDetected` | tcp/network/checksum.go:8-22 | Every single-bit flip of a verified buffer is detected |
| `Framing.Framer.Push` | tcp/transport/framing.go:41-83 | One Push appends, cuts off complete packets and keeps the remainder, error branches included |
| `Framing.SplitSound` | tcp/transport/framing.go:32-83 | Packets followed by the retained bytes reproduce the input; every packet is well formed; what is kept holds no complete packet; the buffer-full error is unreachable |
| `Framing.SplitRecovers` | tcp/transport/framing.go:32-83 | Well-formed packets sent back to back are recovered one by one |
| `Framing.ChunkingInvariance` | tcp/transport/framing.go:32-83 | However a stream, malformed or not, is cut into Push calls, packets, remainder and final status are those of one Push of the whole |
| `Options.ParseTcpOptions` | tcp/transport/options.go:45-109 | The indexed parsing loop, malformed lengths and unknown kinds included |
| `Options.MarshalOptions` | tcp/transport/options.go:119-151 | Writing the options in order and padding with NOPs to a multiple of four |
| `Options.OptionsRoundTrip` | tcp/transport/options.go:37-151 | Writing and parsing back is the identity on every option set with at most 31 SACK blocks and a shift of at most 14 |
| `Options.StackBuiltFits` | tcp/transport/statemachine.go:471-488 | Every option set the stack builds fits 40 bytes and is a multiple of four long |
| `Wire.MarshalTcp` | tcp/transport/header.go:67-82 | The TCP header written field by field into a byte buffer, options behind it |
| `Wire.MarshalIpv4` | tcp/network/ipv4.go:23-39 | The IPv4 header written field by field, with its checksum filled in |
| `Wire.TcpRoundTrip` | tcp/transport/header.go:67-114 | Parsing a written TCP header gives its fields and options back and leaves the payload |
| `Wire.Ipv4RoundTrip` | tcp/network/ipv4.go:23-69 | Parsing a written IPv4 header verifies and gives the header back, whatever follows it |
| `Wire.SegmentVerifies` | tcp/network/checksum.go:24-38 | The filled TCP checksum makes pseudo-header plus segment verify |
| `Wire.WireRoundTrip` | tcp/transport/statemachine.go:378-425 | Any segment with stack-built options and up to 1360 bytes, encoded and followed by arbitrary padding, passes the receive pipeline (listener.go:160-176) and yields the same route and segment |
| `Options.UnknownSkipped` | tcp/transport/options.go:45-110 | Padding and options of unknown kinds, wherever they stand, do not change what an option area reads as |
| `Options.EndsAtEol` | tcp/transport/options.go:45-110 | Nothing behind an end-of-list byte is read |
| `Options.MalformedIff` | tcp/transport/options.go:45-110 | An area of complete options is malformed exactly if one of the five known kinds has a wrong length |
| `Options.CutOffMalformed` | tcp/transport/options.go:45-110 | An option cut off at the end of the area makes it malformed |
| `Options.ShiftLimited` | tcp/transport/options.go:111-118 | A shift count above 14 reads as 14 |
| `Corruption.DecodeAcceptsIff` | tcp/transport/listener.go:160-176 | A packet becomes a segment exactly if both headers are complete and in bounds, both checksums verify and the protocol is TCP |
| `Corruption.WordChangeRefusedIff` | tcp/transport/listener.go:160-172 | Of all changes of one 16-bit word anywhere in a packet the stack sent, with or without padding, exactly the swaps of 0x0000 and 0xFFFF get through the receive pipeline |
| `Corruption.ByteChangeRefused` | tcp/transport/listener.go:160-172 | Any change of one byte of such a packet, so any flipped bit, is refused |
| `Conn.Connection.WriteSegOpts` | tcp/transport/statemachine.go:378-425 | Option choice, advertised window and the segment written |
| `Conn.Connection.SendData` | tcp/transport/statemachine.go:356-369 | A segment that occupies sequence numbers is written and queued for retransmission |
| `Conn.Connection.SendSyn` | tcp/transport/statemachine.go:163-173 | SYN or SYN-ACK with all options, queued |
| `Conn.Connection.SendAck` | tcp/transport/statemachine.go:453-466 | A bare ACK of RCV.NXT with SACK blocks; a waiting delayed ACK is settled |
| `Conn.Connection.AllowChallengeAck` | tcp/transport/statemachine.go:438-451 | One request against the challenge-ACK throttle |
| `Conn.Connection.SendChallengeAck` | tcp/transport/statemachine.go:427-436 | A throttled challenge ACK |
| `Conn.Connection.ArmPersist` | tcp/transport/flowcontrol.go:94-103 | Arming the persist timer |
| `Conn.Connection.ArmOverride` | tcp/transport/flowcontrol.go:136-144 | Arming the override timer |
| `Conn.Connection.EmitSegment` | tcp/transport/data.go:107-122 | One segment of unsent data |
| `Conn.Connection.FlushSend` | tcp/transport/data.go:54-87 | The flush loop: segments while Nagle, silly-window avoidance and both windows allow, then the right timer |
| `Conn.Connection.Send` | tcp/transport/data.go:33-52 | Send in every state, error results included |
| `Conn.Connection.ProbePersist` | tcp/transport/flowcontrol.go:121-134 | The zero-window probe |
| `Conn.Connection.FireOverride` | tcp/transport/flowcontrol.go:149-163 | The forced transmission when the override timer fires |
| `Conn.Connection.CheckRetransmit` | tcp/transport/statemachine.go:238-265 | Retransmission of the queue head, back-off and abort at the limit |
| `Conn.Connection.Tick` | tcp/transport/statemachine.go:209-236 | One timer tick: TIME-WAIT, retransmission, persist, override and delayed ACK in order |
| `Conn.Connection.ActiveOpen` | tcp/transport/statemachine.go:151-161 | Active open |
| `Conn.Connection.PassiveOpen` | tcp/transport/statemachine.go:175-181 | Passive open |
| `Conn.Connection.Close` | tcp/transport/statemachine.go:183-205 | Close in every state |
| `Conn.Connection.AckRetxQueue` | tcp/transport/statemachine.go:275-304 | The loop that drops fully acknowledged entries and restarts the timer for the new head |
| `Conn.Connection.ReleaseAckedSend` | tcp/transport/data.go:124-137 | Release of acknowledged bytes from the send buffer |
| `Conn.Connection.OnDuplicateAck` | tcp/transport/statemachine.go:802-815 | Duplicate-ACK processing, fast retransmit on entering recovery |
| `Conn.Connection.FastRetransmit` | tcp/transport/statemachine.go:817-827 | Immediate retransmission of the queue head |
| `Conn.Connection.UpdateSendWindow` | tcp/transport/statemachine.go:881-899 | Window update ordered by WL1 and WL2 |
| `Conn.Connection.AdvanceStateOnAck` | tcp/transport/statemachine.go:906-925 | State changes an acknowledgement causes |
| `Conn.Connection.HandleAck` | tcp/transport/statemachine.go:740-781 | Acceptance by the range test of RFC 5961, refusal with RST or challenge ACK, otherwise acknowledgement, window, state and flush |
| `Conn.Connection.InsertOoo` | tcp/transport/data.go:241-256 | The search-and-insert loop for a held fragment |
| `Conn.Connection.DrainOoo` | tcp/transport/data.go:258-286 | The drain loop with its inner search |
| `Conn.Connection.RemoveFullyConsumedOoo` | tcp/transport/data.go:288-300 | The filtering loop over held fragments |
| `Conn.Connection.TrimToWindow` | tcp/transport/data.go:214-239 | Left and right trimming of a payload |
| `Conn.Connection.AcceptText` | tcp/transport/data.go:168-202 | Reassembly of one segment and the choice between immediate and delayed ACK |
| `Conn.Connection.OnDelayableSegment` | tcp/transport/flowcontrol.go:165-180 | Counting and arming for a delayed ACK |
| `Conn.Connection.Recv` | tcp/transport/data.go:139-166 | Recv: bytes, nothing, or end of file; window reopening and its ACK |
| `Conn.Connection.NegotiateOptions` | tcp/transport/statemachine.go:845-866 | Option negotiation on SYN and SYN-ACK |
| `Conn.Connection.HandleFin` | tcp/transport/statemachine.go:927-950 | FIN processing |
| `Conn.Connection.HandleRst` | tcp/transport/statemachine.go:716-738 | RST processing of section 3.2 of RFC 5961 |
| `Conn.Connection.OnSegmentClosed` | tcp/transport/statemachine.go:553-564 | A segment in CLOSED |
| `Conn.Connection.OnSegmentListen` | tcp/transport/statemachine.go:566-591 | A segment in LISTEN |
| `Conn.Connection.OnSegmentSynSent` | tcp/transport/statemachine.go:593-640 | A segment in SYN-SENT |
| `Conn.Connection.OnSegmentSynchronized` | tcp/transport/statemachine.go:642-714 | The fixed processing order of a segment from SYN-RECEIVED on |
| `Conn.Connection.OnSegment` | tcp/transport/statemachine.go:530-551 | Dispatch of an arriving segment on the state |
| `SenderRecords.PopTiles` | tcp/transport/statemachine.go:279-304 | Dropping acknowledged entries keeps the queue tiling the sequence space, its head covering the new SND.UNA |
| `SenderRecords.AckRecords` | tcp/transport/data.go:124-137 | An acceptable ACK, partial or not, keeps queue and send buffer in agreement |
| `SenderRecords.AckOpening` | tcp/transport/statemachine.go:764-772 | The first acceptable ACK removes every SYN and leaves queue and buffer in agreement |
| `SenderRecords.RecordsMeaning` | tcp/transport/data.go:124-137 | Agreement means: queue empty iff SND.UNA = SND.NXT, head covers SND.UNA, and the payloads less the acknowledged part of the head are the first bytes of the send buffer (less a FIN) |
| `SenderSteps.StepKeepsRecords` | tcp/transport/statemachine.go:184-221 | Every user call, tick and arriving segment, forged ones included, keeps queue and send buffer in agreement |
| `SenderSteps.CloseIff` | tcp/transport/statemachine.go:196-203 | Close puts the FIN after the last byte given and keeps the two records in agreement if and only if nothing was unsent |
| `Witnesses.CloseUnsentExample` | tcp/transport/statemachine.go:196-203 | A run from an open (SYN-ACK with window 0, Send of one byte, Close) whose Close numbers the FIN as that byte and breaks the agreement |
| `FlowControl.FlushWrites` | tcp/transport/data.go:54-122 | One flush writes consecutive segments of 1 to 1360 bytes carrying exactly the next bytes of the buffer and never raises the flight above min(cwnd, SND.WND) |
| `FlowControl.OverrideWindow` | tcp/transport/flowcontrol.go:149-163 | A forced transmission is one segment within both windows |
| `FlowControl.ProbeWindow` | tcp/transport/flowcontrol.go:121-134 | The probe is the single first unsent byte, sent only into a closed window |
| `FlowControl.TickWindow` | tcp/transport/statemachine.go:212-236 | A whole tick passes both windows by at most the probe byte, and only into a closed window |
| `FlowControl.FlushOversizeIff` | tcp/transport/data.go:54-122 | A flush writes a segment larger than the peer maximum if and only if it may send and that maximum is below the unsent bytes, the usable window and 1360 alike |
| `FlowControl.OverrideOversizeIff` | tcp/transport/flowcontrol.go:149-163 | The forced transmission does so if and only if data is unsent, the windows leave room, and that maximum is below the same three; Nagle does not matter |
| `FlowControl.ProbeOversizeIff` | tcp/transport/flowcontrol.go:121-134 | The probe does so if and only if it is sent and the peer announced a maximum of 0 |
| `Witnesses.OversizeExample` | tcp/transport/data.go:114-116 | A run from an open in which a peer that announced a maximum of 536 is sent 1360 bytes in one segment |
| `FlowControl.TickWritesIff` | tcp/transport/statemachine.go:209-265 | A tick, in whatever state, CLOSED included, writes a segment if and only if the queue head is due and below the retry limit, or an armed persist, override or delayed-ACK timer is due with something to send |
| `Witnesses.ResendAfterResetExample` | tcp/transport/statemachine.go:732-738 | A run from an open in which a connection closed by an exact RST retransmits on a later tick |
| `FlowControl.StepKeepsFlow` | tcp/transport/flowcontrol.go:92-163 | Every step keeps the invariant behind "no stuck sender": a pending timer while data is unsent, the persist timer armed only at a closed window and the override timer only at an open one, an override that finds no room included |
| `DelayedAck.AckPolicy` | tcp/transport/data.go:190-202 | The ACK of text waits exactly for a full, in-order, gap-free segment that is the first to wait; otherwise exactly one ACK of RCV.NXT goes out |
| `DelayedAck.WaitsIff` | tcp/transport/data.go:172-202 | Text is answered by an ACK at once unless at least a full segment of it continues the buffer, nothing is held afterwards and no ACK is waiting; then by none, with the timer 200 ms ahead |
| `DelayedAck.GapAckedAtOnce` | tcp/transport/data.go:172-202 | Text that is out of order, leaves or fills a gap, is short, or is the second full segment makes its step write segments, the last an ACK of RCV.NXT |
| `DelayedAck.StepKeepsDelAck` | tcp/transport/flowcontrol.go:165-186 | Every step: at most one segment waits, armed iff one waits, and otherwise the last ACK sent equals RCV.NXT |
| `Lifecycle.StepFollowsDiagram` | tcp/transport/statemachine.go:184-221 | Every step stays, follows arrows of the diagram in section 3.3.2 of RFC 9293, or aborts to CLOSED; CLOSED is left only by an open |
| `Lifecycle.SegmentClosesIff` | tcp/transport/statemachine.go:716-738 | A segment closes a synchronized connection if and only if it is a RST with SEQ = RCV.NXT or the acceptable ACK of our FIN in LAST-ACK |
| `Lifecycle.TickClosesIff` | tcp/transport/statemachine.go:209-256 | A tick closes a connection if and only if TIME-WAIT has expired or the queue head is due at the retransmission limit |
| `Lifecycle.StepClosesIff` | tcp/transport/statemachine.go:183-256 | Whatever happens, a connection is closed by exactly these events: a RST with SEQ = RCV.NXT (except back to LISTEN), a reset refusing our SYN, the ACK of our FIN in LAST-ACK, Close in LISTEN or SYN-SENT, TIME-WAIT over, the retransmission limit |
| `Lifecycle.SynNeverResets` | tcp/transport/statemachine.go:678-683 | From SYN-RECEIVED on, a SYN changes neither state nor either direction |
| `Lifecycle.ResetInSynReceived` | tcp/transport/statemachine.go:730-738 | A reset in SYN-RECEIVED returns to LISTEN if and only if the connection came from there |
| `Lifecycle.OriginRecordsEntry` | tcp/transport/statemachine.go:583-584 | The origin recorded in SYN-RECEIVED is passive exactly when it was entered from LISTEN |
| `Lifecycle.UnaMovesOnlyByAck` | tcp/transport/statemachine.go:764-772 | Only an acceptable acknowledgement moves SND.UNA, and to exactly that number |
| `Lifecycle.OpenMeansSynAcked` | tcp/transport/statemachine.go:748-756 | In ESTABLISHED and CLOSE-WAIT no SYN of ours is outstanding |
| `Lifecycle.RecordedOnEntering` | tcp/transport/statemachine.go:909-911 | The record of having been ESTABLISHED is made in the very step that enters it |
| `PeerWindow.NewestWindow` | tcp/transport/statemachine.go:881-895 | Over every run past the handshake SND.WND, WL1 and WL2 are the scaled window and the numbers of the newest segment accepted, by stream position of SEQ and then of ACK, the last one of equally new; if all accepted ones are older than what SND.WND came from, they stay (places less than 2^31 from the newest before them) |
| `PeerWindow.WindowStopsPersist` | tcp/transport/statemachine.go:886-895 | In every reachable state an accepted segment with a positive window that is not older stops the persist timer; an older one changes neither SND.WND nor, while data is unsent, a running persist timer |
| `PeerWindow.LargestWindow` | tcp/transport/statemachine.go:896-899 | Over every run MAX.SND.WND is the largest of its old value and all windows accepted since, old segments included |
| `PeerWindow.HandshakeWindow` | tcp/transport/statemachine.go:868-879 | The SYN in LISTEN and the SYN-ACK in SYN-SENT set SND.WND, WL1 and WL2, unscaled |
| `PeerWindow.FirstWindowIff` | tcp/transport/statemachine.go:635-640 | After a simultaneous open, which sets none of them, the first positive window accepted counts as newer if and only if its sequence number is in the lower half of the number space |
| `Witnesses.MissedWindowExample` | tcp/transport/statemachine.go:635-640 | A run from an open that is established with SND.WND zero although the peer offered 65535 bytes |
| `OfferedWindow.WindowIsOffered` | tcp/transport/statemachine.go:868-895 | In every run of two endpoints over any network SND.WND is the scaled window of one segment in the log of the peer, at a position of the stream of the peer, and WL1 and WL2 are the numbers of that segment |
| `WindowUpdates.RecvOpens` | tcp/transport/data.go:141-161 | Recv that returns data: the window offers all free space if that opens it by at least a full segment or half the buffer, and stays otherwise; exactly when it grew, a synchronized connection writes one ACK of RCV.NXT with the new window |
| `WindowUpdates.WindowFollowsReader` | tcp/transport/flowcontrol.go:11-35 | In every state of every run, whatever arrives, the free buffer space not offered to the peer is less than a full segment and than half the buffer |
| `WindowUpdates.FieldIsWindow` | tcp/transport/statemachine.go:389-399 | The window field scaled back with the same shift never exceeds RCV.WND and, unless saturated, falls short by less than one unit; a SYN is not scaled |
| `Nagle.FlushNagle` | tcp/transport/data.go:54-87 | With Nagle on and data in flight at its start a flush writes no segment smaller than both a full one and half the largest window; it stops with data unsent and an open window only if nothing fits the windows or what fits is that small while Nagle applies |
| `Nagle.NothingKeptBack` | tcp/transport/flowcontrol.go:37-68 | In every reachable ESTABLISHED or CLOSE-WAIT state with an open window, unsent data finds no room, or is less than a full segment and than half the largest window while Nagle is on and data is in flight |
| `Nagle.SendAvoidsSmall` | tcp/transport/data.go:61-87 | In every reachable state Send adds no such small segment to data in flight unless TCP_NODELAY was set |
| `Recovery.ArrivalWrites` | tcp/transport/statemachine.go:764-826 | What an accepted segment makes a connection write, in order: the queue head again, exactly if it is at least the third duplicate outside recovery, with its timer restarted and its retries unchanged; then new data from SND.NXT under the Nagle rule; then bare ACKs |
| `Recovery.ThirdDuplicateResends` | tcp/transport/statemachine.go:802-826 | Over every run the third duplicate in a row makes the connection write, first of all, the entry that headed the queue at the first one, with its flags, number and bytes and ACK = RCV.NXT, and enter fast recovery |
| `Recovery.TimerResends` | tcp/transport/statemachine.go:238-265 | In every reachable state a tick at which the head is due below the limit first writes that entry again, unaltered, with ACK = RCV.NXT, and restarts its timer |
| `LossEvents.CongestionOfRun` | tcp/transport/statemachine.go:764-816 | The congestion state of every reachable connection is the run of Congestion over its events: a timeout for each timer resend, the acknowledged bytes for each ACK of new data, a duplicate for each duplicate ACK, nothing else |
| `LossEvents.CongestionOk` | tcp/transport/congestion.go:63-149 | So the congestion invariants hold in every reachable state |
| `Timers.NotPostponed` | tcp/transport/flowcontrol.go:93-145 | Over every run a running persist or override timer keeps its deadline through calls and arrivals (override: unless something is sent), and a started one runs from that moment |
| `Timers.TickPunctual` | tcp/transport/statemachine.go:223-236 | A tick moves only a timer that is due |
| `FlowControl.ProbesBackOff` | tcp/transport/flowcontrol.go:111-134 | Probe k of a closed window sets the next one 2^k seconds ahead, a minute at most |
| `Lifecycle.HandleAckState` | tcp/transport/statemachine.go:906-925 | An accepted ACK establishes SYN-RECEIVED and, if it covers our FIN, takes FIN-WAIT-1 to FIN-WAIT-2, CLOSING to TIME-WAIT and LAST-ACK to CLOSED; nothing else changes state |
| `Lifecycle.FinState` | tcp/transport/statemachine.go:927-951 | A FIN in order takes ESTABLISHED to CLOSE-WAIT, FIN-WAIT-1 to CLOSING or TIME-WAIT, FIN-WAIT-2 to TIME-WAIT |
| `Lifecycle.SendTakes` | tcp/transport/data.go:33-52 | Send takes all its bytes in ESTABLISHED and CLOSE-WAIT and fails without effect elsewhere, as not established before and as closed after |
| `Acceptance.AcceptableIff` | tcp/transport/statemachine.go:515-528 | The acceptability table of RFC 9293 in distances from RCV.NXT: first or last number in the window, or RCV.NXT itself for a closed window and no length |
| `Acceptance.AckAcceptedIff` | tcp/transport/statemachine.go:740-762 | An ACK is accepted from MAX.SND.WND before SND.UNA to SND.NXT, in SYN-RECEIVED only beyond SND.UNA, while less than 2^31 numbers lie between |
| `Acceptance.SynAckAcceptableIff` | tcp/transport/statemachine.go:594-606 | In SYN-SENT exactly the acknowledgement of our SYN is acceptable |
| `Acceptance.FinTakenIff` | tcp/transport/statemachine.go:704-713 | An accepted segment leaves the receive side as its text does, plus its FIN exactly if the text has brought RCV.NXT to it |
| `Acceptance.UnacceptableAcked` | tcp/transport/statemachine.go:672-677 | An unacceptable segment without RST is answered by one ACK of RCV.NXT and has no other effect |
| `Acceptance.FinAgainAcked` | tcp/transport/statemachine.go:647-654 | A FIN in TIME-WAIT is acknowledged again and restarts the wait |
| `Acceptance.LeftoverReset` | tcp/transport/statemachine.go:594-606 | In SYN-SENT an ACK of something else is answered by a reset that its sender accepts, and the open goes on |
| `Exchange.ThreeWayHandshake` | tcp/transport/statemachine.go:151-182 | For all initial numbers, buffers and clocks the undisturbed handshake of this stack with itself establishes both sides, each expecting the next number of the other, nothing outstanding, with scaling, timestamps, SACK and MSS agreed |
| `Exchange.DataExchanged` | tcp/transport/data.go:36-202 | Undisturbed, what Send is given joins the buffer of the peer, and its acknowledgement, at once or by the delayed-ACK timer, empties both records of the sender |
| `Closing.BothClose` | tcp/transport/statemachine.go:183-221 | Undisturbed, a close on both sides goes through FIN-WAIT-1, CLOSE-WAIT, FIN-WAIT-2, LAST-ACK and TIME-WAIT to CLOSED on both, and both readers see end of file |
| `Closing.OpenRefused` | tcp/transport/statemachine.go:553-565 | An open that meets a closed connection is refused by the reset with an ACK; the one without has no effect |
| `Closing.HalfOpenResolved` | tcp/transport/statemachine.go:553-565 | A closed connection answers a segment with a current ACK by a reset that closes its sender |
| `Log.StepWrites` | tcp/transport/statemachine.go:374-425 | Every step only appends to what was written; what it appends and is neither SYN nor RST carries a timestamp exactly if agreed; Last.ACK.sent is the acknowledgement written last |
| `Timestamps.WritesAreStamped` | tcp/transport/statemachine.go:382-390 | Over every run such a segment carries the time of its step and echoes the newest timestamp |
| `Timestamps.ReceivedIsAcked` | tcp/transport/statemachine.go:400-402 | In every reachable synchronized state the last ACK on the wire is RCV.NXT or the delayed-ACK timer runs |
| `Timestamps.OldRefused` | tcp/transport/paws.go:9-11 | A segment with a timestamp older than the newest seen is answered by one ACK and changes neither data nor state nor timestamps |
| `Timestamps.RenewedIff` | tcp/transport/paws.go:13-22 | The newest timestamp is set exactly by an acceptable segment that is not old and does not start beyond Last.ACK.sent |
| `Timestamps.NewestNeverBack` | tcp/transport/paws.go:13-22 | Over every run past the handshake the newest timestamp never goes back on its circle |
| `Runs.ReachableOk` | tcp/transport/statemachine.go:151-221 | From either open, every state of every run, whenever Close is called, keeps the flow-control and delayed-ACK invariants, a flight and a receive window within their buffers, and the agreement of the two records until our FIN is sent; with Close only after everything was sent the agreement in every state |
| `Runs.NoStuckSender` | tcp/transport/data.go:58-87 | In every reachable ESTABLISHED or CLOSE-WAIT state unsent data implies an armed persist timer, an armed override timer or a non-empty retransmission queue |
| `Runs.PendingTimersWork` | tcp/transport/statemachine.go:209-265 | From every reachable ESTABLISHED or CLOSE-WAIT state with unsent data, a tick at which whatever is armed or queued is due writes a segment or gives the connection up |
| `Runs.StepWithinWindows` | tcp/transport/data.go:54-122 | Every step of a reachable connection from SYN-RECEIVED on leaves in flight at most the larger of min(cwnd, SND.WND) and what was in flight plus one probe byte into a closed window or our FIN |
| `Runs.TextAckedAtOnce` | tcp/transport/data.go:172-202 | In every reachable state, accepted text other than the first full in-order segment to wait makes its step end with an ACK of RCV.NXT |
| `Runs.OwedAckHasTimer` | tcp/transport/flowcontrol.go:165-186 | In every reachable synchronized state the last ACK sent equals RCV.NXT or the delayed-ACK timer is armed, with at most one segment waiting |
| `Runs.RecordsAgree` | tcp/transport/data.go:124-137 | In every reachable ESTABLISHED or CLOSE-WAIT state the two records of unacknowledged data agree |
| `Runs.RecordsAgreeWithFin` | tcp/transport/statemachine.go:196-203 | In every reachable FIN-WAIT-1, CLOSING or LAST-ACK state the last queue entry is the FIN at SND.NXT-1 and the payloads before it, less what is acknowledged, are the whole send buffer (or the SYN is still unacknowledged and there is no data) |
| `Runs.RecordsEmptyAfterFin` | tcp/transport/statemachine.go:906-925 | In every reachable FIN-WAIT-2 or TIME-WAIT state both records are empty and everything is acknowledged |
| `Runs.TimeWaitLasts` | tcp/transport/statemachine.go:209-217 | Unless reset by the exact sequence number, TIME-WAIT is left only by a tick at least the full duration after entry and after every FIN since, or, only if Close came with data unsent, by giving up the retransmission of that data |
| `Retries.StepMoves` | tcp/transport/statemachine.go:238-304 | One step: the retry counter of the queue head grows by one exactly when the timer resends it, a new head starts from zero, and the head leaves exactly when acknowledged, given up, or the open is called off |
| `Retries.HeadResent` | tcp/transport/statemachine.go:238-265 | Over every run the counter of the queue head is the number of times the timer has resent it, five at most, and no other entry has been resent by the timer |
| `Retries.DueHead` | tcp/transport/statemachine.go:245-265 | In every reachable state a tick at which the head is due resends it if that happened fewer than five times, and closes the connection otherwise |
| `Retries.TimeoutDoubles` | tcp/transport/statemachine.go:259-274 | Over every run the timeout of an entry that stays at the head is what it was, doubled for each resend by the timer since, at most 60 s |
| `Retries.TimerRestarts` | tcp/transport/statemachine.go:277-304 | Over every run the ACK that removes the head restarts the timer, at that moment and with the timeout of the estimator, for whatever heads the queue next |
| `ForgedText.AcceptErase` | tcp/transport/data.go:172-300 | Where arriving bytes are put, and what is held, drained and trimmed, does not depend on the bytes |
| `ForgedText.AnyArrivalsConserve` | tcp/transport/data.go:172-300 | Over every run, whatever segments arrive, forged ones with conflicting bytes and repeated FINs included: unread bytes plus window fit the buffer, and held fragments are sorted, inside the window, and start less than as many places before RCV.NXT+1 as FINs were consumed (strictly beyond RCV.NXT for none, at or beyond it for one) |
| `ForgedText.AnyArrivalAccounted` | tcp/transport/data.go:190-192 | No arrival past the handshake changes unread bytes plus window, and the right edge RCV.NXT+RCV.WND moves exactly by the FIN it consumed, if any |
| `ForgedText.FinShapeIff` | tcp/transport/statemachine.go:709-713 | A FIN leaves everything held strictly beyond RCV.NXT if and only if nothing was held at the number after it |
| `Witnesses.FinOverHeldExample` | tcp/transport/statemachine.go:709-713 | A run from an open in which a FIN brings RCV.NXT to a held byte |
| `ForgedText.AnyDataConserves` | tcp/transport/data.go:172-300 | Over every run whose segments carry no FIN, held fragments stay strictly beyond RCV.NXT and inside the window, and unread bytes plus window fit the buffer |
| `ForgedText.AnyDataKeepsEdge` | tcp/transport/data.go:190-192 | In such runs no arrival moves the right window edge, or unread bytes plus window |
| `Positions.DataSends` | tcp/transport/data.go:107-122 | New data goes out at the position of its bytes in the stream given to Send |
| `Positions.CloseSends` | tcp/transport/statemachine.go:196-203 | With nothing unsent the FIN takes the position after the last byte |
| `Positions.HandleAckSends` | tcp/transport/statemachine.go:744-781 | An accepted ACK at position a moves SND.UNA to a if that is forward, and everything written stays at its stream position |
| `Positions.TickSends` | tcp/transport/statemachine.go:209-236 | Retransmissions, probes and forced sends repeat or extend the stream exactly |
| `EndToEnd.TextReceived` | tcp/transport/data.go:172-202 | A copy of peer data less than 2^31 away, duplicate or not, before or after the FIN, adds exactly the stream bytes that follow what was received and keeps unread bytes plus window |
| `EndToEnd.FinConsumed` | tcp/transport/statemachine.go:709-713 | The FIN is consumed only when everything before it has been received |
| `EndToEnd.MoveOk` | tcp/transport/statemachine.go:533-551 | One step of either endpoint keeps the linked invariant of both, and unwrapped positions follow the 32-bit numbers exactly |
| `EndToEnd.EndToEndSafety` | tcp/transport/data.go:36-300 | In every state of every run over a dropping, duplicating, reordering network: bytes returned by Recv (and buffered) are a prefix of what the peer gave to Send; acknowledged <= received <= sent; end of file only after every byte was read and the peer closed; established means both SYNs acknowledged; unread bytes plus window fit the buffer |
| `EndToEnd.TimelyWhileShort` | tcp/transport/seq.go:7-11 | The age assumption excludes nothing while fewer than 2^31 positions have been used |
| `EndToEnd.EdgeNeverMovesLeft` | tcp/transport/flowcontrol.go:188-197 | Over every run the right window edge of a synchronized receiver never moves left |
| `EndToEnd.EdgeStays` | tcp/transport/data.go:190-192 | One step: arriving data keeps the right window edge exactly where it was |
| `EndToEnd.SackInEveryRun` | tcp/transport/sack.go:16-44 | In every reachable state held fragments are sorted, strictly beyond RCV.NXT and inside the window, RCV.NXT is the first missing position, and SACK blocks are sound |
| `EndToEnd.SackAnswersInEveryRun` | tcp/transport/statemachine.go:453-488 | In every reachable state, a segment of the peer accepted out of order inside the window is answered in that step by an ACK whose first SACK block spans it |
| `EndToEnd.EveryWrittenSegmentParses` | tcp/transport/listener.go:160-176 | Every segment written in any run, encoded as a packet with any padding, passes the receive pipeline and parses back to itself |
| `EndToEnd.DamagedSegmentRefused` | tcp/transport/listener.go:160-172 | In every run a written segment whose packet has any one byte changed on the way is refused by the receive pipeline |
| `EndOfFile.EofIff` | tcp/transport/data.go:139-166 | In every run Recv reports end of file if and only if nothing is left to read and the whole stream of the peer, its FIN included, has been received |
| `MuxPath.PacketReachesOwn` | tcp/transport/listener.go:174-201 | Over every interleaving a packet is given only to a connection of its own 4-tuple, and no other connection moves in that action |
| `MuxPath.LiveEntryTakes` | tcp/transport/listener.go:177-192 | Over every interleaving a segment whose 4-tuple leads to a live connection is taken by exactly that connection |
| `MuxPath.StateRoutes` | tcp/transport/listener.go:177-192 | CLOSED is reaped, a SYN in TIME-WAIT goes to the listener, everything else to the connection |
| `MuxPath.ListenerDerivesIff` | tcp/transport/listener.go:206-224 | A listener derives a connection exactly for a bare SYN from a unicast address |
| `MuxPath.DeliversIff` | tcp/transport/listener.go:243-258 | A derived connection that was ESTABLISHED and not handed over yet is put last in its own channel exactly if there is room |
| `Mux.ActKeeps` | tcp/transport/listener.go:134-258 | Every critical section of the receive thread, tick thread, dialers and users keeps the multiplexer invariant |
| `Mux.LiveNeverDisplaced` | tcp/transport/conntable.go:45-67 | No action removes an entry unless its connection is CLOSED, or replaces it unless the connection is in TIME-WAIT or CLOSED |
| `Mux.OneLivePerTuple` | tcp/transport/conntable.go:24-25 | Two live connections never share a 4-tuple, inside the table or outside |
| `Mux.ReplacementIss` | tcp/transport/listener.go:226-235 | A SYN that replaces a dead incarnation through a listener gets an ISS exactly 64000 beyond the SND.NXT that incarnation has at that moment, however it moved since it was seen in TIME-WAIT |
| `Mux.MuxSafety` | tcp/transport/listener.go:70-258 | Over every interleaving: each entry leads to a connection of exactly its 4-tuple, every live connection is found through its entry, and a connection is handed over at most once, to the channel it was derived for, only after ESTABLISHED |
| `Mux.AcceptSafety` | tcp/transport/listener.go:244-258 | Over every interleaving: what Accept has returned on a channel followed by what waits there is exactly what was handed to that channel, in order; no connection is accepted twice, by a channel other than the one it was derived for, or before it reached ESTABLISHED |
| `MuxPath.RoundTicksAll` | tcp/transport/listener.go:133-150 | Over every interleaving each connection tracked when a round of the tick thread begins is ticked before the round goes on to reaping |
| `MuxPath.Reaps` | tcp/transport/listener.go:70-98 | Reaping takes exactly the CLOSED connections out of the table, where another may meanwhile have their entry, and out of the tracked ones |
| `MuxPath.DialOutcome` | tcp/transport/listener.go:100-113 | Dial returns an occupant that is not in TIME-WAIT as it is, or creates a connection of its 4-tuple in SYN-SENT with the ISS given and its SYN written |
| `ConnTable.ConnTable.InsertIfAbsent` | tcp/transport/conntable.go:45-67 | Test-and-set on the table object: occupant returned untouched unless in TIME-WAIT, otherwise a new connection of that 4-tuple with the stated ISS |
| `ConnTable.ConnTable.RemoveIf` | tcp/transport/conntable.go:83-91 | An entry is removed only while it still leads to the given connection |
| `ConnTable.ConnTable.Lookup` | tcp/transport/conntable.go:69-74 | Exact-match lookup |
| `ConnTable.ConnTable.AddListener` | tcp/transport/conntable.go:93-100 | Listener registration |
| `ConnTable.ConnTable.LookupListener` | tcp/transport/conntable.go:109-114 | Listener lookup with a wildcard remote |

## Left out

- tcp/link, cmd, e2e, scripts: sockets, TUN, ARP, hole punching and the demo are I/O.
- Goroutine start and stop, closing a stack, debug logging, observers and setters.
- Keepalive (tcp/transport/keepalive.go), because it can close a connection from any synchronized state.
- The round-trip estimator (tcp/transport/rto.go): the retransmission timeout is an arbitrary input of every step.
- Agreement of both sides on window scaling when a SYN is retransmitted, because retransmissions drop the options.
- The advertised, right-shifted edge of the window: only the internal edge is monotone.
- Opening a connection object a second time after it was closed.
- `Mux` has the packet already parsed, and `SendClosedRst` answers are not part of its state; `EndToEnd.EveryWrittenSegmentParses` covers the parsing.
- The stack object of listener.go itself: `Mux` models it on values, as interleaved steps, so updates in place of its maps are captured only for the table (`ConnTable`).
- Growth of the Go slices (capacity, aliasing of backing arrays): byte buffers are sequences.
- Conn.Connection.Tick: the keepalive check at the end of a tick is left out (keepalive is off).
- Conn.Connection.OnSegment: the keepalive bookkeeping of an arrival is left out (keepalive is off).
- Conn.Connection.OnSegmentSynchronized: the round-trip sample taken from TSecr is left out; the resulting timeout is an input of the step.
- Conn.Connection.AckRetxQueue: the round-trip sample of the acknowledged head is left out; the resulting timeout is an input of the step.
- ForgedText.AnyDataConserves: segments with a FIN are outside it, because a FIN can bring RCV.NXT to a byte that is held (`ForgedText.FinShapeIff`, `Witnesses.FinOverHeldExample`); `ForgedText.AnyArrivalsConserve` covers them.
- ForgedText.AnyArrivalsConserve: buffer size plus the FINs consumed stays within 2^30.
- Congestion.RunOk: `cwnd` does not wrap at 32 bits in the model.
- EndToEnd.EndToEndSafety: safety only; that data eventually arrives depends on the network and is claimed only for undisturbed exchanges (`Exchange`, `Closing`) and as far as the timers of `Runs.NoStuckSender` and `Runs.PendingTimersWork` go.
- Runs.TimeWaitLasts: abort by a reset with the exact sequence number is excluded, as the code allows it.
- Runs.RecordsAgreeWithFin: connections closed with data unsent are outside it, because there the FIN is not behind the data (`SenderSteps.CloseIff`).
- Acceptance.AckAcceptedIff: flights plus MAX.SND.WND of 2^31 and more are outside it; `SeqNum.AckInRangeExactIff` says what the range test decides there.
- Exchange.DataExchanged: one segment of text; longer text is covered by the run results.
- Wire.WireRoundTrip: payloads over 1360 bytes are outside it, because the stack never writes them.
- Checksum.VerifiesIff: data over 131074 bytes, where the 32-bit sum could overflow, is outside it; an IPv4 packet is shorter.
