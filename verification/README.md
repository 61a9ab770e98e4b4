# Shadow-GRE, verified

Shadow-GRE carries TCP streams inside GRE packets. GRE loses, duplicates and reorders, so the program
has its own reliable transport: 32-bit wrap-around sequence numbers, cumulative and selective
acknowledgments, retransmission by timeout and by gap, an out-of-order buffer, an AIMD window, an
RFC 6298 estimator, delayed acknowledgments and a variable-length wire format. On the server the
stream data is handed to a backend connection that may still be being dialled. This project models
those parts in Dafny and proves what they guarantee, over every input, every run and every
interleaving.

## What is proved, in short

- **Delivery.** In every run of two endpoints and a lossy, duplicating, reordering network, of any
  length (past 2^32 packets as well), each application has received exactly the first n payloads the
  other one sent, in order, each once (`Safety.PrefixDelivery`).
- **No reneging.** What the sender believes selectively acknowledged, or any SACK in flight reports,
  is delivered or buffered, then and ever after (`Safety.NoReneging`).
- **Retention and progress.** As long as no processed acknowledgment was behind sendBase and no packet
  was given up, everything missing is still kept for retransmission, and while both ends are open some
  finite schedule from any moment on completes the transfer (`Retention.RetentionHolds`,
  `Progress.CompletionIsPossible`). Both hypotheses are exact
  (`Retention.AckRetainsExactly`, `Retention.TickRetainsExactly`).
- **A defect, with its exact condition.** An acknowledgment behind sendBase makes the sender forget
  packets nobody has. A run from two fresh endpoints that ends with a payload that no continuation
  ever delivers is constructed in `Stranding.StaleAckRun`: a late duplicate of an acknowledgment is all it
  takes. A missing payload can still arrive afterwards if and only if a copy of it is in flight
  (`Stranding.StaleAckStrandsExactly`). Stale acknowledgments are not exotic: retransmissions resend the
  acknowledgment marshalled at first send.
- **Recovery, exactly.** In every run an acknowledgment that is not behind sendBase puts on the wire one copy
  of each packet it calls for and of no other, and leaves the sender in exactly one state; the same for
  a timeout check (`AckEffects.AckInRuns`, `AckEffects.CheckInRuns`). Said through the indices: the
  oldest packet at the third duplicate without blocks, with blocks every hole below the highest one once
  half a timeout has passed. A stale acknowledgment resends nothing and forgets everything up to 32768
  ahead (`AckEffects.StaleAckExactly`). Over time: every third duplicate resends one packet, gaps are
  resent at most once per 50 ms, a silent peer is given up only after twenty resends and the sum of the
  backed-off timeouts (`Recovery`). Every round-trip sample comes from a packet that has been on the wire
  exactly once (`Transmissions.KarnInRuns`), and each such packet gives one.
- **Window.** A payload is admitted if and only if the stream is open and fewer than cwnd indices are
  outstanding, in every run (`Sending.AdmitsExactly`). After k reductions and n acknowledged packets the
  window lies between max(8, cwnd/2^k) and that plus n (`CongestionControl.WindowFloor`,
  `WindowDynamics.WindowCeiling`); slow start adds exactly the packets acknowledged; congestion avoidance
  keeps a ledger.
- **Timers.** RFC 6298 as a step response: n samples R bring SRTT from S to R + (S - R)(7/8)^n
  (`RttEstimation.StepResponse`). RTO bounds and delayed acknowledgments in every network run
  (`StreamRuns`); of packets in order exactly every fourth is acknowledged at once
  (`Receiver.EveryFourthAcknowledged`).
- **Closes.** Each packet in flight is a pure acknowledgment, or carries the payload, or is the close, that
  its sender accepted at that index (`Sending.ClosesAreAccepted`). Nothing sent after a close or after an
  empty payload is ever delivered (`Sending.NothingPassesEmptyOrClose`).
- **Formats.** Exact round trips (both directions) of the reliable packet and of GRE, byte-level
  serializers and parsers, every byte's place (`ReliableCodec.WireLayout`, `Gre.HeaderLayout`), the two
  together, and the MTU bound over whole runs (`FullStack.FitsMtu`).
- **Hand-off.** Under every interleaving, whichever writes fail, the backend gets fronts of accepted items
  in order (`HandoffSafety.OrderAlwaysKept`); a prefix of what was accepted unless a write of a drain
  failed, and the remainder is accounted for (`HandoffSafety.WrittenIsPrefix`, `HandoffSafety.NothingLost`).
  A half-close delivers everything and then tells the backend (`HandoffSafety.HalfCloseDelivers`).
- **What a full close does not promise.** Data queued just after the writer has drained is accepted and
  never written (`HandoffSafety.LateQueueStrands`): everything arrives if and only if the handler is not
  about to send at that moment (`HandoffSafety.DrainedExactly`). And a drain ignores a failed write, so the
  backend can get the second item without the first (`HandoffSafety.DrainGapSkips`, exact condition in
  `HandoffSafety.DrainFailureExactly`). A close during the dial is undone when the dial succeeds
  (`HandoffSafety.CloseDuringDialIsUndone`); it ends all writing if and only if the connection is there
  (`HandoffSafety.CloseEndsWriting`).

## How the model is organised

| file | what it holds |
|---|---|
| SeqNum, Bytes | 32-bit arithmetic and its meaning for unbounded indices; big-endian integers |
| ReliableCodec, Gre, FullStack | the wire formats as functions, the byte-writing methods, the stack |
| RttEstimation, CongestionControl, WindowDynamics | estimator and window, over all histories |
| SackBuilder | the SACK blocks of a buffer: what they must be, and the in-place algorithm |
| Sender, Receiver, Endpoint | the handlers of a stream as functions on its state |
| ReliableStream | the stream as the program has it, a class whose methods are proved equal to those functions |
| Network | two endpoints, the network, and the inductive invariant |
| ReceiverSafety, SenderSafety, NetworkSafety, Safety | the invariant is kept; the safety theorems |
| ScanRefinement, Retention, Progress, Stranding, StreamRuns, Transmissions, Recovery | what builds on it |
| AckEffects, Sending | exactly what acknowledgments, timeout checks, Send and SendClose do in every run |
| Waiting | what may happen while a Send waits for the window, and why it may take its number before |
| Handoff, HandoffSafety | the hand-off as a state machine over atomic steps; what it guarantees |
| ServerStream | the program's object, whose methods are proved to be runs of that machine |

History variables (`sent`, `base`, `delivered`, `acked`, `sinceAck`, and the indices `idx` and `ackIdx`
of a packet) are ordinary fields that no branch reads. They carry the unbounded indices whose low 32
bits are on the wire.

## Assumptions about the environment

The code forces these; each is visible in the model.

- Each handler (SendClose, Receive, checkRetransmit, the ack timer's callback, Close, and Send once it has
  the window) is one atomic step with one clock reading. Time is an integer number of nanoseconds; floating
  point is modelled by reals.
- A copy that arrives is at most 2^31 sequence numbers behind what its receiver compares it with
  (`Network.FreshFor`). `ReceiverSafety.DuplicateRecognisedExactly` shows the bound is exact.
- Fewer than 2^31 numbers are outstanding because of close packets, which do not wait for the window
  (`Network.Enabled`, DoSendClose).
- One incarnation of a stream: removing it after a close lets a later packet recreate it with recvNext 0.
- A close is abrupt: the receiver does not wait for gaps, and a close packet spends a sequence number
  that recvNext never passes. Progress is therefore about payloads with no close ahead of them, and about
  non-empty payloads, since empty data is ignored on receipt.
- A timeout check may also fall on a closed endpoint (`Network.Enabled`, DoTick): retransmitLoop may still
  pick a tick that was due when Close ran. Safety therefore holds with such checks, and what is said to be
  possible (`Progress`) does not use them.
- Send and SendClose of one stream are called by one goroutine, as client and server do
  (pkg/shadowgre/client.go:190-216, pkg/shadowgre/server.go:365-410).
- On the server the receive loop makes its calls one after the other (pkg/transport/server.go:110-148), so
  the client's close falls between two calls of the data handler. close() may be run by anyone at any time.
  A write to the backend may fail at any time, after any number of bytes, and does fail once the connection
  is closed.

## Where prose and code disagree

DESIGN.md:125-136 describes BBR, and README.md:172 a window of 128 packets. The code is AIMD with slow
start, and a window between 8 and 16384; the model follows the code. README.md:171 speaks of fast
retransmit on three duplicate acknowledgments; the code does that only for duplicates without SACK
blocks, and otherwise retransmits gaps at most once per half RTO.

## Model

| member | source | states |
|---|---|---|
| SeqNum.SignedDistance | pkg/tunnel/reliable.go:1090-1100 | for two indices at distance in [-2^31, 2^31) the three wrapped comparisons are the comparisons of the indices |
| SeqNum.AntipodeIsAmbiguous | pkg/tunnel/reliable.go:1090-1092 | at distance exactly 2^31 each of two numbers is less than the other |
| SeqNum.OffsetsCompare | pkg/tunnel/reliable.go:1090-1100 | inside the half circle after any base, wrapped order is the order of offsets from the base |
| SeqNum.HalfCircleOrder | pkg/tunnel/reliable.go:841-846 | on a half circle seqLess is irreflexive, transitive and total, so sorting with it is meaningful |
| ReliableCodec.ReliablePacket.HeaderSize | pkg/tunnel/reliable.go:74-83 | equals the number of header bytes the serializer produces |
| ReliableCodec.RoundTrip | pkg/tunnel/reliable.go:86-168 | parsing a serialized packet gives it back if and only if it has at most 4 blocks and its absent parts are zero or empty |
| ReliableCodec.DecodeShape | pkg/tunnel/reliable.go:122-168 | whatever is parsed is well-formed, for every input |
| ReliableCodec.ParsedRoundTrip | pkg/tunnel/reliable.go:122-168 | re-serializing a parsed input gives it back if and only if the SACK count byte, when present, is at most 4 |
| ReliableCodec.MarshalBlocks | pkg/tunnel/reliable.go:107-112 | the loop writes exactly the encoded blocks and leaves the rest of the buffer alone |
| ReliableCodec.MarshalTo | pkg/tunnel/reliable.go:94-119 | writes exactly the encoding at the front of any buffer large enough, returns its length, changes nothing after it |
| ReliableCodec.Marshal | pkg/tunnel/reliable.go:86-91 | returns exactly the encoding |
| ReliableCodec.ParseSack | pkg/tunnel/reliable.go:139-158 | reads count and blocks with the clamp to 4, fails exactly when the format function does |
| ReliableCodec.UnmarshalReliable | pkg/tunnel/reliable.go:122-168 | equals the format's parser on every input, never reading out of bounds |
| ReliableCodec.UnmarshalReliableNoCopy | pkg/tunnel/reliable.go:171-216 | the same result on every input, so the two parsers agree |
| ReliableCodec.HeaderBound | pkg/tunnel/reliable.go:15-22 | with at most 4 blocks the header has between 9 and 46 bytes |
| ReliableCodec.WireLayout | pkg/tunnel/reliable.go:86-119 | where every field is: big-endian stream, flags, sequence number; with bit 1 the ACK; with bit 4 the block count and the blocks, left end first; then the data; bits 0 and 2 mean data and close |
| Bytes.BigEndian | pkg/tunnel/reliable.go:96-112 | 16- and 32-bit numbers are written most significant byte first |
| Gre.Header.HeaderSize | pkg/gre/gre.go:45-57 | equals the number of header bytes the serializer produces |
| Gre.HeaderInverts | pkg/gre/gre.go:60-122 | for every combination of optional fields the parser finds the header and where it ends |
| Gre.RoundTrip | pkg/gre/gre.go:132-193 | parsing a serialized packet gives it back if and only if the version is 0 and absent fields are zero |
| Gre.DecodedIsWellFormed | pkg/gre/gre.go:82-122 | whatever is parsed has version 0 and zeros for absent fields |
| Gre.MarshalHeader | pkg/gre/gre.go:60-79 | returns exactly the encoded header |
| Gre.MarshalHeaderTo | pkg/gre/gre.go:159-174 | writes exactly the encoded header at the front, changes nothing after it |
| Gre.MarshalPacket | pkg/gre/gre.go:144-150 | returns exactly the encoded packet |
| Gre.MarshalPacketTo | pkg/gre/gre.go:155-180 | writes into a large enough buffer the same bytes as Marshal and returns their number |
| Gre.Unmarshal | pkg/gre/gre.go:82-122 | equals the format's header parser on every input, with its two errors |
| Gre.UnmarshalPacket | pkg/gre/gre.go:183-193 | equals the format's packet parser on every input |
| Gre.HeaderLayout | pkg/gre/gre.go:60-79 | section 2 of RFC 2784 and of RFC 2890: flags, protocol type, then checksum, key and sequence number, each present with its bit, big-endian |
| Gre.PacketLayout | pkg/gre/gre.go:132-142 | what is sent starts with the bytes 20 00 65 58 and the key, then the payload |
| Gre.VersionChecked | pkg/gre/gre.go:92-95 | the version is refused exactly when one of the last three bits of the second byte is set |
| FullStack.StackRoundTrip | pkg/transport/raw.go:74-87 | a packet sent through reliable format and GRE arrives unchanged if and only if the keys agree and it is well-formed |
| FullStack.ActSized | pkg/tunnel/reliable.go:553-573 | every step keeps every packet in flight or kept within 46 header bytes plus the largest payload |
| FullStack.FitsMtu | pkg/shadowgre/client.go:17-24 | in every run with payloads of at most 1400 bytes every packet in flight makes an IP packet of at most 1474 bytes and unwraps to the packet the stream sees |
| RttEstimation.RTTEstimator.Update | pkg/tunnel/reliable.go:244-267 | moves SRTT by an eighth of the way to the sample and RTTVAR by a quarter of the way to the deviation from the old SRTT; the first sample sets both |
| RttEstimation.RTTEstimator.Backoff | pkg/tunnel/reliable.go:287-294 | doubles the timeout up to 4000 ms |
| RttEstimation.RtoWithinBounds | pkg/tunnel/reliable.go:244-294 | after any history of samples and backoffs the RTO is in [100, 4000] ms |
| RttEstimation.BackoffGrows | pkg/tunnel/reliable.go:287-294 | in any reachable state a backoff never lowers the RTO and doubles it unless it reaches the cap |
| RttEstimation.EstimatesWithinSamples | pkg/tunnel/reliable.go:248-257 | samples in [lo, hi] keep SRTT in [lo, hi] and RTTVAR at most max(hi/2, hi-lo) |
| RttEstimation.ConstantSamplesConverge | pkg/tunnel/reliable.go:244-267 | n+1 equal samples R from fresh give SRTT R and RTO clamp(R + 2R(3/4)^n) |
| RttEstimation.SampleMovesEstimates | pkg/tunnel/reliable.go:244-267 | section 2 of RFC 6298 in numbers: an eighth of the way to R, RTTVAR a quarter of the way to the old deviation, RTO = SRTT + 4 RTTVAR within [100, 4000] ms |
| RttEstimation.StepResponse | pkg/tunnel/reliable.go:254-267 | from SRTT S and RTTVAR V, n samples R give SRTT = R + (S-R)(7/8)^n and RTTVAR = V(3/4)^n + 2|S-R|((7/8)^n - (3/4)^n), and the RTO follows |
| CongestionControl.AckKeepsValid | pkg/tunnel/reliable.go:458-484 | an ACK advance keeps 8 <= cwnd <= 16384, ssthresh >= 8, 0 <= caAccum < cwnd and never shrinks the window |
| CongestionControl.Run | pkg/tunnel/reliable.go:456-534 | every state in any history of ACK advances and losses satisfies that invariant |
| CongestionControl.SlowStartNotReentered | pkg/tunnel/reliable.go:463-534 | after the first reduction ssthresh never exceeds cwnd again, in any history |
| CongestionControl.TriangleClosedForm | pkg/tunnel/reliable.go:471-482 | the ledger's price of a window w is w(w-1)/2 |
| CongestionControl.LedgerStep | pkg/tunnel/reliable.go:471-482 | one congestion-avoidance advance credits at least the packets acknowledged, exactly those when at most a window is acknowledged |
| CongestionControl.AdditiveIncreaseLedger | pkg/tunnel/reliable.go:471-482 | over any run below the cap: packets acked + T(cwnd0) + caAccum0 <= T(cwnd) + caAccum, with equality when each call acks at most cwnd packets |
| CongestionControl.ReductionsSpaced | pkg/tunnel/reliable.go:488-534 | successive reductions are at least a round trip apart, across both handlers |
| CongestionControl.ReductionsAreRateLimited | pkg/tunnel/reliable.go:488-534 | in time t with round trips of at least s at most 1 + t/s reductions happen, however ACKs are interleaved |
| CongestionControl.WindowFloor | pkg/tunnel/reliable.go:488-534 | after k reductions, with any ACKs in between, cwnd >= max(8, floor(cwnd0 / 2^k)) |
| CongestionControl.WindowOverInterval | pkg/tunnel/reliable.go:488-534 | the two together: the window's floor after time t |
| WindowDynamics.LossHalves | pkg/tunnel/reliable.go:488-534 | a loss one round trip (SRTT, or the RTO before a sample) or more after the last reduction sets cwnd and ssthresh to max(8, floor(cwnd/2)) and clears the fraction; an earlier one does nothing |
| WindowDynamics.HalvingsExact | pkg/tunnel/reliable.go:488-534 | k reductions without an ACK in between leave exactly max(8, floor(cwnd0 / 2^k)) |
| WindowDynamics.SpacedLossesAllReduce | pkg/tunnel/reliable.go:488-534 | loss signals a round trip apart all reduce, so n of them halve n times |
| WindowDynamics.WindowCeiling | pkg/tunnel/reliable.go:458-534 | after k reductions, interleaved with ACKs of n packets in all, cwnd <= max(8, floor(cwnd0 / 2^k)) + n |
| WindowDynamics.SlowStartAddsAcked | pkg/tunnel/reliable.go:463-470 | below ssthresh each acknowledged packet adds one, however the ACKs are cut up, up to 16384, and nothing else changes |
| WindowDynamics.FreshWindow | pkg/tunnel/reliable.go:24-35 | from a fresh stream n <= 992 acknowledged packets give a window of 32 + n |
| WindowDynamics.AvoidanceDivides | pkg/tunnel/reliable.go:471-482 | in congestion avoidance below the cap the window grows by the quotient of what has been acknowledged and the window, and the remainder is carried on |
| WindowDynamics.ThresholdEndsSlowStart | pkg/tunnel/reliable.go:471-482 | at 1024 slow start ends: the next 1024 packets add one, fewer add none |
| SackBuilder.SortedIsAscending | pkg/tunnel/reliable.go:836-846 | the sorted keys are strictly ascending by offset and are exactly the key set |
| SackBuilder.AscendingUnique | pkg/tunnel/reliable.go:836-846 | a key set in a half circle has only one ascending order, so the sort's result does not depend on map order |
| SackBuilder.RunsExact | pkg/tunnel/reliable.go:849-866 | the runs of an ascending sequence are separated and cover exactly its elements |
| SackBuilder.SackBlocksExact | pkg/tunnel/reliable.go:827-869 | at most 4 blocks, ascending, disjoint, non-adjacent, each a maximal run of keys, the first ones after recvNext, with a key uncovered only past a full list of four |
| SackBuilder.SackBlocksEmpty | pkg/tunnel/reliable.go:831-833 | no blocks exactly when nothing is buffered |
| SackBuilder.CollectKeys | pkg/tunnel/reliable.go:836-839 | the array holds each key exactly once, in some order |
| SackBuilder.Insert | pkg/tunnel/reliable.go:842-846 | one pass of the inner loop moves an element to its place: a permutation, ascending one further |
| SackBuilder.InsertionSort | pkg/tunnel/reliable.go:841-846 | sorts in place: a permutation, ascending by offset from the base |
| SackBuilder.CutRuns | pkg/tunnel/reliable.go:848-866 | the loop with its early exit yields the first four runs |
| SackBuilder.BuildSackBlocks | pkg/tunnel/reliable.go:827-869 | the whole algorithm returns the specified blocks for any buffer in a half circle |
| Sender.AckSpan | pkg/tunnel/reliable.go:767-772 | the cumulative scan is bounded by 2 * MaxCwnd steps whatever arrives |
| Sender.SackSpan | pkg/tunnel/reliable.go:667-671 | the SACK scan has between 1 and 2 * MaxCwnd steps whatever arrives |
| Sender.LostScan | pkg/tunnel/reliable.go:672-695 | the scan returns each loss candidate within its span once, in ascending order, and nothing else |
| Sender.ProcessAck | pkg/tunnel/reliable.go:700-824 | keeps the congestion invariant for arbitrary acknowledgments |
| Sender.CheckRetransmit | pkg/tunnel/reliable.go:1021-1061 | keeps the congestion invariant |
| SenderSafety.ProcessAckShrinks | pkg/tunnel/reliable.go:700-824 | for arbitrary input an acknowledgment only removes packets, marks those in blocks, resends kept bytes, and moves sendBase forward or not at all |
| SenderSafety.AckCompare | pkg/tunnel/reliable.go:703-772 | for an acknowledgment at an index in range, the wrapped tests and the scan length are those of the index; behind sendBase the length is 2 * MaxCwnd |
| SenderSafety.ScanIsPrefix | pkg/tunnel/reliable.go:773-785 | an acknowledgment past sendBase removes exactly the packets with a smaller index |
| SenderSafety.StaleScan | pkg/tunnel/reliable.go:769-785 | one behind sendBase removes exactly the packets within 2 * MaxCwnd of sendBase |
| SenderSafety.MarkedReceived | pkg/tunnel/reliable.go:682-691 | every packet an acknowledgment of a conforming peer marks has been received |
| SenderSafety.ProcessAckOk | pkg/tunnel/reliable.go:700-824 | processing it keeps the sender's invariant, and sendBase becomes the larger of the two indices |
| SenderSafety.CheckRetransmitOk | pkg/tunnel/reliable.go:1021-1061 | a timeout check keeps the sender's invariant and moves nothing but marks of time and retries |
| SenderSafety.RecordOk | pkg/tunnel/reliable.go:548-585 | sending through an open window keeps every payload within MaxCwnd of sendBase |
| SenderSafety.DeliveredInWindow | pkg/tunnel/reliable.go:391-417 | what a conforming peer has delivered is at most a window past sendBase |
| Receiver.DrainOk | pkg/tunnel/reliable.go:912-926 | the drain ends, leaves recvNext unbuffered, appends to what was delivered and touches nothing else |
| Receiver.DrainIdle | pkg/tunnel/reliable.go:639-643 | on a consistent buffer a drain finds nothing, so a close delivers nothing more |
| Receiver.BufferedOk | pkg/tunnel/reliable.go:888-897 | buffering keeps every key strictly ahead of recvNext by less than 2^31 and the buffer within 16384 |
| Receiver.ProcessDataOk | pkg/tunnel/reliable.go:872-909 | a packet of arbitrary number and content keeps the buffer and acknowledgment invariants and takes nothing back |
| Receiver.ReceiverInvariant | pkg/tunnel/reliable.go:872-1003 | after any sequence of packets whatsoever: keys in the open half circle, at most 16384 of them, recvNext counts the deliveries, acknowledgments pending only with the timer armed |
| Receiver.DelayedAckComplete | pkg/tunnel/reliable.go:872-1003 | the last acknowledgment number on the wire is recvNext or an armed timer will send it; at most 3 in-order packets wait; numbers never go back |
| Receiver.EveryFourthAcknowledged | pkg/tunnel/reliable.go:929-956 | of any run of n packets in order exactly floor((c + n)/4) are acknowledged, c being the count so far modulo 4, nothing else is sent, and an acknowledgment is pending unless the last was a fourth |
| Receiver.InOrderStep | pkg/tunnel/reliable.go:929-956 | a fourth packet is acknowledged at once and the timer stopped; any other leaves one pending with the timer armed |
| ReceiverSafety.DataKeepsMatches | pkg/tunnel/reliable.go:872-926 | a truthful packet at most 2^31 old keeps what is held equal to what was sent, and everything once held |
| ReceiverSafety.DrainMatches | pkg/tunnel/reliable.go:912-926 | so does the drain loop |
| ReceiverSafety.DataGainsOnly | pkg/tunnel/reliable.go:872-926 | a packet for one index adds at most that index to what is held |
| ReceiverSafety.ConformingSenderFillsLess | pkg/tunnel/reliable.go:888-897 | with a conforming sender the buffer stays below 16384, so the refusal at a full buffer is unreachable |
| ReceiverSafety.SackReportsReceived | pkg/tunnel/reliable.go:827-869 | every block built reports received indices only, less than a window ahead |
| ReceiverSafety.DuplicateRecognisedExactly | pkg/tunnel/reliable.go:874-907 | an old copy is recognised as a duplicate if and only if it is at most 2^31 numbers behind |
| NetworkSafety.CopyStaysOk | pkg/tunnel/reliable.go:576-585 | a copy stays truthful as its sender moves on, so a retransmission of old bytes is as good as the original |
| NetworkSafety.DataPacketAcks | pkg/tunnel/reliable.go:553-573 | a data packet is well-formed, carries the next number, and a pending acknowledgment with the buffer's blocks |
| NetworkSafety.PureAckAcks | pkg/tunnel/reliable.go:974-981 | a pure acknowledgment is well-formed and reports recvNext |
| NetworkSafety.SackAckAcks | pkg/tunnel/reliable.go:989-1002 | so does one with blocks, exactly the buffer's |
| NetworkSafety.ClosePacketAcks | pkg/tunnel/reliable.go:601-606 | a close packet is well-formed, acknowledges recvNext and carries no data |
| NetworkSafety.ProcessDataEmits | pkg/tunnel/reliable.go:872-1003 | a data packet triggers at most one packet, a truthful acknowledgment of the state it leaves |
| NetworkSafety.SendKeepsInv | pkg/tunnel/reliable.go:537-591 | Send keeps the invariant of the whole system |
| NetworkSafety.SendCloseKeepsInv | pkg/tunnel/reliable.go:594-622 | so does SendClose |
| NetworkSafety.ReceiveKeepsInv | pkg/tunnel/reliable.go:625-646 | so does receiving any packet in flight, in any order, any number of times |
| NetworkSafety.TickKeepsInv | pkg/tunnel/reliable.go:1021-1061 | so does a timeout check |
| NetworkSafety.AckTimerKeepsInv | pkg/tunnel/reliable.go:951-955 | so does the ack timer |
| NetworkSafety.CloseKeepsInv | pkg/tunnel/reliable.go:1064-1072 | so does Close |
| NetworkSafety.ActKeepsInv | pkg/tunnel/reliable.go:537-1072 | every step of an endpoint or of the network keeps the invariant |
| Safety.Step | pkg/tunnel/reliable.go:537-1072 | a step of either endpoint or of the network stays within the invariant |
| Safety.Reach | pkg/tunnel/reliable.go:362-380 | every state any history reaches from two fresh endpoints satisfies the invariant |
| Safety.SentIsAccepted | pkg/tunnel/reliable.go:537-591 | the history variable holds exactly what the run accepted |
| Safety.ReachSwap | pkg/tunnel/reliable.go:537-1072 | the two directions are symmetric over whole runs |
| Safety.PrefixDelivery | pkg/tunnel/reliable.go:872-926 | in every run and both directions the payloads delivered are exactly the first n sent, in order, each once |
| Safety.ActKeepsHoldings | pkg/tunnel/reliable.go:872-926 | no step gives up an index once delivered or buffered |
| Safety.NoReneging | pkg/tunnel/reliable.go:656-697 | section 8 of RFC 2018: marked packets, and everything any SACK in flight reports, are delivered or buffered in every later state |
| Safety.WindowBound | pkg/tunnel/reliable.go:391-417 | in every reachable state every unacknowledged payload is within MaxCwnd of sendBase, true sendBase <= true recvNext <= sendBase + MaxCwnd, and the peer's buffer is not full |
| Safety.ClampsUnreachable | pkg/tunnel/reliable.go:667-671 | for an acknowledgment in flight not behind sendBase both defensive scan bounds are inactive |
| ScanRefinement.CumulativeScanExact | pkg/tunnel/reliable.go:767-785 | the range loop removes exactly the keys before the acknowledgment |
| ScanRefinement.MarkScanExact | pkg/tunnel/reliable.go:672-691 | the range loop marks exactly the unmarked keys in some block |
| ScanRefinement.LostScanExact | pkg/tunnel/reliable.go:672-695 | it finds lost exactly the unmarked keys outside all blocks and before the highest right edge |
| ScanRefinement.ScansAreFilters | pkg/tunnel/reliable.go:648-697 | on in-window acknowledgments the three range loops have the effect of filtering the whole map, the lost ones in ascending order |
| Retention.FreshAckRetains | pkg/tunnel/reliable.go:757-824 | an acknowledgment at or past sendBase removes nothing that is missing |
| Retention.StaleAckDrops | pkg/tunnel/reliable.go:769-785 | one behind sendBase removes every payload that is missing |
| Retention.AckRetainsExactly | pkg/tunnel/reliable.go:700-824 | an acknowledgment keeps retention if and only if it is not behind sendBase or nothing is missing |
| Retention.TickRetainsExactly | pkg/tunnel/reliable.go:1030-1047 | a timeout check keeps retention if and only if nothing it gives up is missing |
| Retention.RecordRetains | pkg/tunnel/reliable.go:575-585 | what is sent is retained with the bytes that carry it |
| Retention.RetentionHolds | pkg/tunnel/reliable.go:578-585 | in every state reached without stale acknowledgment or give-up each payload sent and not received is kept, unmarked, with bytes that carry it |
| Progress.TickSupplies | pkg/tunnel/reliable.go:1021-1061 | after retention, on an open stream, one timeout check puts every missing payload in flight |
| Progress.DeliverNextCopy | pkg/tunnel/reliable.go:872-926 | delivering the next payload's copy to an open endpoint makes progress and changes nothing at the sender |
| Progress.CompletionIsPossible | pkg/tunnel/reliable.go:1021-1061 | from such a state, with both ends open, retries left and only payloads ahead, for every time t some finite schedule of timeout checks and deliveries from t on, in order of time, delivers everything sent and leaves both ends open |
| Stranding.StaleAckForgets | pkg/tunnel/reliable.go:769-785 | after an acknowledgment behind sendBase the sender neither keeps nor resends anything missing |
| Stranding.StaleAckStrands | pkg/tunnel/reliable.go:769-785 | receiving one strands every missing payload of which no copy is in flight |
| Stranding.StaleAckStrandsExactly | pkg/tunnel/reliable.go:769-785 | after a stale acknowledgment, a missing payload whose copies are fresh can be received in some continuation if and only if a copy is in flight |
| Stranding.GiveUpStrands | pkg/tunnel/reliable.go:1036-1039 | so does giving a packet up |
| Stranding.StepKeepsStranded | pkg/tunnel/reliable.go:537-1072 | no step of anyone brings a stranded payload back |
| Stranding.StrandedForever | pkg/tunnel/reliable.go:537-1072 | in every continuation it is never delivered, nor anything after it |
| Stranding.Round | pkg/tunnel/reliable.go:872-956 | from a quiet state one payload can go across and be acknowledged by the timer |
| Stranding.StaleAckRun | pkg/tunnel/reliable.go:564-564 | a run from two fresh endpoints, with one late duplicate of an acknowledgment and one lost packet, after which delivery stops for good |
| StreamRuns.AcknowledgmentsGetOut | pkg/tunnel/reliable.go:929-1003 | section 4.2.3.2 of RFC 1122 in every network run until Close: delivered data is acknowledged on the wire or an armed timer will do it, at most 3 packets wait, and the acknowledged point moves forward only with a packet carrying it |
| StreamRuns.AckDrives | pkg/tunnel/reliable.go:700-824 | an acknowledgment drives estimator and window by exactly the samples of the scan, at most one loss signal, and the advance |
| StreamRuns.TickDrives | pkg/tunnel/reliable.go:1049-1054 | a timeout check with something due is one loss signal and one backoff |
| StreamRuns.HistoriesDrive | pkg/tunnel/reliable.go:700-1061 | in every run the stream's estimator and window are the ones the history of such events leads to |
| StreamRuns.RtoInStream | pkg/tunnel/reliable.go:244-294 | in every reachable state the RTO is in [100, 4000] ms |
| StreamRuns.WindowOverTime | pkg/tunnel/reliable.go:488-534 | over any time interval of any network run with samples of at least lo ms the window is halved at most once at the start and once per round trip, and never below 8 |
| StreamRuns.UnexpectedDataAnswered | pkg/tunnel/reliable.go:888-908 | a packet that is not the next one is acknowledged at once with recvNext, one ahead with exactly the buffer's blocks, an old one with none and no other effect |
| Transmissions.ActTracks | pkg/tunnel/reliable.go:537-1061 | whatever an endpoint does, the retry count of each kept packet grows by the copies of it put on the wire, a new one starts at one copy and no retry, and no unsent index is emitted |
| Transmissions.RetriesCount | pkg/tunnel/reliable.go:733-740 | in every run each kept packet has been put on the wire exactly once more than its retry count says |
| Transmissions.KarnInRuns | pkg/tunnel/reliable.go:773-785 | Karn's rule in every run: each round-trip sample is the age of a kept packet that had been on the wire exactly once |
| Waiting.PauseCommutes | pkg/tunnel/reliable.go:391-417 | no other handler looks at or moves sendSeq: its effect is the same with the next number already taken |
| Waiting.PausesCommute | pkg/tunnel/reliable.go:391-417 | so a Send that takes its number before any wait has the effect of one that takes it after |
| Recovery.EveryThirdDuplicateResends | pkg/tunnel/reliable.go:707-755 | over any run of duplicate ACKs without blocks, every third resends the oldest unacknowledged packet and nothing else is sent |
| Recovery.BurstStep | pkg/tunnel/reliable.go:716-724 | an acknowledgment that resends gaps comes at least 50 ms after the last that did, in every state whose RTO is in range |
| Recovery.GapResendsAreRateLimited | pkg/tunnel/reliable.go:716-806 | from such a state, over time t, with any acknowledgments and checks, gaps are resent at most 1 + t/50ms times |
| Recovery.GapResendsInStream | pkg/tunnel/reliable.go:716-806 | the same from every reachable state over every continuation of a network run |
| Recovery.ResendCause | pkg/tunnel/reliable.go:700-1061 | in every run, a packet sent before goes on the wire again only if it is kept and unmarked and either timed out with retries left, or is the oldest at a third duplicate, or is a gap below the highest block at a permitted moment |
| Recovery.SilenceKept | pkg/tunnel/reliable.go:1021-1061 | in silence a kept packet's r-th resend waited for the sum of the first r backed-off timeouts, r at most 20 |
| Recovery.GivenUpOnlyAfter | pkg/tunnel/reliable.go:1035-1039 | a packet is given up only after 20 resends and later than the sum of 21 backed-off timeouts |
| Recovery.SilenceBeforeGivingUp | pkg/tunnel/reliable.go:1035-1039 | before the first round-trip sample that is more than 79 seconds |
| AckEffects.ScansThroughIndices | pkg/tunnel/reliable.go:656-697 | the SACK scan finds exactly the kept, unreported packets below the highest block, each once, and marks exactly the reported ones |
| AckEffects.SamplesAreAges | pkg/tunnel/reliable.go:773-785 | each kept, never resent packet before the acknowledgment gives exactly one sample, its age in whole milliseconds, in order of index |
| AckEffects.AckExactly | pkg/tunnel/reliable.go:700-824 | packets sent, packets kept and their marks, duplicate count, time of the last resend, estimator and window after an acknowledgment at or past sendBase, all through the indices |
| AckEffects.AckInRuns | pkg/tunnel/reliable.go:700-824 | the converse of ResendCause in every run: such an acknowledgment puts one copy of each packet it calls for on the wire and no other, and leaves exactly that state, on the duplicate and on the new-ACK path |
| AckEffects.StaleAckExactly | pkg/tunnel/reliable.go:757-824 | an acknowledgment behind sendBase resends and marks nothing, forgets everything up to 32768 past sendBase, and grows the window as if all of it had been acknowledged |
| AckEffects.FirstHolesNotDelayed | pkg/tunnel/reliable.go:716-721 | the first acknowledgment with blocks on a stream is never held back by the rate limit |
| AckEffects.CheckExactly | pkg/tunnel/reliable.go:1021-1061 | a timeout check resends exactly the overdue unreported packets with fewer than twenty retries, forgets exactly those with twenty, and doubles the RTO up to 4000 ms and signals one loss exactly when it resends |
| AckEffects.CheckInRuns | pkg/tunnel/reliable.go:1021-1061 | so in every run, with one copy of each on the wire and no other |
| Sending.AdmitsExactly | pkg/tunnel/reliable.go:391-417 | in every run a payload is taken without a wait if and only if the stream is open and the next index is less than cwnd past sendBase |
| Sending.AcceptedWithinWindow | pkg/tunnel/reliable.go:391-417 | in every run each payload was accepted by such a Send, in a state in which its index was less than cwnd past sendBase |
| Sending.DataOnWire | pkg/tunnel/reliable.go:548-591 | an accepted payload goes out at once in one packet, which is kept; a pending acknowledgment and exactly the buffer's blocks ride along and nothing stays pending; without one the packet has no ACK |
| Sending.CloseOnWire | pkg/tunnel/reliable.go:594-622 | an accepted close goes out as a packet with flags 6, the next index and no data, which is kept |
| Sending.TimerOnWire | pkg/tunnel/reliable.go:951-982 | the ack timer sends a pending acknowledgment of recvNext alone, without blocks, and leaves nothing pending; without one it sends nothing |
| Sending.ClosesAreAccepted | pkg/tunnel/reliable.go:594-646 | in every run a packet in flight that announces a close is one its sender accepted at that index, and each kept packet is a close exactly when a close was accepted there |
| Sending.ClosedAcceptsNothing | pkg/tunnel/reliable.go:537-541 | once closed, an endpoint stays closed and accepts nothing in any continuation |
| Sending.CloseCloses | pkg/tunnel/reliable.go:1064-1072 | Close closes, stops the timer, sends nothing and changes nothing else |
| Sending.NothingPassesEmptyOrClose | pkg/tunnel/reliable.go:633-643 | the number spent on a close or on an empty payload is never passed: nothing sent after it is delivered |
| ReliableStream.ReliableStream.constructor | pkg/tunnel/reliable.go:362-380 | a fresh stream is the fresh endpoint, and valid |
| ReliableStream.ReliableStream.OnAckAdvance | pkg/tunnel/reliable.go:458-484 | moves the window where the AIMD function says and keeps its invariant; in slow start it adds the packets acknowledged, up to 16384 |
| ReliableStream.ReliableStream.OnLossFast | pkg/tunnel/reliable.go:488-509 | one round trip or more after the last reduction: cwnd and ssthresh become max(8, cwnd/2), the fraction 0; otherwise nothing changes |
| ReliableStream.ReliableStream.OnLossRTO | pkg/tunnel/reliable.go:513-534 | the same |
| ReliableStream.ReliableStream.MarkSackedAndCollectGaps | pkg/tunnel/reliable.go:656-697 | the loops mark exactly the newly covered packets and return exactly the lost ones |
| ReliableStream.ReliableStream.HighestRight | pkg/tunnel/reliable.go:660-666 | the loop finds the highest right edge in the wrapped order |
| ReliableStream.ReliableStream.ScanBlocks | pkg/tunnel/reliable.go:672-695 | the loop over the numbers marks exactly the newly covered packets and returns exactly the lost ones |
| ReliableStream.ReliableStream.IsInSack | pkg/tunnel/reliable.go:681-688 | finds exactly whether some block covers the number |
| ReliableStream.ReliableStream.RemoveAcked | pkg/tunnel/reliable.go:763-785 | removes, counts and samples exactly what the cumulative scan says |
| ReliableStream.ReliableStream.Retransmit | pkg/tunnel/reliable.go:735-740 | bumps retries and send time of exactly the given packets and collects their bytes in order |
| ReliableStream.ReliableStream.ProcessDuplicate | pkg/tunnel/reliable.go:707-755 | the duplicate-ACK path: new sender state and packets sent are those of the specification |
| ReliableStream.ReliableStream.MinInterval | pkg/tunnel/reliable.go:716-720 | half the RTO, at least 10 ms |
| ReliableStream.ReliableStream.ResendLost | pkg/tunnel/reliable.go:733-752 | with blocks resends exactly the lost packets after one loss signal; without blocks the oldest packet if it is kept and unmarked, otherwise nothing |
| ReliableStream.ReliableStream.SelectiveAck | pkg/tunnel/reliable.go:787-806 | the selective part of a new ACK likewise |
| ReliableStream.ReliableStream.ProcessNew | pkg/tunnel/reliable.go:757-824 | the new-ACK path likewise |
| ReliableStream.ReliableStream.AdvanceBase | pkg/tunnel/reliable.go:807-813 | moves sendBase forward only, and the window by the packets acknowledged |
| ReliableStream.ReliableStream.ProcessAck | pkg/tunnel/reliable.go:700-824 | for every acknowledgment the new state and the packets sent are those of the specification |
| ReliableStream.ReliableStream.CollectTimedOut | pkg/tunnel/reliable.go:1029-1047 | in whatever map order: gives up, bumps and collects exactly the timed-out packets |
| ReliableStream.ReliableStream.CheckRetransmit | pkg/tunnel/reliable.go:1021-1061 | new state and set of copies sent are those of the specification, each copy once |
| ReliableStream.ReliableStream.DeliverOutOfOrder | pkg/tunnel/reliable.go:912-926 | the loop delivers exactly what the recursive drain does |
| ReliableStream.ReliableStream.SendAckNow | pkg/tunnel/reliable.go:970-982 | sends one acknowledgment of recvNext, nothing left pending |
| ReliableStream.ReliableStream.SendAckWithSack | pkg/tunnel/reliable.go:985-1003 | the same with the buffer's SACK blocks |
| ReliableStream.ReliableStream.ScheduleAck | pkg/tunnel/reliable.go:929-956 | every fourth packet at once, the others through one armed timer |
| ReliableStream.ReliableStream.AckTimerFires | pkg/tunnel/reliable.go:951-955 | sends the acknowledgment if it is still pending |
| ReliableStream.ReliableStream.ProcessData | pkg/tunnel/reliable.go:872-909 | for every packet the new state and the acknowledgment sent are those of the specification |
| ReliableStream.ReliableStream.Receive | pkg/tunnel/reliable.go:625-646 | acknowledgment, data and close parts in this order; reports a close exactly when bit 2 of the flags is set |
| ReliableStream.ReliableStream.WaitForWindow | pkg/tunnel/reliable.go:391-417 | waits through whatever happens and passes exactly at the first look that finds the stream open and the signed distance of the number taken before the wait below cwnd; fails when it finds the stream closed |
| ReliableStream.ReliableStream.MeanwhileReserved | pkg/tunnel/reliable.go:391-417 | what another goroutine does during the wait, seen from the state in which the number is not yet taken |
| ReliableStream.ReliableStream.BuildDataPacket | pkg/tunnel/reliable.go:548-573 | builds the specified packet and clears the pending acknowledgment it takes along |
| ReliableStream.ReliableStream.Transmit | pkg/tunnel/reliable.go:575-590 | spends the next number, keeps the marshalled bytes, sends them |
| ReliableStream.ReliableStream.Send | pkg/tunnel/reliable.go:537-591 | takes its number first; the result is that of the specification applied to the state after the wait; on a closed stream nothing is sent, and a number taken before the close is spent |
| ReliableStream.ReliableStream.SendReserved | pkg/tunnel/reliable.go:548-590 | builds, keeps and sends the packet, as the specification does in one step |
| ReliableStream.ReliableStream.SendClose | pkg/tunnel/reliable.go:594-622 | on an open stream sends one packet with flags 6 and the next number, with the specified effect; on a closed one does nothing |
| ReliableStream.ReliableStream.CloseReserved | pkg/tunnel/reliable.go:599-621 | the same for a close packet |
| ReliableStream.ReliableStream.Close | pkg/tunnel/reliable.go:1064-1072 | closes once and stops the timer |
| Handoff.NextKeepsInv | pkg/shadowgre/server.go:154-457 | every atomic step of handler, connecting goroutine, writer and closer keeps the hand-off invariant |
| Handoff.HandlerAppends | pkg/shadowgre/server.go:171-210 | a handler step appends its data to the end of the remainder when it accepts it, and otherwise leaves the remainder alone |
| Handoff.NextLeaves | pkg/shadowgre/server.go:154-457 | only the handler moves the handler and accepts data, only the writer's goroutine writes, the log only extends, and nothing is written on a closed connection or after the writer has left |
| HandoffSafety.OrderAlwaysKept | pkg/shadowgre/server.go:153-362 | under every interleaving and whatever fails, each write carries the front of an accepted item, in order, no item twice |
| HandoffSafety.WrittenIsPrefix | pkg/shadowgre/server.go:153-362 | unless a write of the drain has failed, the bytes written are a prefix of the bytes accepted, also after a failed write of flush or writer |
| HandoffSafety.NothingLost | pkg/shadowgre/server.go:153-362 | without a failed write the rest is, in order, flush remainder, pending list, item in hand, channel |
| HandoffSafety.DrainEndsComplete | pkg/shadowgre/server.go:355-362 | when a drain without a failed write ends everything accepted so far has been written, before the backend is told of the end |
| HandoffSafety.FailureIsFinal | pkg/shadowgre/server.go:279-324 | after a failed write of the flush or the writer nothing more is written |
| HandoffSafety.AcceptedOnlyGrows | pkg/shadowgre/server.go:171-210 | nothing accepted or written is taken back |
| HandoffSafety.HalfCloseDelivers | pkg/shadowgre/server.go:218-230 | in every run that only the client ends and in which no dial and no write fails, when the writer has left everything accepted has been written and the backend has been told, and it is told only then |
| HandoffSafety.DrainedExactly | pkg/shadowgre/server.go:190-216 | when a drain without a failed write has found the channel empty, everything accepted is written in every continuation if and only if the handler is not about to send on the channel |
| HandoffSafety.LateQueueStrands | pkg/shadowgre/server.go:437-457 | a run with a full close in which accepted data is never written in any continuation although no write fails |
| HandoffSafety.DrainFailureExactly | pkg/shadowgre/server.go:337-352 | after the first failed write of a drain the writes stay gapless in every continuation if and only if the connection is closed, or the channel is empty and the handler not about to send |
| HandoffSafety.DrainGapSkips | pkg/shadowgre/server.go:345-346 | a run in which the backend gets the second item without the first |
| HandoffSafety.CloseEndsWriting | pkg/shadowgre/server.go:437-457 | in every run the last part of close closes the connection if and only if one is there, and then nothing is written in any continuation |
| HandoffSafety.CloseDuringDialIsUndone | pkg/shadowgre/server.go:253-276 | a close that runs while the backend is dialled leaves the stream connected with its connection open once the dial succeeds |
| ServerStream.ServerStream.HandleReliableData | pkg/shadowgre/server.go:168-216 | is a run of handler steps among any others; accepts its data exactly when it says so; ignores empty data and closed streams; while connecting appends to the pending list |
| ServerStream.ServerStream.PendUnlessConnected | pkg/shadowgre/server.go:177-188 | the critical section with its second look at the state |
| ServerStream.ServerStream.QueueData | pkg/shadowgre/server.go:191-216 | drops data after the client's close, otherwise tries the channel |
| ServerStream.ServerStream.SendToWriter | pkg/shadowgre/server.go:206-216 | queues at the end of the channel when fewer than 4096 items wait; on timeout closes the stream, with the other goroutines running between the parts of close |
| ServerStream.ServerStream.TakePendingData | pkg/shadowgre/server.go:272-276 | takes the list, empties it and opens the channel path in one atomic step |
| ServerStream.ServerStream.FlushPending | pkg/shadowgre/server.go:271-286 | writes the pending list in order, whatever happens in between; all of it unless a write fails |
| ServerStream.ServerStream.FlushNext | pkg/shadowgre/server.go:279-286 | one write of the flush, or failure and close, under interference throughout |
| ServerStream.ServerStream.FlushFailed | pkg/shadowgre/server.go:280-284 | records the failure, closes stream and connection unless someone already has, and leaves |
| ServerStream.ServerStream.WriterRound | pkg/shadowgre/server.go:311-332 | one select: receive and write, or start draining, or fail |
| ServerStream.ServerStream.WriteHeld | pkg/shadowgre/server.go:316-324 | writes the item in hand, or fails on a closed connection or on its own, and closes |
| ServerStream.ServerStream.DrainRound | pkg/shadowgre/server.go:339-351 | one round of the drain; the round that finds the channel empty leaves nothing accepted unwritten unless a write of the drain failed |
| ServerStream.ServerStream.WriteDrained | pkg/shadowgre/server.go:345-347 | writes the item in hand, or ignores the failure and goes on |
| ServerStream.ServerStream.FinishDrain | pkg/shadowgre/server.go:355-362 | ends the drain, and tells the backend if it was the client's close that was seen and the connection is open |
| ServerStream.ServerStream.DrainWriteCh | pkg/shadowgre/server.go:337-352 | the drain loop ends and leaves everything accepted written unless a write of the drain failed |
| ServerStream.ServerStream.WriteToBackend | pkg/shadowgre/server.go:309-334 | the writer is a run of the state machine; if it leaves without a failed write everything accepted is written |
| ServerStream.ServerStream.ConnectAndRun | pkg/shadowgre/server.go:253-296 | dial, flush, write under any interference is a run of the state machine, so its guarantees hold; if it ends without a failed write everything accepted is written; nothing is if the dial fails |
| ServerStream.ServerStream.Close | pkg/shadowgre/server.go:437-457 | under interference between its parts: if the stream was not closed, signals both channels and closes the connection unless it is still being dialled; otherwise does nothing; moves neither handler nor writer |
| ServerStream.ServerStream.CloseWriteSide | pkg/shadowgre/server.go:427-434 | closes the write channel's signal once |
| ServerStream.ServerStream.HandleReliableClose | pkg/shadowgre/server.go:219-230 | between two deliveries: signals the write side once and changes nothing else |
| ServerStream.ClosedStays | pkg/shadowgre/server.go:426-457 | what a close has done stays done, whatever follows |
| ServerStream.OthersLeaveHandler | pkg/shadowgre/server.go:154-457 | no other goroutine moves the handler or accepts data |
| ServerStream.OthersLeaveWriter | pkg/shadowgre/server.go:154-457 | no other goroutine moves the writer or writes to the backend |

## Left out

- ReliableStream.ReliableStream.Send: several writers racing for numbers are not modelled; a number taken before a wait that ends in a close leaves a hole on the closed stream. In network runs a Send is one step at the moment its wait ends.
- ReliableStream.ReliableStream.CheckRetransmit: the order of the copies sent is the map's iteration order, so only their set and number are stated.
- ReliableCodec.UnmarshalReliableNoCopy: equality of results is stated, not that the payload aliases the input buffer.
- Progress.CompletionIsPossible: possible progress, not unconditional liveness; the code gives up after 20 retries, closes abruptly, and does not cap SACK retransmissions.
- Safety.PrefixDelivery: payloads delivered, not completion at a close, which the code does not promise.
- ServerStream.ServerStream.ConnectAndRun: the read side and the cleanup are not modelled, except that the read side may run close() at any time; how long a deadline is does not appear, only that a write may fail.
- HandoffSafety.HalfCloseDelivers: what has been delivered when the writer has left, not that a slow backend lets it leave.
- CongestionControl.OnAckAdvance and Sender arithmetic: int32 fields are unbounded integers; the bounds proved (cwnd <= 16384, at most 32768 packets per ACK) keep every int32 value in range except dupAckCount, which would need 2^31 duplicates.
- RttEstimation.RTTEstimator.Update: floating-point rounding is not modelled, values are reals.
- Several clock readings inside one handler are one reading, and the compare-and-swap on lastLossReduceNs always succeeds.
- Interleaving inside one stream handler (a piggybacked acknowledgment against scheduleAck, for instance); only the server hand-off is modelled at that grain.
- pace(): disabled by MinPacingIntervalNs = 1 << 62, it returns early.
- ReliableManager, stream creation and removal, and safety across a recreation of a stream.
- Statistics counters, logging, GetStats, the SYN flag (never set), buffer pools.
- pkg/transport: sockets, receive loops and peer filtering; only wrapping, unwrapping and the key check are modelled.
- pkg/tunnel/manager.go, frame.go and stream.go: not used by client and server for reliable data.
- The IPv4 header helpers of gre.go, the TCP listener, dialling and configuration.
- The client's own copy of the hand-off in pkg/shadowgre/client.go.
