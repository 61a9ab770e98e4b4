/** The sending half of a reliable stream as functions on its state: window check, cumulative and
    selective acknowledgment, loss detection, timeouts (pkg/tunnel/reliable.go:391-417, 536-622,
    648-824, 1020-1061).

    Three fields are history: `sent` lists every payload (or close) given a sequence number, `base`
    is the unbounded index whose low 32 bits are sendBase, and an unacked packet remembers its own
    index and that of the acknowledgment it carries. No branch reads them. */
module Sender {
  import opened SeqNum
  import opened Bytes
  import opened ReliableCodec
  import opened CongestionControl
  import opened RttEstimation

  const MAX_RETRIES := 20
  const FAST_RETRANSMIT_COUNT := 3
  const MILLISECOND := 1_000_000
  const MIN_SACK_INTERVAL := 10 * 1_000_000
  /** The zero time.Time, in Unix nanoseconds. */
  const ZERO_TIME := -62_135_596_800_000_000_000

  /** What a sequence number was spent on. */
  datatype Entry = Payload(data: bytes) | Fin

  datatype Unacked = Unacked(
    pkt: ReliablePacket,
    data: bytes,
    sentTime: int,
    retries: int,
    sacked: bool,
    idx: nat,
    ackIdx: nat)

  /** Marshalled bytes handed to the network, with the history indices of the sequence and
      acknowledgment numbers inside. */
  datatype Copy = Copy(wire: bytes, idx: nat, ackIdx: nat)

  datatype SenderState = SenderState(
    sendSeq: uint32,
    sendBase: uint32,
    unacked: map<uint32, Unacked>,
    dupAckCount: int,
    lastSackTime: int,
    cc: Congestion,
    rtt: Rtt,
    sent: seq<Entry>,
    base: nat)

  function NewSender(): SenderState {
    SenderState(0, 0, map[], 0, ZERO_TIME, CongestionControl.Fresh(), RttEstimation.Fresh(), [], 0)
  }

  function Elements(out: seq<Copy>): set<Copy> {
    set c | c in out
  }

  function CopyOf(u: Unacked): Copy {
    Copy(u.data, u.idx, u.ackIdx)
  }

  // ---- Sending -------------------------------------------------------------------------------

  /** waitForWindow's test, a signed difference. */
  predicate WindowOpen(s: SenderState) {
    Signed(Sub(s.sendSeq, s.sendBase)) < s.cc.cwnd
  }

  /** Spend the next sequence number on a packet and keep it for retransmission. */
  function Record(s: SenderState, entry: Entry, pkt: ReliablePacket, ackIdx: nat, now: int): SenderState {
    s.(sendSeq := Add(s.sendSeq, 1),
       unacked := s.unacked[s.sendSeq := Unacked(pkt, Encode(pkt), now, 0, false, |s.sent|, ackIdx)],
       sent := s.sent + [entry])
  }

  // ---- Acknowledgments -----------------------------------------------------------------------

  /** The cumulative scan's length: the defensive bound replaces a negative or oversized span. */
  function AckSpan(ack: uint32, sendBase: uint32): (span: nat)
    ensures span <= 2 * MAX_CWND
  {
    var d := Signed(Sub(ack, sendBase));
    if d < 0 || d > 2 * MAX_CWND then 2 * MAX_CWND else d
  }

  /** Keys the cumulative scan visits. */
  function Scanned(unacked: map<uint32, Unacked>, from: uint32, span: int): set<uint32> {
    set k | k in unacked && Sub(k, from) < span
  }

  /** Duration.Milliseconds, which truncates toward zero. */
  function SampleOf(u: Unacked, now: int): int {
    var d := now - u.sentTime;
    if d >= 0 then d / MILLISECOND else -(-d / MILLISECOND)
  }

  /** Round-trip samples of the scan, in scan order: only packets never retransmitted count. */
  function Samples(unacked: map<uint32, Unacked>, from: uint32, span: nat, now: int): seq<int> {
    if span == 0 then []
    else
      var k := Add(from, span - 1);
      Samples(unacked, from, span - 1, now) +
      (if k in unacked && unacked[k].retries == 0 then [SampleOf(unacked[k], now)] else [])
  }

  function MaxRight(blocks: seq<SackBlock>): uint32
    requires blocks != []
  {
    if |blocks| == 1 then blocks[0].right
    else
      var m := MaxRight(blocks[..|blocks| - 1]);
      var r := blocks[|blocks| - 1].right;
      if SeqGreater(r, m) then r else m
  }

  function SackSpan(blocks: seq<SackBlock>, ack: uint32): (span: nat)
    requires blocks != []
    ensures 0 < span <= 2 * MAX_CWND
  {
    var d := Signed(Wrap(MaxRight(blocks) - ack + 1));
    if d <= 0 || d > 2 * MAX_CWND then 2 * MAX_CWND else d
  }

  predicate InBlock(b: SackBlock, k: uint32) {
    !SeqLess(k, b.left) && SeqLessOrEqual(k, b.right)
  }

  predicate InSack(blocks: seq<SackBlock>, k: uint32) {
    exists i :: 0 <= i < |blocks| && InBlock(blocks[i], k)
  }

  /** Keys the SACK scan marks. */
  function NewlySacked(unacked: map<uint32, Unacked>, ack: uint32, span: int, blocks: seq<SackBlock>): set<uint32> {
    set k | k in unacked && Sub(k, ack) < span && !unacked[k].sacked && InSack(blocks, k)
  }

  predicate LossCandidate(unacked: map<uint32, Unacked>, k: uint32, blocks: seq<SackBlock>)
    requires blocks != []
  {
    k in unacked && !unacked[k].sacked && !InSack(blocks, k) && SeqLess(k, MaxRight(blocks))
  }

  /** Keys the SACK scan returns as lost, in scan order. */
  function Lost(unacked: map<uint32, Unacked>, ack: uint32, span: nat, blocks: seq<SackBlock>): (lost: seq<uint32>)
    requires blocks != []
    ensures forall i :: 0 <= i < |lost| ==> LossCandidate(unacked, lost[i], blocks)
  {
    if span == 0 then []
    else
      var k := Add(ack, span - 1);
      Lost(unacked, ack, span - 1, blocks) + (if LossCandidate(unacked, k, blocks) then [k] else [])
  }

  function MarkSacked(unacked: map<uint32, Unacked>, keys: set<uint32>): map<uint32, Unacked> {
    map k | k in unacked :: if k in keys then unacked[k].(sacked := true) else unacked[k]
  }

  function Resent(u: Unacked, now: int): Unacked {
    u.(retries := u.retries + 1, sentTime := now)
  }

  function MarkResent(unacked: map<uint32, Unacked>, keys: seq<uint32>, now: int): map<uint32, Unacked> {
    map k | k in unacked :: if k in keys then Resent(unacked[k], now) else unacked[k]
  }

  function Copies(unacked: map<uint32, Unacked>, keys: seq<uint32>): (out: seq<Copy>)
    requires forall i :: 0 <= i < |keys| ==> keys[i] in unacked
    ensures |out| == |keys|
  {
    seq(|keys|, i requires 0 <= i < |keys| => CopyOf(unacked[keys[i]]))
  }

  /** Half the RTO, at least 10 ms. */
  function SackInterval(rtt: Rtt): int {
    var interval := rtt.RTO() / 2 * MILLISECOND;
    if interval < MIN_SACK_INTERVAL then MIN_SACK_INTERVAL else interval
  }

  /** An ACK equal to sendBase. */
  function DuplicateAck(s: SenderState, blocks: seq<SackBlock>, now: int): (SenderState, seq<Copy>) {
    var dup := s.dupAckCount + 1;
    if blocks != [] then
      var span := SackSpan(blocks, s.sendBase);
      var marked := MarkSacked(s.unacked, NewlySacked(s.unacked, s.sendBase, span, blocks));
      if now - s.lastSackTime >= SackInterval(s.rtt) then
        var lost := Lost(s.unacked, s.sendBase, span, blocks);
        (s.(dupAckCount := dup, lastSackTime := now, unacked := MarkResent(marked, lost, now),
            cc := OnLoss(s.cc, now, LossIntervalNs(s.rtt))),
         Copies(s.unacked, lost))
      else (s.(dupAckCount := dup, unacked := marked), [])
    else if dup >= FAST_RETRANSMIT_COUNT then
      if s.sendBase in s.unacked && !s.unacked[s.sendBase].sacked then
        (s.(dupAckCount := 0, unacked := MarkResent(s.unacked, [s.sendBase], now),
            cc := OnLoss(s.cc, now, LossIntervalNs(s.rtt))),
         Copies(s.unacked, [s.sendBase]))
      else (s.(dupAckCount := 0), [])
    else (s.(dupAckCount := dup), [])
  }

  /** The cumulative part of any other ACK: sample, remove, reset the duplicate count. */
  function Cumulative(s: SenderState, ack: uint32, now: int): SenderState {
    var span := AckSpan(ack, s.sendBase);
    s.(dupAckCount := 0,
       rtt := UpdatedAll(s.rtt, Samples(s.unacked, s.sendBase, span, now)),
       unacked := s.unacked - Scanned(s.unacked, s.sendBase, span))
  }

  /** The selective part: mark, and retransmit the gaps unless rate-limited. */
  function Selective(s: SenderState, ack: uint32, blocks: seq<SackBlock>, now: int): (SenderState, seq<Copy>) {
    if blocks == [] then (s, [])
    else
      var span := SackSpan(blocks, ack);
      var marked := MarkSacked(s.unacked, NewlySacked(s.unacked, ack, span, blocks));
      var lost := Lost(s.unacked, ack, span, blocks);
      if now - s.lastSackTime >= SackInterval(s.rtt) && lost != [] then
        (s.(lastSackTime := now, unacked := MarkResent(marked, lost, now),
            cc := OnLoss(s.cc, now, LossIntervalNs(s.rtt))),
         Copies(s.unacked, lost))
      else (s.(unacked := marked), [])
  }

  /** sendBase moves forward only; the window grows by the packets removed. */
  function Advance(s: SenderState, ack: uint32, pktsAcked: int): SenderState
    requires Valid(s.cc)
  {
    s.(sendBase := if SeqGreater(ack, s.sendBase) then ack else s.sendBase,
       base := if SeqGreater(ack, s.sendBase) then s.base + Sub(ack, s.sendBase) else s.base,
       cc := OnAckAdvance(s.cc, pktsAcked))
  }

  function NewAck(s: SenderState, ack: uint32, blocks: seq<SackBlock>, now: int): (SenderState, seq<Copy>)
    requires Valid(s.cc)
  {
    var pktsAcked := |Scanned(s.unacked, s.sendBase, AckSpan(ack, s.sendBase))|;
    var (s1, out) := Selective(Cumulative(s, ack, now), ack, blocks, now);
    (Advance(s1, ack, pktsAcked), out)
  }

  function ProcessAck(s: SenderState, ack: uint32, blocks: seq<SackBlock>, now: int): (r: (SenderState, seq<Copy>))
    requires Valid(s.cc)
    ensures Valid(r.0.cc)
  {
    if ack == s.sendBase then DuplicateAck(s, blocks, now)
    else
      assert Valid(NewAck(s, ack, blocks, now).0.cc) by {
        var pktsAcked := |Scanned(s.unacked, s.sendBase, AckSpan(ack, s.sendBase))|;
        AckKeepsValid(Selective(Cumulative(s, ack, now), ack, blocks, now).0.cc, pktsAcked);
      }
      NewAck(s, ack, blocks, now)
  }

  // ---- Timeouts ------------------------------------------------------------------------------

  predicate TimedOut(s: SenderState, k: uint32, now: int) {
    k in s.unacked && !s.unacked[k].sacked && now - s.unacked[k].sentTime > s.rtt.RTO() * MILLISECOND
  }

  /** Timed out with retries left. */
  function Due(s: SenderState, now: int): set<uint32> {
    set k | k in s.unacked && TimedOut(s, k, now) && s.unacked[k].retries < MAX_RETRIES
  }

  /** Timed out with no retries left: the code gives these up. */
  function GivenUp(s: SenderState, now: int): set<uint32> {
    set k | k in s.unacked && TimedOut(s, k, now) && s.unacked[k].retries >= MAX_RETRIES
  }

  function CheckRetransmit(s: SenderState, now: int): (s': SenderState)
    ensures Valid(s.cc) ==> Valid(s'.cc)
  {
    var due := Due(s, now);
    var unacked := map k | k in s.unacked && k !in GivenUp(s, now) ::
                     if k in due then Resent(s.unacked[k], now) else s.unacked[k];
    if due == {} then s.(unacked := unacked)
    else s.(unacked := unacked, cc := OnLoss(s.cc, now, LossIntervalNs(s.rtt)), rtt := BackedOff(s.rtt))
  }

  function RetransmittedCopies(s: SenderState, now: int): set<Copy> {
    set k | k in Due(s, now) :: CopyOf(s.unacked[k])
  }

  /** What the SACK scan returns: the loss candidates within its span, each once, in ascending order. */
  lemma {:induction false} LostScan(m: map<uint32, Unacked>, ack: uint32, span: nat, blocks: seq<SackBlock>)
    requires blocks != [] && span <= 0x1_0000_0000
    ensures forall k :: k in Lost(m, ack, span, blocks) <==> Sub(k, ack) < span && LossCandidate(m, k, blocks)
    ensures forall i, j :: 0 <= i < j < |Lost(m, ack, span, blocks)| ==>
              Sub(Lost(m, ack, span, blocks)[i], ack) < Sub(Lost(m, ack, span, blocks)[j], ack)
  {
    hide Wrap, Sub, Add, LossCandidate;
    if span > 0 {
      var k := Add(ack, span - 1);
      var init := Lost(m, ack, span - 1, blocks);
      LostScan(m, ack, span - 1, blocks);
      forall k' ensures k' in Lost(m, ack, span, blocks) <==> Sub(k', ack) < span && LossCandidate(m, k', blocks) {
        OffsetOfSum(ack, span - 1, k');
      }
      OffsetOfSum(ack, span - 1, k);
      forall i | 0 <= i < |init| ensures Sub(init[i], ack) < span - 1 {
        assert init[i] in init;
      }
    }
  }

  // ---- Karn's rule ---------------------------------------------------------------------------

  /** Every round-trip sample comes from a packet in the map that was sent exactly once. */
  lemma {:induction false} SamplesNotRetransmitted(unacked: map<uint32, Unacked>, from: uint32, span: nat, now: int)
    ensures forall x :: x in Samples(unacked, from, span, now) ==>
              exists k :: k in unacked && unacked[k].retries == 0 && SampleOf(unacked[k], now) == x
  {
    if span > 0 {
      SamplesNotRetransmitted(unacked, from, span - 1, now);
      var k := Add(from, span - 1);
      forall x | x in Samples(unacked, from, span, now)
        ensures exists k :: k in unacked && unacked[k].retries == 0 && SampleOf(unacked[k], now) == x
      {
        if x !in Samples(unacked, from, span - 1, now) {
          assert k in unacked && unacked[k].retries == 0 && SampleOf(unacked[k], now) == x;
        }
      }
    }
  }
}
