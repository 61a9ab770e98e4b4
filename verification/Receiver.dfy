/** The receiving half of a reliable stream as functions on its state: in-order delivery, the
    out-of-order buffer, duplicate handling and delayed acknowledgments
    (pkg/tunnel/reliable.go:825-1003).

    History fields: `delivered` lists the payloads given to deliverFunc, `acked` is the length of
    `delivered` when an acknowledgment number was last put on the wire, `sinceAck` counts in-order
    packets since then. No branch reads them. */
module Receiver {
  import opened SeqNum
  import opened Bytes
  import opened ReliableCodec
  import opened SackBuilder
  import opened Sender

  const MAX_OUT_OF_ORDER_BUFFER := 16384
  const ACK_EVERY_N := 4

  datatype ReceiverState = ReceiverState(
    recvNext: uint32,
    outOfOrder: map<uint32, bytes>,
    pendingAck: bool,
    timerArmed: bool,
    recvCounter: uint32,
    delivered: seq<bytes>,
    acked: nat,
    sinceAck: nat)

  function NewReceiver(): ReceiverState {
    ReceiverState(0, map[], false, false, 0, [], 0, 0)
  }

  // ---- Delivery ------------------------------------------------------------------------------

  function Deliver(r: ReceiverState, data: bytes): ReceiverState {
    r.(delivered := r.delivered + [data], recvNext := Add(r.recvNext, 1))
  }

  /** deliverOutOfOrder: its loop ends because each round empties a slot of the buffer. */
  function Drain(r: ReceiverState): ReceiverState
    decreases |r.outOfOrder|
  {
    if r.recvNext !in r.outOfOrder then r
    else
      var rest := r.outOfOrder - {r.recvNext};
      assert r.outOfOrder.Keys == rest.Keys + {r.recvNext};
      Drain(Deliver(r.(outOfOrder := rest), r.outOfOrder[r.recvNext]))
  }

  // ---- Acknowledging -------------------------------------------------------------------------

  /** The acknowledgment number is on the wire; nothing is pending. */
  function Acknowledged(r: ReceiverState): ReceiverState {
    r.(pendingAck := false, timerArmed := false, acked := |r.delivered|, sinceAck := 0)
  }

  function PureAck(streamID: uint32, r: ReceiverState): ReliablePacket {
    ReliablePacket(streamID, FLAG_ACK, 0, r.recvNext, [], [])
  }

  ghost function SackAck(streamID: uint32, r: ReceiverState): ReliablePacket {
    var blocks := SackBlocks(r.outOfOrder.Keys, r.recvNext);
    ReliablePacket(streamID, if |blocks| > 0 then FLAG_ACK + FLAG_SACK else FLAG_ACK, 0, r.recvNext, blocks, [])
  }

  ghost function AckCopy(pkt: ReliablePacket, r: ReceiverState): Copy {
    Copy(Encode(pkt), 0, |r.delivered|)
  }

  /** sendAckNow and sendAckWithSack. */
  ghost function SendAckNow(streamID: uint32, r: ReceiverState): (ReceiverState, seq<Copy>) {
    (Acknowledged(r), [AckCopy(PureAck(streamID, r), r)])
  }

  ghost function SendAckWithSack(streamID: uint32, r: ReceiverState): (ReceiverState, seq<Copy>) {
    (Acknowledged(r), [AckCopy(SackAck(streamID, r), r)])
  }

  /** Every fourth in-order packet is acknowledged at once, the others through the timer. */
  ghost function ScheduleAck(streamID: uint32, r: ReceiverState): (ReceiverState, seq<Copy>) {
    var counted := r.(recvCounter := Add(r.recvCounter, 1), sinceAck := r.sinceAck + 1);
    if counted.recvCounter % ACK_EVERY_N == 0 then SendAckNow(streamID, counted)
    else if r.pendingAck then (counted, [])
    else (counted.(pendingAck := true, timerArmed := true), [])
  }

  /** The ack timer's callback. */
  ghost function AckTimerFires(streamID: uint32, r: ReceiverState): (ReceiverState, seq<Copy>) {
    var fired := r.(timerArmed := false);
    if r.pendingAck then SendAckNow(streamID, fired) else (fired, [])
  }

  // ---- Data ----------------------------------------------------------------------------------

  function Buffered(r: ReceiverState, seqNo: uint32, data: bytes): ReceiverState {
    if |r.outOfOrder| < MAX_OUT_OF_ORDER_BUFFER && seqNo !in r.outOfOrder
    then r.(outOfOrder := r.outOfOrder[seqNo := data])
    else r
  }

  ghost function ProcessData(streamID: uint32, r: ReceiverState, seqNo: uint32, data: bytes): (ReceiverState,
        seq<Copy>) {
    if seqNo == r.recvNext then ScheduleAck(streamID, Drain(Deliver(r, data)))
    else if SeqGreater(seqNo, r.recvNext) then SendAckWithSack(streamID, Buffered(r, seqNo, data))
    else SendAckNow(streamID, r)
  }

  // ---- What holds after any packets whatsoever -----------------------------------------------

  /** Every buffered number is strictly ahead of recvNext by less than half the circle (so recvNext
      itself is never buffered), the buffer is bounded, and recvNext counts the deliveries. */
  ghost predicate BufferOk(r: ReceiverState) {
    && InHalfCircle(r.outOfOrder.Keys, r.recvNext)
    && |r.outOfOrder| <= MAX_OUT_OF_ORDER_BUFFER
    && r.recvNext == Wrap(|r.delivered|)
  }

  /** Delayed acknowledgments: what is delivered is acknowledged on the wire or an armed timer will
      do it; and fewer than four in-order packets are waiting. */
  ghost predicate AckOk(r: ReceiverState) {
    && r.acked <= |r.delivered|
    && (r.acked == |r.delivered| || r.pendingAck)
    && (r.pendingAck ==> r.timerArmed)
    && r.sinceAck <= r.recvCounter % ACK_EVERY_N
  }

  /** The state between the steps of a delivery: recvNext may be buffered. */
  ghost predicate Draining(r: ReceiverState) {
    && (forall k :: k in r.outOfOrder ==> Sub(k, r.recvNext) < 0x8000_0000)
    && |r.outOfOrder| <= MAX_OUT_OF_ORDER_BUFFER
    && r.recvNext == Wrap(|r.delivered|)
  }

  lemma NextSum(base: uint32, d: int)
    ensures Add(base, d) == Add(Add(base, 1), d - 1)
  {
    AddWrap(base + 1, d - 1);
  }

  lemma NextSlot(recvNext: uint32, k: uint32)
    requires 0 < Sub(k, recvNext) < 0x8000_0000
    ensures Sub(k, Add(recvNext, 1)) == Sub(k, recvNext) - 1
  {
    hide Wrap, Sub, Add;
    var d := Sub(k, recvNext);
    OffsetOfSum(recvNext, d, k);
    assert Add(recvNext, d) == Add(Add(recvNext, 1), d - 1) by { NextSum(recvNext, d); }
    OffsetOfSum(Add(recvNext, 1), d - 1, k);
  }

  lemma DeliverDraining(r: ReceiverState, data: bytes)
    requires BufferOk(r)
    ensures Draining(Deliver(r, data))
  {
    AddWrap(|r.delivered|, 1);
    forall k | k in r.outOfOrder ensures Sub(k, Add(r.recvNext, 1)) < 0x8000_0000 {
      NextSlot(r.recvNext, k);
    }
  }

  lemma {:induction false} DrainOk(r: ReceiverState)
    requires Draining(r)
    ensures BufferOk(Drain(r))
    ensures r.delivered <= Drain(r).delivered
    ensures Drain(r) == r.(recvNext := Drain(r).recvNext, outOfOrder := Drain(r).outOfOrder,
                           delivered := Drain(r).delivered)
    decreases |r.outOfOrder|
  {
    hide Wrap;
    if r.recvNext in r.outOfOrder {
      var rest := r.outOfOrder - {r.recvNext};
      assert r.outOfOrder.Keys == rest.Keys + {r.recvNext};
      var next := Deliver(r.(outOfOrder := rest), r.outOfOrder[r.recvNext]);
      AddWrap(|r.delivered|, 1);
      forall k | k in rest ensures Sub(k, Add(r.recvNext, 1)) < 0x8000_0000 {
        SubInjective(k, r.recvNext, r.recvNext);
        SelfOffset(r.recvNext);
        NextSlot(r.recvNext, k);
      }
      DrainOk(next);
    } else {
      forall k | k in r.outOfOrder ensures 0 < Sub(k, r.recvNext) {
        SubInjective(k, r.recvNext, r.recvNext);
        SelfOffset(r.recvNext);
      }
    }
  }

  lemma SelfOffset(k: uint32)
    ensures Sub(k, k) == 0
  {
  }

  /** On a consistent buffer a drain finds nothing, which is why a close delivers nothing more. */
  lemma DrainIdle(r: ReceiverState)
    requires BufferOk(r)
    ensures Drain(r) == r
  {
    SelfOffset(r.recvNext);
    assert r.recvNext in r.outOfOrder ==> 0 < Sub(r.recvNext, r.recvNext);
  }

  lemma BufferedOk(r: ReceiverState, seqNo: uint32, data: bytes)
    requires BufferOk(r) && SeqGreater(seqNo, r.recvNext)
    ensures BufferOk(Buffered(r, seqNo, data))
  {
    hide Wrap;
  }

  lemma ScheduleAckOk(streamID: uint32, r: ReceiverState)
    requires r.acked <= |r.delivered| && (r.pendingAck ==> r.timerArmed) && r.sinceAck <= r.recvCounter % ACK_EVERY_N
    ensures AckOk(ScheduleAck(streamID, r).0)
  {
    assert Add(r.recvCounter, 1) % 4 == (r.recvCounter % 4 + 1) % 4;
  }

  lemma ProcessDataKeepsBuffer(streamID: uint32, r: ReceiverState, seqNo: uint32, data: bytes)
    requires BufferOk(r)
    ensures BufferOk(ProcessData(streamID, r, seqNo, data).0)
  {
    hide Wrap, Encode;
    if seqNo == r.recvNext {
      DeliverDraining(r, data);
      DrainOk(Deliver(r, data));
    } else if SeqGreater(seqNo, r.recvNext) {
      BufferedOk(r, seqNo, data);
    }
  }

  /** One packet of arbitrary content keeps both invariants, appends to what was delivered, and
      never moves the acknowledged point backward. */
  lemma ProcessDataOk(streamID: uint32, r: ReceiverState, seqNo: uint32, data: bytes)
    requires BufferOk(r) && AckOk(r)
    ensures var r' := ProcessData(streamID, r, seqNo, data).0;
            BufferOk(r') && AckOk(r') && r.delivered <= r'.delivered && r.acked <= r'.acked
  {
    hide Wrap, InHalfCircle, SackBlocks;
    if seqNo == r.recvNext {
      DeliverDraining(r, data);
      var d := Drain(Deliver(r, data));
      DrainOk(Deliver(r, data));
      ScheduleAckOk(streamID, d);
    } else if SeqGreater(seqNo, r.recvNext) {
      BufferedOk(r, seqNo, data);
    }
  }

  // ---- Whole runs of one receiver ------------------------------------------------------------

  /** What can happen to a receiver: a data packet with any number and content, the timer, an
      acknowledgment piggybacked on outgoing data, a close packet, or sending one. */
  datatype ReceiverEvent = Data(seqNo: uint32, data: bytes) | TimerFires | Piggyback | CloseReceived | CloseSent

  ghost function ReceiverStep(streamID: uint32, r: ReceiverState, e: ReceiverEvent): ReceiverState {
    match e
    case Data(seqNo, data) => ProcessData(streamID, r, seqNo, data).0
    case TimerFires => if r.timerArmed then AckTimerFires(streamID, r).0 else r
    case Piggyback => if r.pendingAck then Acknowledged(r) else r
    case CloseReceived => Drain(r)
    case CloseSent => r.(acked := |r.delivered|, sinceAck := 0)
  }

  ghost function RunReceiver(streamID: uint32, es: seq<ReceiverEvent>): ReceiverState {
    if es == [] then NewReceiver() else ReceiverStep(streamID, RunReceiver(streamID, es[..|es| - 1]), es[|es| - 1])
  }

  /** After any sequence of packets whatsoever the buffer and acknowledgment invariants hold. */
  lemma {:induction false} ReceiverInvariant(streamID: uint32, es: seq<ReceiverEvent>)
    ensures BufferOk(RunReceiver(streamID, es)) && AckOk(RunReceiver(streamID, es))
  {
    hide Wrap, InHalfCircle, ProcessData, Drain;
    if es == [] {
      NewReceiverOk();
    } else {
      var r := RunReceiver(streamID, es[..|es| - 1]);
      ReceiverInvariant(streamID, es[..|es| - 1]);
      match es[|es| - 1]
      case Data(seqNo, data) => ProcessDataOk(streamID, r, seqNo, data);
      case TimerFires =>
      case Piggyback =>
      case CloseReceived => DrainIdle(r);
      case CloseSent =>
    }
  }

  lemma NewReceiverOk()
    ensures BufferOk(NewReceiver()) && AckOk(NewReceiver())
  {
  }

  /** Section 4.2.3.2 of RFC 1122 over whole runs: the last acknowledgment number on the wire is
      recvNext or an armed timer is about to send it; at most three in-order packets wait for an
      acknowledgment; and acknowledgment numbers and deliveries never go back. */
  lemma DelayedAckComplete(streamID: uint32, es: seq<ReceiverEvent>, e: ReceiverEvent)
    ensures var r := RunReceiver(streamID, es);
            && (Wrap(r.acked) == r.recvNext || (r.pendingAck && r.timerArmed))
            && r.sinceAck <= 3
    ensures var r, r' := RunReceiver(streamID, es), RunReceiver(streamID, es + [e]);
            r.acked <= r'.acked && r.delivered <= r'.delivered
  {
    hide Wrap, InHalfCircle, ProcessData, Drain;
    ReceiverInvariant(streamID, es);
    assert (es + [e])[..|es|] == es;
    var r := RunReceiver(streamID, es);
    match e
    case Data(seqNo, data) => ProcessDataOk(streamID, r, seqNo, data);
    case TimerFires =>
    case Piggyback =>
    case CloseReceived => DrainIdle(r);
    case CloseSent =>
  }

  // ---- How many acknowledgments --------------------------------------------------------------

  /** The given payloads arrive one after the other, each with the number expected. */
  ghost function InOrder(streamID: uint32, r: ReceiverState, datas: seq<bytes>): (ReceiverState, seq<Copy>) {
    if datas == [] then (r, [])
    else
      var (s, out) := InOrder(streamID, r, datas[..|datas| - 1]);
      var (s', more) := ProcessData(streamID, s, s.recvNext, datas[|datas| - 1]);
      (s', out + more)
  }

  lemma {:induction false} DrainLeaves(r: ReceiverState)
    ensures var d := Drain(r);
            d == r.(recvNext := d.recvNext, outOfOrder := d.outOfOrder, delivered := d.delivered)
    decreases |r.outOfOrder|
  {
    if r.recvNext in r.outOfOrder {
      var rest := r.outOfOrder - {r.recvNext};
      assert r.outOfOrder.Keys == rest.Keys + {r.recvNext};
      DrainLeaves(Deliver(r.(outOfOrder := rest), r.outOfOrder[r.recvNext]));
    }
  }

  lemma CounterStep(c: uint32)
    ensures Add(c, 1) % 4 == (c % 4 + 1) % 4
  {
  }

  /** One packet in order: each fourth is acknowledged, once; any other leaves one pending, with a timer
      armed unless one was pending already. */
  lemma InOrderStep(streamID: uint32, r: ReceiverState, data: bytes)
    ensures var (s, out) := ProcessData(streamID, r, r.recvNext, data);
            && s.recvCounter % 4 == (r.recvCounter % 4 + 1) % 4
            && (if r.recvCounter % 4 == 3
                then out == [Copy(Encode(ReliablePacket(streamID, 2, 0, s.recvNext, [], [])), 0, |s.delivered|)]
                     && !s.pendingAck && !s.timerArmed
                else out == [] && s.pendingAck && (s.timerArmed <==> r.timerArmed || !r.pendingAck))
  {
    DrainLeaves(Deliver(r, data));
    CounterStep(r.recvCounter);
    hide Drain, Encode, Add;
  }

  /** Of any run of packets in order exactly every fourth is acknowledged, and nothing else is sent. */
  lemma {:induction false} EveryFourthAcknowledged(streamID: uint32, r: ReceiverState, datas: seq<bytes>)
    ensures var (s, out) := InOrder(streamID, r, datas);
            && s.recvCounter % 4 == (r.recvCounter % 4 + |datas|) % 4
            && |out| == (r.recvCounter % 4 + |datas|) / 4
            && (datas != [] ==> (s.pendingAck <==> s.recvCounter % 4 != 0))
  {
    hide ProcessData;
    if datas != [] {
      var init := datas[..|datas| - 1];
      EveryFourthAcknowledged(streamID, r, init);
      InOrderStep(streamID, InOrder(streamID, r, init).0, datas[|datas| - 1]);
    }
  }
}
