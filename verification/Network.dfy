/** Two endpoints of one stream and a network that loses, duplicates and reorders packets.

    The network of each direction is the set of copies put on it and not yet dropped. Receiving
    leaves the copy in place, so it can be received again, in any order; dropping removes it. */
module Network {
  import opened SeqNum
  import opened Bytes
  import opened ReliableCodec
  import opened Sender
  import opened Receiver
  import opened Endpoint

  datatype System = System(a: EndpointState, b: EndpointState, ab: set<Copy>, ba: set<Copy>)

  function Swap(s: System): System {
    System(s.b, s.a, s.ba, s.ab)
  }

  function Init(streamID: uint32): System {
    System(NewEndpoint(streamID), NewEndpoint(streamID), {}, {})
  }

  datatype Action =
    | DoSend(data: bytes, now: int)
    | DoSendClose(now: int)
    | DoReceive(copy: Copy, now: int)
    | DoTick(now: int)
    | DoAckTimer
    | DoClose
    | DoDrop(copy: Copy)

  /** An action of endpoint a, or of endpoint b. */
  datatype Event = Event(byA: bool, act: Action)

  /** The environment's one promise about delay: a copy that arrives is at most 2^31 sequence
      numbers behind what its receiver compares it with. */
  predicate FreshFor(c: Copy, p: ReliablePacket, x: EndpointState) {
    && (p.HasAck() ==> x.snd.base <= c.ackIdx + HALF)
    && (p.HasData() ==> |x.rcv.delivered| <= c.idx + HALF)
  }

  /** When endpoint a can act. Close packets are not subject to the window, so fewer than 2^31
      numbers being outstanding is a condition on how often a stream is closed. */
  predicate Enabled(s: System, act: Action) {
    match act
    case DoSend(_, _) => !s.a.closed && WindowOpen(s.a.snd)
    case DoSendClose(_) => !s.a.closed && |s.a.snd.sent| + 1 < s.a.snd.base + HALF
    case DoReceive(c, _) => c in s.ba && Decode(c.wire).Parsed? && FreshFor(c, Decode(c.wire).pkt, s.a)
    case DoTick(_) => true
    case DoAckTimer => s.a.rcv.timerArmed
    case DoClose => true
    case DoDrop(c) => c in s.ab
  }

  /** The action taken by endpoint a. */
  ghost function Act(s: System, act: Action): System
    requires CongestionControl.Valid(s.a.snd.cc) && Enabled(s, act)
  {
    match act
    case DoSend(data, now) =>
      var (a, out) := Send(s.a, data, now);
      s.(a := a, ab := s.ab + Elements(out))
    case DoSendClose(now) =>
      var (a, out) := SendClose(s.a, now);
      s.(a := a, ab := s.ab + Elements(out))
    case DoReceive(c, now) =>
      var (a, out) := Receive(s.a, Decode(c.wire).pkt, now);
      s.(a := a, ab := s.ab + Elements(out))
    case DoTick(now) =>
      var (a, out) := Tick(s.a, now);
      s.(a := a, ab := s.ab + out)
    case DoAckTimer =>
      var (a, out) := AckTimer(s.a);
      s.(a := a, ab := s.ab + Elements(out))
    case DoClose => s.(a := Close(s.a))
    case DoDrop(c) => s.(ab := s.ab - {c})
  }

  // ---- The invariant -------------------------------------------------------------------------

  /** Index i has been delivered or is buffered. */
  ghost predicate Received(r: ReceiverState, i: int) {
    i < |r.delivered| || (i < |r.delivered| + HALF && Wrap(i) in r.outOfOrder)
  }

  ghost predicate KeyOk(s: SenderState, k: uint32) {
    k in s.unacked && s.base <= s.unacked[k].idx < |s.sent| && Wrap(s.unacked[k].idx) == k
  }

  ghost predicate PayloadsInWindow(s: SenderState) {
    forall i :: 0 <= i < |s.sent| && s.sent[i].Payload? ==> i < s.base + CongestionControl.MAX_CWND
  }

  /** The wrapped counters track the indices; what is unacknowledged lies between sendBase and
      sendSeq; every payload was sent less than MAX_CWND past sendBase, also after cwnd shrank. */
  ghost predicate SenderOk(s: SenderState) {
    && CongestionControl.Valid(s.cc)
    && s.sendSeq == Wrap(|s.sent|) && s.sendBase == Wrap(s.base)
    && s.base <= |s.sent| < s.base + HALF
    && (forall k :: k in s.unacked ==> KeyOk(s, k))
    && PayloadsInWindow(s)
  }

  /** A SACK block of an acknowledgment at index n reports received indices only. */
  ghost predicate BlockOk(b: SackBlock, n: nat, r: ReceiverState) {
    && 0 < Sub(b.left, Wrap(n)) <= Sub(b.right, Wrap(n)) < CongestionControl.MAX_CWND
    && forall i :: n + Sub(b.left, Wrap(n)) <= i <= n + Sub(b.right, Wrap(n)) ==> Received(r, i)
  }

  ghost predicate BlocksOk(blocks: seq<SackBlock>, n: nat, r: ReceiverState) {
    forall i :: 0 <= i < |blocks| ==> BlockOk(blocks[i], n, r)
  }

  /** What a packet says about data is what its sender put at that index. */
  ghost predicate DataOk(p: ReliablePacket, c: Copy, sent: seq<Entry>) {
    p.HasData() ==> c.idx < |sent| && sent[c.idx] == Payload(p.data) && p.seqNo == Wrap(c.idx)
  }

  /** What a packet acknowledges has been received by the endpoint that sent it. */
  ghost predicate AckPartOk(p: ReliablePacket, c: Copy, r: ReceiverState) {
    p.HasAck() ==> p.ack == Wrap(c.ackIdx) && c.ackIdx <= |r.delivered| && BlocksOk(p.sackBlocks, c.ackIdx, r)
  }

  ghost predicate CopyOk(c: Copy, x: EndpointState) {
    Decode(c.wire).Parsed? && DataOk(Decode(c.wire).pkt, c, x.snd.sent) && AckPartOk(Decode(c.wire).pkt, c, x.rcv)
  }

  /** An endpoint and every copy of its packets, in flight or kept for retransmission. */
  ghost predicate Local(x: EndpointState, out: set<Copy>) {
    && SenderOk(x.snd)
    && BufferOk(x.rcv)
    && (forall c :: c in out ==> CopyOk(c, x))
    && (forall k :: k in x.snd.unacked ==> CopyOk(CopyOf(x.snd.unacked[k]), x))
  }

  /** The receiver holds, at every index it holds, what the sender put there. */
  ghost predicate Matches(sent: seq<Entry>, r: ReceiverState) {
    && |r.delivered| <= |sent|
    && (forall i :: 0 <= i < |r.delivered| ==> sent[i] == Payload(r.delivered[i]))
    && (forall k :: k in r.outOfOrder ==>
         |r.delivered| + Sub(k, r.recvNext) < |sent| &&
         sent[|r.delivered| + Sub(k, r.recvNext)] == Payload(r.outOfOrder[k]))
  }

  /** No reneging: what the sender believes selectively acknowledged, the receiver still has. */
  ghost predicate SackedReceived(s: SenderState, r: ReceiverState) {
    forall k :: k in s.unacked && s.unacked[k].sacked ==> Received(r, s.unacked[k].idx)
  }

  /** The data direction from sender s to receiver r. */
  ghost predicate Direction(s: SenderState, r: ReceiverState) {
    && s.base <= |r.delivered|
    && Matches(s.sent, r)
    && SackedReceived(s, r)
  }

  ghost predicate Inv(s: System) {
    && Local(s.a, s.ab)
    && Local(s.b, s.ba)
    && Direction(s.a.snd, s.b.rcv)
    && Direction(s.b.snd, s.a.rcv)
  }
}
