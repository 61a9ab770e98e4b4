/** Safety of the whole system, over every run of two endpoints and a lossy, duplicating and
    reordering network. */
module NetworkSafety {
  import opened SeqNum
  import opened Bytes
  import opened ReliableCodec
  import opened SackBuilder
  import CC = CongestionControl
  import opened Sender
  import opened Receiver
  import opened Endpoint
  import opened Network
  import opened ReceiverSafety
  import opened SenderSafety

  /** An endpoint moved forward: it sent more, it holds more. */
  ghost predicate Extends(x: EndpointState, x': EndpointState) {
    x.snd.sent <= x'.snd.sent && Keeps(x.rcv, x'.rcv)
  }

  /** Copies stay truthful as their sender moves on, so a retransmission is as good as the original. */
  lemma CopyStaysOk(c: Copy, x: EndpointState, x': EndpointState)
    requires CopyOk(c, x) && Extends(x, x')
    ensures CopyOk(c, x')
  {
    hide Decode, BlocksOk, Wrap;
    var p := Decode(c.wire).pkt;
    if p.HasAck() {
      BlocksKept(p.sackBlocks, c.ackIdx, x.rcv, x'.rcv);
    }
  }

  /** Carrying the copies of an endpoint over one of its steps. */
  lemma LocalStep(x: EndpointState, out: set<Copy>, x': EndpointState, more: set<Copy>)
    requires Local(x, out) && Extends(x, x') && SenderOk(x'.snd) && BufferOk(x'.rcv)
    requires forall c :: c in more ==> CopyOk(c, x') || exists k :: k in x.snd.unacked && c == CopyOf(x.snd.unacked[k])
    requires forall k :: k in x'.snd.unacked ==>
               CopyOk(CopyOf(x'.snd.unacked[k]), x') || (k in x.snd.unacked
                 && CopyOf(x'.snd.unacked[k]) == CopyOf(x.snd.unacked[k]))
    ensures Local(x', out + more)
  {
    hide SenderOk, BufferOk, CopyOk, Extends;
    forall c | c in out ensures CopyOk(c, x') {
      CopyStaysOk(c, x, x');
    }
    forall k | k in x.snd.unacked ensures CopyOk(CopyOf(x.snd.unacked[k]), x') {
      CopyStaysOk(CopyOf(x.snd.unacked[k]), x, x');
    }
  }

  // ---- The acknowledgment part of outgoing packets -------------------------------------------

  /** A packet whose acknowledgment fields are read off the receiver state. */
  ghost predicate AcksState(p: ReliablePacket, r: ReceiverState) {
    && WellFormed(p)
    && (p.HasAck() ==> p.ack == r.recvNext)
    && (p.HasAck() && p.sackBlocks != [] ==> p.sackBlocks == SackBlocks(r.outOfOrder.Keys, r.recvNext))
  }

  lemma AckPartOfState(p: ReliablePacket, idx: nat, x: EndpointState, r: ReceiverState)
    requires BufferOk(r) && BufferInWindow(r) && AcksState(p, r) && Keeps(r, x.rcv)
    requires DataOk(p, Copy(Encode(p), idx, |r.delivered|), x.snd.sent)
    ensures CopyOk(Copy(Encode(p), idx, |r.delivered|), x)
  {
    hide Decode, Encode, SackBlocks, Keeps, BlocksOk, WellFormed, Wrap;
    RoundTrip(p);
    assert |r.delivered| <= |x.rcv.delivered| by { KeepsLength(r, x.rcv); }
    assert r.recvNext == Wrap(|r.delivered|) by { BufferCounter(r); }
    SackReportsReceived(r);
    if p.HasAck() {
      if p.sackBlocks != [] {
        BlocksKept(p.sackBlocks, |r.delivered|, r, x.rcv);
      } else {
        NoBlocks(|r.delivered|, x.rcv);
      }
    }
  }

  lemma NoBlocks(n: nat, r: ReceiverState)
    ensures BlocksOk([], n, r)
  {
  }

  lemma KeepsLength(r: ReceiverState, r': ReceiverState)
    requires Keeps(r, r')
    ensures |r.delivered| <= |r'.delivered|
  {
  }

  lemma KeepsSelf(r: ReceiverState)
    ensures Keeps(r, r)
  {
  }

  lemma PureAckAcks(streamID: uint32, r: ReceiverState)
    ensures AcksState(PureAck(streamID, r), r) && !PureAck(streamID, r).HasData()
  {
  }

  lemma SackAckAcks(streamID: uint32, r: ReceiverState)
    requires BufferOk(r) && BufferInWindow(r)
    ensures AcksState(SackAck(streamID, r), r) && !SackAck(streamID, r).HasData()
  {
    hide SackBlocks, InHalfCircle, Wrap;
    SackReportsReceived(r);
  }

  lemma DataPacketAcks(e: EndpointState, data: bytes)
    requires BufferOk(e.rcv) && BufferInWindow(e.rcv)
    ensures AcksState(DataPacket(e, data), e.rcv)
    ensures DataPacket(e, data).HasData() && DataPacket(e, data).data == data
            && DataPacket(e, data).seqNo == e.snd.sendSeq
    ensures DataPacket(e, data).HasAck() <==> e.rcv.pendingAck
  {
    hide SackBlocks, InHalfCircle, Wrap;
    SackReportsReceived(e.rcv);
  }

  lemma ClosePacketAcks(e: EndpointState)
    ensures AcksState(ClosePacket(e), e.rcv) && !ClosePacket(e).HasData()
  {
  }

  /** What processData puts on the wire: at most one packet, a truthful acknowledgment of the state
      it leaves; without one, the acknowledged point is unchanged. */
  lemma ProcessDataEmits(x: EndpointState, seqNo: uint32, data: bytes)
    requires var r' := Receiver.ProcessData(x.streamID, x.rcv, seqNo, data).0;
             BufferOk(r') && BufferInWindow(r')
    ensures var (r', out) := Receiver.ProcessData(x.streamID, x.rcv, seqNo, data);
            && |out| <= 1
            && (forall c :: c in out ==> CopyOk(c, x.(rcv := r')))
            && (forall c :: c in out ==> c.ackIdx == |r'.delivered| == r'.acked)
            && (out == [] ==> r'.acked == x.rcv.acked || seqNo == x.rcv.recvNext)
  {
    hide Encode, Decode, Drain, SackBlocks, BufferOk, BufferInWindow, Keeps, CopyOk, Wrap, AcksState, SeqGreater;
    var (r', out) := Receiver.ProcessData(x.streamID, x.rcv, seqNo, data);
    var x' := x.(rcv := r');
    PureAckAcks(x.streamID, r');
    SackAckAcks(x.streamID, r');
    KeepsSelf(r');
    AckPartOfState(PureAck(x.streamID, r'), 0, x', r');
    AckPartOfState(SackAck(x.streamID, r'), 0, x', r');
  }

  // ---- One action of endpoint a --------------------------------------------------------------

  lemma BufferWithinWindow(s: System)
    requires Inv(s)
    ensures BufferInWindow(s.a.rcv)
  {
    hide SenderOk, BufferOk, Matches, CopyOk, BufferInWindow;
    ConformingSenderFillsLess(s.b.snd, s.a.rcv);
  }

  lemma SendKeepsInv(s: System, data: bytes, now: int)
    requires Inv(s) && Enabled(s, DoSend(data, now))
    ensures Inv(Act(s, DoSend(data, now)))
  {
    hide Encode, Decode, Wrap, Matches, BufferOk, SenderOk, CopyOk, SackBlocks, Record, BufferInWindow,
      DataPacket, AcksState, Keeps, SackedReceived, WindowOpen;
    var (a', out) := Endpoint.Send(s.a, data, now);
    var pkt := DataPacket(s.a, data);
    BufferWithinWindow(s);
    DataPacketAcks(s.a, data);
    RecordOk(s.a.snd, Payload(data), pkt, |s.a.rcv.delivered|, now, s.b.rcv);
    SameHoldings(s.a.rcv, a'.rcv, s.b.snd.sent);
    SendCopyOk(s.a, data, now);
    RecordedKept(s.a.snd, Payload(data), pkt, |s.a.rcv.delivered|, now);
    LocalStep(s.a, s.ab, a', Elements(out));
    SackedStays(s.b.snd, s.a.rcv, a'.rcv);
  }

  lemma SendCopyOk(e: EndpointState, data: bytes, now: int)
    requires SenderOk(e.snd) && BufferOk(e.rcv) && BufferInWindow(e.rcv)
    ensures var (e', out) := Endpoint.Send(e, data, now);
            forall c :: c in out ==> CopyOk(c, e')
  {
    hide Encode, Decode, Wrap, BufferOk, BufferInWindow, SackBlocks, DataPacket, AcksState, CopyOk;
    var (e', out) := Endpoint.Send(e, data, now);
    DataPacketAcks(e, data);
    SameHoldings(e.rcv, e'.rcv, []);
    AckPartOfState(DataPacket(e, data), |e.snd.sent|, e', e.rcv);
  }

  /** What Record adds is one packet whose copy is the one sent; the rest is unchanged. */
  lemma RecordedKept(s: SenderState, entry: Entry, pkt: ReliablePacket, ackIdx: nat, now: int)
    ensures var s' := Record(s, entry, pkt, ackIdx, now);
            && s.sent <= s'.sent && s'.base == s.base && s'.cc == s.cc
            && forall k :: k in s'.unacked ==>
                 CopyOf(s'.unacked[k]) == Copy(Encode(pkt), |s.sent|, ackIdx)
                 || (k in s.unacked && s'.unacked[k] == s.unacked[k])
  {
    hide Encode, Wrap;
  }

  lemma SackedStays(s: SenderState, r: ReceiverState, r': ReceiverState)
    requires SackedReceived(s, r) && Keeps(r, r')
    ensures SackedReceived(s, r')
  {
    hide Received;
  }

  lemma SendCloseKeepsInv(s: System, now: int)
    requires Inv(s) && Enabled(s, DoSendClose(now))
    ensures Inv(Act(s, DoSendClose(now)))
  {
    hide Encode, Decode, Wrap, Matches, BufferOk, SenderOk, CopyOk, SackBlocks, Record, BufferInWindow,
      ClosePacket, AcksState, Keeps, SackedReceived, WindowOpen;
    var (a', out) := Endpoint.SendClose(s.a, now);
    var pkt := ClosePacket(s.a);
    BufferWithinWindow(s);
    ClosePacketAcks(s.a);
    RecordOk(s.a.snd, Fin, pkt, |s.a.rcv.delivered|, now, s.b.rcv);
    SameHoldings(s.a.rcv, a'.rcv, s.b.snd.sent);
    AckPartOfState(pkt, |s.a.snd.sent|, a', s.a.rcv);
    RecordedKept(s.a.snd, Fin, pkt, |s.a.rcv.delivered|, now);
    LocalStep(s.a, s.ab, a', Elements(out));
    SackedStays(s.b.snd, s.a.rcv, a'.rcv);
  }

  /** The sender part of receiving a packet. */
  lemma ReceiveAckKeepsInv(s: System, c: Copy, now: int)
    requires Inv(s) && c in s.ba && FreshFor(c, Decode(c.wire).pkt, s.a)
    ensures var (a', out) := ReceiveAck(s.a, Decode(c.wire).pkt, now);
            Inv(s.(a := a', ab := s.ab + Elements(out))) && a' == s.a.(snd := a'.snd) && a'.snd.sent == s.a.snd.sent
  {
    hide Decode, Wrap, Matches, BufferOk, SenderOk, BlocksOk, ProcessAck, Keeps, SackedReceived;
    assert CopyOk(c, s.b);
    assert CC.Valid(s.a.snd.cc) by { LocalBuffer(s.a, s.ab); }
    var p := Decode(c.wire).pkt;
    var (a', out) := ReceiveAck(s.a, p, now);
    hide CopyOk;
    KeepsSelf(s.a.rcv);
    if p.HasAck() {
      DeliveredInWindow(s.a.snd, s.b.rcv);
      ProcessAckOk(s.a.snd, c.ackIdx, p.sackBlocks, now, s.b.rcv);
      ProcessAckShrinks(s.a.snd, p.ack, p.sackBlocks, now);
      LocalStep(s.a, s.ab, a', Elements(out));
    } else {
      assert s.ab + Elements([]) == s.ab;
    }
  }

  /** The receiver part. */
  lemma ReceiveDataKeepsInv(s: System, c: Copy, p: ReliablePacket)
    requires Inv(s) && Decode(c.wire) == Parsed(p) && CopyOk(c, s.b)
    requires p.HasData() ==> |s.a.rcv.delivered| <= c.idx + HALF
    ensures var (a', out) := ReceiveData(s.a, p);
            Inv(s.(a := a', ab := s.ab + Elements(out))) && a'.snd == s.a.snd && Keeps(s.a.rcv, a'.rcv)
  {
    hide Decode, Wrap, Matches, BufferOk, SenderOk, AckPartOk, Keeps, SackedReceived, BufferInWindow, ProcessData;
    var (a', out) := ReceiveData(s.a, p);
    KeepsSelf(s.a.rcv);
    if p.HasData() && |p.data| > 0 {
      assert c.idx < |s.b.snd.sent| && s.b.snd.sent[c.idx] == Payload(p.data) && p.seqNo == Wrap(c.idx);
      hide CopyOk;
      assert c.idx < |s.a.rcv.delivered| + HALF by { PayloadBound(s.b.snd, c.idx); }
      DataKeepsMatches(s.a.streamID, s.b.snd.sent, s.a.rcv, p.seqNo, p.data, c.idx);
      KeepsLength(s.a.rcv, a'.rcv);
      ConformingSenderFillsLess(s.b.snd, a'.rcv);
      ProcessDataEmits(s.a, p.seqNo, p.data);
      LocalStep(s.a, s.ab, a', Elements(out));
      SackedStays(s.b.snd, s.a.rcv, a'.rcv);
    } else {
      assert s.ab + Elements([]) == s.ab;
    }
  }

  lemma PayloadBound(s: SenderState, i: nat)
    requires SenderOk(s) && i < |s.sent| && s.sent[i].Payload?
    ensures i < s.base + CC.MAX_CWND
  {
  }

  lemma ReceiveKeepsInv(s: System, c: Copy, now: int)
    requires Inv(s) && Enabled(s, DoReceive(c, now))
    ensures Inv(Act(s, DoReceive(c, now)))
  {
    hide Decode, Wrap, Local, Direction, BufferOk, ReceiveAck, ReceiveData, Keeps, CopyOk;
    assert CC.Valid(s.a.snd.cc) by { LocalBuffer(s.a, s.ab); }
    var p := Decode(c.wire).pkt;
    var (a1, out1) := ReceiveAck(s.a, p, now);
    ReceiveAckKeepsInv(s, c, now);
    var s1 := s.(a := a1, ab := s.ab + Elements(out1));
    var (a2, out2) := ReceiveData(a1, p);
    assert CopyOk(c, s.b) by { LocalCopy(s.b, s.ba, c); }
    ReceiveDataKeepsInv(s1, c, p);
    var s2 := s1.(a := a2, ab := s1.ab + Elements(out2));
    assert BufferOk(a2.rcv) by { LocalBuffer(a2, s2.ab); }
    DrainIdle(a2.rcv);
    assert s2.ab == s.ab + Elements(out1 + out2);
    assert Act(s, DoReceive(c, now)) == s2;
  }

  lemma LocalCopy(x: EndpointState, out: set<Copy>, c: Copy)
    requires Local(x, out) && c in out
    ensures CopyOk(c, x)
  {
    hide CopyOk;
  }

  lemma LocalBuffer(x: EndpointState, out: set<Copy>)
    requires Local(x, out)
    ensures BufferOk(x.rcv) && SenderOk(x.snd) && CC.Valid(x.snd.cc)
  {
    hide CopyOk;
  }

  lemma TickKeepsInv(s: System, now: int)
    requires Inv(s)
    ensures Inv(Act(s, DoTick(now)))
  {
    hide Decode, Wrap, Matches, BufferOk, SenderOk, CopyOk, SackedReceived, Keeps, CheckRetransmit;
    var (a', out) := Tick(s.a, now);
    CheckRetransmitOk(s.a.snd, now, s.b.rcv);
    KeepsSelf(s.a.rcv);
    LocalStep(s.a, s.ab, a', out);
  }

  lemma AckTimerKeepsInv(s: System)
    requires Inv(s) && Enabled(s, DoAckTimer)
    ensures Inv(Act(s, DoAckTimer))
  {
    hide Encode, Decode, Wrap, Matches, BufferOk, SenderOk, CopyOk, SackedReceived, Keeps, BufferInWindow, AcksState;
    var (a', out) := AckTimer(s.a);
    BufferWithinWindow(s);
    SameHoldings(s.a.rcv, a'.rcv, s.b.snd.sent);
    PureAckAcks(s.a.streamID, s.a.rcv);
    AckPartOfState(PureAck(s.a.streamID, s.a.rcv), 0, a', s.a.rcv);
    LocalStep(s.a, s.ab, a', Elements(out));
    SackedStays(s.b.snd, s.a.rcv, a'.rcv);
  }

  lemma CloseKeepsInv(s: System)
    requires Inv(s)
    ensures Inv(Act(s, DoClose))
  {
    hide Decode, Wrap, Matches, BufferOk, SenderOk, CopyOk, SackedReceived, Keeps;
    var a' := Endpoint.Close(s.a);
    SameHoldings(s.a.rcv, a'.rcv, s.b.snd.sent);
    LocalStep(s.a, s.ab, a', {});
    SackedStays(s.b.snd, s.a.rcv, a'.rcv);
    assert s.ab + {} == s.ab;
  }

  lemma ActKeepsInv(s: System, act: Action)
    requires Inv(s) && Enabled(s, act)
    ensures Inv(Act(s, act))
  {
    hide Local, Direction, Endpoint.Send, Endpoint.SendClose, Receive, Tick, AckTimer, Endpoint.Close, FreshFor,
      WindowOpen;
    match act
    case DoSend(data, now) => SendKeepsInv(s, data, now);
    case DoSendClose(now) => SendCloseKeepsInv(s, now);
    case DoReceive(c, now) => ReceiveKeepsInv(s, c, now);
    case DoTick(now) => TickKeepsInv(s, now);
    case DoAckTimer => AckTimerKeepsInv(s);
    case DoClose => CloseKeepsInv(s);
    case DoDrop(c) => DropKeepsLocal(s.a, s.ab, c);
  }

  lemma DropKeepsLocal(x: EndpointState, out: set<Copy>, c: Copy)
    requires Local(x, out)
    ensures Local(x, out - {c})
  {
    hide SenderOk, BufferOk, CopyOk;
  }
}
