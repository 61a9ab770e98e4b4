/** What Send and SendClose accept and put on the wire, in every run: the window test through the
    unbounded indices, what a data packet carries along, and which packets are closes
    (pkg/tunnel/reliable.go:15-22, 391-417, 536-646). */
module Sending {
  import opened SeqNum
  import opened Bytes
  import opened ReliableCodec
  import opened SackBuilder
  import CC = CongestionControl
  import opened Sender
  import opened Receiver
  import opened Endpoint
  import opened Network
  import opened ReceiverSafety
  import opened SenderSafety
  import opened NetworkSafety
  import opened Safety
  import opened StreamRuns

  // ---- The window ----------------------------------------------------------------------------

  /** The next index is within the congestion window. */
  ghost predicate RoomFor(s: SenderState) {
    |s.sent| - s.base < s.cc.cwnd
  }

  lemma WindowThroughIndices(s: SenderState)
    requires SenderOk(s)
    ensures WindowOpen(s) <==> RoomFor(s)
  {
    SignedDistance(|s.sent|, s.base);
  }

  /** In every run, an endpoint takes a payload without waiting if and only if it is open and fewer than
      cwnd indices lie between sendBase and the next one. */
  lemma AdmitsExactly(streamID: uint32, es: seq<Event>, data: bytes, now: int)
    ensures var s := Reach(streamID, es);
            Enabled(s, DoSend(data, now)) <==> !s.a.closed && |s.a.snd.sent| - s.a.snd.base < s.a.snd.cc.cwnd
  {
    var s := Reach(streamID, es);
    hide Reach;
    LocalBuffer(s.a, s.ab);
    WindowThroughIndices(s.a.snd);
    hide WindowOpen, SenderOk, Inv;
  }

  /** The event at which a payload was accepted. */
  ghost predicate AcceptedAt(streamID: uint32, es: seq<Event>, n: nat, i: nat, data: bytes)
    requires n < |es|
  {
    var s := Reach(streamID, es[..n]);
    && es[n].byA && es[n].act.DoSend? && es[n].act.data == data
    && !s.a.closed && |s.a.snd.sent| == i && i - s.a.snd.base < s.a.snd.cc.cwnd
  }

  lemma SentGrowsBy(s: System, e: Event)
    requires Inv(s)
    ensures var t := Step(s, e);
            && s.a.snd.sent <= t.a.snd.sent
            && forall i :: |s.a.snd.sent| <= i < |t.a.snd.sent| && t.a.snd.sent[i].Payload? ==>
                 i == |s.a.snd.sent| && e.byA && Enabled(s, e.act) && e.act.DoSend?
                 && t.a.snd.sent[i].data == e.act.data
  {
    StepAccepts(s, e);
    hide Inv, Step, Enabled;
  }

  /** In every run, each payload was accepted at a moment at which its index was less than cwnd past
      sendBase. */
  lemma {:induction false} AcceptedWithinWindow(streamID: uint32, es: seq<Event>, i: nat) returns (n: nat)
    requires i < |Reach(streamID, es).a.snd.sent| && Reach(streamID, es).a.snd.sent[i].Payload?
    ensures n < |es| && AcceptedAt(streamID, es, n, i, Reach(streamID, es).a.snd.sent[i].data)
  {
    hide Inv, Step, Enabled;
    InitInv(streamID);
    assert es != [];
    var init, e := es[..|es| - 1], es[|es| - 1];
    var s := Reach(streamID, init);
    SentGrowsBy(s, e);
    if i < |s.a.snd.sent| {
      n := AcceptedWithinWindow(streamID, init, i);
      assert init[..n] == es[..n];
    } else {
      n := |es| - 1;
      AdmitsExactly(streamID, init, e.act.data, e.act.now);
    }
  }

  // ---- What a packet carries -----------------------------------------------------------------

  /** A packet for index i: the payload, and an acknowledgment exactly when one is pending. */
  ghost predicate CarriesPayload(p: ReliablePacket, streamID: uint32, i: nat, data: bytes, r: ReceiverState) {
    && p.streamID == streamID && p.seqNo == Wrap(i) && p.data == data && p.HasData() && !p.HasClose()
    && p.flags == (if !r.pendingAck then 1 else if r.outOfOrder.Keys == {} then 3 else 19)
    && (r.pendingAck ==> p.ack == r.recvNext && Exact(p.sackBlocks, r.outOfOrder.Keys, r.recvNext))
    && (p.HasAck() <==> r.pendingAck)
  }

  lemma FlagsMean(p: ReliablePacket)
    ensures p.flags == 1 ==> p.HasData() && !p.HasAck() && !p.HasClose()
    ensures p.flags == 3 || p.flags == 19 ==> p.HasData() && p.HasAck() && !p.HasClose()
    ensures p.flags == 6 ==> !p.HasData() && p.HasAck() && p.HasClose()
  {
  }

  lemma DataFields(e: EndpointState, data: bytes)
    ensures var p := DataPacket(e, data);
            && p.streamID == e.streamID && p.seqNo == e.snd.sendSeq && p.data == data
            && p.flags == (if !e.rcv.pendingAck then 1
                           else if SackBlocks(e.rcv.outOfOrder.Keys, e.rcv.recvNext) == [] then 3 else 19)
            && (e.rcv.pendingAck ==>
                 p.ack == e.rcv.recvNext && p.sackBlocks == SackBlocks(e.rcv.outOfOrder.Keys, e.rcv.recvNext))
  {
    hide SackBlocks;
  }

  lemma DataCarries(e: EndpointState, data: bytes)
    requires SenderOk(e.snd) && BufferOk(e.rcv)
    ensures CarriesPayload(DataPacket(e, data), e.streamID, |e.snd.sent|, data, e.rcv)
  {
    assert e.snd.sendSeq == Wrap(|e.snd.sent|);
    DataFields(e, data);
    FlagsMean(DataPacket(e, data));
    SackBlocksEmpty(e.rcv.outOfOrder.Keys, e.rcv.recvNext);
    SackBlocksExact(e.rcv.outOfOrder.Keys, e.rcv.recvNext) by { BufferHalf(e.rcv); }
    hide SackBlocks, Exact, BufferOk, Wrap, SenderOk, DataPacket;
    hide ReliablePacket.HasData, ReliablePacket.HasAck, ReliablePacket.HasClose;
  }

  lemma NewKept(s: SenderState, entry: Entry, pkt: ReliablePacket, ackIdx: nat, now: int)
    requires SenderOk(s)
    ensures var t := Record(s, entry, pkt, ackIdx, now);
            var k := Wrap(|s.sent|);
            && k in t.unacked && t.unacked[k] == Unacked(pkt, Encode(pkt), now, 0, false, |s.sent|, ackIdx)
            && t.unacked == s.unacked[k := t.unacked[k]]
            && t == s.(sendSeq := Wrap(|s.sent| + 1), unacked := t.unacked, sent := s.sent + [entry])
  {
    AddWrap(|s.sent|, 1);
    hide Encode;
  }

  /** The packet of copy c has gone out and is kept under the next index. */
  ghost predicate GoesOut(s: System, t: System, c: Copy, now: int) {
    var i := |s.a.snd.sent|;
    && t.ab == s.ab + {c} && c.idx == i && Decode(c.wire).Parsed?
    && Wrap(i) in t.a.snd.unacked
    && t.a.snd.unacked[Wrap(i)] == Unacked(Decode(c.wire).pkt, c.wire, now, 0, false, i, c.ackIdx)
  }

  /** Nothing is left to acknowledge. */
  function AllAcknowledged(r: ReceiverState): ReceiverState {
    r.(pendingAck := false, timerArmed := false, acked := |r.delivered|, sinceAck := 0)
  }

  lemma SendGoesOut(s: System, data: bytes, now: int) returns (c: Copy)
    requires Inv(s) && CC.Valid(s.a.snd.cc) && Enabled(s, DoSend(data, now))
    ensures var t := Act(s, DoSend(data, now));
            && GoesOut(s, t, c, now) && Decode(c.wire).pkt == DataPacket(s.a, data)
            && t.a.rcv == (if s.a.rcv.pendingAck then AllAcknowledged(s.a.rcv) else s.a.rcv)
            && c.ackIdx == |s.a.rcv.delivered|
  {
    LocalBuffer(s.a, s.ab);
    BufferWithinWindow(s);
    DataPacketAcks(s.a, data);
    RoundTrip(DataPacket(s.a, data));
    NewKept(s.a.snd, Payload(data), DataPacket(s.a, data), |s.a.rcv.delivered|, now);
    c := Endpoint.Send(s.a, data, now).1[0];
    hide Inv, SenderOk, BufferOk, BufferInWindow, DataPacket, Encode, Decode, WellFormed, WindowOpen, Record, Wrap,
      CC.Valid, SackBlocks;
  }

  predicate IsClosePacket(p: ReliablePacket, streamID: uint32, i: nat, recvNext: uint32) {
    p == ReliablePacket(streamID, 6, Wrap(i), recvNext, [], []) && p.HasClose() && p.HasAck() && !p.HasData()
  }

  lemma CloseCarries(e: EndpointState)
    requires SenderOk(e.snd)
    ensures IsClosePacket(ClosePacket(e), e.streamID, |e.snd.sent|, e.rcv.recvNext)
  {
    assert e.snd.sendSeq == Wrap(|e.snd.sent|);
    FlagsMean(ClosePacket(e));
    hide SenderOk, Wrap;
  }

  lemma CloseGoesOut(s: System, now: int) returns (c: Copy)
    requires Inv(s) && CC.Valid(s.a.snd.cc) && Enabled(s, DoSendClose(now))
    ensures var t := Act(s, DoSendClose(now));
            && GoesOut(s, t, c, now) && Decode(c.wire).pkt == ClosePacket(s.a)
            && t.a.rcv == s.a.rcv.(acked := |s.a.rcv.delivered|, sinceAck := 0)
            && c.ackIdx == |s.a.rcv.delivered|
  {
    LocalBuffer(s.a, s.ab);
    ClosePacketAcks(s.a);
    RoundTrip(ClosePacket(s.a));
    NewKept(s.a.snd, Fin, ClosePacket(s.a), |s.a.rcv.delivered|, now);
    c := Endpoint.SendClose(s.a, now).1[0];
    hide Inv, SenderOk, BufferOk, Encode, Decode, WellFormed, Record, Wrap, ClosePacket, CC.Valid, SackBlocks;
  }

  /** In every run an accepted payload goes out at once in one packet, which is kept. It carries an
      acknowledgment with exactly the buffer's blocks if one is pending, which then no longer is, and
      none otherwise. */
  lemma DataOnWire(streamID: uint32, es: seq<Event>, data: bytes, now: int) returns (c: Copy)
    requires Enabled(Reach(streamID, es), DoSend(data, now))
    ensures var s := Reach(streamID, es);
            var t := Step(s, Event(true, DoSend(data, now)));
            && GoesOut(s, t, c, now)
            && CarriesPayload(Decode(c.wire).pkt, s.a.streamID, |s.a.snd.sent|, data, s.a.rcv)
            && c.ackIdx == |s.a.rcv.delivered|
            && t.a.rcv == (if s.a.rcv.pendingAck then AllAcknowledged(s.a.rcv) else s.a.rcv)
  {
    var s := Reach(streamID, es);
    LocalBuffer(s.a, s.ab);
    DataCarries(s.a, data);
    c := SendGoesOut(s, data, now);
    hide Reach, Inv, Enabled, SenderOk, BufferOk, DataPacket, Decode, GoesOut, CarriesPayload, Act;
  }

  /** Likewise a close, with flags ACK and CLOSE, the next index and no data. A pending acknowledgment
      stays pending. */
  lemma CloseOnWire(streamID: uint32, es: seq<Event>, now: int) returns (c: Copy)
    requires Enabled(Reach(streamID, es), DoSendClose(now))
    ensures var s := Reach(streamID, es);
            var t := Step(s, Event(true, DoSendClose(now)));
            && GoesOut(s, t, c, now) && c.ackIdx == |s.a.rcv.delivered|
            && IsClosePacket(Decode(c.wire).pkt, s.a.streamID, |s.a.snd.sent|, s.a.rcv.recvNext)
            && t.a.rcv == s.a.rcv.(acked := |s.a.rcv.delivered|, sinceAck := 0)
  {
    var s := Reach(streamID, es);
    LocalBuffer(s.a, s.ab);
    CloseCarries(s.a);
    c := CloseGoesOut(s, now);
    hide Reach, Inv, Enabled, SenderOk, BufferOk, Decode, GoesOut, Act, ClosePacket, IsClosePacket;
  }

  lemma PureOnWire(streamID: uint32, r: ReceiverState)
    ensures Decode(Encode(PureAck(streamID, r))) == Parsed(ReliablePacket(streamID, 2, 0, r.recvNext, [], []))
  {
    RoundTrip(PureAck(streamID, r));
    hide Encode, Decode;
  }

  lemma TimerGoesOut(s: System)
    requires CC.Valid(s.a.snd.cc) && Enabled(s, DoAckTimer)
    ensures var t := Act(s, DoAckTimer);
            var c := AckCopy(PureAck(s.a.streamID, s.a.rcv), s.a.rcv);
            && t.a.snd == s.a.snd
            && (if s.a.rcv.pendingAck then t.ab == s.ab + {c} && t.a.rcv == AllAcknowledged(s.a.rcv)
                else t.ab == s.ab && t.a.rcv == s.a.rcv.(timerArmed := false))
  {
    hide Encode, CC.Valid;
  }

  /** When the ack timer goes off, a pending acknowledgment goes out alone: flag ACK, number 0, no blocks
      whatever is buffered. Without one nothing happens but that the timer is spent. */
  lemma TimerOnWire(streamID: uint32, es: seq<Event>) returns (c: Copy)
    requires Enabled(Reach(streamID, es), DoAckTimer)
    ensures var s := Reach(streamID, es);
            var t := Step(s, Event(true, DoAckTimer));
            && t.a.snd == s.a.snd
            && (if s.a.rcv.pendingAck then t.ab == s.ab + {c} && t.a.rcv == AllAcknowledged(s.a.rcv)
                else t.ab == s.ab && t.a.rcv == s.a.rcv.(timerArmed := false))
            && c.ackIdx == |s.a.rcv.delivered|
            && Decode(c.wire) == Parsed(ReliablePacket(s.a.streamID, 2, 0, s.a.rcv.recvNext, [], []))
  {
    var s := Reach(streamID, es);
    InvValid(s);
    TimerGoesOut(s);
    PureOnWire(s.a.streamID, s.a.rcv);
    c := AckCopy(PureAck(s.a.streamID, s.a.rcv), s.a.rcv);
    hide Reach, Inv, Encode, Decode, Act, Enabled, PureAck;
  }

  // ---- Which packets are closes --------------------------------------------------------------

  ghost predicate IsData(c: Copy) {
    && Decode(c.wire).Parsed? && Decode(c.wire).pkt.HasData() && !Decode(c.wire).pkt.HasClose()
    && Decode(c.wire).pkt.seqNo == Wrap(c.idx)
  }

  ghost predicate IsClose(c: Copy) {
    && Decode(c.wire).Parsed? && Decode(c.wire).pkt.HasClose() && !Decode(c.wire).pkt.HasData()
    && Decode(c.wire).pkt.seqNo == Wrap(c.idx)
  }

  /** A pure acknowledgment, which spends no number. */
  ghost predicate IsAck(c: Copy) {
    && Decode(c.wire).Parsed? && Decode(c.wire).pkt.HasAck()
    && !Decode(c.wire).pkt.HasData() && !Decode(c.wire).pkt.HasClose()
  }

  /** A data packet for a payload, a close packet for a close. */
  ghost predicate Numbered(c: Copy, sent: seq<Entry>) {
    c.idx < |sent| && if sent[c.idx].Fin? then IsClose(c) else IsData(c)
  }

  ghost predicate Typed(x: EndpointState, out: set<Copy>) {
    && (forall c :: c in out ==> IsAck(c) || Numbered(c, x.snd.sent))
    && (forall k :: k in x.snd.unacked ==> Numbered(CopyOf(x.snd.unacked[k]), x.snd.sent))
  }

  lemma DataIsData(x: EndpointState, data: bytes, ackIdx: nat)
    requires SenderOk(x.snd) && BufferOk(x.rcv) && BufferInWindow(x.rcv)
    ensures IsData(Copy(Encode(DataPacket(x, data)), |x.snd.sent|, ackIdx))
  {
    DataCarries(x, data);
    DataPacketAcks(x, data);
    RoundTrip(DataPacket(x, data));
    hide Encode, Decode, DataPacket, SenderOk, BufferOk, BufferInWindow, WellFormed, Exact, Wrap;
  }

  lemma CloseIsClose(x: EndpointState, ackIdx: nat)
    requires SenderOk(x.snd)
    ensures IsClose(Copy(Encode(ClosePacket(x)), |x.snd.sent|, ackIdx))
  {
    ClosePacketAcks(x);
    RoundTrip(ClosePacket(x));
    assert x.snd.sendSeq == Wrap(|x.snd.sent|);
    hide Encode, Decode, SenderOk, WellFormed, Wrap, SackBlocks;
  }

  lemma PureIsAck(streamID: uint32, r: ReceiverState, idx: nat, ackIdx: nat)
    ensures IsAck(Copy(Encode(PureAck(streamID, r)), idx, ackIdx))
  {
    RoundTrip(PureAck(streamID, r));
    hide Encode, Decode;
  }

  lemma SackIsAck(streamID: uint32, r: ReceiverState, idx: nat, ackIdx: nat)
    requires BufferOk(r) && BufferInWindow(r)
    ensures IsAck(Copy(Encode(SackAck(streamID, r)), idx, ackIdx))
  {
    SackAckAcks(streamID, r);
    assert SackAck(streamID, r).HasAck() && !SackAck(streamID, r).HasClose();
    RoundTrip(SackAck(streamID, r));
    hide Encode, Decode, BufferOk, BufferInWindow, WellFormed, SackAck;
  }

  lemma NewTyped(x: EndpointState, out: set<Copy>, x': EndpointState, c: Copy)
    requires Typed(x, out) && c.idx == |x.snd.sent| && |x'.snd.sent| == c.idx + 1 && x.snd.sent <= x'.snd.sent
    requires if x'.snd.sent[c.idx].Fin? then IsClose(c) else IsData(c)
    requires forall k :: k in x'.snd.unacked ==>
               CopyOf(x'.snd.unacked[k]) == c || (k in x.snd.unacked && x'.snd.unacked[k] == x.snd.unacked[k])
    ensures Typed(x', out + {c})
  {
    hide IsData, IsClose, IsAck;
  }

  lemma MoreTyped(x: EndpointState, out: set<Copy>, x': EndpointState, more: set<Copy>)
    requires Typed(x, out) && x'.snd.sent == x.snd.sent
    requires forall c :: c in more ==> IsAck(c) || exists k :: k in x.snd.unacked && c == CopyOf(x.snd.unacked[k])
    requires forall k :: k in x'.snd.unacked ==>
               k in x.snd.unacked && CopyOf(x'.snd.unacked[k]) == CopyOf(x.snd.unacked[k])
    ensures Typed(x', out + more)
  {
    hide IsData, IsClose, IsAck, Numbered;
  }

  lemma DataAnswersAreAcks(x: EndpointState, seqNo: uint32, data: bytes)
    requires var r' := ProcessData(x.streamID, x.rcv, seqNo, data).0; BufferOk(r') && BufferInWindow(r')
    ensures forall c :: c in ProcessData(x.streamID, x.rcv, seqNo, data).1 ==> IsAck(c)
  {
    var r' := ProcessData(x.streamID, x.rcv, seqNo, data).0;
    PureIsAck(x.streamID, r', 0, |r'.delivered|);
    SackIsAck(x.streamID, r', 0, |r'.delivered|);
    hide Encode, Decode, Drain, SackBlocks, BufferOk, BufferInWindow, Wrap, SeqGreater, IsAck;
  }

  lemma ReceiveTyped(s: System, c: Copy, now: int)
    requires Inv(s) && CC.Valid(s.a.snd.cc) && Enabled(s, DoReceive(c, now)) && Typed(s.a, s.ab)
    ensures Typed(Act(s, DoReceive(c, now)).a, Act(s, DoReceive(c, now)).ab)
  {
    hide Encode, Decode, ProcessAck, ProcessData, Drain, CopyOk, Local, Direction, IsAck, Typed, Shrinks, FromMap,
      BufferOk, BufferInWindow;
    var p := Decode(c.wire).pkt;
    var (a1, out1) := ReceiveAck(s.a, p, now);
    if p.HasAck() {
      ProcessAckShrinks(s.a.snd, p.ack, p.sackBlocks, now);
      FromMapTyped(s.a, s.ab, a1, out1, Marked(s.a.snd, p.ack, p.sackBlocks));
    } else {
      assert s.ab + Elements(out1) == s.ab;
    }
    var s1 := s.(a := a1, ab := s.ab + Elements(out1));
    ReceiveAckKeepsInv(s, c, now);
    LocalCopy(s.b, s.ba, c);
    ReceiveDataKeepsInv(s1, c, p);
    var (a2, out2) := ReceiveData(a1, p);
    var s2 := s1.(a := a2, ab := s1.ab + Elements(out2));
    BufferWithinWindow(s2);
    LocalBuffer(a2, s2.ab);
    if p.HasData() && |p.data| > 0 {
      DataAnswersAreAcks(a1, p.seqNo, p.data);
    }
    MoreTyped(a1, s1.ab, Act(s, DoReceive(c, now)).a, Elements(out2));
    assert s1.ab + Elements(out2) == s.ab + Elements(out1 + out2);
  }

  lemma FromMapTyped(x: EndpointState, out: set<Copy>, x': EndpointState, more: seq<Copy>, newly: set<uint32>)
    requires Typed(x, out) && FromMap(more, x.snd.unacked) && Shrinks(x.snd.unacked, x'.snd.unacked, newly)
    requires x'.snd.sent == x.snd.sent
    ensures Typed(x', out + Elements(more))
  {
    hide IsAck, Numbered;
  }

  lemma ActTyped(s: System, act: Action)
    requires Inv(s) && CC.Valid(s.a.snd.cc) && Enabled(s, act) && Typed(s.a, s.ab)
    ensures Typed(Act(s, act).a, Act(s, act).ab)
  {
    LocalBuffer(s.a, s.ab);
    hide Encode, Decode, DataPacket, ClosePacket, PureAck, CheckRetransmit, WindowOpen, Receive, CopyOk, Wrap,
      Local, Direction, BufferOk, BufferInWindow, SenderOk, Typed, IsAck, IsData, IsClose, FreshFor;
    match act
    case DoSend(data, now) =>
      BufferWithinWindow(s);
      DataIsData(s.a, data, |s.a.rcv.delivered|);
      RecordedKept(s.a.snd, Payload(data), DataPacket(s.a, data), |s.a.rcv.delivered|, now);
      NewTyped(s.a, s.ab, Act(s, act).a, Endpoint.Send(s.a, data, now).1[0]);
    case DoSendClose(now) =>
      CloseIsClose(s.a, |s.a.rcv.delivered|);
      RecordedKept(s.a.snd, Fin, ClosePacket(s.a), |s.a.rcv.delivered|, now);
      NewTyped(s.a, s.ab, Act(s, act).a, Endpoint.SendClose(s.a, now).1[0]);
    case DoReceive(c, now) => ReceiveTyped(s, c, now);
    case DoTick(now) =>
      CheckRetransmitOk(s.a.snd, now, s.b.rcv);
      MoreTyped(s.a, s.ab, Act(s, act).a, Tick(s.a, now).1);
    case DoAckTimer =>
      PureIsAck(s.a.streamID, s.a.rcv, 0, |s.a.rcv.delivered|);
      TimerAck(s.a.streamID, s.a.rcv);
      MoreTyped(s.a, s.ab, Act(s, act).a, Elements(AckTimer(s.a).1));
    case DoClose =>
      MoreTyped(s.a, s.ab, Act(s, act).a, {});
      assert s.ab + {} == s.ab;
    case DoDrop(c) => FewerTyped(s.a, s.ab, c);
  }

  lemma TimerAck(streamID: uint32, r: ReceiverState)
    ensures forall c :: c in AckTimerFires(streamID, r).1 ==> c == Copy(Encode(PureAck(streamID, r)), 0, |r.delivered|)
  {
    hide Encode;
  }

  lemma FewerTyped(x: EndpointState, out: set<Copy>, c: Copy)
    requires Typed(x, out)
    ensures Typed(x, out - {c})
  {
    hide IsAck, Numbered;
  }

  lemma {:induction false} RunTyped(s: System, es: seq<Event>)
    requires Inv(s) && Typed(s.a, s.ab) && Typed(s.b, s.ba)
    ensures Typed(Run(s, es).a, Run(s, es).ab) && Typed(Run(s, es).b, Run(s, es).ba)
  {
    hide Inv, Typed, Enabled, Act;
    if es != [] {
      var t, e := Run(s, es[..|es| - 1]), es[|es| - 1];
      RunTyped(s, es[..|es| - 1]);
      InvValid(t);
      InvSwap(t);
      if e.byA {
        if Enabled(t, e.act) {
          ActTyped(t, e.act);
          OtherSideUnchanged(t, e.act);
        }
      } else if Enabled(Swap(t), e.act) {
        ActTyped(Swap(t), e.act);
        OtherSideUnchanged(Swap(t), e.act);
      }
    }
  }

  /** In every run, each packet in flight is a pure acknowledgment, or carries a payload its sender
      accepted at that index, or is a close its sender accepted at that index; and every kept packet is a
      close exactly when a close was accepted at its index. So a close is never received that the peer
      did not ask for, and each one asked for is a close on the wire however often it is resent. */
  lemma ClosesAreAccepted(streamID: uint32, es: seq<Event>)
    ensures var s := Reach(streamID, es);
            && (forall c :: c in s.ab ==> IsAck(c) || Numbered(c, Sent(streamID, es)))
            && (forall c :: c in s.ab && Decode(c.wire).pkt.HasClose() ==>
                 c.idx < |Sent(streamID, es)| && Sent(streamID, es)[c.idx] == Fin && IsClose(c))
            && (forall k :: k in s.a.snd.unacked ==> Numbered(CopyOf(s.a.snd.unacked[k]), Sent(streamID, es)))
  {
    InitInv(streamID);
    RunTyped(Init(streamID), es);
    SentIsAccepted(Init(streamID), es);
    hide Run, Inv, Decode, Accepted;
  }

  // ---- After Close ---------------------------------------------------------------------------

  lemma ClosedStep(s: System, e: Event)
    requires Inv(s) && s.a.closed
    ensures Step(s, e).a.closed && Step(s, e).a.snd.sent == s.a.snd.sent
  {
    StepAccepts(s, e);
    InvValid(s);
    InvSwap(s);
    hide Inv, Act, WindowOpen, FreshFor, Decode;
    if e.byA {
      if Enabled(s, e.act) {
        StreamRuns.ClosedStays(s, e.act);
      }
    } else if Enabled(Swap(s), e.act) {
      OtherSideUnchanged(Swap(s), e.act);
    }
  }

  /** Once closed, an endpoint stays closed and accepts nothing more. */
  lemma {:induction false} ClosedAcceptsNothing(s: System, es: seq<Event>)
    requires Inv(s) && s.a.closed
    ensures Run(s, es).a.closed && Run(s, es).a.snd.sent == s.a.snd.sent
  {
    hide Inv, Step;
    if es != [] {
      ClosedAcceptsNothing(s, es[..|es| - 1]);
      ClosedStep(Run(s, es[..|es| - 1]), es[|es| - 1]);
    }
  }

  /** Close closes and stops the ack timer, and changes nothing else. */
  lemma CloseCloses(streamID: uint32, es: seq<Event>)
    ensures var s := Reach(streamID, es);
            var t := Step(s, Event(true, DoClose));
            && t.a.closed && t.ab == s.ab && t.a.snd == s.a.snd
            && (!s.a.closed ==> t.a.rcv == s.a.rcv.(timerArmed := false))
  {
    hide Reach;
    InvValid(Reach(streamID, es));
    hide Inv;
  }

  // ---- What is never delivered ---------------------------------------------------------------

  /** No empty payload is held. */
  ghost predicate NoneEmpty(r: ReceiverState) {
    && (forall i :: 0 <= i < |r.delivered| ==> r.delivered[i] != [])
    && (forall k :: k in r.outOfOrder ==> r.outOfOrder[k] != [])
  }

  lemma {:induction false} DrainNoneEmpty(r: ReceiverState)
    requires NoneEmpty(r)
    ensures NoneEmpty(Drain(r))
    decreases |r.outOfOrder|
  {
    hide Add;
    if r.recvNext in r.outOfOrder {
      var rest := r.outOfOrder - {r.recvNext};
      assert r.outOfOrder.Keys == rest.Keys + {r.recvNext};
      DrainNoneEmpty(Deliver(r.(outOfOrder := rest), r.outOfOrder[r.recvNext]));
    }
  }

  lemma SameNoneEmpty(r: ReceiverState, r': ReceiverState)
    requires NoneEmpty(r) && r'.delivered == r.delivered && r'.outOfOrder == r.outOfOrder
    ensures NoneEmpty(r')
  {
  }

  lemma HeldNoneEmpty(r: ReceiverState, seqNo: uint32, data: bytes)
    requires NoneEmpty(r) && data != []
    ensures NoneEmpty(Drain(Deliver(r, data))) && NoneEmpty(Buffered(r, seqNo, data))
  {
    DrainNoneEmpty(Deliver(r, data));
    hide Drain, Add;
  }

  lemma DataNoneEmpty(streamID: uint32, r: ReceiverState, seqNo: uint32, data: bytes)
    requires NoneEmpty(r) && data != []
    ensures NoneEmpty(ProcessData(streamID, r, seqNo, data).0)
  {
    HeldNoneEmpty(r, seqNo, data);
    hide Drain, Encode, SeqGreater, Add, SackBlocks, NoneEmpty, Buffered, Deliver;
    var r' := ProcessData(streamID, r, seqNo, data).0;
    if seqNo == r.recvNext {
      SameNoneEmpty(Drain(Deliver(r, data)), r');
    } else if SeqGreater(seqNo, r.recvNext) {
      SameNoneEmpty(Buffered(r, seqNo, data), r');
    } else {
      SameNoneEmpty(r, r');
    }
  }

  lemma ReceiveNoneEmpty(x: EndpointState, p: ReliablePacket, now: int)
    requires CC.Valid(x.snd.cc) && NoneEmpty(x.rcv)
    ensures NoneEmpty(Receive(x, p, now).0.rcv)
  {
    hide ProcessAck, CC.Valid, Drain, ProcessData, NoneEmpty;
    var x1 := ReceiveAck(x, p, now).0;
    if p.HasData() && |p.data| > 0 {
      DataNoneEmpty(x1.streamID, x1.rcv, p.seqNo, p.data);
    }
    DrainNoneEmpty(ReceiveData(x1, p).0.rcv);
  }

  lemma ActNoneEmpty(s: System, act: Action)
    requires CC.Valid(s.a.snd.cc) && Enabled(s, act) && NoneEmpty(s.a.rcv)
    ensures NoneEmpty(Act(s, act).a.rcv)
  {
    hide Receive, CC.Valid, DataPacket, Encode, Decode, WindowOpen, FreshFor, CheckRetransmit;
    if act.DoReceive? {
      ReceiveNoneEmpty(s.a, Decode(act.copy.wire).pkt, act.now);
    }
  }

  lemma {:induction false} RunNoneEmpty(s: System, es: seq<Event>)
    requires Inv(s) && NoneEmpty(s.a.rcv) && NoneEmpty(s.b.rcv)
    ensures NoneEmpty(Run(s, es).a.rcv) && NoneEmpty(Run(s, es).b.rcv)
  {
    hide Inv, NoneEmpty, Enabled, Act;
    if es != [] {
      var t, e := Run(s, es[..|es| - 1]), es[|es| - 1];
      RunNoneEmpty(s, es[..|es| - 1]);
      InvValid(t);
      InvSwap(t);
      if e.byA {
        if Enabled(t, e.act) {
          ActNoneEmpty(t, e.act);
          OtherSideUnchanged(t, e.act);
        }
      } else if Enabled(Swap(t), e.act) {
        ActNoneEmpty(Swap(t), e.act);
        OtherSideUnchanged(Swap(t), e.act);
      }
    }
  }

  /** An empty payload and a close spend a number that is never passed: nothing sent after either is ever
      delivered. */
  lemma NothingPassesEmptyOrClose(streamID: uint32, es: seq<Event>, i: nat)
    requires i < |Sent(streamID, es)| && (Sent(streamID, es)[i] == Payload([]) || Sent(streamID, es)[i] == Fin)
    ensures |Reach(streamID, es).b.rcv.delivered| <= i
  {
    PrefixDelivery(streamID, es);
    InitInv(streamID);
    RunNoneEmpty(Init(streamID), es);
    hide Run, Inv, Accepted;
  }
}
