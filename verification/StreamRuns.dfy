/** What the modules about one mechanism say, carried over to whole runs of the two endpoints:
    delayed acknowledgments, the round-trip estimator and the congestion window of a stream. */
module StreamRuns {
  import opened SeqNum
  import opened Bytes
  import opened ReliableCodec
  import opened SackBuilder
  import CC = CongestionControl
  import RE = RttEstimation
  import opened Sender
  import opened Receiver
  import opened Endpoint
  import opened Network
  import opened ReceiverSafety
  import opened NetworkSafety
  import opened Safety

  // ---- Delayed acknowledgments ---------------------------------------------------------------

  /** Until the endpoint is closed, which stops its timer. */
  ghost predicate Acking(x: EndpointState) {
    !x.closed ==> AckOk(x.rcv)
  }

  /** An acknowledgment of the first n payloads. */
  ghost predicate Acknowledges(c: Copy, n: nat) {
    Decode(c.wire).Parsed? && Decode(c.wire).pkt.HasAck() && c.ackIdx == n
  }

  /** The acknowledged point moves only forward, and only with a packet that carries it. */
  ghost predicate AckedOnWire(x: EndpointState, x': EndpointState, out: set<Copy>) {
    && x.rcv.acked <= x'.rcv.acked
    && (x'.rcv.acked == x.rcv.acked || exists c :: c in out && Acknowledges(c, x'.rcv.acked))
  }

  lemma EncodedAcknowledges(p: ReliablePacket, idx: nat, n: nat)
    requires WellFormed(p) && p.HasAck()
    ensures Acknowledges(Copy(Encode(p), idx, n), n)
  {
    hide Decode, Encode;
    RoundTrip(p);
  }

  lemma DataAcks(streamID: uint32, r: ReceiverState, seqNo: uint32, data: bytes)
    requires BufferOk(r) && AckOk(r)
    requires BufferOk(ProcessData(streamID, r, seqNo, data).0)
             && BufferInWindow(ProcessData(streamID, r, seqNo, data).0)
    ensures var (r', out) := ProcessData(streamID, r, seqNo, data);
            && AckOk(r') && r.acked <= r'.acked
            && (r'.acked == r.acked || (out != [] && Acknowledges(out[0], r'.acked)))
  {
    hide Encode, Decode, SackBlocks, BufferOk, BufferInWindow, Wrap, WellFormed, SeqGreater, AckOk, Drain, Acknowledges;
    ProcessDataOk(streamID, r, seqNo, data);
    var (r', out) := ProcessData(streamID, r, seqNo, data);
    PureAckAcks(streamID, r');
    SackAckAcks(streamID, r');
    EncodedAcknowledges(PureAck(streamID, r'), 0, |r'.delivered|);
    EncodedAcknowledges(SackAck(streamID, r'), 0, |r'.delivered|);
    if seqNo == r.recvNext {
      DrainLeaves(Deliver(r, data));
    }
  }

  /** A packet that is not the next one is answered at once, which is how a sender learns what it
      missed when an acknowledgment was lost: with the delivered point, and for a packet ahead with
      exactly the buffer's blocks, the packet included. */
  lemma UnexpectedDataAnswered(streamID: uint32, r: ReceiverState, seqNo: uint32, data: bytes)
    requires seqNo != r.recvNext && BufferOk(r)
    requires BufferOk(ProcessData(streamID, r, seqNo, data).0)
             && BufferInWindow(ProcessData(streamID, r, seqNo, data).0)
    ensures var (r', out) := ProcessData(streamID, r, seqNo, data);
            && r'.delivered == r.delivered && r'.acked == |r.delivered| && !r'.pendingAck && |out| == 1
            && Acknowledges(out[0], |r.delivered|) && Decode(out[0].wire).pkt.ack == r.recvNext
            && (if SeqGreater(seqNo, r.recvNext)
                then Exact(Decode(out[0].wire).pkt.sackBlocks, r'.outOfOrder.Keys, r.recvNext)
                     && r'.outOfOrder == (if |r.outOfOrder| < 16384 && seqNo !in r.outOfOrder
                                          then r.outOfOrder[seqNo := data] else r.outOfOrder)
                else Decode(out[0].wire).pkt.sackBlocks == [] && r'.outOfOrder == r.outOfOrder)
  {
    hide Encode, Decode, SackBlocks, BufferOk, BufferInWindow, Wrap, WellFormed, SeqGreater, Exact, InHalfCircle;
    var (r', out) := ProcessData(streamID, r, seqNo, data);
    PureAckAcks(streamID, r');
    SackAckAcks(streamID, r');
    RoundTrip(PureAck(streamID, r'));
    RoundTrip(SackAck(streamID, r'));
    assert InHalfCircle(r'.outOfOrder.Keys, r'.recvNext) by { BufferHalf(r'); }
    SackBlocksExact(r'.outOfOrder.Keys, r'.recvNext);
  }

  lemma BufferHalf(r: ReceiverState)
    requires BufferOk(r)
    ensures InHalfCircle(r.outOfOrder.Keys, r.recvNext)
  {
  }

  lemma ReceiveAcks(s: System, c: Copy, now: int)
    requires Inv(s) && CC.Valid(s.a.snd.cc) && Enabled(s, DoReceive(c, now)) && Acking(s.a) && !s.a.closed
    ensures var t := Act(s, DoReceive(c, now)); Acking(t.a) && AckedOnWire(s.a, t.a, t.ab)
  {
    hide Encode, Decode, ProcessAck, ProcessData, CopyOk, Local, Direction, BufferOk, AckOk, BufferInWindow,
      Acknowledges, FreshFor;
    assert FreshFor(c, Decode(c.wire).pkt, s.a);
    var p := Decode(c.wire).pkt;
    var (a1, out1) := ReceiveAck(s.a, p, now);
    var s1 := s.(a := a1, ab := s.ab + Elements(out1));
    ReceiveAckKeepsInv(s, c, now);
    LocalCopy(s.b, s.ba, c);
    var (a2, out2) := ReceiveData(a1, p);
    assert FreshData(c, p, a1) by { FreshForData(c, p, s.a, a1); }
    ReceiveDataKeepsInv(s1, c, p);
    var s2 := s1.(a := a2, ab := s1.ab + Elements(out2));
    LocalBuffer(a1, s1.ab);
    LocalBuffer(a2, s2.ab);
    BufferWithinWindow(s2);
    DrainIdle(a2.rcv);
    assert s2.ab == s.ab + Elements(out1 + out2);
    if p.HasData() && |p.data| > 0 {
      DataAcks(a1.streamID, a1.rcv, p.seqNo, p.data);
      if a2.rcv.acked != s.a.rcv.acked {
        assert out2[0] in s2.ab;
      }
    }
  }

  ghost predicate FreshData(c: Copy, p: ReliablePacket, x: EndpointState) {
    p.HasData() ==> |x.rcv.delivered| <= c.idx + HALF
  }

  lemma FreshForData(c: Copy, p: ReliablePacket, x: EndpointState, x': EndpointState)
    requires FreshFor(c, p, x) && x'.rcv == x.rcv
    ensures FreshData(c, p, x')
  {
  }

  lemma ActAcks(s: System, act: Action)
    requires Inv(s) && CC.Valid(s.a.snd.cc) && Enabled(s, act) && Acking(s.a) && !s.a.closed
    ensures var t := Act(s, act); Acking(t.a) && AckedOnWire(s.a, t.a, t.ab)
  {
    hide Encode, Decode, CheckRetransmit, WindowOpen, Receive, CopyOk, Local, Direction, WellFormed, Wrap,
      BufferOk, BufferInWindow, Acknowledges, SackBlocks, DataPacket;
    match act
    case DoSend(data, now) =>
      BufferWithinWindow(s);
      LocalBuffer(s.a, s.ab);
      DataPacketAcks(s.a, data);
      if s.a.rcv.pendingAck {
        EncodedAcknowledges(DataPacket(s.a, data), |s.a.snd.sent|, |s.a.rcv.delivered|);
      }
      assert Endpoint.Send(s.a, data, now).1[0] in Act(s, act).ab;
    case DoSendClose(now) =>
      ClosePacketAcks(s.a);
      EncodedAcknowledges(ClosePacket(s.a), |s.a.snd.sent|, |s.a.rcv.delivered|);
      assert Endpoint.SendClose(s.a, now).1[0] in Act(s, act).ab;
    case DoReceive(c, now) =>
      ReceiveAcks(s, c, now);
    case DoAckTimer =>
      var r := s.a.rcv.(timerArmed := false);
      PureAckAcks(s.a.streamID, r);
      EncodedAcknowledges(PureAck(s.a.streamID, r), 0, |r.delivered|);
      if s.a.rcv.pendingAck {
        assert AckTimer(s.a).1[0] in Act(s, act).ab;
      }
    case _ =>
  }

  lemma ClosedStays(s: System, act: Action)
    requires CC.Valid(s.a.snd.cc) && Enabled(s, act)
    ensures s.a.closed ==> Act(s, act).a.closed
  {
    hide ProcessAck, ProcessData, Decode, CheckRetransmit, Drain;
  }

  lemma StepAcks(s: System, e: Event)
    requires Inv(s) && Acking(s.a) && Acking(s.b)
    ensures Acking(Step(s, e).a) && Acking(Step(s, e).b)
    ensures !s.b.closed ==> AckedOnWire(s.b, Step(s, e).b, Step(s, e).ba)
  {
    hide Inv, Act, Enabled, Acknowledges, AckOk;
    InvValid(s);
    InvSwap(s);
    if e.byA {
      if Enabled(s, e.act) {
        OtherSideUnchanged(s, e.act);
        ClosedStays(s, e.act);
        if !s.a.closed {
          ActAcks(s, e.act);
        }
      }
    } else if Enabled(Swap(s), e.act) {
      OtherSideUnchanged(Swap(s), e.act);
      ClosedStays(Swap(s), e.act);
      if !s.b.closed {
        ActAcks(Swap(s), e.act);
      }
    }
  }

  lemma {:induction false} RunAcks(streamID: uint32, es: seq<Event>)
    ensures Acking(Reach(streamID, es).a) && Acking(Reach(streamID, es).b)
  {
    hide Inv, Step, Acking;
    InitInv(streamID);
    if es == [] {
      NewAcking(streamID);
    } else {
      RunAcks(streamID, es[..|es| - 1]);
      StepAcks(Reach(streamID, es[..|es| - 1]), es[|es| - 1]);
    }
  }

  lemma NewAcking(streamID: uint32)
    ensures Acking(NewEndpoint(streamID))
  {
    NewReceiverOk();
  }

  /** Section 4.2.3.2 of RFC 1122 in every run of the two endpoints: whatever endpoint b has
      delivered it has acknowledged on the wire, or its timer is armed to do so; at most three
      in-order packets wait; and the acknowledged point moves only forward, with a packet in flight
      that carries it. */
  lemma AcknowledgmentsGetOut(streamID: uint32, es: seq<Event>, e: Event)
    ensures var s := Reach(streamID, es);
            var t := Step(s, e);
            !s.b.closed ==>
              && (s.b.rcv.acked == |s.b.rcv.delivered| || (s.b.rcv.pendingAck && s.b.rcv.timerArmed))
              && s.b.rcv.sinceAck <= 3
              && AckedOnWire(s.b, t.b, t.ba)
  {
    RunAcks(streamID, es);
    hide Reach, Step, Inv, BufferOk, Acknowledges, AckedOnWire;
    StepAcks(Reach(streamID, es), e);
  }

  // ---- The estimator and the window as driven by the stream ----------------------------------

  function SampleEvents(xs: seq<int>): seq<RE.RttEvent> {
    seq(|xs|, i requires 0 <= i < |xs| => RE.Sample(xs[i] as real))
  }

  lemma {:induction false} SamplesFold(h: seq<RE.RttEvent>, xs: seq<int>)
    ensures RE.UpdatedAll(RE.After(h), xs) == RE.After(h + SampleEvents(xs))
  {
    hide RE.Updated;
    if xs == [] {
      assert h + SampleEvents(xs) == h;
    } else {
      var init := xs[..|xs| - 1];
      SamplesFold(h, init);
      assert SampleEvents(xs) == SampleEvents(init) + [RE.Sample(xs[|xs| - 1] as real)];
      assert (h + SampleEvents(xs))[..|h| + |init|] == h + SampleEvents(init);
    }
  }

  lemma AfterMore(h: seq<RE.RttEvent>, e: RE.RttEvent)
    ensures RE.After(h + [e]) == if e.Sample? then RE.Updated(RE.After(h), e.ms) else RE.BackedOff(RE.After(h))
  {
    assert (h + [e])[..|h|] == h;
  }

  /** A duplicate acknowledgment signals a loss: by SACK blocks, rate-limited, or by count. */
  predicate DuplicateLoss(s: SenderState, blocks: seq<SackBlock>, now: int) {
    if blocks != [] then now - s.lastSackTime >= SackInterval(s.rtt)
    else s.dupAckCount + 1 >= FAST_RETRANSMIT_COUNT && s.sendBase in s.unacked && !s.unacked[s.sendBase].sacked
  }

  /** A new acknowledgment signals a loss. */
  predicate SelectiveLoss(s: SenderState, ack: uint32, blocks: seq<SackBlock>, now: int) {
    blocks != [] && now - s.lastSackTime >= SackInterval(s.rtt)
      && Lost(s.unacked, ack, SackSpan(blocks, ack), blocks) != []
  }

  function LossEvent(s: SenderState, now: int, signalled: bool): seq<CC.CongestionEvent> {
    if signalled then [CC.Loss(now, CC.LossIntervalNs(s.rtt))] else []
  }

  /** What one acknowledgment does to the window: at most one loss signal, then the advance. */
  function AckWindowEvents(s: SenderState, ack: uint32, blocks: seq<SackBlock>, now: int): seq<CC.CongestionEvent> {
    if ack == s.sendBase then LossEvent(s, now, DuplicateLoss(s, blocks, now))
    else
      var c := Cumulative(s, ack, now);
      LossEvent(c, now, SelectiveLoss(c, ack, blocks, now)) +
      [CC.Acked(|Scanned(s.unacked, s.sendBase, AckSpan(ack, s.sendBase))|)]
  }

  function AckRttEvents(s: SenderState, ack: uint32, now: int): seq<RE.RttEvent> {
    if ack == s.sendBase then [] else SampleEvents(Samples(s.unacked, s.sendBase, AckSpan(ack, s.sendBase), now))
  }

  /** What one action does to the estimator and to the window. */
  function RttEvents(x: EndpointState, act: Action): seq<RE.RttEvent> {
    match act
    case DoReceive(c, now) =>
      if Decode(c.wire).Parsed? && Decode(c.wire).pkt.HasAck()
      then AckRttEvents(x.snd, Decode(c.wire).pkt.ack, now) else []
    case DoTick(now) => if Due(x.snd, now) == {} then [] else [RE.Timeout]
    case _ => []
  }

  function WindowEvents(x: EndpointState, act: Action): seq<CC.CongestionEvent> {
    match act
    case DoReceive(c, now) =>
      if Decode(c.wire).Parsed? && Decode(c.wire).pkt.HasAck()
      then AckWindowEvents(x.snd, Decode(c.wire).pkt.ack, Decode(c.wire).pkt.sackBlocks, now) else []
    case DoTick(now) => LossEvent(x.snd, now, Due(x.snd, now) != {})
    case _ => []
  }

  lemma RunWindow(c: CC.Congestion, e: CC.CongestionEvent, e': CC.CongestionEvent)
    requires CC.Valid(c)
    ensures CC.Run(c, []) == c && CC.Run(c, [e]) == CC.Step(c, e) && CC.Run(c, [e] + [e']) == CC.Step(CC.Step(c, e), e')
  {
    hide CC.Step, CC.Valid;
    assert [e][..0] == [];
    assert ([e] + [e'])[..1] == [e];
  }

  lemma DuplicateDrives(s: SenderState, blocks: seq<SackBlock>, now: int)
    requires CC.Valid(s.cc)
    ensures var s' := DuplicateAck(s, blocks, now).0;
            s'.rtt == s.rtt && s'.cc == CC.Run(s.cc, LossEvent(s, now, DuplicateLoss(s, blocks, now)))
  {
    hide SackSpan, NewlySacked, Lost, Copies, SackInterval, CC.LossIntervalNs, CC.OnLoss, CC.Valid, MarkSacked,
      MarkResent;
    RunWindow(s.cc, CC.Loss(now, CC.LossIntervalNs(s.rtt)), CC.Acked(0));
  }

  lemma LossThenAck(c: CC.Congestion, now: int, interval: int, signalled: bool, pkts: int)
    requires CC.Valid(c)
    ensures var after := if signalled then CC.OnLoss(c, now, interval) else c;
            && CC.Valid(after)
            && CC.OnAckAdvance(after, pkts)
               == CC.Run(c, (if signalled then [CC.Loss(now, interval)] else []) + [CC.Acked(pkts)])
  {
    RunWindow(c, CC.Loss(now, interval), CC.Acked(pkts));
    RunWindow(c, CC.Acked(pkts), CC.Acked(pkts));
    assert [] + [CC.Acked(pkts)] == [CC.Acked(pkts)];
    hide CC.OnAckAdvance, CC.Run;
  }

  lemma SelectiveWindow(s: SenderState, ack: uint32, blocks: seq<SackBlock>, now: int)
    ensures var s' := Selective(s, ack, blocks, now).0;
            && s'.rtt == s.rtt
            && s'.cc == if SelectiveLoss(s, ack, blocks, now)
                        then CC.OnLoss(s.cc, now, CC.LossIntervalNs(s.rtt)) else s.cc
  {
    hide SackSpan, NewlySacked, Lost, Copies, SackInterval, CC.LossIntervalNs, CC.OnLoss, MarkSacked, MarkResent;
  }

  lemma SelectiveDrives(s: SenderState, ack: uint32, blocks: seq<SackBlock>, now: int, pkts: int)
    requires CC.Valid(s.cc)
    ensures var s' := Selective(s, ack, blocks, now).0;
            && s'.rtt == s.rtt && CC.Valid(s'.cc)
            && CC.OnAckAdvance(s'.cc, pkts) ==
               CC.Run(s.cc, LossEvent(s, now, SelectiveLoss(s, ack, blocks, now)) + [CC.Acked(pkts)])
  {
    hide Selective, SelectiveLoss, CC.LossIntervalNs, CC.OnAckAdvance, CC.OnLoss, CC.Run, CC.Valid;
    SelectiveWindow(s, ack, blocks, now);
    LossThenAck(s.cc, now, CC.LossIntervalNs(s.rtt), SelectiveLoss(s, ack, blocks, now), pkts);
  }

  lemma AckDrives(s: SenderState, ack: uint32, blocks: seq<SackBlock>, now: int, h: seq<RE.RttEvent>)
    requires CC.Valid(s.cc) && s.rtt == RE.After(h)
    ensures var s' := ProcessAck(s, ack, blocks, now).0;
            && s'.rtt == RE.After(h + AckRttEvents(s, ack, now))
            && s'.cc == CC.Run(s.cc, AckWindowEvents(s, ack, blocks, now))
  {
    hide DuplicateAck, Selective, Scanned, AckSpan, Samples, Sub, Wrap, SeqGreater, CC.OnAckAdvance, CC.Run,
      CC.Valid, DuplicateLoss, SelectiveLoss, RE.After, RE.UpdatedAll, LossEvent;
    if ack == s.sendBase {
      DuplicateDrives(s, blocks, now);
      assert h + [] == h;
    } else {
      var c := Cumulative(s, ack, now);
      SamplesFold(h, Samples(s.unacked, s.sendBase, AckSpan(ack, s.sendBase), now));
      SelectiveDrives(c, ack, blocks, now, |Scanned(s.unacked, s.sendBase, AckSpan(ack, s.sendBase))|);
    }
  }

  lemma TickDrives(s: SenderState, now: int, h: seq<RE.RttEvent>)
    requires CC.Valid(s.cc) && s.rtt == RE.After(h)
    ensures var s' := CheckRetransmit(s, now);
            && s'.rtt == RE.After(h + (if Due(s, now) == {} then [] else [RE.Timeout]))
            && s'.cc == CC.Run(s.cc, LossEvent(s, now, Due(s, now) != {}))
  {
    hide Due, GivenUp, CC.LossIntervalNs, RE.BackedOff, CC.OnLoss, CC.Valid;
    assert h + [] == h;
    AfterMore(h, RE.Timeout);
    RunWindow(s.cc, CC.Loss(now, CC.LossIntervalNs(s.rtt)), CC.Acked(0));
  }

  lemma ActDrives(s: System, act: Action, h: seq<RE.RttEvent>)
    requires Inv(s) && CC.Valid(s.a.snd.cc) && Enabled(s, act) && s.a.snd.rtt == RE.After(h)
    ensures var x := Act(s, act).a.snd;
            x.rtt == RE.After(h + RttEvents(s.a, act)) && x.cc == CC.Run(s.a.snd.cc, WindowEvents(s.a, act))
  {
    hide Inv, Encode, Decode, ProcessAck, ProcessData, CheckRetransmit, Drain, AckRttEvents, AckWindowEvents,
      Due, LossEvent, RE.After, DataPacket, WindowOpen, CC.Valid;
    assert h + [] == h;
    assert CC.Run(s.a.snd.cc, []) == s.a.snd.cc;
    hide CC.Run;
    match act
    case DoReceive(c, now) =>
      var p := Decode(c.wire).pkt;
      if p.HasAck() {
        AckDrives(s.a.snd, p.ack, p.sackBlocks, now, h);
      }
    case DoTick(now) => TickDrives(s.a.snd, now, h);
    case _ =>
  }

  // ---- Over whole runs -----------------------------------------------------------------------

  ghost function RttHistory(s: System, es: seq<Event>): seq<RE.RttEvent>
    requires Inv(s)
  {
    if es == [] then []
    else
      var t, e := Run(s, es[..|es| - 1]), es[|es| - 1];
      RttHistory(s, es[..|es| - 1]) + (if e.byA && Enabled(t, e.act) then RttEvents(t.a, e.act) else [])
  }

  ghost function WindowHistory(s: System, es: seq<Event>): seq<CC.CongestionEvent>
    requires Inv(s)
  {
    if es == [] then []
    else
      var t, e := Run(s, es[..|es| - 1]), es[|es| - 1];
      WindowHistory(s, es[..|es| - 1]) + (if e.byA && Enabled(t, e.act) then WindowEvents(t.a, e.act) else [])
  }

  lemma {:induction false} RunWindowAppend(c: CC.Congestion, es: seq<CC.CongestionEvent>, more: seq<CC.CongestionEvent>)
    requires CC.Valid(c)
    ensures CC.Run(c, es + more) == CC.Run(CC.Run(c, es), more)
  {
    hide CC.Step, CC.Valid;
    if more == [] {
      assert es + more == es;
    } else {
      var init := more[..|more| - 1];
      RunWindowAppend(c, es, init);
      assert (es + more)[..|es + more| - 1] == es + init;
    }
  }

  lemma StepDrives(s: System, e: Event, h: seq<RE.RttEvent>)
    requires Inv(s) && CC.Valid(s.a.snd.cc) && s.a.snd.rtt == RE.After(h)
    ensures var x := Step(s, e).a.snd;
            var live := e.byA && Enabled(s, e.act);
            && x.rtt == RE.After(h + (if live then RttEvents(s.a, e.act) else []))
            && x.cc == CC.Run(s.a.snd.cc, if live then WindowEvents(s.a, e.act) else [])
  {
    hide Inv, Act, Enabled, RttEvents, WindowEvents, RE.After, CC.Valid;
    InvValid(s);
    InvSwap(s);
    assert h + [] == h;
    if e.byA {
      if Enabled(s, e.act) {
        ActDrives(s, e.act, h);
      }
    } else if Enabled(Swap(s), e.act) {
      OtherSideUnchanged(Swap(s), e.act);
    }
  }

  lemma AppendMore(h: seq<RE.RttEvent>, g: seq<RE.RttEvent>, more: seq<RE.RttEvent>)
    ensures h + g + more == h + (g + more)
  {
  }

  /** The stream drives its estimator and its window by events of exactly the kinds the two modules
      quantify over, so what they prove about every history holds of every stream. */
  lemma {:induction false} HistoriesDrive(s: System, es: seq<Event>, h: seq<RE.RttEvent>)
    requires Inv(s) && CC.Valid(s.a.snd.cc) && s.a.snd.rtt == RE.After(h)
    ensures var x := Run(s, es).a.snd;
            && x.rtt == RE.After(h + RttHistory(s, es))
            && x.cc == CC.Run(s.a.snd.cc, WindowHistory(s, es))
  {
    hide Inv, Step, Enabled, RttEvents, WindowEvents, RE.After, CC.Valid;
    if es == [] {
      assert h + [] == h;
    } else {
      var init, e := es[..|es| - 1], es[|es| - 1];
      var t := Run(s, init);
      HistoriesDrive(s, init, h);
      InvValid(t);
      StepDrives(t, e, h + RttHistory(s, init));
      var live := e.byA && Enabled(t, e.act);
      AppendMore(h, RttHistory(s, init), if live then RttEvents(t.a, e.act) else []);
      RunWindowAppend(s.a.snd.cc, WindowHistory(s, init), if live then WindowEvents(t.a, e.act) else []);
    }
  }

  lemma InitDrives(streamID: uint32)
    ensures var s := Init(streamID); Inv(s) && CC.Valid(s.a.snd.cc) && s.a.snd.rtt == RE.After([])
  {
    InitInv(streamID);
  }

  /** What the estimator has been fed since both endpoints were fresh. */
  ghost function RttSoFar(streamID: uint32, es: seq<Event>): seq<RE.RttEvent> {
    InitInv(streamID);
    RttHistory(Init(streamID), es)
  }

  /** In every reachable state the timeout is between 100 ms and 4 s. */
  lemma RtoInStream(streamID: uint32, es: seq<Event>)
    ensures 100 <= Reach(streamID, es).a.snd.rtt.RTO() <= 4000
  {
    hide Inv, Run;
    InitDrives(streamID);
    HistoriesDrive(Init(streamID), es, []);
    RE.RtoWithinBounds([] + RttHistory(Init(streamID), es));
  }

  function ClockOf(act: Action): int {
    match act
    case DoReceive(_, now) => now
    case DoTick(now) => now
    case _ => 0
  }

  predicate ReadsClock(e: Event) {
    e.byA && (e.act.DoReceive? || e.act.DoTick?)
  }

  /** Endpoint a's clock does not go back and stays in an interval. */
  predicate ClockWithin(es: seq<Event>, from: int, to: int) {
    && (forall i :: 0 <= i < |es| && ReadsClock(es[i]) ==> from <= ClockOf(es[i].act) <= to)
    && (forall i, j :: 0 <= i < j < |es| && ReadsClock(es[i]) && ReadsClock(es[j]) ==>
          ClockOf(es[i].act) <= ClockOf(es[j].act))
  }

  /** The shortest rate-limit interval with samples of at least lo ms: lo itself, or the smallest
      timeout before there is a sample. */
  function ShortestIntervalNs(lo: real): (ns: int)
    ensures lo >= 1.0 ==> ns > 0
  {
    if lo < 100.0 then (lo * 1000000.0).Floor else 100_000_000
  }

  lemma IntervalAtLeast(h: seq<RE.RttEvent>, lo: real, hi: real)
    requires 0.0 < lo <= hi && RE.SamplesWithin(h, lo, hi)
    ensures CC.LossIntervalNs(RE.After(h)) >= ShortestIntervalNs(lo)
  {
    hide RE.After;
    RE.EstimatesWithinSamples(h, lo, hi);
    RE.RtoWithinBounds(h);
    var r := RE.After(h);
    if r.hasRTT {
      assert r.srtt * 1000000.0 >= lo * 1000000.0;
    }
  }

  lemma SamplesWithinParts(h: seq<RE.RttEvent>, more: seq<RE.RttEvent>, lo: real, hi: real)
    requires RE.SamplesWithin(h + more, lo, hi)
    ensures RE.SamplesWithin(h, lo, hi)
  {
    forall i | 0 <= i < |h| && h[i].Sample? ensures lo <= h[i].ms <= hi {
      assert (h + more)[i] == h[i];
    }
  }

  /** Loss signals of one action carry its clock reading and an interval no shorter than the samples allow. */
  predicate LossesAre(events: seq<CC.CongestionEvent>, now: int, shortest: int) {
    && (forall i :: 0 <= i < |events| && events[i].Loss? ==> events[i].now == now && events[i].intervalNs >= shortest)
    && (forall i, j :: 0 <= i < j < |events| ==> !(events[i].Loss? && events[j].Loss?))
  }

  lemma AckLosses(s: SenderState, ack: uint32, blocks: seq<SackBlock>, now: int, h: seq<RE.RttEvent>, lo: real,
        hi: real)
    requires s.rtt == RE.After(h) && 0.0 < lo <= hi && RE.SamplesWithin(h + AckRttEvents(s, ack, now), lo, hi)
    ensures LossesAre(AckWindowEvents(s, ack, blocks, now), now, ShortestIntervalNs(lo))
  {
    hide Scanned, AckSpan, Samples, Sub, Wrap, DuplicateLoss, SelectiveLoss, RE.After, RE.UpdatedAll,
      CC.LossIntervalNs, ShortestIntervalNs, RE.SamplesWithin;
    if ack == s.sendBase {
      assert h + [] == h;
      IntervalAtLeast(h, lo, hi);
    } else {
      SamplesFold(h, Samples(s.unacked, s.sendBase, AckSpan(ack, s.sendBase), now));
      IntervalAtLeast(h + AckRttEvents(s, ack, now), lo, hi);
    }
  }

  lemma ActLosses(x: EndpointState, act: Action, h: seq<RE.RttEvent>, lo: real, hi: real)
    requires x.snd.rtt == RE.After(h) && 0.0 < lo <= hi && RE.SamplesWithin(h + RttEvents(x, act), lo, hi)
    ensures act.DoReceive? || act.DoTick? ==> LossesAre(WindowEvents(x, act), ClockOf(act), ShortestIntervalNs(lo))
    ensures !(act.DoReceive? || act.DoTick?) ==> WindowEvents(x, act) == []
  {
    hide Decode, AckRttEvents, AckWindowEvents, Due, RE.After, CC.LossIntervalNs, ShortestIntervalNs, RE.SamplesWithin;
    match act
    case DoReceive(c, now) =>
      if Decode(c.wire).Parsed? && Decode(c.wire).pkt.HasAck() {
        AckLosses(x.snd, Decode(c.wire).pkt.ack, Decode(c.wire).pkt.sackBlocks, now, h, lo, hi);
      }
    case DoTick(now) =>
      SamplesWithinParts(h, RttEvents(x, act), lo, hi);
      IntervalAtLeast(h, lo, hi);
    case _ =>
  }

  lemma LossesAppend(h: seq<CC.CongestionEvent>, more: seq<CC.CongestionEvent>, from: int, now: int, to: int,
        shortest: int)
    requires CC.LossesWithin(h, from, now, shortest) && LossesAre(more, now, shortest) && from <= now <= to
    ensures CC.LossesWithin(h + more, from, to, shortest)
  {
  }

  lemma LossesWiden(h: seq<CC.CongestionEvent>, from: int, now: int, to: int, shortest: int)
    requires CC.LossesWithin(h, from, now, shortest) && now <= to
    ensures CC.LossesWithin(h + [], from, to, shortest)
  {
    assert h + [] == h;
  }

  lemma {:induction false} HistoryLosses(s: System, es: seq<Event>, h: seq<RE.RttEvent>, from: int, to: int,
        lo: real, hi: real)
    requires Inv(s) && CC.Valid(s.a.snd.cc) && s.a.snd.rtt == RE.After(h) && 0.0 < lo <= hi
    requires ClockWithin(es, from, to) && RE.SamplesWithin(h + RttHistory(s, es), lo, hi)
    ensures CC.LossesWithin(WindowHistory(s, es), from, to, ShortestIntervalNs(lo))
  {
    hide Inv, Step, Enabled, RttEvents, WindowEvents, RE.After, CC.Valid, ShortestIntervalNs,
      RE.SamplesWithin, CC.LossesWithin, LossesAre, Run, ClockOf;
    if es == [] {
      NoLosses(from, to, ShortestIntervalNs(lo));
    } else {
      var init, e := es[..|es| - 1], es[|es| - 1];
      var t := Run(s, init);
      var live := e.byA && Enabled(t, e.act);
      var more := if live then RttEvents(t.a, e.act) else [];
      AppendMore(h, RttHistory(s, init), more);
      SamplesWithinParts(h + RttHistory(s, init), more, lo, hi);
      HistoriesDrive(s, init, h);
      if live {
        ActLosses(t.a, e.act, h + RttHistory(s, init), lo, hi);
      }
      if ReadsClock(e) {
        var now := ClockOf(e.act);
        assert ClockWithin(init, from, now);
        HistoryLosses(s, init, h, from, now, lo, hi);
        if live {
          LossesAppend(WindowHistory(s, init), WindowEvents(t.a, e.act), from, now, to, ShortestIntervalNs(lo));
        } else {
          LossesWiden(WindowHistory(s, init), from, now, to, ShortestIntervalNs(lo));
        }
      } else {
        assert ClockWithin(init, from, to);
        HistoryLosses(s, init, h, from, to, lo, hi);
        LossesWiden(WindowHistory(s, init), from, to, to, ShortestIntervalNs(lo));
      }
    }
  }

  lemma NoLosses(from: int, to: int, shortest: int)
    ensures CC.LossesWithin([], from, to, shortest)
  {
  }

  /** At most so many halvings, never below the floor. */
  predicate HalvedAtMost(before: CC.Congestion, after: CC.Congestion, times: nat) {
    after.cwnd >= CC.Max(CC.MIN_CWND, before.cwnd / CC.Pow2(times))
  }

  lemma QuotientNat(t: nat, s: int)
    requires s > 0
    ensures t / s >= 0
  {
  }

  function RoundTripsIn(from: int, to: int, lo: real): nat
    requires from <= to && lo >= 1.0
  {
    QuotientNat(to - from, ShortestIntervalNs(lo));
    (to - from) / ShortestIntervalNs(lo)
  }

  /** From any reachable state on, for as long as the clock stays in [from, to] and round trips of at
      least lo ms are measured: the window is at worst halved once at the start and once per round
      trip, whatever the network loses, duplicates or reorders. */
  lemma WindowOverTime(streamID: uint32, es: seq<Event>, later: seq<Event>, from: int, to: int, lo: real, hi: real)
    requires from <= to && ClockWithin(later, from, to) && 1.0 <= lo <= hi
    requires RE.SamplesWithin(RttSoFar(streamID, es) + RttHistory(Reach(streamID, es), later), lo, hi)
    ensures var s, t := Reach(streamID, es), Run(Reach(streamID, es), later);
            HalvedAtMost(s.a.snd.cc, t.a.snd.cc, 1 + RoundTripsIn(from, to, lo))
  {
    hide Inv, Run, RE.After, CC.LossesWithin, RE.SamplesWithin, ClockWithin, CC.Max, CC.Pow2, CC.Run,
      CC.Valid, ShortestIntervalNs, RttHistory, WindowHistory;
    InitDrives(streamID);
    var h := RttSoFar(streamID, es);
    HistoriesDrive(Init(streamID), es, []);
    assert [] + h == h;
    var s := Reach(streamID, es);
    InvValid(s);
    HistoriesDrive(s, later, h);
    HistoryLosses(s, later, h, from, to, lo, hi);
    CC.WindowOverInterval(s.a.snd.cc, WindowHistory(s, later), from, to, ShortestIntervalNs(lo));
  }
}
