/** Why retention needs its hypothesis: one acknowledgment behind sendBase makes the sender forget
    payloads that nobody has, and unless a copy is still in flight such a payload is never delivered
    in any continuation. A run from two fresh endpoints reaches that point. */
module Stranding {
  import opened SeqNum
  import opened Bytes
  import opened ReliableCodec
  import opened SackBuilder
  import CC = CongestionControl
  import opened Sender
  import opened Receiver
  import opened Endpoint
  import opened Network
  import opened ReceiverSafety
  import opened SenderSafety
  import opened NetworkSafety
  import opened Safety
  import opened Retention
  import opened Progress

  /** A copy of payload i. */
  ghost predicate Bears(c: Copy, i: nat) {
    Decode(c.wire).Parsed? && Decode(c.wire).pkt.HasData() && c.idx == i
  }

  /** Payload i is missing, the sender no longer keeps it, and no copy of it is in flight. */
  ghost predicate Stranded(s: System, i: nat) {
    && Missing(s.a.snd, s.b.rcv, i)
    && (forall k :: k in s.a.snd.unacked ==> s.a.snd.unacked[k].idx != i)
    && (forall c :: c in s.ab ==> !Bears(c, i))
  }

  // ---- Once stranded, always stranded --------------------------------------------------------

  lemma AcksBearNothing(streamID: uint32, r: ReceiverState, seqNo: uint32, data: bytes, i: nat)
    requires BufferOk(r) && BufferInWindow(ProcessData(streamID, r, seqNo, data).0)
             && BufferOk(ProcessData(streamID, r, seqNo, data).0)
    ensures forall c :: c in ProcessData(streamID, r, seqNo, data).1 ==> !Bears(c, i)
  {
    hide Encode, Decode, Drain, SackBlocks, BufferOk, BufferInWindow, Wrap, WellFormed, SeqGreater;
    var r' := ProcessData(streamID, r, seqNo, data).0;
    PureAckAcks(streamID, r');
    SackAckAcks(streamID, r');
    RoundTrip(PureAck(streamID, r'));
    RoundTrip(SackAck(streamID, r'));
  }

  /** The data part of a packet makes endpoint a send acknowledgments only. */
  lemma DataPartKeepsStranded(s: System, c: Copy, p: ReliablePacket, i: nat)
    requires Inv(s) && Decode(c.wire) == Parsed(p) && CopyOk(c, s.b) && Stranded(s, i)
    requires p.HasData() ==> |s.a.rcv.delivered| <= c.idx + HALF
    ensures var (a', out) := ReceiveData(s.a, p);
            Stranded(s.(a := a', ab := s.ab + Elements(out)), i) && BufferOk(a'.rcv)
  {
    hide Decode, ProcessData, CopyOk, Received, SenderOk, BufferOk, Matches, Wrap, BufferInWindow;
    var (a', out) := ReceiveData(s.a, p);
    ReceiveDataKeepsInv(s, c, p);
    var s' := s.(a := a', ab := s.ab + Elements(out));
    LocalBuffer(s.a, s.ab);
    LocalBuffer(a', s'.ab);
    if p.HasData() && |p.data| > 0 {
      BufferWithinWindow(s');
      AcksBearNothing(s.a.streamID, s.a.rcv, p.seqNo, p.data, i);
    }
  }

  lemma ReceiveKeepsStranded(s: System, c: Copy, now: int, i: nat)
    requires Inv(s) && CC.Valid(s.a.snd.cc) && Enabled(s, DoReceive(c, now))
    requires var (a1, out1) := ReceiveAck(s.a, Decode(c.wire).pkt, now);
             Stranded(s.(a := a1, ab := s.ab + Elements(out1)), i)
    ensures Stranded(Act(s, DoReceive(c, now)), i)
  {
    hide Decode, ReceiveAck, ReceiveData, CopyOk, Received, Local, Direction, BufferOk;
    var p := Decode(c.wire).pkt;
    var (a1, out1) := ReceiveAck(s.a, p, now);
    ReceiveAckKeepsInv(s, c, now);
    var s1 := s.(a := a1, ab := s.ab + Elements(out1));
    LocalCopy(s.b, s.ba, c);
    DataPartKeepsStranded(s1, c, p, i);
    var (a2, out2) := ReceiveData(a1, p);
    DrainIdle(a2.rcv);
    var s2 := s1.(a := a2, ab := s1.ab + Elements(out2));
    assert s2.ab == s.ab + Elements(out1 + out2);
    assert Act(s, DoReceive(c, now)) == s2;
  }

  /** A step of endpoint a neither keeps nor sends payload i again. */
  lemma ActAKeepsStranded(s: System, act: Action, i: nat)
    requires Inv(s) && CC.Valid(s.a.snd.cc) && Enabled(s, act) && Stranded(s, i)
    ensures Stranded(Act(s, act), i)
  {
    hide Encode, Decode, DataPacket, ClosePacket, CheckRetransmit, WindowOpen, ProcessAck, ReceiveData,
      CopyOk, Received, SenderOk, BufferOk, Matches, Wrap, Receiver.Drain, PureAck;
    match act
    case DoReceive(c, now) =>
      var p := Decode(c.wire).pkt;
      if p.HasAck() {
        ProcessAckShrinks(s.a.snd, p.ack, p.sackBlocks, now);
      }
      var (a1, out1) := ReceiveAck(s.a, p, now);
      assert Stranded(s.(a := a1, ab := s.ab + Elements(out1)), i);
      ReceiveKeepsStranded(s, c, now, i);
    case DoTick(now) =>
      CheckRetransmitOk(s.a.snd, now, s.b.rcv);
    case DoAckTimer =>
      PureAckAcks(s.a.streamID, s.a.rcv.(timerArmed := false));
      RoundTrip(PureAck(s.a.streamID, s.a.rcv.(timerArmed := false)));
    case _ =>
  }

  /** A step of endpoint b cannot receive what is not in flight. */
  lemma ActBKeepsStranded(s: System, act: Action, i: nat)
    requires Inv(s) && Inv(Swap(s)) && CC.Valid(s.b.snd.cc) && Enabled(Swap(s), act) && Stranded(s, i)
    ensures Stranded(Swap(Act(Swap(s), act)), i)
  {
    hide Encode, Decode, DataPacket, ClosePacket, CheckRetransmit, WindowOpen, ProcessAck, ProcessData,
      CopyOk, SenderOk, BufferOk, Matches, Wrap, Receiver.Drain, PureAck;
    OtherSideUnchanged(Swap(s), act);
    match act
    case DoReceive(c, now) =>
      var p := Decode(c.wire).pkt;
      var (b1, out1) := ReceiveAck(s.b, p, now);
      var (b2, out2) := ReceiveData(b1, p);
      assert b1.rcv == s.b.rcv && b1.streamID == s.b.streamID;
      assert BufferOk(s.b.rcv);
      if p.HasData() && |p.data| > 0 {
        assert CopyOk(c, s.a);
        assert Bears(c, c.idx);
        CopyInWindow(c, p, s.a, s.b.rcv);
        DataGainsOnly(s.b.streamID, s.b.rcv, p.seqNo, p.data, c.idx);
        ProcessDataKeepsBuffer(s.b.streamID, s.b.rcv, p.seqNo, p.data);
        assert GainsOnly(s.b.rcv, b2.rcv, c.idx);
      }
      DrainIdle(b2.rcv);
      hide Received;
      assert !Received(b2.rcv, i);
    case _ =>
  }

  lemma CopyInWindow(c: Copy, p: ReliablePacket, x: EndpointState, r: ReceiverState)
    requires CopyOk(c, x) && Decode(c.wire) == Parsed(p) && p.HasData()
    requires SenderOk(x.snd) && x.snd.base <= |r.delivered|
    ensures p.seqNo == Wrap(c.idx) && c.idx < |r.delivered| + HALF
  {
    hide Decode, Wrap, AckPartOk;
    PayloadBound(x.snd, c.idx);
  }

  lemma StepKeepsStranded(s: System, e: Event, i: nat)
    requires Inv(s) && Stranded(s, i)
    ensures Stranded(Step(s, e), i)
  {
    hide Inv, Act, Enabled, Stranded;
    InvValid(s);
    InvSwap(s);
    if e.byA {
      if Enabled(s, e.act) {
        ActAKeepsStranded(s, e.act, i);
      }
    } else if Enabled(Swap(s), e.act) {
      ActBKeepsStranded(s, e.act, i);
    }
  }

  /** A stranded payload, and with it everything after, is never delivered. */
  lemma {:induction false} StrandedForever(s: System, i: nat, es: seq<Event>)
    requires Inv(s) && Stranded(s, i)
    ensures Stranded(Run(s, es), i) && |Run(s, es).b.rcv.delivered| <= i
  {
    hide Inv, Step;
    if es != [] {
      StrandedForever(s, i, es[..|es| - 1]);
      StepKeepsStranded(Run(s, es[..|es| - 1]), es[|es| - 1], i);
    }
  }

  // ---- How a stale acknowledgment strands ----------------------------------------------------

  /** After a stale acknowledgment the sender neither keeps nor retransmits anything missing. */
  lemma StaleAckForgets(s: SenderState, ackIdx: nat, blocks: seq<SackBlock>, now: int, r: ReceiverState, i: int)
    requires SenderOk(s) && Direction(s, r) && AckInRange(s, ackIdx) && ackIdx < s.base && Missing(s, r, i)
    ensures var (s', out) := ProcessAck(s, Wrap(ackIdx), blocks, now);
            && Missing(s', r, i)
            && (forall k :: k in s'.unacked ==> s'.unacked[k].idx != i)
            && (forall c :: c in out ==> c.idx != i)
  {
    hide Wrap, Sub, ProcessAck, Matches, Scanned, AckSpan, Received;
    var (s', out) := ProcessAck(s, Wrap(ackIdx), blocks, now);
    StaleAckDrops(s, ackIdx, blocks, now, r, i);
    ProcessAckShrinks(s, Wrap(ackIdx), blocks, now);
    AckCompare(s, ackIdx);
    NewAckSendsKept(s, Wrap(ackIdx), blocks, now);
    forall k | k in s.unacked ensures s.unacked[k].idx == i ==> k == Wrap(i) {
      assert KeyOk(s, k);
    }
    var rest := s.unacked - Scanned(s.unacked, s.sendBase, AckSpan(Wrap(ackIdx), s.sendBase));
    assert Wrap(i) !in rest;
    assert forall k :: k in rest ==> CopyOf(rest[k]).idx != i;
  }

  /** In any state, receiving an acknowledgment behind sendBase strands every missing payload of
      which no copy is in flight. */
  lemma StaleAckStrands(s: System, c: Copy, now: int, i: nat)
    requires Inv(s) && Enabled(s, DoReceive(c, now))
    requires Decode(c.wire).pkt.HasAck() && c.ackIdx < s.a.snd.base
    requires Missing(s.a.snd, s.b.rcv, i) && forall c' :: c' in s.ab ==> !Bears(c', i)
    ensures Stranded(Step(s, Event(true, DoReceive(c, now))), i)
  {
    InvValid(s);
    hide Decode, ProcessAck, CopyOk, Received, SenderOk, BufferOk, Matches, Wrap, Act, BlocksOk;
    var p := Decode(c.wire).pkt;
    AckInFlight(s, c);
    DeliveredInWindow(s.a.snd, s.b.rcv);
    StaleAckForgets(s.a.snd, c.ackIdx, p.sackBlocks, now, s.b.rcv, i);
    var (a1, out1) := ReceiveAck(s.a, p, now);
    assert Stranded(s.(a := a1, ab := s.ab + Elements(out1)), i);
    ReceiveKeepsStranded(s, c, now, i);
  }

  /** A payload in the window that arrives is held. */
  lemma ArrivalHeld(streamID: uint32, r: ReceiverState, i: nat, data: bytes)
    requires BufferOk(r) && |r.outOfOrder| < MAX_OUT_OF_ORDER_BUFFER && |r.delivered| <= i < |r.delivered| + HALF
    ensures Received(ProcessData(streamID, r, Wrap(i), data).0, i)
  {
    BufferCounter(r);
    SignedDistance(i, |r.delivered|);
    InOrderDelivers(streamID, r, data);
    hide Wrap, Sub, BufferOk, AckCopy, Drain;
    if Wrap(i) == r.recvNext {
      WrapInjective(i, |r.delivered|);
    }
  }

  lemma CopyHeld(s: System, c: Copy, i: nat)
    requires Inv(s) && c in s.ab && Bears(c, i) && FreshFor(c, Decode(c.wire).pkt, s.b)
    requires Missing(s.a.snd, s.b.rcv, i) && s.a.snd.sent[i].data != []
    ensures Received(Step(s, Event(false, DoReceive(c, 0))).b.rcv, i)
  {
    hide Encode, Wrap, Received, Local, ReceiveAck, ProcessData, Matches, BufferOk, SenderOk, Step;
    InvValid(s);
    InvSwap(s);
    LocalCopy(s.a, s.ab, c);
    LocalBuffer(s.a, s.ab);
    LocalBuffer(s.b, s.ba);
    var p := Decode(c.wire).pkt;
    MissingInWindow(s.a.snd, s.b.rcv, i);
    ConformingSenderFillsLess(s.a.snd, s.b.rcv);
    ArrivalHeld(s.b.streamID, s.b.rcv, i, p.data);
    ProcessDataKeepsBuffer(s.b.streamID, s.b.rcv, p.seqNo, p.data);
    AckLeavesReceiver(s.b, p, 0);
    var b1 := ReceiveAck(s.b, p, 0).0;
    DataStep(b1, p);
    DrainIdle(ReceiveData(b1, p).0.rcv);
    StepByB(s, DoReceive(c, 0));
  }

  /** Whether a missing payload can ever be received after an acknowledgment behind sendBase: if and
      only if a copy of it is in flight, given that copies in flight are not too old to arrive. */
  lemma StaleAckStrandsExactly(s: System, c: Copy, now: int, i: nat)
    requires Inv(s) && Enabled(s, DoReceive(c, now))
    requires Decode(c.wire).pkt.HasAck() && c.ackIdx < s.a.snd.base
    requires Missing(s.a.snd, s.b.rcv, i) && s.a.snd.sent[i].data != []
    requires forall c' :: c' in s.ab && Bears(c', i) ==> FreshFor(c', Decode(c'.wire).pkt, s.b)
    ensures (exists more: seq<Event> :: Received(Run(Step(s, Event(true, DoReceive(c, now))), more).b.rcv, i))
       <==> exists c' :: c' in s.ab && Bears(c', i)
  {
    hide Inv, Step, Run, Enabled, Decode, Received, FreshFor, Bears, CC.Valid;
    var e := Event(true, DoReceive(c, now));
    var t := Step(s, e);
    if c' :| c' in s.ab && Bears(c', i) {
      StaleStepKeeps(s, c, now);
      MissingStays(s.a.snd, t.a.snd, s.b.rcv, i);
      CopyHeld(t, c', i);
      RunOne(t, Event(false, DoReceive(c', 0)));
      assert Received(Run(t, [Event(false, DoReceive(c', 0))]).b.rcv, i);
    } else {
      StaleAckStrands(s, c, now, i);
      forall more: seq<Event> ensures !Received(Run(t, more).b.rcv, i) {
        StrandedForever(t, i, more);
        StrandedIsMissing(Run(t, more), i);
      }
    }
  }

  lemma StrandedIsMissing(s: System, i: nat)
    requires Stranded(s, i)
    ensures !Received(s.b.rcv, i)
  {
    hide Received, Bears;
  }

  lemma MissingStays(x: SenderState, x': SenderState, r: ReceiverState, i: nat)
    requires Missing(x, r, i) && x'.sent == x.sent
    ensures Missing(x', r, i)
  {
    hide Received;
  }

  /** Receiving takes nothing out of flight and leaves the other side alone. */
  lemma StaleStepKeeps(s: System, c: Copy, now: int)
    requires Inv(s) && Enabled(s, DoReceive(c, now))
    ensures var t := Step(s, Event(true, DoReceive(c, now)));
            t.b == s.b && s.ab <= t.ab && t.a.snd.sent == s.a.snd.sent
  {
    InvValid(s);
    StepAccepts(s, Event(true, DoReceive(c, now)));
    hide Inv, Step, Receive, Decode, FreshFor;
    StepByA(s, DoReceive(c, now));
  }

  lemma GiveUpForgets(s: SenderState, now: int, k: uint32, r: ReceiverState)
    requires SenderOk(s) && k in GivenUp(s, now) && Missing(s, r, s.unacked[k].idx)
    ensures var i, s' := s.unacked[k].idx, CheckRetransmit(s, now);
            && Missing(s', r, i)
            && (forall k' :: k' in s'.unacked ==> s'.unacked[k'].idx != i)
            && (forall c :: c in RetransmittedCopies(s, now) ==> c.idx != i)
  {
    hide Wrap, Received, TimedOut, CC.OnLoss, CC.Valid;
    forall k' | k' in s.unacked ensures s.unacked[k'].idx == s.unacked[k].idx ==> k' == k {
      assert KeyOk(s, k') && KeyOk(s, k);
    }
  }

  lemma StepByA(s: System, act: Action)
    requires Inv(s) && CC.Valid(s.a.snd.cc) && Enabled(s, act)
    ensures Step(s, Event(true, act)) == Act(s, act)
  {
    hide Inv, Act, Enabled;
  }

  lemma StepByB(s: System, act: Action)
    requires Inv(s) && CC.Valid(s.b.snd.cc) && Enabled(Swap(s), act)
    ensures Step(s, Event(false, act)) == Swap(Act(Swap(s), act))
  {
    hide Inv, Act, Enabled;
  }

  lemma StepTick(s: System, now: int)
    requires Inv(s)
    ensures Step(s, Event(true, DoTick(now))) == s.(a := Tick(s.a, now).0, ab := s.ab + Tick(s.a, now).1)
  {
    hide Inv, Tick, Step;
    InvValid(s);
    StepByA(s, DoTick(now));
  }

  /** Giving a packet up strands it in the same way. */
  lemma GiveUpStrands(s: System, now: int, k: uint32)
    requires Inv(s) && k in GivenUp(s.a.snd, now)
    requires Missing(s.a.snd, s.b.rcv, s.a.snd.unacked[k].idx)
    requires forall c' :: c' in s.ab ==> !Bears(c', s.a.snd.unacked[k].idx)
    ensures Stranded(Step(s, Event(true, DoTick(now))), s.a.snd.unacked[k].idx)
  {
    assert SenderOk(s.a.snd) by { LocalBuffer(s.a, s.ab); }
    hide Inv, Step, Decode, CheckRetransmit, RetransmittedCopies, Missing, GivenUp, SenderOk;
    StepTick(s, now);
    GiveUpForgets(s.a.snd, now, k, s.b.rcv);
  }

  // ---- A run that gets there -----------------------------------------------------------------

  /** n payloads have gone across and been acknowledged; nothing is outstanding. */
  ghost predicate Quiet(s: System, n: nat) {
    && |s.a.snd.sent| == s.a.snd.base == |s.b.rcv.delivered| == n && s.a.snd.unacked == map[]
    && s.b.rcv.outOfOrder == map[] && !s.b.rcv.pendingAck && s.b.rcv.recvCounter == n
    && !s.a.rcv.pendingAck && !s.a.closed
  }

  /** An acknowledgment of the first n payloads is in flight. */
  ghost predicate AckAt(s: System, n: nat) {
    exists c :: c in s.ba && c.ackIdx == n && Decode(c.wire).Parsed? && Decode(c.wire).pkt.HasAck()
      && !Decode(c.wire).pkt.HasData()
  }

  lemma SendFromQuiet(s: System, n: nat, data: bytes) returns (e: Event, c: Copy)
    requires Inv(s) && Quiet(s, n)
    ensures var t := Step(s, e);
            && e == Event(true, DoSend(data, 0))
            && t.a.snd.sent == s.a.snd.sent + [Payload(data)] && t.a.snd.base == n && t.a.snd.unacked.Keys == {Wrap(n)}
            && t.a.rcv == s.a.rcv && t.a.closed == s.a.closed && t.b == s.b && t.ba == s.ba && t.ab == s.ab + {c}
            && c.idx == n && Decode(c.wire) == Parsed(ReliablePacket(s.a.streamID, FLAG_DATA, Wrap(n), 0, [], data))
  {
    InvValid(s);
    e := Event(true, DoSend(data, 0));
    SignedDistance(n, n);
    hide Decode, Encode, Wrap, Sub;
    var p := ReliablePacket(s.a.streamID, FLAG_DATA, Wrap(n), 0, [], data);
    assert DataPacket(s.a, data) == p;
    RoundTrip(p);
    c := Copy(Encode(p), n, |s.a.rcv.delivered|);
    assert Elements([c]) == {c};
  }

  lemma FirstDelivered(streamID: uint32, r: ReceiverState, n: nat, data: bytes)
    requires BufferOk(r) && n <= 2
    requires |r.delivered| == n && r.outOfOrder == map[] && !r.pendingAck && r.recvCounter == n
    ensures var (r', out) := ProcessData(streamID, r, Wrap(n), data);
            && out == [] && |r'.delivered| == n + 1 && r'.outOfOrder == map[] && r'.pendingAck && r'.timerArmed
            && r'.recvCounter == n + 1
  {
    assert Add(r.recvCounter, 1) == n + 1;
    hide InHalfCircle, SackBlocks;
  }

  lemma ReceiveDataOnly(x: EndpointState, p: ReliablePacket)
    requires CC.Valid(x.snd.cc) && p.flags == FLAG_DATA && p.data != []
    ensures var (r', out) := ProcessData(x.streamID, x.rcv, p.seqNo, p.data);
            Receive(x, p, 0) == (x.(rcv := r'), out)
  {
    hide ProcessData, ProcessAck, CC.Valid;
    assert [] + ProcessData(x.streamID, x.rcv, p.seqNo, p.data).1 == ProcessData(x.streamID, x.rcv, p.seqNo, p.data).1;
  }

  lemma StepReceiveData(s: System, c: Copy, p: ReliablePacket)
    requires Inv(s) && c in s.ab && Decode(c.wire) == Parsed(p) && p.flags == FLAG_DATA && p.data != []
    requires |s.b.rcv.delivered| <= c.idx + HALF
    ensures var (r', out) := ProcessData(s.b.streamID, s.b.rcv, p.seqNo, p.data);
            Step(s, Event(false, DoReceive(c, 0))) == s.(b := s.b.(rcv := r'), ba := s.ba + Elements(out))
  {
    hide Inv, Decode, ProcessData, Receive, Step;
    InvValid(s);
    StepByB(s, DoReceive(c, 0));
    ReceiveDataOnly(s.b, p);
  }

  lemma DeliverFirst(s: System, n: nat, c: Copy, p: ReliablePacket) returns (e: Event)
    requires Inv(s) && n <= 2
    requires |s.b.rcv.delivered| == n && s.b.rcv.outOfOrder == map[] && !s.b.rcv.pendingAck && s.b.rcv.recvCounter == n
    requires c in s.ab && c.idx == n && Decode(c.wire) == Parsed(p)
    requires p.flags == FLAG_DATA && p.data != [] && p.seqNo == Wrap(n)
    ensures var t := Step(s, e);
            && t.a == s.a && t.ba == s.ba && t.ab == s.ab
            && |t.b.rcv.delivered| == n + 1 && t.b.rcv.outOfOrder == map[] && t.b.rcv.pendingAck && t.b.rcv.timerArmed
            && t.b.rcv.recvCounter == n + 1
  {
    LocalBuffer(s.b, s.ba);
    hide Inv, Step, Decode, Wrap, ProcessData, BufferOk;
    e := Event(false, DoReceive(c, 0));
    FirstDelivered(s.b.streamID, s.b.rcv, n, p.data);
    StepReceiveData(s, c, p);
    assert s.ba + Elements([]) == s.ba;
  }

  lemma AckByTimer(s: System, n: nat) returns (e: Event)
    requires Inv(s) && |s.b.rcv.delivered| == n && s.b.rcv.pendingAck && s.b.rcv.timerArmed
    ensures var t := Step(s, e);
            && t.a == s.a && t.ab == s.ab && s.ba <= t.ba && AckAt(t, n)
            && t.b.rcv.delivered == s.b.rcv.delivered && t.b.rcv.outOfOrder == s.b.rcv.outOfOrder
            && t.b.rcv.recvCounter == s.b.rcv.recvCounter && !t.b.rcv.pendingAck
  {
    InvValid(s);
    InvSwap(s);
    e := Event(false, DoAckTimer);
    var r := s.b.rcv.(timerArmed := false);
    var p := PureAck(s.b.streamID, r);
    PureAckAcks(s.b.streamID, r);
    RoundTrip(p);
    hide Decode, Encode, Wrap, Local, Direction, WellFormed;
    var c := AckCopy(p, r);
    assert c in Step(s, e).ba;
  }

  lemma AckTakesLast(s: SenderState, blocks: seq<SackBlock>)
    requires SenderOk(s) && s.unacked.Keys == {Wrap(s.base)}
    ensures var s' := ProcessAck(s, Wrap(s.base + 1), blocks, 0).0;
            s'.sent == s.sent && s'.base == s.base + 1 && s'.unacked == map[]
  {
    hide Wrap, Sub, ProcessAck, Scanned, AckSpan, SeqGreater, PayloadsInWindow;
    AckCompare(s, s.base + 1);
    ProcessAckShrinks(s, Wrap(s.base + 1), blocks, 0);
    ScanIsPrefix(s, s.base + 1, Wrap(s.base));
    var s' := ProcessAck(s, Wrap(s.base + 1), blocks, 0).0;
    assert s.unacked[Wrap(s.base)].idx == s.base by { KeyOffset(s, Wrap(s.base)); SelfOffset(Wrap(s.base)); }
    assert s'.unacked.Keys == {};
  }

  lemma StepReceiveAck(s: System, c: Copy)
    requires Inv(s) && c in s.ba && Decode(c.wire).Parsed? && !Decode(c.wire).pkt.HasData()
             && Decode(c.wire).pkt.HasAck()
    requires s.a.snd.base <= c.ackIdx + HALF && CC.Valid(s.a.snd.cc)
    ensures var p := Decode(c.wire).pkt;
            var (snd, out) := ProcessAck(s.a.snd, p.ack, p.sackBlocks, 0);
            Step(s, Event(true, DoReceive(c, 0))) == s.(a := s.a.(snd := snd), ab := s.ab + Elements(out))
  {
    LocalBuffer(s.a, s.ab);
    hide Inv, Decode, ProcessAck, CC.Valid;
    DrainIdle(s.a.rcv);
    var p := Decode(c.wire).pkt;
    var out := ProcessAck(s.a.snd, p.ack, p.sackBlocks, 0).1;
    assert out + [] == out;
  }

  lemma AckEmpties(s: System, n: nat) returns (e: Event)
    requires Inv(s) && AckAt(s, n + 1) && s.a.snd.base == n && s.a.snd.unacked.Keys == {Wrap(n)}
    ensures var t := Step(s, e);
            && t.a.snd.sent == s.a.snd.sent && t.a.snd.base == n + 1 && t.a.snd.unacked == map[]
            && t.a.rcv == s.a.rcv && t.a.closed == s.a.closed && t.b == s.b && s.ba == t.ba
  {
    hide Step, Decode, Wrap, ProcessAck, SenderOk, BufferOk, Local, Direction, BlocksOk, Matches, CC.Valid;
    LocalBuffer(s.a, s.ab);
    var c :| c in s.ba && c.ackIdx == n + 1 && Decode(c.wire).Parsed? && Decode(c.wire).pkt.HasAck()
      && !Decode(c.wire).pkt.HasData();
    e := Event(true, DoReceive(c, 0));
    AckInFlight(s, c);
    StepReceiveAck(s, c);
    AckTakesLast(s.a.snd, Decode(c.wire).pkt.sackBlocks);
  }

  /** One payload across and acknowledged. */
  lemma Round(s: System, n: nat) returns (es: seq<Event>)
    requires Inv(s) && Quiet(s, n) && n <= 2
    ensures Quiet(Run(s, es), n + 1) && AckAt(Run(s, es), n + 1) && s.ba <= Run(s, es).ba
  {
    hide Inv, Step, Wrap, Decode;
    var e1, c := SendFromQuiet(s, n, [7]);
    var s1 := Step(s, e1);
    var e2 := DeliverFirst(s1, n, c, ReliablePacket(s.a.streamID, FLAG_DATA, Wrap(n), 0, [], [7]));
    var s2 := Step(s1, e2);
    var e3 := AckByTimer(s2, n + 1);
    var s3 := Step(s2, e3);
    var e4 := AckEmpties(s3, n);
    RunOne(s, e1);
    RunSnoc(s, [e1], e2);
    RunSnoc(s, [e1] + [e2], e3);
    RunSnoc(s, [e1] + [e2] + [e3], e4);
    es := [e1] + [e2] + [e3] + [e4];
  }

  lemma AckStays(s: System, t: System, n: nat)
    requires AckAt(s, n) && s.ba <= t.ba
    ensures AckAt(t, n)
  {
    hide Decode;
  }

  lemma NoCopyBeyond(s: System, n: nat)
    requires Inv(s) && |s.a.snd.sent| <= n
    ensures forall c :: c in s.ab ==> !Bears(c, n)
  {
    hide Decode, AckPartOk, SenderOk, BufferOk;
  }

  /** The hypothesis of retention is needed: some run from two fresh endpoints, in which a duplicate of
      an acknowledgment arrives late and one packet is lost, strands a payload. */
  lemma StaleAckRun(streamID: uint32) returns (es: seq<Event>, i: nat)
    ensures Stranded(Reach(streamID, es), i)
    ensures forall more: seq<Event> :: |Run(Reach(streamID, es), more).b.rcv.delivered| <= i
  {
    InitInv(streamID);
    var s0 := Init(streamID);
    assert Run(s0, []) == s0;
    assert Quiet(s0, 0);
    hide Inv, Step, Wrap, Decode, Quiet, AckAt;
    var r1 := Round(s0, 0);
    var s1 := Run(s0, r1);
    var r2 := Round(s1, 1);
    var s2 := Run(s1, r2);
    AckStays(s1, s2, 1);
    var e3, c := SendAndLose(s2, 2);
    var s3 := Run(s2, e3);
    var e4 := StaleArrives(s3, 2);
    RunAppend(s0, r1, r2);
    RunAppend(s0, r1 + r2, e3);
    RunAppend(s0, r1 + r2 + e3, [e4]);
    RunOne(s3, e4);
    es, i := r1 + r2 + e3 + [e4], 2;
    forall more: seq<Event> ensures |Run(Reach(streamID, es), more).b.rcv.delivered| <= i {
      StrandedForever(Reach(streamID, es), i, more);
    }
  }

  lemma StepDrop(s: System, c: Copy)
    requires Inv(s) && c in s.ab
    ensures Step(s, Event(true, DoDrop(c))) == s.(ab := s.ab - {c})
  {
    InvValid(s);
    hide Inv;
  }

  /** Send payload n and lose its only copy. */
  lemma SendAndLose(s: System, n: nat) returns (es: seq<Event>, c: Copy)
    requires Inv(s) && Quiet(s, n) && AckAt(s, 1)
    ensures var t := Run(s, es);
            && t.a.snd.base == n && Missing(t.a.snd, t.b.rcv, n) && AckAt(t, 1)
            && forall c' :: c' in t.ab ==> !Bears(c', n)
  {
    hide Wrap, Decode, Inv, Step, AckAt, Bears, Run;
    var e1, c1 := SendFromQuiet(s, n, [7]);
    NoCopyBeyond(s, n);
    c := c1;
    var s1 := Step(s, e1);
    var e2 := Event(true, DoDrop(c));
    StepDrop(s1, c);
    RunOne(s, e1);
    RunSnoc(s, [e1], e2);
    es := [e1] + [e2];
    AckStays(s, Run(s, es), 1);
  }

  lemma StaleArrives(s: System, n: nat) returns (e: Event)
    requires Inv(s) && s.a.snd.base == n && 1 < n < HALF && Missing(s.a.snd, s.b.rcv, n) && AckAt(s, 1)
    requires forall c' :: c' in s.ab ==> !Bears(c', n)
    ensures Stranded(Step(s, e), n)
  {
    var c :| c in s.ba && c.ackIdx == 1 && Decode(c.wire).Parsed? && Decode(c.wire).pkt.HasAck()
      && !Decode(c.wire).pkt.HasData();
    e := Event(true, DoReceive(c, 0));
    StaleAckStrands(s, c, 0, n);
  }

  lemma {:induction false} RunAppend(s: System, es: seq<Event>, more: seq<Event>)
    requires Inv(s)
    ensures Run(s, es + more) == Run(Run(s, es), more)
  {
    hide Inv, Step;
    if more == [] {
      assert es + more == es;
    } else {
      var init := more[..|more| - 1];
      RunAppend(s, es, init);
      assert (es + more)[..|es + more| - 1] == es + init;
    }
  }
}
