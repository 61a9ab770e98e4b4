/** The two formats together, as packets travel: a reliable packet inside GRE inside IPv4
    (pkg/transport/raw.go:78-113, 162-172, pkg/shadowgre/client.go:17-24). */
module FullStack {
  import opened SeqNum
  import opened Bytes
  import opened ReliableCodec
  import Gre
  import CC = CongestionControl
  import opened SackBuilder
  import opened Sender
  import opened Receiver
  import opened Endpoint
  import opened Network
  import opened ReceiverSafety
  import opened SenderSafety
  import opened NetworkSafety
  import opened Safety

  const IP_HEADER_SIZE := 20
  const MTU := 1500
  const MAX_READ_SIZE := 1400
  /** The largest reliable header: with ACK and four SACK blocks. */
  const MAX_RELIABLE_HEADER := 46

  datatype Inbound = Delivered(pkt: ReliablePacket) | Ignored

  /** What goes after the IP header. */
  function Outgoing(key: uint32, wire: bytes): bytes {
    Gre.EncodePacket(Gre.NewPacket(key, wire))
  }

  /** The receive loop up to the stream: unparsable packets and foreign keys are ignored. */
  function Incoming(key: uint32, b: bytes): Inbound {
    match Gre.DecodePacket(b)
    case PacketError(_) => Ignored
    case ParsedPacket(g) =>
      if g.header.key != key then Ignored
      else match Decode(g.payload)
        case TooShort => Ignored
        case Parsed(p) => Delivered(p)
  }

  lemma Unwraps(key: uint32, wire: bytes)
    ensures Gre.DecodePacket(Outgoing(key, wire)) == Gre.ParsedPacket(Gre.NewPacket(key, wire))
    ensures |Outgoing(key, wire)| == 8 + |wire|
  {
    Gre.RoundTrip(Gre.NewPacket(key, wire));
    assert |Gre.EncodeHeader(Gre.NewPacket(key, wire).header)| == Gre.NewPacket(key, wire).header.HeaderSize();
  }

  /** Through the whole stack a packet arrives unchanged exactly when the keys agree and the packet
      is one the reliable format can carry. */
  lemma StackRoundTrip(key: uint32, key': uint32, p: ReliablePacket)
    ensures Incoming(key', Outgoing(key, Encode(p))) == Delivered(p) <==> key == key' && WellFormed(p)
  {
    Unwraps(key, Encode(p));
    RoundTrip(p);
    hide Encode, Decode, Outgoing, Gre.DecodePacket;
  }

  // ---- Sizes over whole runs -----------------------------------------------------------------

  predicate SmallCopy(c: Copy, m: nat) {
    |c.wire| <= MAX_RELIABLE_HEADER + m
  }

  /** No packet in flight or kept exceeds the header and m bytes of data. */
  ghost predicate Sized(x: EndpointState, out: set<Copy>, m: nat) {
    && (forall c :: c in out ==> SmallCopy(c, m))
    && (forall k :: k in x.snd.unacked ==> SmallCopy(CopyOf(x.snd.unacked[k]), m))
  }

  lemma EncodedSize(p: ReliablePacket, m: nat)
    requires WellFormed(p) && |p.data| <= m
    ensures |Encode(p)| <= MAX_RELIABLE_HEADER + m
  {
    HeaderBound(p);
  }

  lemma AckSizes(streamID: uint32, r: ReceiverState, seqNo: uint32, data: bytes, m: nat)
    requires var r' := ProcessData(streamID, r, seqNo, data).0; BufferOk(r') && BufferInWindow(r')
    ensures forall c :: c in ProcessData(streamID, r, seqNo, data).1 ==> SmallCopy(c, m)
  {
    hide Encode, Drain, SackBlocks, BufferOk, BufferInWindow, Wrap, WellFormed, SeqGreater;
    var r' := ProcessData(streamID, r, seqNo, data).0;
    PureAckAcks(streamID, r');
    SackAckAcks(streamID, r');
    EncodedSize(PureAck(streamID, r'), m);
    EncodedSize(SackAck(streamID, r'), m);
  }

  lemma FromMapSized(x: EndpointState, out: set<Copy>, x': EndpointState, more: seq<Copy>, newly: set<uint32>, m: nat)
    requires Sized(x, out, m) && FromMap(more, x.snd.unacked) && Shrinks(x.snd.unacked, x'.snd.unacked, newly)
    ensures Sized(x', out + Elements(more), m)
  {
    hide SmallCopy;
  }

  lemma ReceiveSized(s: System, c: Copy, now: int, m: nat)
    requires Inv(s) && CC.Valid(s.a.snd.cc) && Enabled(s, DoReceive(c, now)) && Sized(s.a, s.ab, m)
    ensures Sized(Act(s, DoReceive(c, now)).a, Act(s, DoReceive(c, now)).ab, m)
  {
    hide Encode, Decode, ProcessAck, ProcessData, Drain, CopyOk, Local, Direction, SmallCopy, Shrinks,
      FromMap, BufferOk, BufferInWindow;
    var p := Decode(c.wire).pkt;
    var (a1, out1) := ReceiveAck(s.a, p, now);
    if p.HasAck() {
      ProcessAckShrinks(s.a.snd, p.ack, p.sackBlocks, now);
      FromMapSized(s.a, s.ab, a1, out1, Marked(s.a.snd, p.ack, p.sackBlocks), m);
    }
    var s1 := s.(a := a1, ab := s.ab + Elements(out1));
    ReceiveAckKeepsInv(s, c, now);
    LocalCopy(s.b, s.ba, c);
    ReceiveDataKeepsInv(s1, c, p);
    var (a2, out2) := ReceiveData(a1, p);
    var s2 := s1.(a := a2, ab := s1.ab + Elements(out2));
    BufferWithinWindow(s2);
    LocalBuffer(a2, s2.ab);
    if p.HasData() && |p.data| > 0 {
      AckSizes(a1.streamID, a1.rcv, p.seqNo, p.data, m);
    }
    assert s2.ab == s.ab + Elements(out1 + out2);
  }

  lemma ActSized(s: System, act: Action, m: nat)
    requires Inv(s) && CC.Valid(s.a.snd.cc) && Enabled(s, act) && Sized(s.a, s.ab, m)
    requires act.DoSend? ==> |act.data| <= m
    ensures Sized(Act(s, act).a, Act(s, act).ab, m)
  {
    hide Encode, Decode, DataPacket, ClosePacket, PureAck, CheckRetransmit, WindowOpen, Receive, CopyOk,
      Local, Direction, WellFormed, Wrap, BufferOk, BufferInWindow;
    match act
    case DoSend(data, now) =>
      BufferWithinWindow(s);
      LocalBuffer(s.a, s.ab);
      DataPacketAcks(s.a, data);
      EncodedSize(DataPacket(s.a, data), m);
    case DoSendClose(now) =>
      ClosePacketAcks(s.a);
      CloseHasNoData(s.a);
      EncodedSize(ClosePacket(s.a), m);
    case DoReceive(c, now) =>
      ReceiveSized(s, c, now, m);
    case DoTick(now) =>
      LocalBuffer(s.a, s.ab);
      CheckRetransmitOk(s.a.snd, now, s.b.rcv);
    case DoAckTimer =>
      var r := s.a.rcv.(timerArmed := false);
      PureAckAcks(s.a.streamID, r);
      PureHasNoData(s.a.streamID, r);
      EncodedSize(PureAck(s.a.streamID, r), m);
    case _ =>
  }

  lemma CloseHasNoData(x: EndpointState)
    ensures ClosePacket(x).data == []
  {
  }

  lemma PureHasNoData(streamID: uint32, r: ReceiverState)
    ensures PureAck(streamID, r).data == []
  {
  }

  predicate SmallSends(es: seq<Event>, m: nat) {
    forall i :: 0 <= i < |es| && es[i].act.DoSend? ==> |es[i].act.data| <= m
  }

  lemma {:induction false} RunSized(s: System, es: seq<Event>, m: nat)
    requires Inv(s) && Sized(s.a, s.ab, m) && Sized(s.b, s.ba, m) && SmallSends(es, m)
    ensures Sized(Run(s, es).a, Run(s, es).ab, m) && Sized(Run(s, es).b, Run(s, es).ba, m)
  {
    hide Inv, Sized, Enabled, Act;
    if es != [] {
      var t, e := Run(s, es[..|es| - 1]), es[|es| - 1];
      RunSized(s, es[..|es| - 1], m);
      InvValid(t);
      InvSwap(t);
      if e.byA {
        if Enabled(t, e.act) {
          ActSized(t, e.act, m);
          OtherSideUnchanged(t, e.act);
        }
      } else if Enabled(Swap(t), e.act) {
        ActSized(Swap(t), e.act, m);
        OtherSideUnchanged(Swap(t), e.act);
      }
    }
  }

  /** In every run in which applications hand over at most MAX_READ_SIZE bytes at a time, every
      packet ever in flight fits the MTU once wrapped in GRE and IP, and unwraps to the packet the
      stream layer sees. */
  lemma FitsMtu(streamID: uint32, es: seq<Event>, key: uint32, c: Copy)
    requires SmallSends(es, MAX_READ_SIZE)
    requires c in Reach(streamID, es).ab || c in Reach(streamID, es).ba
    ensures IP_HEADER_SIZE + |Outgoing(key, c.wire)| <= 1474 <= MTU
    ensures Decode(c.wire).Parsed? && Incoming(key, Outgoing(key, c.wire)) == Delivered(Decode(c.wire).pkt)
  {
    InitInv(streamID);
    RunSized(Init(streamID), es, MAX_READ_SIZE);
    hide Run, Decode, Gre.DecodePacket, Outgoing, SenderOk, BufferOk, Direction, DataOk, AckPartOk;
    var s := Reach(streamID, es);
    assert Inv(s);
    assert SmallCopy(c, MAX_READ_SIZE);
    Unwraps(key, c.wire);
    if c in s.ab {
      LocalCopy(s.a, s.ab, c);
    } else {
      LocalCopy(s.b, s.ba, c);
    }
  }
}
