/** The guarantees that hold in every reachable state. A run is any finite sequence of events of
    either endpoint and of the network; an event that is not enabled changes nothing. Runs may be
    of any length, past 2^32 packets as well. */
module Safety {
  import opened SeqNum
  import opened Bytes
  import opened ReliableCodec
  import CC = CongestionControl
  import opened Sender
  import opened Receiver
  import opened Endpoint
  import opened Network
  import opened ReceiverSafety
  import opened SenderSafety
  import opened NetworkSafety

  lemma InvValid(s: System)
    requires Inv(s)
    ensures CC.Valid(s.a.snd.cc) && CC.Valid(s.b.snd.cc)
  {
    hide CopyOk;
  }

  lemma InvSwap(s: System)
    ensures Inv(Swap(s)) <==> Inv(s)
  {
    hide Local, Direction;
  }

  /** One event of the system. */
  ghost function Step(s: System, e: Event): (s': System)
    requires Inv(s)
    ensures Inv(s')
  {
    InvValid(s);
    InvSwap(s);
    if e.byA then
      if Enabled(s, e.act) then
        ActKeepsInv(s, e.act);
        Act(s, e.act)
      else s
    else
      if Enabled(Swap(s), e.act) then
        ActKeepsInv(Swap(s), e.act);
        InvSwap(Act(Swap(s), e.act));
        Swap(Act(Swap(s), e.act))
      else s
  }

  ghost function Run(s: System, es: seq<Event>): (s': System)
    requires Inv(s)
    ensures Inv(s')
  {
    if es == [] then s else Step(Run(s, es[..|es| - 1]), es[|es| - 1])
  }

  lemma InitInv(streamID: uint32)
    ensures Inv(Init(streamID))
  {
    hide Decode;
    NewReceiverOk();
  }

  /** The state a history leads to from two fresh endpoints. */
  ghost function Reach(streamID: uint32, es: seq<Event>): (s: System)
    ensures Inv(s)
  {
    InitInv(streamID);
    Run(Init(streamID), es)
  }

  function Mirror(e: Event): Event {
    Event(!e.byA, e.act)
  }

  function MirrorAll(es: seq<Event>): seq<Event> {
    seq(|es|, i requires 0 <= i < |es| => Mirror(es[i]))
  }

  lemma StepSwap(s: System, e: Event)
    requires Inv(s) && Inv(Swap(s))
    ensures Step(Swap(s), Mirror(e)) == Swap(Step(s, e))
  {
    hide Inv, Act, Enabled;
  }

  /** The two directions are symmetric. */
  lemma {:induction false} ReachSwap(streamID: uint32, es: seq<Event>)
    ensures Reach(streamID, MirrorAll(es)) == Swap(Reach(streamID, es))
  {
    hide Inv, Step;
    InitInv(streamID);
    if es != [] {
      var init := es[..|es| - 1];
      ReachSwap(streamID, init);
      assert MirrorAll(es)[..|es| - 1] == MirrorAll(init);
      InvSwap(Reach(streamID, init));
      StepSwap(Reach(streamID, init), es[|es| - 1]);
    }
  }

  // ---- Delivery ------------------------------------------------------------------------------

  /** The payloads and closes endpoint a accepted in a run, in order. */
  ghost function Accepted(s: System, es: seq<Event>): seq<Entry>
    requires Inv(s)
  {
    if es == [] then []
    else
      var t, e := Run(s, es[..|es| - 1]), es[|es| - 1];
      Accepted(s, es[..|es| - 1]) +
      (if !e.byA || !Enabled(t, e.act) then []
       else match e.act
         case DoSend(data, _) => [Payload(data)]
         case DoSendClose(_) => [Fin]
         case _ => [])
  }

  lemma StepAccepts(s: System, e: Event)
    requires Inv(s)
    ensures Step(s, e).a.snd.sent == s.a.snd.sent +
              (if !e.byA || !Enabled(s, e.act) then []
               else match e.act
                 case DoSend(data, _) => [Payload(data)]
                 case DoSendClose(_) => [Fin]
                 case _ => [])
  {
    hide Encode, Decode, DataPacket, ProcessData, Drain, CheckRetransmit, WindowOpen, FreshFor, ProcessAck, Wrap;
    InvValid(s);
    InvSwap(s);
    if e.byA && Enabled(s, e.act) && e.act.DoReceive? {
      var p := Decode(e.act.copy.wire).pkt;
      if p.HasAck() {
        ProcessAckShrinks(s.a.snd, p.ack, p.sackBlocks, e.act.now);
      }
    } else if e.byA && e.act.DoTick? {
      TickKeepsSent(s.a.snd, e.act.now);
    }
  }

  lemma TickKeepsSent(s: SenderState, now: int)
    ensures CheckRetransmit(s, now).sent == s.sent
  {
  }

  /** The history variable `sent` is what the run accepted, nothing else. */
  lemma {:induction false} SentIsAccepted(s: System, es: seq<Event>)
    requires Inv(s)
    ensures Run(s, es).a.snd.sent == s.a.snd.sent + Accepted(s, es)
  {
    hide Inv, Step, Enabled;
    if es != [] {
      SentIsAccepted(s, es[..|es| - 1]);
      StepAccepts(Run(s, es[..|es| - 1]), es[|es| - 1]);
    }
  }

  /** What endpoint a's application sent in a run from two fresh endpoints. */
  ghost function Sent(streamID: uint32, es: seq<Event>): seq<Entry> {
    InitInv(streamID);
    Accepted(Init(streamID), es)
  }

  ghost predicate PrefixOf(delivered: seq<bytes>, sent: seq<Entry>) {
    |delivered| <= |sent| && forall i :: 0 <= i < |delivered| ==> sent[i] == Payload(delivered[i])
  }

  lemma PrefixDeliveryToB(streamID: uint32, es: seq<Event>)
    ensures PrefixOf(Reach(streamID, es).b.rcv.delivered, Sent(streamID, es))
  {
    InitInv(streamID);
    SentIsAccepted(Init(streamID), es);
    hide Step, CopyOk, SenderOk, BufferOk;
    var s := Reach(streamID, es);
    assert Inv(s);
    assert s.a.snd.sent == Sent(streamID, es);
  }

  /** End-to-end safety, in every run and in both directions: what an application has received is
      exactly the first n payloads the other application sent, in order, each once. */
  lemma PrefixDelivery(streamID: uint32, es: seq<Event>)
    ensures PrefixOf(Reach(streamID, es).b.rcv.delivered, Sent(streamID, es))
    ensures PrefixOf(Reach(streamID, es).a.rcv.delivered, Sent(streamID, MirrorAll(es)))
  {
    hide Reach, Sent;
    PrefixDeliveryToB(streamID, es);
    PrefixDeliveryToB(streamID, MirrorAll(es));
    ReachSwap(streamID, es);
  }

  // ---- No reneging ---------------------------------------------------------------------------

  /** A step never gives up an index once delivered or buffered, nor takes back a delivery. */
  lemma ActKeepsHoldings(s: System, act: Action)
    requires Inv(s) && CC.Valid(s.a.snd.cc) && Enabled(s, act)
    ensures Keeps(s.a.rcv, Act(s, act).a.rcv)
  {
    hide Encode, Decode, DataPacket, Keeps, CheckRetransmit, WindowOpen, ProcessAck, ReceiveData, CopyOk, Local,
      Direction;
    match act
    case DoSend(data, now) => SameHoldings(s.a.rcv, Act(s, act).a.rcv, []);
    case DoSendClose(now) => SameHoldings(s.a.rcv, Act(s, act).a.rcv, []);
    case DoReceive(c, now) =>
      var p := Decode(c.wire).pkt;
      var (a1, out1) := ReceiveAck(s.a, p, now);
      ReceiveAckKeepsInv(s, c, now);
      var s1 := s.(a := a1, ab := s.ab + Elements(out1));
      LocalCopy(s.b, s.ba, c);
      ReceiveDataKeepsInv(s1, c, p);
      LocalBuffer(ReceiveData(a1, p).0, s1.ab + Elements(ReceiveData(a1, p).1));
      DrainIdle(ReceiveData(a1, p).0.rcv);
    case DoTick(now) => KeepsSelf(s.a.rcv);
    case DoAckTimer => SameHoldings(s.a.rcv, Act(s, act).a.rcv, []);
    case DoClose => SameHoldings(s.a.rcv, Act(s, act).a.rcv, []);
    case DoDrop(c) => KeepsSelf(s.a.rcv);
  }

  lemma OtherSideUnchanged(s: System, act: Action)
    requires CC.Valid(s.a.snd.cc) && Enabled(s, act)
    ensures Act(s, act).b == s.b && Act(s, act).ba == s.ba
  {
    hide Endpoint.Send, Endpoint.SendClose, Receive, Tick, AckTimer, Endpoint.Close;
  }

  lemma StepKeepsHoldings(s: System, e: Event)
    requires Inv(s)
    ensures Keeps(s.a.rcv, Step(s, e).a.rcv) && Keeps(s.b.rcv, Step(s, e).b.rcv)
  {
    hide Inv, Act, Keeps, Enabled;
    InvValid(s);
    InvSwap(s);
    KeepsSelf(s.a.rcv);
    KeepsSelf(s.b.rcv);
    if e.byA {
      if Enabled(s, e.act) {
        ActKeepsHoldings(s, e.act);
        OtherSideUnchanged(s, e.act);
      }
    } else if Enabled(Swap(s), e.act) {
      ActKeepsHoldings(Swap(s), e.act);
      OtherSideUnchanged(Swap(s), e.act);
    }
  }

  lemma {:induction false} RunKeepsHoldings(s: System, es: seq<Event>)
    requires Inv(s)
    ensures Keeps(s.a.rcv, Run(s, es).a.rcv) && Keeps(s.b.rcv, Run(s, es).b.rcv)
  {
    hide Inv, Step, Keeps;
    if es == [] {
      KeepsSelf(s.a.rcv);
      KeepsSelf(s.b.rcv);
    } else {
      var t := Run(s, es[..|es| - 1]);
      RunKeepsHoldings(s, es[..|es| - 1]);
      StepKeepsHoldings(t, es[|es| - 1]);
      KeepsTransitive(s.a.rcv, t.a.rcv, Step(t, es[|es| - 1]).a.rcv);
      KeepsTransitive(s.b.rcv, t.b.rcv, Step(t, es[|es| - 1]).b.rcv);
    }
  }

  /** Section 8 of RFC 2018. In every reachable state, and ever after: a packet the sender has
      marked as selectively acknowledged is delivered or buffered at the receiver; and so is every
      index reported by any SACK block still in flight. Skipping marked packets on a timeout
      therefore never strands data. */
  lemma NoReneging(streamID: uint32, es: seq<Event>, later: seq<Event>)
    ensures var s := Reach(streamID, es);
            var t := Run(s, later);
            && (forall k :: k in s.a.snd.unacked && s.a.snd.unacked[k].sacked ==>
               Received(t.b.rcv, s.a.snd.unacked[k].idx))
            && (forall c :: c in s.ba ==>
                 && Decode(c.wire).Parsed?
                 && (Decode(c.wire).pkt.HasAck() ==> BlocksOk(Decode(c.wire).pkt.sackBlocks, c.ackIdx, t.b.rcv)))
  {
    var s := Reach(streamID, es);
    var t := Run(s, later);
    RunKeepsHoldings(s, later);
    hide Decode, Keeps, Received, BlocksOk, SenderOk, BufferOk, Matches, Run, Reach;
    SackedStays(s.a.snd, s.b.rcv, t.b.rcv);
    forall c | c in s.ba
      ensures Decode(c.wire).Parsed? &&
              (Decode(c.wire).pkt.HasAck() ==> BlocksOk(Decode(c.wire).pkt.sackBlocks, c.ackIdx, t.b.rcv))
    {
      assert CopyOk(c, s.b);
      if Decode(c.wire).pkt.HasAck() {
        BlocksKept(Decode(c.wire).pkt.sackBlocks, c.ackIdx, s.b.rcv, t.b.rcv);
      }
    }
  }

  // ---- The window across endpoints -----------------------------------------------------------

  /** Every unacknowledged payload is less than MAX_CWND past sendBase, even after cwnd has shrunk;
      the true sendBase never passes the true recvNext; both counters are those indices mod 2^32;
      and the receiver's buffer never fills, so its refusal branch is unreachable. */
  lemma WindowBound(streamID: uint32, es: seq<Event>)
    ensures var s := Reach(streamID, es);
            && s.a.snd.sendBase == Wrap(s.a.snd.base) && s.b.rcv.recvNext == Wrap(|s.b.rcv.delivered|)
            && s.a.snd.base <= |s.b.rcv.delivered| <= s.a.snd.base + CC.MAX_CWND
            && (forall k :: k in s.a.snd.unacked && s.a.snd.sent[s.a.snd.unacked[k].idx].Payload? ==>
                 k == Wrap(s.a.snd.unacked[k].idx) &&
                 s.a.snd.base <= s.a.snd.unacked[k].idx < s.a.snd.base + CC.MAX_CWND)
            && |s.b.rcv.outOfOrder| < MAX_OUT_OF_ORDER_BUFFER
  {
    var s := Reach(streamID, es);
    assert Inv(s);
    hide CopyOk, Matches, Reach, Wrap;
    ConformingSenderFillsLess(s.a.snd, s.b.rcv);
    DeliveredInWindow(s.a.snd, s.b.rcv);
    assert forall k :: k in s.a.snd.unacked ==> KeyOk(s.a.snd, k);
  }

  lemma {:induction false} MaxRightIsOne(blocks: seq<SackBlock>)
    requires blocks != []
    ensures exists i :: 0 <= i < |blocks| && MaxRight(blocks) == blocks[i].right
  {
    if |blocks| == 1 {
      assert MaxRight(blocks) == blocks[0].right;
    } else {
      var init := blocks[..|blocks| - 1];
      MaxRightIsOne(init);
      var i :| 0 <= i < |init| && MaxRight(init) == init[i].right;
      assert blocks[i] == init[i];
      assert MaxRight(blocks) == blocks[i].right || MaxRight(blocks) == blocks[|blocks| - 1].right;
    }
  }

  lemma ClampsInactive(s: SenderState, p: ReliablePacket, ackIdx: nat, r: ReceiverState)
    requires SenderOk(s) && Matches(s.sent, r)
    requires p.ack == Wrap(ackIdx) && s.base <= ackIdx <= |r.delivered| && BlocksOk(p.sackBlocks, ackIdx, r)
    ensures AckSpan(p.ack, s.sendBase) == Signed(Sub(p.ack, s.sendBase)) == ackIdx - s.base
    ensures p.sackBlocks != [] ==>
              SackSpan(p.sackBlocks, p.ack) == Signed(Wrap(MaxRight(p.sackBlocks) - p.ack + 1)) <= CC.MAX_CWND
  {
    hide Wrap, Sub, Matches;
    DeliveredInWindow(s, r);
    AckCompare(s, ackIdx);
    SignedDistance(ackIdx, s.base);
    if p.sackBlocks != [] {
      MaxRightIsOne(p.sackBlocks);
      var i :| 0 <= i < |p.sackBlocks| && MaxRight(p.sackBlocks) == p.sackBlocks[i].right;
      assert BlockOk(p.sackBlocks[i], ackIdx, r);
      SpanPlain(p.sackBlocks[i].right, p.ack);
    }
  }

  /** For an acknowledgment in flight that is not behind sendBase, both defensive scan bounds are
      inactive: the spans are the plain differences. */
  lemma ClampsUnreachable(streamID: uint32, es: seq<Event>, c: Copy)
    requires c in Reach(streamID, es).ba && Decode(c.wire).Parsed? && Decode(c.wire).pkt.HasAck()
    requires Reach(streamID, es).a.snd.base <= c.ackIdx
    ensures var s, p := Reach(streamID, es).a.snd, Decode(c.wire).pkt;
            && AckSpan(p.ack, s.sendBase) == Signed(Sub(p.ack, s.sendBase)) == c.ackIdx - s.base
            && (p.sackBlocks != [] ==>
                 SackSpan(p.sackBlocks, p.ack) == Signed(Wrap(MaxRight(p.sackBlocks) - p.ack + 1)) <= CC.MAX_CWND)
  {
    hide *;
    var s := Reach(streamID, es);
    AckInFlight(s, c);
    ClampsInactive(s.a.snd, Decode(c.wire).pkt, c.ackIdx, s.b.rcv);
  }

  lemma AckInFlight(s: System, c: Copy)
    requires Inv(s) && c in s.ba && Decode(c.wire).Parsed? && Decode(c.wire).pkt.HasAck()
    ensures var p := Decode(c.wire).pkt;
            && SenderOk(s.a.snd) && Matches(s.a.snd.sent, s.b.rcv)
            && p.ack == Wrap(c.ackIdx) && c.ackIdx <= |s.b.rcv.delivered| && BlocksOk(p.sackBlocks, c.ackIdx, s.b.rcv)
  {
    hide Decode, Wrap, SenderOk, Matches, BlocksOk;
    assert CopyOk(c, s.b);
  }

  lemma SpanPlain(right: uint32, ack: uint32)
    requires Sub(right, ack) < CC.MAX_CWND
    ensures Signed(Wrap(right - ack + 1)) == Sub(right, ack) + 1
  {
    NextDistance(right, ack);
    hide Wrap, Sub;
  }
}
