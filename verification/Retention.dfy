/** Retention: what has been sent and not received is still kept for retransmission, in every run in
    which no processed acknowledgment was behind sendBase and no packet was given up; and exactly
    what happens in the two branches that break it. */
module Retention {
  import opened SeqNum
  import opened Bytes
  import opened ReliableCodec
  import CC = CongestionControl
  import opened Sender
  import opened Receiver
  import opened Endpoint
  import opened Network
  import opened ReceiverSafety
  import opened SenderSafety
  import opened NetworkSafety
  import opened Safety

  /** A payload that was sent and is neither delivered nor buffered. */
  ghost predicate Missing(s: SenderState, r: ReceiverState, i: int) {
    0 <= i < |s.sent| && s.sent[i].Payload? && !Received(r, i)
  }

  /** The kept packet is the one for index i and carries that payload. */
  ghost predicate Carries(u: Unacked, i: int, data: bytes) {
    && u.idx == i && !u.sacked
    && Decode(u.data).Parsed?
    && Decode(u.data).pkt.HasData() && Decode(u.data).pkt.data == data && Decode(u.data).pkt.seqNo == Wrap(i)
  }

  ghost predicate Retained(s: SenderState, r: ReceiverState) {
    forall i :: Missing(s, r, i) ==> Wrap(i) in s.unacked && Carries(s.unacked[Wrap(i)], i, s.sent[i].data)
  }

  /** Nothing sent is missing at the receiver. */
  ghost predicate NothingMissing(s: SenderState, r: ReceiverState) {
    forall i :: !Missing(s, r, i)
  }

  lemma MissingInWindow(s: SenderState, r: ReceiverState, i: int)
    requires SenderOk(s) && Direction(s, r) && Missing(s, r, i)
    ensures s.base <= |r.delivered| <= i < s.base + CC.MAX_CWND
  {
    hide Wrap, Matches;
  }

  /** The map after a step, as far as retention is concerned. */
  lemma RetainedUnder(s: SenderState, s': SenderState, r: ReceiverState, newly: set<uint32>)
    requires Retained(s, r) && s'.sent == s.sent && Shrinks(s.unacked, s'.unacked, newly) && SackedReceived(s', r)
    requires forall i :: Missing(s, r, i) ==> Wrap(i) in s'.unacked
    ensures Retained(s', r)
  {
    hide Decode, Wrap, Received;
    forall i | Missing(s', r, i) ensures Wrap(i) in s'.unacked && Carries(s'.unacked[Wrap(i)], i, s'.sent[i].data) {
      assert Missing(s, r, i);
      var u, u' := s.unacked[Wrap(i)], s'.unacked[Wrap(i)];
      assert CopyOf(u') == CopyOf(u);
      assert Carries(u, i, s.sent[i].data);
    }
  }

  // ---- Acknowledgments -----------------------------------------------------------------------

  /** An acknowledgment at or past sendBase removes nothing that is missing. */
  lemma FreshAckRetains(s: SenderState, ackIdx: nat, blocks: seq<SackBlock>, now: int, r: ReceiverState)
    requires SenderOk(s) && Direction(s, r) && AckInRange(s, ackIdx) && BlocksOk(blocks, ackIdx, r)
    requires s.base <= ackIdx <= |r.delivered| && Retained(s, r)
    ensures Retained(ProcessAck(s, Wrap(ackIdx), blocks, now).0, r)
  {
    hide Wrap, Sub, ProcessAck, Matches, BlocksOk, Scanned, AckSpan, Received, Carries;
    var s' := ProcessAck(s, Wrap(ackIdx), blocks, now).0;
    ProcessAckShrinks(s, Wrap(ackIdx), blocks, now);
    ProcessAckOk(s, ackIdx, blocks, now, r);
    AckCompare(s, ackIdx);
    forall i | Missing(s, r, i) ensures Wrap(i) in s'.unacked {
      MissingInWindow(s, r, i);
      assert Carries(s.unacked[Wrap(i)], i, s.sent[i].data);
      CarriesIndex(s.unacked[Wrap(i)], i, s.sent[i].data);
      if ackIdx > s.base {
        ScanIsPrefix(s, ackIdx, Wrap(i));
      }
    }
    RetainedUnder(s, s', r, Marked(s, Wrap(ackIdx), blocks));
  }

  lemma CarriesIndex(u: Unacked, i: int, data: bytes)
    requires Carries(u, i, data)
    ensures u.idx == i
  {
  }

  /** An acknowledgment behind sendBase removes every payload that is missing. */
  lemma StaleAckDrops(s: SenderState, ackIdx: nat, blocks: seq<SackBlock>, now: int, r: ReceiverState, i: int)
    requires SenderOk(s) && Direction(s, r) && AckInRange(s, ackIdx) && ackIdx < s.base
    requires Missing(s, r, i)
    ensures Wrap(i) !in ProcessAck(s, Wrap(ackIdx), blocks, now).0.unacked
    ensures Missing(ProcessAck(s, Wrap(ackIdx), blocks, now).0, r, i)
  {
    hide Wrap, Sub, ProcessAck, Matches, Scanned, AckSpan, Received, KeyOk;
    ProcessAckShrinks(s, Wrap(ackIdx), blocks, now);
    AckCompare(s, ackIdx);
    MissingInWindow(s, r, i);
    if Wrap(i) in s.unacked {
      StaleScan(s, ackIdx, Wrap(i));
      KeyIs(s, i);
    }
  }

  lemma KeyIs(s: SenderState, i: int)
    requires SenderOk(s) && s.base <= i < s.base + CC.MAX_CWND && Wrap(i) in s.unacked
    ensures s.unacked[Wrap(i)].idx == i
  {
    assert KeyOk(s, Wrap(i));
    WrapInjective(s.unacked[Wrap(i)].idx, i);
  }

  /** Exactly when processing an acknowledgment of a conforming peer keeps retention: when it is not
      behind sendBase, or nothing is missing anyway. */
  lemma AckRetainsExactly(s: SenderState, ackIdx: nat, blocks: seq<SackBlock>, now: int, r: ReceiverState)
    requires SenderOk(s) && Direction(s, r) && AckInRange(s, ackIdx) && BlocksOk(blocks, ackIdx, r)
    requires ackIdx <= |r.delivered| && Retained(s, r)
    ensures Retained(ProcessAck(s, Wrap(ackIdx), blocks, now).0, r) <==> s.base <= ackIdx || NothingMissing(s, r)
  {
    hide Wrap, Sub, ProcessAck, Matches, BlocksOk, Received, Carries, SenderOk;
    assert CC.Valid(s.cc) by { SenderCc(s); }
    var s' := ProcessAck(s, Wrap(ackIdx), blocks, now).0;
    ProcessAckShrinks(s, Wrap(ackIdx), blocks, now);
    if s.base <= ackIdx {
      FreshAckRetains(s, ackIdx, blocks, now, r);
    } else if NothingMissing(s, r) {
      forall i ensures !Missing(s', r, i) {
        assert !Missing(s, r, i);
      }
    } else {
      var i :| Missing(s, r, i);
      StaleAckDrops(s, ackIdx, blocks, now, r, i);
    }
  }

  lemma SenderCc(s: SenderState)
    requires SenderOk(s)
    ensures CC.Valid(s.cc)
  {
  }

  // ---- Timeouts ------------------------------------------------------------------------------

  /** Exactly when a timeout check keeps retention: when nothing it gives up is missing. */
  lemma TickRetainsExactly(s: SenderState, now: int, r: ReceiverState)
    requires SenderOk(s) && Direction(s, r) && Retained(s, r)
    ensures Retained(CheckRetransmit(s, now), r) <==>
            forall k :: k in GivenUp(s, now) ==> !Missing(s, r, s.unacked[k].idx)
  {
    hide Wrap, Received, Matches, TimedOut, Decode;
    var s' := CheckRetransmit(s, now);
    CheckRetransmitOk(s, now, r);
    assert s'.unacked.Keys == s.unacked.Keys - GivenUp(s, now) by { TickKeys(s, now); }
    hide CheckRetransmit;
    if forall k :: k in GivenUp(s, now) ==> !Missing(s, r, s.unacked[k].idx) {
      forall i | Missing(s, r, i) ensures Wrap(i) in s'.unacked {
        assert Carries(s.unacked[Wrap(i)], i, s.sent[i].data);
      }
      RetainedUnder(s, s', r, {});
    } else {
      var k :| k in GivenUp(s, now) && Missing(s, r, s.unacked[k].idx);
      assert KeyOk(s, k);
      assert Missing(s', r, s.unacked[k].idx);
    }
  }

  lemma TickKeys(s: SenderState, now: int)
    ensures CheckRetransmit(s, now).unacked.Keys == s.unacked.Keys - GivenUp(s, now)
  {
    hide TimedOut;
  }

  // ---- Sending -------------------------------------------------------------------------------

  lemma RecordRetains(s: SenderState, entry: Entry, pkt: ReliablePacket, ackIdx: nat, now: int, r: ReceiverState)
    requires SenderOk(s) && Direction(s, r) && Retained(s, r) && ReliableCodec.WellFormed(pkt)
    requires entry.Payload? ==> pkt.HasData() && pkt.data == entry.data && pkt.seqNo == s.sendSeq
    ensures Retained(Record(s, entry, pkt, ackIdx, now), r)
  {
    hide Wrap, Received, Matches, Decode, Encode, ReliableCodec.WellFormed;
    var s' := Record(s, entry, pkt, ackIdx, now);
    RoundTrip(pkt);
    forall i | Missing(s', r, i) ensures Wrap(i) in s'.unacked && Carries(s'.unacked[Wrap(i)], i, s'.sent[i].data) {
      if i < |s.sent| {
        assert Missing(s, r, i);
        MissingInWindow(s, r, i);
        if Wrap(i) == s.sendSeq {
          WrapInjective(i, |s.sent|);
        }
      }
    }
  }

  // ---- Clean runs ----------------------------------------------------------------------------

  /** The two hypotheses, each the guard of one branch of the code: an acknowledgment about to be
      processed is not behind sendBase, a timeout check gives nothing up. */
  ghost predicate Clean(s: System, act: Action) {
    match act
    case DoReceive(c, _) => Decode(c.wire).Parsed? && Decode(c.wire).pkt.HasAck() ==> s.a.snd.base <= c.ackIdx
    case DoTick(now) => GivenUp(s.a.snd, now) == {}
    case _ => true
  }

  lemma ActRetains(s: System, act: Action)
    requires Inv(s) && CC.Valid(s.a.snd.cc) && Enabled(s, act) && Clean(s, act)
    requires Retained(s.a.snd, s.b.rcv)
    ensures Retained(Act(s, act).a.snd, s.b.rcv)
  {
    hide Encode, Decode, DataPacket, ClosePacket, CheckRetransmit, WindowOpen, ProcessAck, ProcessData,
      CopyOk, Retained, Received, SenderOk, BufferOk, Matches, Record, BlocksOk, SackedReceived, Receiver.Drain;
    match act
    case DoSend(data, now) =>
      BufferWithinWindow(s);
      DataPacketAcks(s.a, data);
      RecordRetains(s.a.snd, Payload(data), DataPacket(s.a, data), |s.a.rcv.delivered|, now, s.b.rcv);
    case DoSendClose(now) =>
      ClosePacketAcks(s.a);
      RecordRetains(s.a.snd, Fin, ClosePacket(s.a), |s.a.rcv.delivered|, now, s.b.rcv);
    case DoReceive(c, now) =>
      var p := Decode(c.wire).pkt;
      if p.HasAck() {
        AckInFlight(Swap(Swap(s)), c);
        DeliveredInWindow(s.a.snd, s.b.rcv);
        FreshAckRetains(s.a.snd, c.ackIdx, p.sackBlocks, now, s.b.rcv);
      }
    case DoTick(now) =>
      TickRetainsExactly(s.a.snd, now, s.b.rcv);
    case _ =>
  }

  lemma RetainedMore(s: SenderState, r: ReceiverState, r': ReceiverState)
    requires Retained(s, r) && Keeps(r, r')
    ensures Retained(s, r')
  {
    hide Received, Carries;
    forall i | Missing(s, r', i) ensures Missing(s, r, i) {
    }
  }

  /** Every event of endpoint a in the run was clean when it happened. */
  ghost predicate CleanRun(s: System, es: seq<Event>)
    requires Inv(s)
  {
    es != [] ==>
      var e := es[|es| - 1];
      && CleanRun(s, es[..|es| - 1])
      && (e.byA && Enabled(Run(s, es[..|es| - 1]), e.act) ==> Clean(Run(s, es[..|es| - 1]), e.act))
  }

  lemma StepRetains(s: System, e: Event)
    requires Inv(s) && Retained(s.a.snd, s.b.rcv)
    requires e.byA && Enabled(s, e.act) ==> Clean(s, e.act)
    ensures Retained(Step(s, e).a.snd, Step(s, e).b.rcv)
  {
    hide Inv, Act, Enabled, Clean, Retained, Keeps;
    InvValid(s);
    InvSwap(s);
    StepKeepsHoldings(s, e);
    if e.byA {
      if Enabled(s, e.act) {
        ActRetains(s, e.act);
        OtherSideUnchanged(s, e.act);
      }
    } else if Enabled(Swap(s), e.act) {
      OtherSideUnchanged(Swap(s), e.act);
      RetainedMore(s.a.snd, s.b.rcv, Step(s, e).b.rcv);
    }
  }

  lemma {:induction false} RunRetains(s: System, es: seq<Event>)
    requires Inv(s) && Retained(s.a.snd, s.b.rcv) && CleanRun(s, es)
    ensures Retained(Run(s, es).a.snd, Run(s, es).b.rcv)
  {
    hide Inv, Step, Retained, Enabled, Clean;
    if es != [] {
      RunRetains(s, es[..|es| - 1]);
      StepRetains(Run(s, es[..|es| - 1]), es[|es| - 1]);
    }
  }

  ghost predicate CleanHistory(streamID: uint32, es: seq<Event>) {
    InitInv(streamID);
    CleanRun(Init(streamID), es)
  }

  /** In every state reached by a clean run, each payload sent and not received is still kept,
      unmarked, with the bytes that carry it. */
  lemma RetentionHolds(streamID: uint32, es: seq<Event>)
    requires CleanHistory(streamID, es)
    ensures Retained(Reach(streamID, es).a.snd, Reach(streamID, es).b.rcv)
  {
    InitInv(streamID);
    hide Run, Inv, CleanRun;
    RunRetains(Init(streamID), es);
  }
}
