/** The reliable stream as the program has it: an object whose handlers update its fields
    (pkg/tunnel/reliable.go:302-1072). Every method is proved to take the state where the functions
    of Sender, Receiver and Endpoint take it, and to send the packets they say.

    sendFunc is the append to `outbox`, deliverFunc the append to `delivered`; the clock is a
    parameter; the ack timer is the flag `timerArmed`. */
module ReliableStream {
  import opened SeqNum
  import opened Bytes
  import opened ReliableCodec
  import SackBuilder
  import CC = CongestionControl
  import opened WindowDynamics
  import RttEstimation
  import opened Sender
  import opened Receiver
  import opened Endpoint
  import opened Waiting

  datatype WindowPass = Open | StillWaiting | StreamClosed
  datatype SendResult = SentNow | Blocked | ErrStreamClosed

  /** An open stream with cwnd numbers or more between sendBase and this one. */
  predicate MustWait(v: EndpointState, seqNo: uint32) {
    !v.closed && Signed(Sub(seqNo, v.snd.sendBase)) >= v.snd.cc.cwnd
  }

  class ReliableStream {
    const streamID: uint32
    // Sender state
    var sendSeq: uint32
    var sendBase: uint32
    var unacked: map<uint32, Unacked>
    var dupAckCount: int
    var lastSackTime: int
    // Congestion control
    var cwnd: int
    var ssthresh: int
    var caAccum: int
    var lastLossReduceNs: int
    // Receiver state
    var recvNext: uint32
    var outOfOrder: map<uint32, bytes>
    // Control, round trips, acknowledgment coalescing
    var closed: bool
    const rttEstimator: RttEstimation.RTTEstimator
    var pendingAck: bool
    var timerArmed: bool
    var recvCounter: uint32
    // What the callbacks were given
    var outbox: seq<Copy>
    var delivered: seq<bytes>
    // History, read by no branch
    var sent: seq<Entry>
    var base: nat
    var acked: nat
    var sinceAck: nat

    function Window(): CC.Congestion
      reads this
    {
      CC.Congestion(cwnd, ssthresh, caAccum, lastLossReduceNs)
    }

    function SenderView(): SenderState
      reads this, rttEstimator
    {
      SenderState(sendSeq, sendBase, unacked, dupAckCount, lastSackTime, Window(), rttEstimator.State(), sent, base)
    }

    function ReceiverView(): ReceiverState
      reads this
    {
      ReceiverState(recvNext, outOfOrder, pendingAck, timerArmed, recvCounter, delivered, acked, sinceAck)
    }

    function View(): EndpointState
      reads this, rttEstimator
    {
      EndpointState(streamID, SenderView(), ReceiverView(), closed)
    }

    /** Kept by every handler, whatever packets arrive. */
    ghost predicate Valid()
      reads this
    {
      CC.Valid(Window()) && BufferOk(ReceiverView())
    }

    constructor (streamID: uint32)
      ensures Valid() && fresh(rttEstimator)
      ensures View() == NewEndpoint(streamID) && outbox == []
    {
      this.streamID := streamID;
      sendSeq, sendBase, unacked, dupAckCount, lastSackTime := 0, 0, map[], 0, ZERO_TIME;
      cwnd, ssthresh, caAccum, lastLossReduceNs := CC.INITIAL_CWND, CC.DEFAULT_SSTHRESH, 0, 0;
      recvNext, outOfOrder, closed := 0, map[], false;
      rttEstimator := new RttEstimation.RTTEstimator();
      pendingAck, timerArmed, recvCounter := false, false, 0;
      outbox, delivered, sent, base, acked, sinceAck := [], [], [], 0, 0, 0;
    }

    // ---- Congestion control ------------------------------------------------------------------

    method OnAckAdvance(pktsAcked: int)
      requires CC.Valid(Window()) && pktsAcked <= 2 * CC.MAX_CWND
      modifies `cwnd, `caAccum
      ensures Window() == CC.OnAckAdvance(old(Window()), pktsAcked) && CC.Valid(Window())
      ensures pktsAcked > 0 && old(cwnd) < old(ssthresh) ==>
                cwnd == if old(cwnd) + pktsAcked > 16384 then 16384 else old(cwnd) + pktsAcked
    {
      CC.AckKeepsValid(Window(), pktsAcked);
      if pktsAcked <= 0 {
        return;
      }
      if cwnd < ssthresh {
        cwnd := cwnd + pktsAcked;
        if cwnd > CC.MAX_CWND {
          cwnd := CC.MAX_CWND;
        }
      } else {
        caAccum := caAccum + pktsAcked;
        if caAccum >= cwnd {
          var inc := caAccum / cwnd;
          caAccum := caAccum - inc * cwnd;
          cwnd := cwnd + inc;
          if cwnd > CC.MAX_CWND {
            cwnd := CC.MAX_CWND;
          }
        }
      }
    }

    method OnLossFast(now: int)
      requires CC.Valid(Window())
      modifies `cwnd, `ssthresh, `caAccum, `lastLossReduceNs
      ensures Window() == CC.OnLoss(old(Window()), now, CC.LossIntervalNs(rttEstimator.State())) && CC.Valid(Window())
      ensures if now - old(lastLossReduceNs) >= RoundTripNs(rttEstimator.State())
              then cwnd == ssthresh == CC.Max(8, old(cwnd) / 2) && caAccum == 0 && lastLossReduceNs == now
              else Window() == old(Window())
    {
      var r := rttEstimator.State();
      var srttMs := r.SRTT();
      if srttMs <= 0.0 {
        srttMs := r.RTO() as real;
      }
      if now - lastLossReduceNs < (srttMs * 1000000.0).Floor {
        return;
      }
      lastLossReduceNs := now;
      var newCwnd := cwnd / 2;
      if newCwnd < CC.MIN_CWND {
        newCwnd := CC.MIN_CWND;
      }
      ssthresh, cwnd, caAccum := newCwnd, newCwnd, 0;
    }

    method OnLossRTO(now: int)
      requires CC.Valid(Window())
      modifies `cwnd, `ssthresh, `caAccum, `lastLossReduceNs
      ensures Window() == CC.OnLoss(old(Window()), now, CC.LossIntervalNs(rttEstimator.State())) && CC.Valid(Window())
      ensures if now - old(lastLossReduceNs) >= RoundTripNs(rttEstimator.State())
              then cwnd == ssthresh == CC.Max(8, old(cwnd) / 2) && caAccum == 0 && lastLossReduceNs == now
              else Window() == old(Window())
    {
      var r := rttEstimator.State();
      var srttMs := r.SRTT();
      if srttMs <= 0.0 {
        srttMs := r.RTO() as real;
      }
      if now - lastLossReduceNs < (srttMs * 1000000.0).Floor {
        return;
      }
      lastLossReduceNs := now;
      var newSsthresh := cwnd / 2;
      if newSsthresh < CC.MIN_CWND {
        newSsthresh := CC.MIN_CWND;
      }
      ssthresh := newSsthresh;
      cwnd := newSsthresh;
      caAccum := 0;
    }

    // ---- Acknowledgments ---------------------------------------------------------------------

    method MarkSackedAndCollectGaps(ack: uint32, sackBlocks: seq<SackBlock>) returns (lost: seq<uint32>)
      modifies `unacked
      ensures sackBlocks == [] ==> lost == [] && unacked == old(unacked)
      ensures sackBlocks != [] ==>
                var span := SackSpan(sackBlocks, ack);
                && lost == Lost(old(unacked), ack, span, sackBlocks)
                && unacked == MarkSacked(old(unacked), NewlySacked(old(unacked), ack, span, sackBlocks))
    {
      if |sackBlocks| == 0 {
        return [];
      }
      hide Lost, MarkSacked, NewlySacked, MaxRight;
      var maxRight := HighestRight(sackBlocks);
      var span := Signed(Wrap(maxRight - ack + 1));
      if span <= 0 || span > CC.MAX_CWND * 2 {
        span := CC.MAX_CWND * 2;
      }
      lost := ScanBlocks(ack, sackBlocks, maxRight, span);
    }

    /** The first loop over the blocks. */
    method HighestRight(sackBlocks: seq<SackBlock>) returns (maxRight: uint32)
      requires sackBlocks != []
      ensures maxRight == MaxRight(sackBlocks)
    {
      hide SeqGreater;
      maxRight := sackBlocks[0].right;
      assert sackBlocks[..1] == [sackBlocks[0]];
      for i := 1 to |sackBlocks|
        invariant maxRight == MaxRight(sackBlocks[..i])
      {
        assert sackBlocks[..i + 1][..i] == sackBlocks[..i];
        if SeqGreater(sackBlocks[i].right, maxRight) {
          maxRight := sackBlocks[i].right;
        }
      }
      assert sackBlocks[..|sackBlocks|] == sackBlocks;
    }

    /** The scan over the numbers from the acknowledgment on. */
    method ScanBlocks(ack: uint32, sackBlocks: seq<SackBlock>, maxRight: uint32, span: nat) returns (lost: seq<uint32>)
      requires sackBlocks != [] && maxRight == MaxRight(sackBlocks) && span <= 2 * CC.MAX_CWND
      modifies `unacked
      ensures lost == Lost(old(unacked), ack, span, sackBlocks)
      ensures unacked == MarkSacked(old(unacked), NewlySacked(old(unacked), ack, span, sackBlocks))
    {
      ghost var m := unacked;
      lost := [];
      hide Wrap, Sub, Add, Lost, MarkSacked, NewlySacked, InSack, LossCandidate, MaxRight, InBlock;
      MarkNone(m, ack, sackBlocks);
      var i := 0;
      while i < span
        invariant 0 <= i <= span
        invariant lost == Lost(m, ack, i, sackBlocks)
        invariant unacked == MarkSacked(m, NewlySacked(m, ack, i, sackBlocks))
      {
        var k := Add(ack, i);
        MarkOne(m, ack, i, sackBlocks);
        if k in unacked && !unacked[k].sacked {
          var inSack := IsInSack(sackBlocks, k);
          if inSack {
            unacked := unacked[k := unacked[k].(sacked := true)];
          } else if SeqLess(k, maxRight) {
            lost := lost + [k];
          }
        }
        i := i + 1;
      }
    }

    /** The inner loop over the blocks. */
    method IsInSack(sackBlocks: seq<SackBlock>, k: uint32) returns (inSack: bool)
      ensures inSack <==> InSack(sackBlocks, k)
    {
      inSack := false;
      for i := 0 to |sackBlocks|
        invariant !inSack && forall j :: 0 <= j < i ==> !InBlock(sackBlocks[j], k)
      {
        if !SeqLess(k, sackBlocks[i].left) && SeqLessOrEqual(k, sackBlocks[i].right) {
          assert InBlock(sackBlocks[i], k);
          return true;
        }
      }
    }

    /** The loops that retransmit the packets found lost. */
    method Retransmit(keys: seq<uint32>, now: int) returns (toRetransmit: seq<Copy>)
      requires forall i :: 0 <= i < |keys| ==> keys[i] in unacked
      requires forall i, j :: 0 <= i < j < |keys| ==> keys[i] != keys[j]
      modifies `unacked
      ensures unacked == MarkResent(old(unacked), keys, now)
      ensures toRetransmit == Copies(old(unacked), keys)
    {
      ghost var m := unacked;
      toRetransmit := [];
      assert keys[..0] == [];
      for i := 0 to |keys|
        invariant unacked == MarkResent(m, keys[..i], now)
        invariant |toRetransmit| == i && forall j :: 0 <= j < i ==> toRetransmit[j] == CopyOf(m[keys[j]])
      {
        var k := keys[i];
        assert keys[..i + 1] == keys[..i] + [k];
        assert k !in keys[..i];
        unacked := unacked[k := unacked[k].(retries := unacked[k].retries + 1, sentTime := now)];
        toRetransmit := toRetransmit + [CopyOf(unacked[k])];
      }
      assert keys[..|keys|] == keys;
    }

    /** The cumulative removal loop, sampling round trips as it goes. */
    method RemoveAcked(ack: uint32, now: int) returns (pktsAcked: int)
      modifies `unacked, rttEstimator
      ensures pktsAcked == |Scanned(old(unacked), sendBase, AckSpan(ack, sendBase))|
      ensures unacked == old(unacked) - Scanned(old(unacked), sendBase, AckSpan(ack, sendBase))
      ensures rttEstimator.State() == RttEstimation.UpdatedAll(old(rttEstimator.State()),
                Samples(old(unacked), sendBase, AckSpan(ack, sendBase), now))
    {
      ghost var m := unacked;
      ghost var rtt := rttEstimator.State();
      var oldBase := sendBase;
      pktsAcked := 0;
      var span := Signed(Sub(ack, oldBase));
      if span < 0 || span > CC.MAX_CWND * 2 {
        span := CC.MAX_CWND * 2;
      }
      hide Wrap, Sub, Add, Scanned, Samples, RttEstimation.UpdatedAll, RttEstimation.Updated, SampleOf;
      ScanNone(m, oldBase, rtt, now);
      var i := 0;
      while i < span
        invariant 0 <= i <= span
        invariant unacked == m - Scanned(m, oldBase, i)
        invariant pktsAcked == |Scanned(m, oldBase, i)|
        invariant rttEstimator.State() == RttEstimation.UpdatedAll(rtt, Samples(m, oldBase, i, now))
      {
        var k := Add(oldBase, i);
        ScanOne(m, oldBase, i);
        SampleOne(m, oldBase, i, now, rtt);
        if k in unacked {
          if unacked[k].retries == 0 {
            var sample := SampleOf(unacked[k], now);
            rttEstimator.Update(sample as real);
          }
          unacked := unacked - {k};
          pktsAcked := pktsAcked + 1;
        }
        i := i + 1;
      }
    }

    method ProcessAck(ack: uint32, sackBlocks: seq<SackBlock>, now: int)
      requires Valid()
      modifies `dupAckCount, `unacked, `lastSackTime, `cwnd, `ssthresh, `caAccum, `lastLossReduceNs, `sendBase,
        `base, `outbox, rttEstimator
      ensures Valid()
      ensures SenderView() == Sender.ProcessAck(old(SenderView()), ack, sackBlocks, now).0
      ensures outbox == old(outbox) + Sender.ProcessAck(old(SenderView()), ack, sackBlocks, now).1
    {
      hide Wrap, Sub, SeqGreater, Lost, MarkSacked, MarkResent, NewlySacked, Copies, SackSpan, AckSpan,
        Samples, Scanned, BufferOk, RttEstimation.UpdatedAll, CC.OnLoss, CC.OnAckAdvance, CC.Valid,
        CC.LossIntervalNs, SackInterval;
      if ack == sendBase {
        ProcessDuplicate(sackBlocks, now);
      } else {
        ProcessNew(ack, sackBlocks, now);
      }
    }

    /** The rate limit on resending gaps: half the RTO, at least 10 ms. */
    method MinInterval() returns (minInterval: int)
      ensures minInterval == SackInterval(rttEstimator.State())
    {
      minInterval := rttEstimator.State().RTO() / 2 * MILLISECOND;
      if minInterval < MIN_SACK_INTERVAL {
        minInterval := MIN_SACK_INTERVAL;
      }
    }

    /** The path for an ACK equal to sendBase. */
    method ProcessDuplicate(sackBlocks: seq<SackBlock>, now: int)
      requires CC.Valid(Window())
      modifies `dupAckCount, `unacked, `lastSackTime, `cwnd, `ssthresh, `caAccum, `lastLossReduceNs, `outbox
      ensures CC.Valid(Window())
      ensures SenderView() == DuplicateAck(old(SenderView()), sackBlocks, now).0
      ensures outbox == old(outbox) + DuplicateAck(old(SenderView()), sackBlocks, now).1
    {
      hide Wrap, Sub, SeqGreater, MarkSacked, MarkResent, NewlySacked, Copies, SackSpan, Lost, CC.OnLoss,
        CC.Valid, CC.LossIntervalNs, SackInterval, RoundTripNs, CC.Max, RttEstimation.Rtt.RTO, RttEstimation.Rtt.SRTT;
      dupAckCount := dupAckCount + 1;
      var before := unacked;
      var lost := MarkSackedAndCollectGaps(sendBase, sackBlocks);
      var shouldRetransmit := false;
      if |sackBlocks| > 0 {
        var minInterval := MinInterval();
        if now - lastSackTime >= minInterval {
          shouldRetransmit := true;
          lastSackTime := now;
        }
      } else if dupAckCount >= FAST_RETRANSMIT_COUNT {
        shouldRetransmit := true;
        dupAckCount := 0;
      }
      if shouldRetransmit {
        if |sackBlocks| > 0 {
          LostKept(before, sendBase, SackSpan(sackBlocks, sendBase), sackBlocks,
            NewlySacked(before, sendBase, SackSpan(sackBlocks, sendBase), sackBlocks));
        }
        var toRetransmit := ResendLost(lost, |sackBlocks| > 0, now);
        outbox := outbox + toRetransmit;
      }
    }

    /** With blocks the gaps, without them the oldest packet if it is there. */
    method ResendLost(lost: seq<uint32>, hasBlocks: bool, now: int) returns (toRetransmit: seq<Copy>)
      requires CC.Valid(Window())
      requires hasBlocks ==> forall i :: 0 <= i < |lost| ==> lost[i] in unacked
      requires forall i, j :: 0 <= i < j < |lost| ==> lost[i] != lost[j]
      modifies `unacked, `cwnd, `ssthresh, `caAccum, `lastLossReduceNs
      ensures CC.Valid(Window())
      ensures hasBlocks || (sendBase in old(unacked) && !old(unacked)[sendBase].sacked) ==>
                var keys := if hasBlocks then lost else [sendBase];
                && unacked == MarkResent(old(unacked), keys, now) && toRetransmit == Copies(old(unacked), keys)
                && Window() == CC.OnLoss(old(Window()), now, CC.LossIntervalNs(rttEstimator.State()))
      ensures !hasBlocks && !(sendBase in old(unacked) && !old(unacked)[sendBase].sacked) ==>
                unacked == old(unacked) && toRetransmit == [] && Window() == old(Window())
    {
      hide MarkResent, Copies, CC.OnLoss, CC.Valid, CC.LossIntervalNs, RoundTripNs;
      toRetransmit := [];
      if hasBlocks {
        OnLossFast(now);
        toRetransmit := Retransmit(lost, now);
      } else if sendBase in unacked && !unacked[sendBase].sacked {
        OnLossFast(now);
        toRetransmit := Retransmit([sendBase], now);
      }
    }

    /** The selective part of a new ACK. */
    method SelectiveAck(ack: uint32, sackBlocks: seq<SackBlock>, now: int) returns (toRetransmit: seq<Copy>)
      requires CC.Valid(Window())
      modifies `unacked, `lastSackTime, `cwnd, `ssthresh, `caAccum, `lastLossReduceNs
      ensures CC.Valid(Window())
      ensures (SenderView(), toRetransmit) == Selective(old(SenderView()), ack, sackBlocks, now)
    {
      hide Wrap, Sub, MarkSacked, MarkResent, NewlySacked, Copies, SackSpan, CC.OnLoss, CC.Valid, CC.LossIntervalNs;
      toRetransmit := [];
      if |sackBlocks| > 0 {
        var before := unacked;
        var lost := MarkSackedAndCollectGaps(ack, sackBlocks);
        var minInterval := MinInterval();
        if now - lastSackTime >= minInterval && |lost| > 0 {
          lastSackTime := now;
          OnLossFast(now);
          LostKept(before, ack, SackSpan(sackBlocks, ack), sackBlocks,
            NewlySacked(before, ack, SackSpan(sackBlocks, ack), sackBlocks));
          toRetransmit := Retransmit(lost, now);
        }
      }
    }

    /** The path for any other ACK. */
    method ProcessNew(ack: uint32, sackBlocks: seq<SackBlock>, now: int)
      requires CC.Valid(Window())
      modifies `dupAckCount, `unacked, `lastSackTime, `cwnd, `ssthresh, `caAccum, `lastLossReduceNs, `sendBase,
        `base, `outbox, rttEstimator
      ensures CC.Valid(Window())
      ensures SenderView() == NewAck(old(SenderView()), ack, sackBlocks, now).0
      ensures outbox == old(outbox) + NewAck(old(SenderView()), ack, sackBlocks, now).1
    {
      hide Wrap, Sub, SeqGreater, Selective, Advance, Samples, Scanned, RttEstimation.UpdatedAll,
        CC.OnAckAdvance, CC.Valid;
      ghost var was := SenderView();
      dupAckCount := 0;
      var pktsAcked := RemoveAcked(ack, now);
      ScanBounded(was.unacked, sendBase, AckSpan(ack, sendBase));
      assert SenderView() == Cumulative(was, ack, now);
      hide Cumulative;
      var toRetransmit := SelectiveAck(ack, sackBlocks, now);
      AdvanceBase(ack, pktsAcked);
      outbox := outbox + toRetransmit;
    }

    /** sendBase moves forward only; the window grows by the packets removed. */
    method AdvanceBase(ack: uint32, pktsAcked: int)
      requires CC.Valid(Window()) && 0 <= pktsAcked <= 2 * CC.MAX_CWND
      modifies `sendBase, `base, `cwnd, `caAccum
      ensures SenderView() == Advance(old(SenderView()), ack, pktsAcked) && CC.Valid(Window())
    {
      hide Wrap, Sub, SeqGreater, CC.OnAckAdvance, CC.Valid;
      if SeqGreater(ack, sendBase) {
        base := base + Sub(ack, sendBase);
        sendBase := ack;
      }
      if pktsAcked > 0 {
        OnAckAdvance(pktsAcked);
      } else {
        AckOfNothing(Window());
      }
    }

    // ---- Timeouts ----------------------------------------------------------------------------

    /** The loop over the map, in whatever order. */
    method CollectTimedOut(now: int, rto: int) returns (toRetransmit: seq<Copy>)
      modifies `unacked
      ensures unacked == Checked(old(unacked), old(unacked.Keys), now, rto)
      ensures Elements(toRetransmit) == CopiesAmong(old(unacked), old(unacked.Keys), now, rto)
      ensures |toRetransmit| == |DueAmong(old(unacked), old(unacked.Keys), now, rto)|
    {
      ghost var m := unacked;
      toRetransmit := [];
      var rest := unacked.Keys;
      CheckNone(m, now, rto);
      hide Checked, CopiesAmong, DueAmong, Elements, Late;
      while rest != {}
        invariant rest <= m.Keys
        invariant unacked == Checked(m, m.Keys - rest, now, rto)
        invariant Elements(toRetransmit) == CopiesAmong(m, m.Keys - rest, now, rto)
        invariant |toRetransmit| == |DueAmong(m, m.Keys - rest, now, rto)|
        decreases |rest|
      {
        var k :| k in rest;
        ghost var done := m.Keys - rest;
        CheckOne(m, done, k, now, rto);
        CountOne(m, done, k, now, rto);
        assert m.Keys - (rest - {k}) == done + {k};
        rest := rest - {k};
        var up := unacked[k];
        if Late(up, now, rto) {
          if up.retries >= MAX_RETRIES {
            unacked := unacked - {k};
          } else {
            unacked := unacked[k := Resent(up, now)];
            ElementsSnoc(toRetransmit, CopyOf(up));
            toRetransmit := toRetransmit + [CopyOf(up)];
          }
        }
      }
      assert m.Keys - {} == m.Keys;
    }

    method CheckRetransmit(now: int)
      requires Valid()
      modifies `unacked, `cwnd, `ssthresh, `caAccum, `lastLossReduceNs, `outbox, rttEstimator
      ensures Valid()
      ensures SenderView() == Sender.CheckRetransmit(old(SenderView()), now)
      ensures |outbox| == |old(outbox)| + |Due(old(SenderView()), now)|
      ensures outbox[..|old(outbox)|] == old(outbox)
      ensures Elements(outbox[|old(outbox)|..]) == RetransmittedCopies(old(SenderView()), now)
    {
      hide CC.OnLoss, CC.LossIntervalNs, CC.Valid, BufferOk, Due, Checked, Elements, CopiesAmong, DueAmong,
        RetransmittedCopies, RttEstimation.BackedOff, GivenUp, Wrap;
      ghost var was := SenderView();
      var rto := rttEstimator.State().RTO() * MILLISECOND;
      CheckedAll(was, now);
      hide Sender.CheckRetransmit;
      var toRetransmit := CollectTimedOut(now, rto);
      if |toRetransmit| > 0 {
        OnLossRTO(now);
        rttEstimator.Backoff();
      }
      outbox := outbox + toRetransmit;
      assert outbox[|old(outbox)|..] == toRetransmit;
      SameBuffer(old(ReceiverView()), ReceiverView());
    }

    // ---- Receiving ---------------------------------------------------------------------------

    method DeliverOutOfOrder()
      modifies `recvNext, `outOfOrder, `delivered
      ensures ReceiverView() == Drain(old(ReceiverView()))
    {
      while recvNext in outOfOrder
        invariant Drain(ReceiverView()) == Drain(old(ReceiverView()))
        decreases |outOfOrder|
      {
        assert outOfOrder.Keys == (outOfOrder - {recvNext}).Keys + {recvNext};
        var data := outOfOrder[recvNext];
        outOfOrder := outOfOrder - {recvNext};
        delivered := delivered + [data];
        recvNext := Add(recvNext, 1);
      }
    }

    /** cancelAckTimer and the pendingAck reset, with the acknowledgment going out. */
    method SendAckNow()
      modifies `pendingAck, `timerArmed, `acked, `sinceAck, `outbox
      ensures ReceiverView() == Receiver.SendAckNow(streamID, old(ReceiverView())).0
      ensures outbox == old(outbox) + Receiver.SendAckNow(streamID, old(ReceiverView())).1
    {
      hide Encode;
      pendingAck, timerArmed := false, false;
      var pkt := ReliablePacket(streamID, FLAG_ACK, 0, recvNext, [], []);
      var wire := Marshal(pkt);
      acked, sinceAck := |delivered|, 0;
      outbox := outbox + [Copy(wire, 0, |delivered|)];
    }

    method SendAckWithSack()
      requires BufferOk(ReceiverView())
      modifies `pendingAck, `timerArmed, `acked, `sinceAck, `outbox
      ensures ReceiverView() == Receiver.SendAckWithSack(streamID, old(ReceiverView())).0
      ensures outbox == old(outbox) + Receiver.SendAckWithSack(streamID, old(ReceiverView())).1
    {
      hide Encode, Wrap, SackBuilder.SackBlocks, SackBuilder.InHalfCircle;
      pendingAck, timerArmed := false, false;
      var pkt := ReliablePacket(streamID, FLAG_ACK, 0, recvNext, [], []);
      var sackBlocks := SackBuilder.BuildSackBlocks(outOfOrder, recvNext);
      if |sackBlocks| > 0 {
        pkt := pkt.(flags := FLAG_ACK + FLAG_SACK, sackBlocks := sackBlocks);
      }
      var wire := Marshal(pkt);
      acked, sinceAck := |delivered|, 0;
      outbox := outbox + [Copy(wire, 0, |delivered|)];
    }

    method ScheduleAck()
      modifies `recvCounter, `pendingAck, `timerArmed, `acked, `sinceAck, `outbox
      ensures ReceiverView() == Receiver.ScheduleAck(streamID, old(ReceiverView())).0
      ensures outbox == old(outbox) + Receiver.ScheduleAck(streamID, old(ReceiverView())).1
    {
      hide Encode;
      recvCounter := Add(recvCounter, 1);
      sinceAck := sinceAck + 1;
      if recvCounter % ACK_EVERY_N == 0 {
        SendAckNow();
        return;
      }
      var already := pendingAck;
      pendingAck := true;
      if already {
        return;
      }
      timerArmed := true;
    }

    /** The callback given to time.AfterFunc. */
    method AckTimerFires()
      requires Valid() && timerArmed
      modifies `pendingAck, `timerArmed, `acked, `sinceAck, `outbox
      ensures Valid()
      ensures ReceiverView() == Receiver.AckTimerFires(streamID, old(ReceiverView())).0
      ensures outbox == old(outbox) + Receiver.AckTimerFires(streamID, old(ReceiverView())).1
    {
      hide Encode, Wrap, BufferOk, CC.Valid;
      timerArmed := false;
      if pendingAck {
        pendingAck := false;
        SendAckNow();
      }
      SameBuffer(old(ReceiverView()), ReceiverView());
    }

    method ProcessData(seqNo: uint32, data: bytes)
      requires BufferOk(ReceiverView())
      modifies `recvNext, `outOfOrder, `delivered, `recvCounter, `pendingAck, `timerArmed, `acked, `sinceAck, `outbox
      ensures BufferOk(ReceiverView())
      ensures ReceiverView() == Receiver.ProcessData(streamID, old(ReceiverView()), seqNo, data).0
      ensures outbox == old(outbox) + Receiver.ProcessData(streamID, old(ReceiverView()), seqNo, data).1
    {
      hide Encode, Wrap, Receiver.ScheduleAck, Receiver.SendAckWithSack, Receiver.SendAckNow, Drain, BufferOk,
        SeqGreater;
      ProcessDataKeepsBuffer(streamID, ReceiverView(), seqNo, data);
      var expected := recvNext;
      if seqNo == expected {
        delivered := delivered + [data];
        recvNext := Add(recvNext, 1);
        DeliverOutOfOrder();
        ScheduleAck();
      } else if SeqGreater(seqNo, expected) {
        BufferedOk(ReceiverView(), seqNo, data);
        if |outOfOrder| < MAX_OUT_OF_ORDER_BUFFER {
          if seqNo !in outOfOrder {
            outOfOrder := outOfOrder[seqNo := data];
          }
        }
        SendAckWithSack();
      } else {
        SendAckNow();
      }
    }

    method Receive(pkt: ReliablePacket, now: int) returns (isClose: bool)
      requires Valid()
      modifies `dupAckCount, `unacked, `lastSackTime, `cwnd, `ssthresh, `caAccum, `lastLossReduceNs, `sendBase,
        `base, rttEstimator
      modifies `recvNext, `outOfOrder, `delivered, `recvCounter, `pendingAck, `timerArmed, `acked, `sinceAck, `outbox
      ensures Valid()
      ensures isClose <==> pkt.flags / 4 % 2 == 1
      ensures SenderView() == Endpoint.Receive(old(View()), pkt, now).0.snd
      ensures ReceiverView() == Endpoint.Receive(old(View()), pkt, now).0.rcv
      ensures outbox == old(outbox) + Endpoint.Receive(old(View()), pkt, now).1
    {
      hide Sender.ProcessAck, Receiver.ProcessData, Drain, BufferOk, CC.Valid;
      if pkt.HasAck() {
        ProcessAck(pkt.ack, pkt.sackBlocks, now);
      }
      if pkt.HasData() && |pkt.data| > 0 {
        ProcessData(pkt.seqNo, pkt.data);
      }
      if pkt.HasClose() {
        DrainIdle(ReceiverView());
        DeliverOutOfOrder();
        return true;
      }
      return false;
    }

    // ---- Sending -----------------------------------------------------------------------------

    /** The stream is at endpoint state v, except that the next number has been taken. */
    ghost predicate ReservedAt(v: EndpointState)
      reads this, rttEstimator
    {
      && SenderView() == WithSeq(v.snd, Add(v.snd.sendSeq, 1)) && ReceiverView() == v.rcv
      && closed == v.closed && streamID == v.streamID
    }

    /** What another goroutine does while Send waits. */
    method Meanwhile(p: Pause)
      requires Valid()
      modifies this, rttEstimator
      ensures Valid() && old(outbox) <= outbox
      ensures SenderView() == AfterPause(old(View()), p).snd && ReceiverView() == AfterPause(old(View()), p).rcv
      ensures closed == AfterPause(old(View()), p).closed
    {
      hide Encode, Endpoint.Receive, Sender.CheckRetransmit, BufferOk, CC.Valid, PureAck, Due;
      match p
      case Arrived(pkt, now) => Arrive(pkt, now);
      case Ticked(now) => CheckRetransmit(now);
      case TimerFired =>
        if timerArmed {
          AckTimerFires();
        }
      case ClosedMeanwhile => Close();
      case Nothing =>
    }

    method Arrive(pkt: ReliablePacket, now: int)
      requires Valid()
      modifies this, rttEstimator
      ensures Valid() && old(outbox) <= outbox && closed == old(closed)
      ensures SenderView() == Endpoint.Receive(old(View()), pkt, now).0.snd
      ensures ReceiverView() == Endpoint.Receive(old(View()), pkt, now).0.rcv
      ensures Endpoint.Receive(old(View()), pkt, now).0.closed == old(closed)
    {
      ReceiveLeaves(View(), pkt, now);
      hide Endpoint.Receive, BufferOk, CC.Valid;
      var isClose := Receive(pkt, now);
    }

    /** The same, seen from the state in which the number is not yet taken. */
    method MeanwhileReserved(p: Pause, ghost v: EndpointState)
      requires Valid() && CC.Valid(v.snd.cc) && ReservedAt(v)
      modifies this, rttEstimator
      ensures Valid() && old(outbox) <= outbox
      ensures ReservedAt(AfterPause(v, p))
    {
      hide AfterPause, BufferOk, CC.Valid;
      PauseCommutes(v, p);
      assert View() == Reserved(v);
      Meanwhile(p);
    }

    /** waitForWindow: look, and wait for whatever comes next, until the stream is closed or the signed
        distance is below cwnd. `pauses` says what comes; the call is still waiting when it ends. */
    method WaitForWindow(seqNo: uint32, pauses: seq<Pause>, ghost v: EndpointState)
      returns (pass: WindowPass, passes: nat)
      requires Valid() && CC.Valid(v.snd.cc) && ReservedAt(v) && seqNo == v.snd.sendSeq
      modifies this, rttEstimator
      ensures Valid() && old(outbox) <= outbox
      ensures passes <= |pauses| && ReservedAt(AfterPauses(v, pauses[..passes]))
      ensures pass.StreamClosed? ==> closed
      ensures pass.Open? ==>
                !closed && Signed(Sub(seqNo, sendBase)) < cwnd && WindowOpen(AfterPauses(v, pauses[..passes]).snd)
      ensures pass.StillWaiting? ==> passes == |pauses|
      ensures forall j :: 0 <= j < passes ==> MustWait(AfterPauses(v, pauses[..j]), seqNo)
    {
      hide AfterPauses, BufferOk, CC.Valid, Sub;
      passes := 0;
      NoPauses(v);
      while true
        invariant Valid() && old(outbox) <= outbox
        invariant passes <= |pauses| && ReservedAt(AfterPauses(v, pauses[..passes]))
        invariant forall j :: 0 <= j < passes ==> MustWait(AfterPauses(v, pauses[..j]), seqNo)
        decreases |pauses| - passes
      {
        PausesCommute(v, pauses[..passes]);
        if closed {
          return StreamClosed, passes;
        }
        var inFlight := Signed(Sub(seqNo, sendBase));
        if inFlight < cwnd {
          return Open, passes;
        }
        if passes == |pauses| {
          return StillWaiting, passes;
        }
        OnePause(v, pauses, passes);
        MeanwhileReserved(pauses[passes], AfterPauses(v, pauses[..passes]));
        passes := passes + 1;
      }
    }

    /** The packet Send builds, taking a pending acknowledgment along. */
    method BuildDataPacket(seqNo: uint32, data: bytes, ghost v: EndpointState) returns (pkt: ReliablePacket)
      requires BufferOk(ReceiverView())
      requires ReceiverView() == v.rcv && streamID == v.streamID && seqNo == v.snd.sendSeq
      modifies `pendingAck, `timerArmed, `acked, `sinceAck
      ensures pkt == DataPacket(v, data)
      ensures ReceiverView() == if v.rcv.pendingAck then Acknowledged(v.rcv) else v.rcv
    {
      hide Wrap, SackBuilder.SackBlocks;
      pkt := ReliablePacket(streamID, FLAG_DATA, seqNo, 0, [], data);
      if pendingAck {
        pkt := pkt.(flags := FLAG_DATA + FLAG_ACK, ack := recvNext);
        var sackBlocks := SackBuilder.BuildSackBlocks(outOfOrder, recvNext);
        if |sackBlocks| > 0 {
          pkt := pkt.(flags := FLAG_DATA + FLAG_ACK + FLAG_SACK, sackBlocks := sackBlocks);
        }
        pendingAck, timerArmed := false, false;
        acked, sinceAck := |delivered|, 0;
      }
    }

    /** Marshal once, keep for retransmission under the number taken before, send. */
    method Transmit(seqNo: uint32, entry: Entry, pkt: ReliablePacket, now: int, ghost s: SenderState)
      requires SenderView() == WithSeq(s, Add(s.sendSeq, 1)) && seqNo == s.sendSeq
      modifies `unacked, `sent, `outbox
      ensures SenderView() == Record(s, entry, pkt, |delivered|, now)
      ensures outbox == old(outbox) + [Copy(Encode(pkt), |s.sent|, |delivered|)]
    {
      hide Encode, Wrap, Add;
      var buf := Marshal(pkt);
      unacked := unacked[seqNo := Unacked(pkt, buf, now, 0, false, |sent|, |delivered|)];
      outbox := outbox + [Copy(buf, |sent|, |delivered|)];
      sent := sent + [entry];
    }

    /** Send takes its number first and then waits; it has the effect of the one-step Send on the
        state in which the wait ends. */
    method Send(data: bytes, pauses: seq<Pause>, now: int)
      returns (result: SendResult, passes: nat, ghost waited: seq<Copy>)
      requires Valid()
      modifies this, rttEstimator
      ensures Valid() && passes <= |pauses|
      ensures old(closed) ==>
                result.ErrStreamClosed? && SenderView() == old(SenderView()) && ReceiverView() == old(ReceiverView())
      ensures !old(closed) ==>
                var v := AfterPauses(old(View()), pauses[..passes]);
                && (result.SentNow? ==>
                     && !v.closed && Signed(Sub(old(sendSeq), v.snd.sendBase)) < v.snd.cc.cwnd
                     && old(outbox) <= waited
                     && SenderView() == Endpoint.Send(v, data, now).0.snd
                     && ReceiverView() == Endpoint.Send(v, data, now).0.rcv
                     && outbox == waited + Endpoint.Send(v, data, now).1)
                && (result.ErrStreamClosed? ==> v.closed && ReservedAt(v))
                && (result.Blocked? ==> passes == |pauses| && ReservedAt(v))
      ensures !old(closed) ==>
                forall j :: 0 <= j < passes ==> MustWait(AfterPauses(old(View()), pauses[..j]), old(sendSeq))
    {
      hide Encode, Add, CC.Valid, DataPacket, BufferOk, AfterPauses, WindowOpen;
      waited := outbox;
      if closed {
        return ErrStreamClosed, 0, waited;
      }
      ghost var v := View();
      var seqNo := sendSeq;
      sendSeq := Add(sendSeq, 1);
      var pass;
      pass, passes := WaitForWindow(seqNo, pauses, v);
      waited := outbox;
      if pass.StreamClosed? {
        return ErrStreamClosed, passes, waited;
      }
      if pass.StillWaiting? {
        return Blocked, passes, waited;
      }
      PausesCommute(v, pauses[..passes]);
      SendReserved(seqNo, data, now, AfterPauses(v, pauses[..passes]));
      result := SentNow;
    }

    /** The part of Send after the wait. */
    method SendReserved(seqNo: uint32, data: bytes, now: int, ghost v: EndpointState)
      requires Valid() && ReservedAt(v) && seqNo == v.snd.sendSeq
      modifies `unacked, `sent, `pendingAck, `timerArmed, `acked, `sinceAck, `outbox
      ensures Valid()
      ensures SenderView() == Endpoint.Send(v, data, now).0.snd
      ensures ReceiverView() == Endpoint.Send(v, data, now).0.rcv
      ensures outbox == old(outbox) + Endpoint.Send(v, data, now).1
    {
      hide Encode, Wrap, Add, CC.Valid, DataPacket, Record, BufferOk;
      var pkt := BuildDataPacket(seqNo, data, v);
      Transmit(seqNo, Payload(data), pkt, now, v.snd);
      SameBuffer(v.rcv, ReceiverView());
    }

    method SendClose(now: int)
      requires Valid()
      modifies `sendSeq, `unacked, `sent, `acked, `sinceAck, `outbox
      ensures Valid()
      ensures old(closed) ==> unchanged(this)
      ensures !old(closed) ==> SenderView() == Endpoint.SendClose(old(View()), now).0.snd
      ensures !old(closed) ==> ReceiverView() == Endpoint.SendClose(old(View()), now).0.rcv
      ensures !old(closed) ==> outbox == old(outbox) + Endpoint.SendClose(old(View()), now).1
      ensures !old(closed) ==>
                outbox == old(outbox) + [Copy(Encode(ReliablePacket(streamID, 6, old(sendSeq), recvNext, [], [])),
                                              |old(sent)|, |delivered|)]
    {
      hide Add, CC.Valid, Endpoint.SendClose, BufferOk, Encode;
      if closed {
        return;
      }
      ghost var v := View();
      var seqNo := sendSeq;
      sendSeq := Add(sendSeq, 1);
      CloseReserved(seqNo, now, v);
    }

    /** The part of SendClose after the number is taken. */
    method CloseReserved(seqNo: uint32, now: int, ghost v: EndpointState)
      requires Valid() && ReservedAt(v) && seqNo == v.snd.sendSeq
      modifies `unacked, `sent, `acked, `sinceAck, `outbox
      ensures Valid()
      ensures SenderView() == Endpoint.SendClose(v, now).0.snd
      ensures ReceiverView() == Endpoint.SendClose(v, now).0.rcv
      ensures outbox == old(outbox) + Endpoint.SendClose(v, now).1
      ensures outbox == old(outbox) + [Copy(Encode(ReliablePacket(streamID, 6, seqNo, recvNext, [], [])),
                                            |old(sent)|, |delivered|)]
    {
      hide Encode, Wrap, Add, CC.Valid, Record, BufferOk;
      var pkt := ReliablePacket(streamID, FLAG_CLOSE + FLAG_ACK, seqNo, recvNext, [], []);
      Transmit(seqNo, Fin, pkt, now, v.snd);
      acked, sinceAck := |delivered|, 0;
      SameBuffer(v.rcv, ReceiverView());
    }

    method Close()
      requires Valid()
      modifies `closed, `timerArmed
      ensures Valid()
      ensures closed && ReceiverView() == Endpoint.Close(old(View())).rcv
    {
      hide Wrap, CC.Valid;
      if closed {
        return;
      }
      closed := true;
      timerArmed := false;
    }
  }

  // ---- Pauses --------------------------------------------------------------------------------

  lemma ReceiveLeaves(v: EndpointState, pkt: ReliablePacket, now: int)
    requires CC.Valid(v.snd.cc)
    ensures Endpoint.Receive(v, pkt, now).0.closed == v.closed
  {
    hide Sender.ProcessAck, Receiver.ProcessData, Drain, CC.Valid;
  }

  lemma NoPauses(v: EndpointState)
    requires CC.Valid(v.snd.cc)
    ensures AfterPauses(v, []) == v
  {
  }

  lemma OnePause(v: EndpointState, pauses: seq<Pause>, n: nat)
    requires CC.Valid(v.snd.cc) && n < |pauses|
    ensures AfterPauses(v, pauses[..n + 1]) == AfterPause(AfterPauses(v, pauses[..n]), pauses[n])
  {
    hide AfterPause, CC.Valid;
    assert pauses[..n + 1][..n] == pauses[..n];
  }

  // ---- Loop lemmas -----------------------------------------------------------------------------

  lemma MarkNone(m: map<uint32, Unacked>, ack: uint32, blocks: seq<SackBlock>)
    requires blocks != []
    ensures Lost(m, ack, 0, blocks) == []
    ensures MarkSacked(m, NewlySacked(m, ack, 0, blocks)) == m
  {
    hide InSack;
  }

  /** One round of the SACK scan. */
  lemma MarkOne(m: map<uint32, Unacked>, ack: uint32, i: nat, blocks: seq<SackBlock>)
    requires blocks != [] && i < 0x1_0000_0000
    ensures var k := Add(ack, i);
            var before := MarkSacked(m, NewlySacked(m, ack, i, blocks));
            var after := MarkSacked(m, NewlySacked(m, ack, i + 1, blocks));
            && (k in before <==> k in m)
            && (k in before && !before[k].sacked && InSack(blocks, k) ==>
                 after == before[k := before[k].(sacked := true)]
                   && Lost(m, ack, i + 1, blocks) == Lost(m, ack, i, blocks))
            && (k in before && !before[k].sacked && !InSack(blocks, k) ==>
                 after == before &&
                 Lost(m, ack, i + 1, blocks) == Lost(m, ack, i, blocks) +
                   (if SeqLess(k, MaxRight(blocks)) then [k] else []))
            && (k !in before || before[k].sacked ==>
                 after == before && Lost(m, ack, i + 1, blocks) == Lost(m, ack, i, blocks))
  {
    hide Wrap, Sub, Add, InSack, MaxRight, SeqLess;
    var k := Add(ack, i);
    forall k' ensures Sub(k', ack) == i <==> k' == k {
      OffsetOfSum(ack, i, k');
    }
    assert k !in NewlySacked(m, ack, i, blocks);
  }

  /** What the SACK scan returns is still in the map, each key once. */
  lemma LostKept(m: map<uint32, Unacked>, ack: uint32, span: nat, blocks: seq<SackBlock>, newly: set<uint32>)
    requires blocks != [] && span <= 2 * CC.MAX_CWND
    ensures var lost := Lost(m, ack, span, blocks);
            && (forall i :: 0 <= i < |lost| ==> lost[i] in MarkSacked(m, newly))
            && (forall i, j :: 0 <= i < j < |lost| ==> lost[i] != lost[j])
            && Copies(MarkSacked(m, newly), lost) == Copies(m, lost)
  {
    hide Sub;
    LostScan(m, ack, span, blocks);
  }

  lemma ScanNone(m: map<uint32, Unacked>, from: uint32, rtt: RttEstimation.Rtt, now: int)
    ensures Scanned(m, from, 0) == {} && m - {} == m
    ensures RttEstimation.UpdatedAll(rtt, Samples(m, from, 0, now)) == rtt
  {
  }

  /** One round of the cumulative scan. */
  lemma ScanOne(m: map<uint32, Unacked>, from: uint32, i: nat)
    requires i < 0x1_0000_0000
    ensures var k := Add(from, i);
            && k !in Scanned(m, from, i)
            && Scanned(m, from, i + 1) == Scanned(m, from, i) + (if k in m then {k} else {})
            && m - Scanned(m, from, i + 1) == m - Scanned(m, from, i) - {k}
            && |Scanned(m, from, i + 1)| == |Scanned(m, from, i)| + (if k in m then 1 else 0)
  {
    hide Wrap, Sub, Add;
    var k := Add(from, i);
    forall k' ensures Sub(k', from) == i <==> k' == k {
      OffsetOfSum(from, i, k');
    }
    assert Scanned(m, from, i + 1) == Scanned(m, from, i) + (if k in m then {k} else {});
  }

  lemma SampleOne(m: map<uint32, Unacked>, from: uint32, i: nat, now: int, rtt: RttEstimation.Rtt)
    ensures var k := Add(from, i);
            var before := RttEstimation.UpdatedAll(rtt, Samples(m, from, i, now));
            RttEstimation.UpdatedAll(rtt, Samples(m, from, i + 1, now)) ==
              if k in m && m[k].retries == 0 then RttEstimation.Updated(before, SampleOf(m[k], now) as real) else before
  {
    hide RttEstimation.Updated, SampleOf, Add;
    var k := Add(from, i);
    var samples := Samples(m, from, i, now);
    if k in m && m[k].retries == 0 {
      assert (samples + [SampleOf(m[k], now)])[..|samples|] == samples;
    } else {
      assert samples + [] == samples;
    }
  }

  /** The scan visits at most `span` numbers, so it cannot remove more packets than that. */
  lemma {:induction false} ScanBounded(m: map<uint32, Unacked>, from: uint32, span: nat)
    requires span <= 0x1_0000_0000
    ensures |Scanned(m, from, span)| <= span
  {
    hide Wrap, Sub, Add, Scanned;
    if span == 0 {
      ScanNone(m, from, RttEstimation.Fresh(), 0);
    } else {
      ScanBounded(m, from, span - 1);
      ScanOne(m, from, span - 1);
    }
  }

  lemma AckOfNothing(c: CC.Congestion)
    requires CC.Valid(c)
    ensures CC.OnAckAdvance(c, 0) == c
  {
  }

  /** The test of the timeout loop. */
  predicate Late(u: Unacked, now: int, rto: int) {
    !u.sacked && now - u.sentTime > rto
  }

  /** The map after checking the keys in `done`. */
  function Checked(m: map<uint32, Unacked>, done: set<uint32>, now: int, rto: int): map<uint32, Unacked> {
    map k | k in m && !(k in done && Late(m[k], now, rto) && m[k].retries >= MAX_RETRIES) ::
      if k in done && Late(m[k], now, rto) then Resent(m[k], now) else m[k]
  }

  function DueAmong(m: map<uint32, Unacked>, done: set<uint32>, now: int, rto: int): set<uint32> {
    set k | k in m && k in done && Late(m[k], now, rto) && m[k].retries < MAX_RETRIES
  }

  function CopiesAmong(m: map<uint32, Unacked>, done: set<uint32>, now: int, rto: int): set<Copy> {
    set k | k in DueAmong(m, done, now, rto) :: CopyOf(m[k])
  }

  lemma CheckNone(m: map<uint32, Unacked>, now: int, rto: int)
    ensures Checked(m, m.Keys - m.Keys, now, rto) == m
    ensures DueAmong(m, m.Keys - m.Keys, now, rto) == {}
    ensures CopiesAmong(m, m.Keys - m.Keys, now, rto) == Elements([])
  {
  }

  lemma ElementsSnoc(out: seq<Copy>, c: Copy)
    ensures Elements(out + [c]) == Elements(out) + {c}
  {
  }

  /** One round of the timeout loop. */
  lemma CheckOne(m: map<uint32, Unacked>, done: set<uint32>, k: uint32, now: int, rto: int)
    requires k in m && k !in done
    ensures k in Checked(m, done, now, rto) && Checked(m, done, now, rto)[k] == m[k]
    ensures Checked(m, done + {k}, now, rto) ==
              if !Late(m[k], now, rto) then Checked(m, done, now, rto)
              else if m[k].retries >= MAX_RETRIES then Checked(m, done, now, rto) - {k}
              else Checked(m, done, now, rto)[k := Resent(m[k], now)]
  {
    hide Late, Resent;
  }

  lemma CountOne(m: map<uint32, Unacked>, done: set<uint32>, k: uint32, now: int, rto: int)
    requires k in m && k !in done
    ensures var due := Late(m[k], now, rto) && m[k].retries < MAX_RETRIES;
            && CopiesAmong(m, done + {k}, now, rto) ==
               CopiesAmong(m, done, now, rto) + (if due then {CopyOf(m[k])} else {})
            && |DueAmong(m, done + {k}, now, rto)| == |DueAmong(m, done, now, rto)| + (if due then 1 else 0)
  {
    hide Late, CopyOf;
    assert DueAmong(m, done + {k}, now, rto) == DueAmong(m, done, now, rto) +
             (if Late(m[k], now, rto) && m[k].retries < MAX_RETRIES then {k} else {});
  }

  /** The loop's result is the timeout check of the specification. */
  lemma CheckedAll(s: SenderState, now: int)
    ensures var rto := s.rtt.RTO() * MILLISECOND;
            && DueAmong(s.unacked, s.unacked.Keys, now, rto) == Due(s, now)
            && CopiesAmong(s.unacked, s.unacked.Keys, now, rto) == RetransmittedCopies(s, now)
            && Sender.CheckRetransmit(s, now) ==
                 (var checked := s.(unacked := Checked(s.unacked, s.unacked.Keys, now, rto));
                  if |Due(s, now)| == 0 then checked
                  else checked.(cc := CC.OnLoss(s.cc, now, CC.LossIntervalNs(s.rtt)),
                                rtt := RttEstimation.BackedOff(s.rtt)))
  {
    hide RttEstimation.Rtt.RTO, CC.OnLoss, CC.LossIntervalNs, RttEstimation.BackedOff, Resent;
    var rto := s.rtt.RTO() * MILLISECOND;
    forall k | k in s.unacked ensures TimedOut(s, k, now) <==> Late(s.unacked[k], now, rto) {
    }
    hide TimedOut, Late;
    assert DueAmong(s.unacked, s.unacked.Keys, now, rto) == Due(s, now);
    assert |Due(s, now)| == 0 <==> Due(s, now) == {};
  }

  lemma SameBuffer(r: ReceiverState, r': ReceiverState)
    requires BufferOk(r) && r'.recvNext == r.recvNext && r'.outOfOrder == r.outOfOrder && r'.delivered == r.delivered
    ensures BufferOk(r')
  {
  }
}
