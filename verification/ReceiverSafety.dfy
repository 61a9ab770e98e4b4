/** The receiver's side of the network invariant: data steps keep what is held equal to what was
    sent, never give up an index once held, and report only held indices. */
module ReceiverSafety {
  import opened SeqNum
  import opened Bytes
  import opened ReliableCodec
  import opened SackBuilder
  import CC = CongestionControl
  import opened Sender
  import opened Receiver
  import opened Network

  /** Everything once held is still held. */
  ghost predicate Keeps(r: ReceiverState, r': ReceiverState) {
    && r.delivered <= r'.delivered
    && forall i :: Received(r, i) ==> Received(r', i)
  }

  lemma KeepsTransitive(r: ReceiverState, r': ReceiverState, r'': ReceiverState)
    requires Keeps(r, r') && Keeps(r', r'')
    ensures Keeps(r, r'')
  {
  }

  /** Bookkeeping fields do not matter to what is held. */
  lemma SameHoldings(r: ReceiverState, r': ReceiverState, sent: seq<Entry>)
    requires r'.recvNext == r.recvNext && r'.outOfOrder == r.outOfOrder && r'.delivered == r.delivered
    ensures Keeps(r, r')
    ensures BufferOk(r) ==> BufferOk(r')
    ensures Matches(sent, r) ==> Matches(sent, r')
  {
  }

  /** Conversely, an index in the half circle after recvNext has its distance as offset. */
  lemma IndexOffset(r: ReceiverState, i: int)
    requires r.recvNext == Wrap(|r.delivered|) && |r.delivered| <= i < |r.delivered| + HALF
    ensures Sub(Wrap(i), r.recvNext) == i - |r.delivered|
  {
    SubWrap(i, |r.delivered|);
    WrapSmall(i - |r.delivered|);
  }

  lemma DeliverNext(sent: seq<Entry>, r: ReceiverState, data: bytes)
    requires BufferOk(r) && Matches(sent, r)
    requires |r.delivered| < |sent| && sent[|r.delivered|] == Payload(data)
    ensures Draining(Deliver(r, data)) && Matches(sent, Deliver(r, data)) && Keeps(r, Deliver(r, data))
  {
    hide Wrap, Sub;
    DeliverDraining(r, data);
    forall k | k in r.outOfOrder ensures Sub(k, Add(r.recvNext, 1)) == Sub(k, r.recvNext) - 1 {
      NextSlot(r.recvNext, k);
    }
  }

  /** One round of the drain loop. */
  function TakeOne(r: ReceiverState): ReceiverState
    requires r.recvNext in r.outOfOrder
  {
    Deliver(r.(outOfOrder := r.outOfOrder - {r.recvNext}), r.outOfOrder[r.recvNext])
  }

  lemma TakeOneOffsets(r: ReceiverState, k: uint32)
    requires Draining(r) && r.recvNext in r.outOfOrder && k in TakeOne(r).outOfOrder
    ensures Sub(k, TakeOne(r).recvNext) == Sub(k, r.recvNext) - 1
  {
    SelfOffset(r.recvNext);
    SubInjective(k, r.recvNext, r.recvNext);
    NextSlot(r.recvNext, k);
  }

  lemma TakeOneDraining(r: ReceiverState)
    requires Draining(r) && r.recvNext in r.outOfOrder
    ensures Draining(TakeOne(r)) && |TakeOne(r).outOfOrder| < |r.outOfOrder|
  {
    hide Wrap, Sub, Add;
    assert r.outOfOrder.Keys == TakeOne(r).outOfOrder.Keys + {r.recvNext};
    assert TakeOne(r).recvNext == Wrap(|r.delivered| + 1) by { AddWrap(|r.delivered|, 1); }
    forall k | k in TakeOne(r).outOfOrder ensures Sub(k, TakeOne(r).recvNext) < 0x8000_0000 {
      TakeOneOffsets(r, k);
    }
  }

  lemma TakeOneMatches(sent: seq<Entry>, r: ReceiverState)
    requires Draining(r) && Matches(sent, r) && r.recvNext in r.outOfOrder
    ensures Matches(sent, TakeOne(r))
  {
    hide Wrap, Sub, Add, Draining;
    SelfOffset(r.recvNext);
    forall k | k in TakeOne(r).outOfOrder
      ensures |TakeOne(r).delivered| + Sub(k, TakeOne(r).recvNext) == |r.delivered| + Sub(k, r.recvNext)
    {
      TakeOneOffsets(r, k);
    }
  }

  lemma TakeOneKeeps(r: ReceiverState)
    requires Draining(r) && r.recvNext in r.outOfOrder
    ensures Keeps(r, TakeOne(r))
  {
    hide Wrap, Sub, Add;
    SelfOffset(r.recvNext);
    forall i | Received(r, i) ensures Received(TakeOne(r), i) {
      if i > |r.delivered| && Wrap(i) == r.recvNext {
        IndexOffset(r, i);
      }
    }
  }

  lemma {:induction false} DrainMatches(sent: seq<Entry>, r: ReceiverState)
    requires Draining(r) && Matches(sent, r)
    ensures Matches(sent, Drain(r)) && Keeps(r, Drain(r))
    decreases |r.outOfOrder|
  {
    hide Draining, Matches, Keeps, Wrap, Sub;
    if r.recvNext in r.outOfOrder {
      TakeOneDraining(r);
      TakeOneMatches(sent, r);
      TakeOneKeeps(r);
      DrainMatches(sent, TakeOne(r));
      KeepsTransitive(r, TakeOne(r), Drain(TakeOne(r)));
    } else {
      SameHoldings(r, r, sent);
    }
  }

  lemma BufferedMatches(sent: seq<Entry>, r: ReceiverState, seqNo: uint32, data: bytes)
    requires Matches(sent, r)
    requires |r.delivered| + Sub(seqNo, r.recvNext) < |sent|
    requires sent[|r.delivered| + Sub(seqNo, r.recvNext)] == Payload(data)
    ensures Matches(sent, Buffered(r, seqNo, data))
  {
    hide Wrap, Sub;
  }

  lemma BufferedKeeps(r: ReceiverState, seqNo: uint32, data: bytes)
    ensures Keeps(r, Buffered(r, seqNo, data))
  {
    hide Wrap;
  }

  /** ScheduleAck and its callees touch only acknowledgment bookkeeping. */
  lemma ScheduleAckHoldings(streamID: uint32, r: ReceiverState)
    ensures var r' := ScheduleAck(streamID, r).0;
            r'.recvNext == r.recvNext && r'.outOfOrder == r.outOfOrder && r'.delivered == r.delivered
  {
  }

  /** One data packet that carries what the sender put at index idx. */
  lemma DataKeepsMatches(streamID: uint32, sent: seq<Entry>, r: ReceiverState, seqNo: uint32, data: bytes, idx: nat)
    requires BufferOk(r) && Matches(sent, r)
    requires idx < |sent| && sent[idx] == Payload(data) && seqNo == Wrap(idx)
    requires |r.delivered| - HALF <= idx < |r.delivered| + HALF
    ensures var r' := ProcessData(streamID, r, seqNo, data).0;
            BufferOk(r') && Matches(sent, r') && Keeps(r, r')
  {
    hide Wrap, Sub, Matches, Keeps, BufferOk, Draining, AckCopy, PureAck, SackAck, ScheduleAck, Drain;
    assert r.recvNext == Wrap(|r.delivered|) by { BufferCounter(r); }
    var r' := ProcessData(streamID, r, seqNo, data).0;
    SignedDistance(idx, |r.delivered|);
    if seqNo == r.recvNext {
      WrapInjective(idx, |r.delivered|);
      var d := Deliver(r, data);
      DeliverNext(sent, r, data);
      DrainOk(d);
      DrainMatches(sent, d);
      KeepsTransitive(r, d, Drain(d));
      ScheduleAckHoldings(streamID, Drain(d));
      SameHoldings(Drain(d), r', sent);
      KeepsTransitive(r, Drain(d), r');
    } else if SeqGreater(seqNo, r.recvNext) {
      IndexOffset(r, idx);
      BufferedMatches(sent, r, seqNo, data);
      BufferedKeeps(r, seqNo, data);
      BufferedOk(r, seqNo, data);
      var d := Buffered(r, seqNo, data);
      SameHoldings(d, r', sent);
      KeepsTransitive(r, d, r');
    } else {
      SameHoldings(r, r', sent);
    }
  }

  lemma BufferCounter(r: ReceiverState)
    requires BufferOk(r)
    ensures r.recvNext == Wrap(|r.delivered|)
  {
  }

  // ---- Nothing is held that did not arrive ---------------------------------------------------

  /** The later state holds at most index idx besides what was held. */
  ghost predicate GainsOnly(r: ReceiverState, r': ReceiverState, idx: int) {
    forall i :: Received(r', i) ==> Received(r, i) || i == idx
  }

  lemma NoKeyAtAntipode(r: ReceiverState)
    requires Draining(r)
    ensures Wrap(|r.delivered| + HALF) !in r.outOfOrder
  {
    SubWrap(|r.delivered| + HALF, |r.delivered|);
    WrapSmall(HALF);
  }

  lemma DeliverGains(r: ReceiverState, data: bytes)
    requires Draining(r)
    ensures GainsOnly(r, Deliver(r, data), |r.delivered|)
  {
    NoKeyAtAntipode(r);
    hide Wrap, Sub;
  }

  lemma TakeOneGains(r: ReceiverState, idx: int)
    requires Draining(r) && r.recvNext in r.outOfOrder
    ensures GainsOnly(r, TakeOne(r), idx)
  {
    NoKeyAtAntipode(r);
    assert Wrap(|r.delivered|) == r.recvNext;
    hide Wrap, Sub;
    assert Received(r, |r.delivered|);
  }

  lemma {:induction false} DrainGains(r: ReceiverState, idx: int)
    requires Draining(r)
    ensures GainsOnly(r, Drain(r), idx)
    decreases |r.outOfOrder|
  {
    hide Draining, Received;
    if r.recvNext in r.outOfOrder {
      TakeOneDraining(r);
      TakeOneGains(r, idx);
      DrainGains(TakeOne(r), idx);
    }
  }

  lemma BufferedGains(r: ReceiverState, data: bytes, idx: nat)
    requires |r.delivered| <= idx < |r.delivered| + HALF
    ensures GainsOnly(r, Buffered(r, Wrap(idx), data), idx)
  {
    forall i | Received(Buffered(r, Wrap(idx), data), i) ensures Received(r, i) || i == idx {
      if Wrap(i) == Wrap(idx) && |r.delivered| <= i {
        WrapInjective(i, idx);
      }
    }
  }

  lemma HoldingsGain(r: ReceiverState, d: ReceiverState, r': ReceiverState, idx: int)
    requires GainsOnly(r, d, idx)
    requires r'.recvNext == d.recvNext && r'.outOfOrder == d.outOfOrder && r'.delivered == d.delivered
    ensures GainsOnly(r, r', idx)
  {
    hide Wrap;
    forall i | Received(r', i) ensures Received(d, i) {
    }
  }

  lemma SameGains(r: ReceiverState, idx: int)
    ensures GainsOnly(r, r, idx)
  {
  }

  /** A data packet for index idx adds at most that index to what is held. */
  lemma DataGainsOnly(streamID: uint32, r: ReceiverState, seqNo: uint32, data: bytes, idx: nat)
    requires BufferOk(r) && seqNo == Wrap(idx)
    requires |r.delivered| - HALF <= idx < |r.delivered| + HALF
    ensures GainsOnly(r, ProcessData(streamID, r, seqNo, data).0, idx)
  {
    hide Wrap, Sub, GainsOnly, BufferOk, Draining, AckCopy, PureAck, SackAck, ScheduleAck, Drain;
    assert r.recvNext == Wrap(|r.delivered|) by { BufferCounter(r); }
    var r' := ProcessData(streamID, r, seqNo, data).0;
    SignedDistance(idx, |r.delivered|);
    SameGains(r, idx);
    if seqNo == r.recvNext {
      WrapInjective(idx, |r.delivered|);
      var d := Deliver(r, data);
      DeliverDraining(r, data);
      assert Draining(r) by { BufferIsDraining(r); }
      DeliverGains(r, data);
      DrainGains(d, idx);
      GainsTwice(r, d, Drain(d), idx);
      ScheduleAckHoldings(streamID, Drain(d));
      HoldingsGain(r, Drain(d), r', idx);
    } else if SeqGreater(seqNo, r.recvNext) {
      BufferedGains(r, data, idx);
      HoldingsGain(r, Buffered(r, seqNo, data), r', idx);
    } else {
      HoldingsGain(r, r, r', idx);
    }
  }

  lemma BufferIsDraining(r: ReceiverState)
    requires BufferOk(r)
    ensures Draining(r)
  {
  }

  lemma GainsTwice(r: ReceiverState, r': ReceiverState, r'': ReceiverState, idx: int)
    requires GainsOnly(r, r', idx) && GainsOnly(r', r'', idx)
    ensures GainsOnly(r, r'', idx)
  {
    hide Received;
  }

  // ---- Why the network must not be arbitrarily late ------------------------------------------

  /** A copy of an index delivered before is recognised as a duplicate exactly when it is at most
      2^31 numbers old; an older one, up to a full turn of the counter, is taken for new data. */
  lemma DuplicateRecognisedExactly(streamID: uint32, r: ReceiverState, data: bytes, idx: nat)
    requires BufferOk(r) && |r.delivered| - 0x1_0000_0000 <= idx < |r.delivered|
    requires |r.outOfOrder| < MAX_OUT_OF_ORDER_BUFFER && Wrap(idx) !in r.outOfOrder
    ensures var r' := ProcessData(streamID, r, Wrap(idx), data).0;
            r'.delivered == r.delivered && r'.outOfOrder == r.outOfOrder <==> |r.delivered| <= idx + HALF
  {
    var d := idx - |r.delivered|;
    SubWrap(idx, |r.delivered|);
    WrapShift(d, 1);
    hide AckCopy, PureAck, SackAck;
    if d == -0x1_0000_0000 {
      WrapShift(|r.delivered|, -1);
      assert Wrap(idx) == r.recvNext;
      DeliverDraining(r, data);
      DrainOk(Deliver(r, data));
      ScheduleAckHoldings(streamID, Drain(Deliver(r, data)));
    } else {
      WrapSmall(d + 0x1_0000_0000);
      assert Sub(Wrap(idx), r.recvNext) == d + 0x1_0000_0000;
      assert Wrap(idx) != r.recvNext by { SelfOffset(r.recvNext); }
    }
  }

  // ---- What acknowledgments report -----------------------------------------------------------

  /** All buffered numbers are less than a full window ahead. */
  ghost predicate BufferInWindow(r: ReceiverState) {
    forall k :: k in r.outOfOrder ==> Sub(k, r.recvNext) < CC.MAX_CWND
  }

  /** A conforming sender keeps the buffer within one window: what is buffered was sent less than
      MAX_CWND past sendBase, and sendBase is not past recvNext. So the receiver's refusal at a full
      buffer is never reached. */
  lemma ConformingSenderFillsLess(s: SenderState, r: ReceiverState)
    requires SenderOk(s) && BufferOk(r) && s.base <= |r.delivered| && Matches(s.sent, r)
    ensures BufferInWindow(r)
    ensures |r.outOfOrder| < MAX_OUT_OF_ORDER_BUFFER
  {
    hide Wrap, Sub, Add;
    forall k | k in r.outOfOrder ensures Sub(k, r.recvNext) < CC.MAX_CWND {
      assert s.sent[|r.delivered| + Sub(k, r.recvNext)].Payload?;
    }
    var offsets := set k | k in r.outOfOrder :: Sub(k, r.recvNext);
    OffsetsAsMany(r.outOfOrder.Keys, r.recvNext, offsets);
    RangeSize(offsets, CC.MAX_CWND);
  }

  lemma {:induction false} OffsetsAsMany(keys: set<uint32>, base: uint32, offsets: set<uint32>)
    requires offsets == set k | k in keys :: Sub(k, base)
    ensures |offsets| == |keys|
  {
    hide Sub;
    if keys != {} {
      var k :| k in keys;
      var rest := keys - {k};
      var restOffsets := set k' | k' in rest :: Sub(k', base);
      OffsetsAsMany(rest, base, restOffsets);
      forall k' | k' in rest ensures Sub(k', base) != Sub(k, base) {
        SubInjective(k', k, base);
      }
      assert offsets == restOffsets + {Sub(k, base)};
    }
  }

  /** A set of integers strictly between 0 and n has fewer than n elements. */
  lemma {:induction false} RangeSize(xs: set<uint32>, n: nat)
    requires n > 0 && forall x :: x in xs ==> 0 < x < n
    ensures |xs| < n
  {
    if n == 1 {
      assert forall x :: x !in xs;
      assert xs == {};
    } else {
      RangeSize(xs - {n - 1}, n - 1);
    }
  }

  lemma BlockReportsReceived(r: ReceiverState, b: SackBlock)
    requires BufferOk(r) && BufferInWindow(r)
    requires Sub(b.left, r.recvNext) <= Sub(b.right, r.recvNext)
    requires forall k :: Contains(b, k, r.recvNext) ==> k in r.outOfOrder
    ensures BlockOk(b, |r.delivered|, r)
  {
    hide Wrap, Sub;
    var n := |r.delivered|;
    assert Contains(b, b.left, r.recvNext);
    assert Contains(b, b.right, r.recvNext);
    forall i | n + Sub(b.left, r.recvNext) <= i <= n + Sub(b.right, r.recvNext) ensures Received(r, i) {
      IndexOffset(r, i);
      assert Contains(b, Wrap(i), r.recvNext);
    }
  }

  lemma SackReportsReceived(r: ReceiverState)
    requires BufferOk(r) && BufferInWindow(r)
    ensures BlocksOk(SackBlocks(r.outOfOrder.Keys, r.recvNext), |r.delivered|, r)
    ensures |SackBlocks(r.outOfOrder.Keys, r.recvNext)| <= MAX_SACK_BLOCKS
  {
    hide Wrap, Sub, SackBlocks, Contains, BlockOk;
    var blocks := SackBlocks(r.outOfOrder.Keys, r.recvNext);
    SackBlocksExact(r.outOfOrder.Keys, r.recvNext);
    forall i | 0 <= i < |blocks| ensures BlockOk(blocks[i], |r.delivered|, r) {
      forall k | Contains(blocks[i], k, r.recvNext) ensures k in r.outOfOrder {
        assert Covered(blocks, k, r.recvNext);
      }
      BlockReportsReceived(r, blocks[i]);
    }
  }

  lemma BlockKept(b: SackBlock, n: nat, r: ReceiverState, r': ReceiverState)
    requires BlockOk(b, n, r) && Keeps(r, r')
    ensures BlockOk(b, n, r')
  {
    hide Wrap, Sub, Received;
  }

  lemma BlocksKept(blocks: seq<SackBlock>, n: nat, r: ReceiverState, r': ReceiverState)
    requires BlocksOk(blocks, n, r) && Keeps(r, r')
    ensures BlocksOk(blocks, n, r')
  {
    hide BlockOk, Keeps;
    forall i | 0 <= i < |blocks| ensures BlockOk(blocks[i], n, r') {
      BlockKept(blocks[i], n, r, r');
    }
  }
}
