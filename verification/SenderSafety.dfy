/** The sender's side of the network invariant: what acknowledgments and timeouts do to the
    retransmission map, read through the unbounded indices. */
module SenderSafety {
  import opened SeqNum
  import opened ReliableCodec
  import CC = CongestionControl
  import RttEstimation
  import opened Sender
  import opened Receiver
  import opened Network

  /** The later map holds only packets of the earlier one, with the same bytes, and marks at most
      `newly` besides what was marked. */
  ghost predicate Shrinks(m: map<uint32, Unacked>, m': map<uint32, Unacked>, newly: set<uint32>) {
    forall k :: k in m' ==>
      k in m && CopyOf(m'[k]) == CopyOf(m[k]) && (m'[k].sacked ==> m[k].sacked || k in newly)
  }

  /** Every copy sent out is one kept in the map. */
  ghost predicate FromMap(out: seq<Copy>, m: map<uint32, Unacked>) {
    forall c :: c in out ==> exists k :: k in m && c == CopyOf(m[k])
  }

  /** The keys one acknowledgment marks. */
  function Marked(s: SenderState, ack: uint32, blocks: seq<SackBlock>): set<uint32> {
    if blocks == [] then {}
    else
      var rest := if ack == s.sendBase then s.unacked
                  else s.unacked - Scanned(s.unacked, s.sendBase, AckSpan(ack, s.sendBase));
      NewlySacked(rest, ack, SackSpan(blocks, ack), blocks)
  }

  lemma CopiesFromMap(m: map<uint32, Unacked>, keys: seq<uint32>)
    requires forall i :: 0 <= i < |keys| ==> keys[i] in m
    ensures FromMap(Copies(m, keys), m)
  {
    forall c | c in Copies(m, keys) ensures exists k :: k in m && c == CopyOf(m[k]) {
      var i :| 0 <= i < |keys| && c == Copies(m, keys)[i];
      assert keys[i] in m && c == CopyOf(m[keys[i]]);
    }
  }

  lemma MarkResentShrinks(m: map<uint32, Unacked>, newly: set<uint32>, keys: seq<uint32>, now: int)
    ensures Shrinks(m, MarkSacked(m, newly), newly)
    ensures Shrinks(m, MarkResent(MarkSacked(m, newly), keys, now), newly)
    ensures Shrinks(m, MarkResent(m, keys, now), newly)
    ensures Shrinks(m, m, newly)
  {
  }

  lemma DuplicateAckShrinks(s: SenderState, blocks: seq<SackBlock>, now: int)
    requires CC.Valid(s.cc)
    ensures var (s', out) := DuplicateAck(s, blocks, now);
            && Shrinks(s.unacked, s'.unacked, Marked(s, s.sendBase, blocks))
            && FromMap(out, s.unacked)
            && s' == s.(dupAckCount := s'.dupAckCount, lastSackTime := s'.lastSackTime,
                        unacked := s'.unacked, cc := s'.cc)
            && CC.Valid(s'.cc)
            && s'.unacked.Keys == s.unacked.Keys
  {
    hide SackSpan, NewlySacked, Shrinks, FromMap, Lost, Copies, SackInterval, CC.LossIntervalNs, Wrap;
    var span := if blocks == [] then 0 else SackSpan(blocks, s.sendBase);
    var newly := Marked(s, s.sendBase, blocks);
    if blocks != [] {
      var lost := Lost(s.unacked, s.sendBase, span, blocks);
      MarkResentShrinks(s.unacked, newly, lost, now);
      CopiesFromMap(s.unacked, lost);
    } else {
      MarkResentShrinks(s.unacked, newly, [s.sendBase], now);
      if s.sendBase in s.unacked {
        CopiesFromMap(s.unacked, [s.sendBase]);
      }
    }
    NoCopies(s.unacked);
  }

  lemma NoCopies(m: map<uint32, Unacked>)
    ensures FromMap([], m)
  {
  }

  lemma SelectiveShrinks(s: SenderState, ack: uint32, blocks: seq<SackBlock>, now: int)
    requires CC.Valid(s.cc)
    ensures var (s', out) := Selective(s, ack, blocks, now);
            var newly := if blocks == [] then {} else NewlySacked(s.unacked, ack, SackSpan(blocks, ack), blocks);
            && Shrinks(s.unacked, s'.unacked, newly)
            && FromMap(out, s.unacked)
            && s' == s.(lastSackTime := s'.lastSackTime, unacked := s'.unacked, cc := s'.cc)
            && CC.Valid(s'.cc)
            && s'.unacked.Keys == s.unacked.Keys
  {
    hide SackSpan, NewlySacked, Shrinks, FromMap, Lost, Copies, SackInterval, CC.LossIntervalNs, Wrap;
    NoCopies(s.unacked);
    if blocks != [] {
      var span := SackSpan(blocks, ack);
      var lost := Lost(s.unacked, ack, span, blocks);
      MarkResentShrinks(s.unacked, NewlySacked(s.unacked, ack, span, blocks), lost, now);
      CopiesFromMap(s.unacked, lost);
    } else {
      MarkResentShrinks(s.unacked, {}, [], now);
    }
  }

  /** What one acknowledgment changes: packets leave the map or change their marks; sendBase moves
      forward or stays; nothing new appears. */
  lemma ProcessAckShrinks(s: SenderState, ack: uint32, blocks: seq<SackBlock>, now: int)
    requires CC.Valid(s.cc)
    ensures var (s', out) := ProcessAck(s, ack, blocks, now);
            && Shrinks(s.unacked, s'.unacked, Marked(s, ack, blocks))
            && FromMap(out, s.unacked)
            && s'.sent == s.sent && s'.sendSeq == s.sendSeq
            && s'.sendBase == (if ack != s.sendBase && SeqGreater(ack, s.sendBase) then ack else s.sendBase)
            && s'.base == (if ack != s.sendBase && SeqGreater(ack, s.sendBase)
                           then s.base + Sub(ack, s.sendBase) else s.base)
            && s'.unacked.Keys == (if ack == s.sendBase then s.unacked.Keys
                 else s.unacked.Keys - Scanned(s.unacked, s.sendBase, AckSpan(ack, s.sendBase)))
  {
    hide Scanned, AckSpan, SackSpan, NewlySacked, FromMap, Selective, DuplicateAck, Wrap, SeqGreater, Sub,
      Samples, RttEstimation.UpdatedAll;
    if ack == s.sendBase {
      DuplicateAckShrinks(s, blocks, now);
    } else {
      var c := Cumulative(s, ack, now);
      SelectiveShrinks(c, ack, blocks, now);
      var out := Selective(c, ack, blocks, now).1;
      assert forall k :: k in c.unacked ==> k in s.unacked && c.unacked[k] == s.unacked[k];
      FromMapMonotone(out, c.unacked, s.unacked);
    }
  }

  /** Past the duplicate path, only packets that survive the cumulative part are retransmitted. */
  lemma NewAckSendsKept(s: SenderState, ack: uint32, blocks: seq<SackBlock>, now: int)
    requires CC.Valid(s.cc) && ack != s.sendBase
    ensures FromMap(ProcessAck(s, ack, blocks, now).1,
            s.unacked - Scanned(s.unacked, s.sendBase, AckSpan(ack, s.sendBase)))
  {
    hide Scanned, AckSpan, SackSpan, NewlySacked, FromMap, Selective, Wrap, SeqGreater, Sub, Samples,
      RttEstimation.UpdatedAll;
    SelectiveShrinks(Cumulative(s, ack, now), ack, blocks, now);
  }

  lemma FromMapMonotone(out: seq<Copy>, m: map<uint32, Unacked>, m': map<uint32, Unacked>)
    requires FromMap(out, m) && forall k :: k in m ==> k in m' && m'[k] == m[k]
    ensures FromMap(out, m')
  {
  }

  // ---- Through the indices -------------------------------------------------------------------

  lemma KeyOffset(s: SenderState, k: uint32)
    requires SenderOk(s) && k in s.unacked
    ensures Sub(k, s.sendBase) == s.unacked[k].idx - s.base
  {
    assert KeyOk(s, k);
    SubWrap(s.unacked[k].idx, s.base);
    WrapSmall(s.unacked[k].idx - s.base);
  }

  /** The index range in which an acknowledgment of a conforming peer lies. */
  ghost predicate AckInRange(s: SenderState, ackIdx: nat) {
    s.base - HALF <= ackIdx <= s.base + CC.MAX_CWND
  }

  lemma AckCompare(s: SenderState, ackIdx: nat)
    requires SenderOk(s) && AckInRange(s, ackIdx)
    ensures SeqGreater(Wrap(ackIdx), s.sendBase) <==> ackIdx > s.base
    ensures Wrap(ackIdx) == s.sendBase <==> ackIdx == s.base
    ensures ackIdx >= s.base ==> Sub(Wrap(ackIdx), s.sendBase) == ackIdx - s.base
    ensures ackIdx >= s.base ==> AckSpan(Wrap(ackIdx), s.sendBase) == ackIdx - s.base
    ensures ackIdx < s.base ==> AckSpan(Wrap(ackIdx), s.sendBase) == 2 * CC.MAX_CWND
  {
    SignedDistance(ackIdx, s.base);
    if Wrap(ackIdx) == s.sendBase {
      WrapInjective(ackIdx, s.base);
    }
    if ackIdx >= s.base {
      SubWrap(ackIdx, s.base);
      WrapSmall(ackIdx - s.base);
    }
  }

  /** In range, the cumulative scan removes exactly what lies before the acknowledgment. */
  lemma ScanIsPrefix(s: SenderState, ackIdx: nat, k: uint32)
    requires SenderOk(s) && AckInRange(s, ackIdx) && ackIdx > s.base && k in s.unacked
    ensures k in Scanned(s.unacked, s.sendBase, AckSpan(Wrap(ackIdx), s.sendBase)) <==> s.unacked[k].idx < ackIdx
  {
    AckCompare(s, ackIdx);
    KeyOffset(s, k);
  }

  /** A stale acknowledgment, behind sendBase, makes the scan remove whatever lies within the
      defensive bound after sendBase: the peer never acknowledged any of it. */
  lemma StaleScan(s: SenderState, ackIdx: nat, k: uint32)
    requires SenderOk(s) && AckInRange(s, ackIdx) && ackIdx < s.base && k in s.unacked
    ensures k in Scanned(s.unacked, s.sendBase, AckSpan(Wrap(ackIdx), s.sendBase))
       <==> s.unacked[k].idx < s.base + 2 * CC.MAX_CWND
  {
    AckCompare(s, ackIdx);
    KeyOffset(s, k);
  }

  lemma KeyFromAck(s: SenderState, ackIdx: nat, k: uint32)
    requires SenderOk(s) && AckInRange(s, ackIdx) && k in s.unacked
    requires Sub(k, Wrap(ackIdx)) < 2 * CC.MAX_CWND
    ensures s.unacked[k].idx == ackIdx + Sub(k, Wrap(ackIdx))
  {
    assert KeyOk(s, k);
    var i := s.unacked[k].idx;
    SubWrap(i, ackIdx);
    var d := i - ackIdx;
    if d >= 0 {
      WrapSmall(d);
    } else {
      WrapShift(d, 1);
      WrapSmall(d + 0x1_0000_0000);
    }
  }

  /** A key the SACK scan marks has been received: the wrapped block test is the index test. */
  lemma MarkedWasReceived(s: SenderState, ackIdx: nat, blocks: seq<SackBlock>, r: ReceiverState, k: uint32)
    requires SenderOk(s) && AckInRange(s, ackIdx) && BlocksOk(blocks, ackIdx, r)
    requires k in s.unacked && Sub(k, Wrap(ackIdx)) < 2 * CC.MAX_CWND && InSack(blocks, k)
    ensures Received(r, s.unacked[k].idx)
  {
    hide SenderOk, Wrap, Sub, Received;
    var i :| 0 <= i < |blocks| && InBlock(blocks[i], k);
    assert BlockOk(blocks[i], ackIdx, r);
    OffsetsCompare(k, blocks[i].left, Wrap(ackIdx));
    OffsetsCompare(k, blocks[i].right, Wrap(ackIdx));
    KeyFromAck(s, ackIdx, k);
  }

  lemma MarkedReceived(s: SenderState, ackIdx: nat, blocks: seq<SackBlock>, r: ReceiverState)
    requires SenderOk(s) && AckInRange(s, ackIdx) && BlocksOk(blocks, ackIdx, r)
    ensures forall k :: k in Marked(s, Wrap(ackIdx), blocks) ==> k in s.unacked && Received(r, s.unacked[k].idx)
  {
    hide SenderOk, Wrap, Sub, Received, BlocksOk, AckInRange, InSack, Scanned, AckSpan;
    forall k | k in Marked(s, Wrap(ackIdx), blocks) ensures k in s.unacked && Received(r, s.unacked[k].idx) {
      MarkedWasReceived(s, ackIdx, blocks, r, k);
    }
  }

  /** The sender after an acknowledgment that a conforming receiver r sent at index ackIdx. */
  lemma ProcessAckOk(s: SenderState, ackIdx: nat, blocks: seq<SackBlock>, now: int, r: ReceiverState)
    requires SenderOk(s) && Direction(s, r) && AckInRange(s, ackIdx)
    requires ackIdx <= |r.delivered| && BlocksOk(blocks, ackIdx, r)
    ensures var (s', out) := ProcessAck(s, Wrap(ackIdx), blocks, now);
            && SenderOk(s') && Direction(s', r)
            && s'.base == (if ackIdx > s.base then ackIdx else s.base)
  {
    hide Wrap, Sub, Add, Received, BlocksOk, Scanned, AckSpan, ProcessAck, Matches, CC.Valid;
    ProcessAckShrinks(s, Wrap(ackIdx), blocks, now);
    MarkedReceived(s, ackIdx, blocks, r);
    AckCompare(s, ackIdx);
    var s' := ProcessAck(s, Wrap(ackIdx), blocks, now).0;
    assert s'.base == if ackIdx > s.base then ackIdx else s.base;
    assert r.delivered == r.delivered && |r.delivered| <= |s.sent| by { MatchesLength(s.sent, r); }
    forall k | k in s'.unacked ensures KeyOk(s', k) {
      assert KeyOk(s, k);
      if ackIdx > s.base {
        ScanIsPrefix(s, ackIdx, k);
      }
    }
  }

  lemma MatchesLength(sent: seq<Entry>, r: ReceiverState)
    requires Matches(sent, r)
    ensures |r.delivered| <= |sent|
  {
  }

  /** What a conforming peer acknowledges is at most a window past sendBase. */
  lemma DeliveredInWindow(s: SenderState, r: ReceiverState)
    requires SenderOk(s) && Matches(s.sent, r)
    ensures |r.delivered| <= s.base + CC.MAX_CWND
  {
    hide Wrap, Sub;
    if |r.delivered| > 0 {
      assert s.sent[|r.delivered| - 1].Payload?;
    }
  }

  lemma CheckRetransmitOk(s: SenderState, now: int, r: ReceiverState)
    requires SenderOk(s) && Direction(s, r)
    ensures var s' := CheckRetransmit(s, now);
            SenderOk(s') && Direction(s', r) && Shrinks(s.unacked, s'.unacked, {}) && s'.base == s.base
              && s'.sent == s.sent
  {
    hide Wrap, Sub, Received, Matches;
    var s' := CheckRetransmit(s, now);
    forall k | k in s'.unacked ensures KeyOk(s', k) {
      assert KeyOk(s, k);
    }
  }

  /** Sending spends an index: a payload only while the window is open. */
  lemma RecordOk(s: SenderState, entry: Entry, pkt: ReliablePacket, ackIdx: nat, now: int, r: ReceiverState)
    requires SenderOk(s) && Direction(s, r)
    requires entry.Payload? ==> WindowOpen(s)
    requires entry.Fin? ==> |s.sent| + 1 < s.base + HALF
    ensures SenderOk(Record(s, entry, pkt, ackIdx, now)) && Direction(Record(s, entry, pkt, ackIdx, now), r)
  {
    hide Wrap, Sub, Received, Encode;
    var s' := Record(s, entry, pkt, ackIdx, now);
    AddWrap(|s.sent|, 1);
    SignedDistance(|s.sent|, s.base);
    forall k | k in s'.unacked ensures KeyOk(s', k) {
      if k != s.sendSeq {
        assert KeyOk(s, k);
      }
    }
    assert Matches(s'.sent, r);
  }
}
