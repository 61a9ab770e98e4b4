/** The sequence-range scans of processAck and markSackedAndCollectGaps against the plain reading of
    what they are for: filters over the whole retransmission map (pkg/tunnel/reliable.go:648-697,
    763-785). */
module ScanRefinement {
  import opened SeqNum
  import opened ReliableCodec
  import CC = CongestionControl
  import opened Sender
  import opened Network
  import opened SenderSafety

  /** Blocks lie within a window after the acknowledgment number. */
  ghost predicate BlocksInWindow(blocks: seq<SackBlock>, ack: uint32) {
    forall i :: 0 <= i < |blocks| ==> Sub(blocks[i].left, ack) <= Sub(blocks[i].right, ack) < CC.MAX_CWND
  }

  // ---- What the scans mean, independently of how they run ------------------------------------

  /** Everything before the acknowledgment number. */
  ghost function Before(m: map<uint32, Unacked>, ack: uint32): set<uint32> {
    set k | k in m && SeqLess(k, ack)
  }

  /** Everything unmarked that some block covers. */
  ghost function CoveredUnmarked(m: map<uint32, Unacked>, blocks: seq<SackBlock>): set<uint32> {
    set k | k in m && !m[k].sacked && InSack(blocks, k)
  }

  /** Everything unmarked, uncovered and before the highest right edge. */
  ghost function Gaps(m: map<uint32, Unacked>, blocks: seq<SackBlock>): set<uint32>
    requires blocks != []
  {
    set k | k in m && LossCandidate(m, k, blocks)
  }

  // ---- The lemmas ----------------------------------------------------------------------------

  lemma {:induction false} MaxRightIsMax(blocks: seq<SackBlock>, ack: uint32)
    requires blocks != [] && BlocksInWindow(blocks, ack)
    ensures Sub(MaxRight(blocks), ack) < CC.MAX_CWND
    ensures forall i :: 0 <= i < |blocks| ==> Sub(blocks[i].right, ack) <= Sub(MaxRight(blocks), ack)
  {
    hide Wrap, Sub;
    if |blocks| > 1 {
      var init := blocks[..|blocks| - 1];
      assert forall i :: 0 <= i < |init| ==> init[i] == blocks[i];
      assert BlocksInWindow(init, ack);
      MaxRightIsMax(init, ack);
      OffsetsCompare(blocks[|blocks| - 1].right, MaxRight(init), ack);
      assert forall i :: 0 <= i < |init| ==> Sub(init[i].right, ack) <= Sub(MaxRight(init), ack);
    }
  }

  /** The keys left by the cumulative part lie in the half circle after the acknowledgment. */
  ghost predicate After(m: map<uint32, Unacked>, ack: uint32) {
    forall k :: k in m ==> Sub(k, ack) < 0x8000_0000
  }

  lemma KeyVersusAck(s: SenderState, ackIdx: nat, k: uint32)
    requires SenderOk(s) && s.base <= ackIdx <= s.base + CC.MAX_CWND && k in s.unacked
    ensures SeqLess(k, Wrap(ackIdx)) <==> s.unacked[k].idx < ackIdx
    ensures s.unacked[k].idx >= ackIdx ==> Sub(k, Wrap(ackIdx)) == s.unacked[k].idx - ackIdx
  {
    assert KeyOk(s, k);
    SignedDistance(s.unacked[k].idx, ackIdx);
    if s.unacked[k].idx >= ackIdx {
      SubWrap(s.unacked[k].idx, ackIdx);
      WrapSmall(s.unacked[k].idx - ackIdx);
    }
  }

  /** Removed = keys before the acknowledgment; what remains is after it. */
  lemma CumulativeScanExact(s: SenderState, ackIdx: nat)
    requires SenderOk(s) && s.base <= ackIdx <= s.base + CC.MAX_CWND
    ensures Scanned(s.unacked, s.sendBase, AckSpan(Wrap(ackIdx), s.sendBase)) == Before(s.unacked, Wrap(ackIdx))
    ensures After(s.unacked - Before(s.unacked, Wrap(ackIdx)), Wrap(ackIdx))
  {
    hide Wrap, Sub, AckSpan, SeqLess;
    AckCompare(s, ackIdx);
    forall k | k in s.unacked
      ensures k in Scanned(s.unacked, s.sendBase, AckSpan(Wrap(ackIdx), s.sendBase)) <==> SeqLess(k, Wrap(ackIdx))
      ensures !SeqLess(k, Wrap(ackIdx)) ==> Sub(k, Wrap(ackIdx)) < 0x8000_0000
    {
      assert KeyOk(s, k);
      KeyOffset(s, k);
      KeyVersusAck(s, ackIdx, k);
    }
  }

  lemma SpanReachesMaxRight(blocks: seq<SackBlock>, ack: uint32)
    requires blocks != [] && BlocksInWindow(blocks, ack)
    ensures SackSpan(blocks, ack) == Sub(MaxRight(blocks), ack) + 1
  {
    MaxRightIsMax(blocks, ack);
    NextDistance(MaxRight(blocks), ack);
    hide Wrap, Sub, MaxRight, BlocksInWindow;
  }

  /** Newly marked = unmarked keys in some block. */
  lemma MarkScanExact(m: map<uint32, Unacked>, ack: uint32, blocks: seq<SackBlock>)
    requires blocks != [] && BlocksInWindow(blocks, ack) && After(m, ack)
    ensures NewlySacked(m, ack, SackSpan(blocks, ack), blocks) == CoveredUnmarked(m, blocks)
  {
    hide Wrap, Sub, SackSpan, SeqLess, SeqLessOrEqual;
    SpanReachesMaxRight(blocks, ack);
    MaxRightIsMax(blocks, ack);
    forall k | k in m && InSack(blocks, k) ensures Sub(k, ack) < SackSpan(blocks, ack) {
      var i :| 0 <= i < |blocks| && InBlock(blocks[i], k);
      OffsetsCompare(k, blocks[i].right, ack);
    }
  }

  lemma LostScanExact(m: map<uint32, Unacked>, ack: uint32, blocks: seq<SackBlock>)
    requires blocks != [] && BlocksInWindow(blocks, ack) && After(m, ack)
    ensures forall k :: k in Lost(m, ack, SackSpan(blocks, ack), blocks) <==> k in Gaps(m, blocks)
  {
    hide Wrap, Sub, SackSpan, SeqLess;
    SpanReachesMaxRight(blocks, ack);
    MaxRightIsMax(blocks, ack);
    LostScan(m, ack, SackSpan(blocks, ack), blocks);
    forall k | LossCandidate(m, k, blocks) ensures Sub(k, ack) < SackSpan(blocks, ack) {
      OffsetsCompare(k, MaxRight(blocks), ack);
    }
  }

  /** On acknowledgments that are not stale and in the window, the range scans have the effect of
      filtering the whole map: removed = the keys before the acknowledgment; newly marked = the
      unmarked rest in some block; lost = the unmarked rest outside all blocks and before the highest
      right edge, each once, in ascending order. */
  lemma ScansAreFilters(s: SenderState, ackIdx: nat, blocks: seq<SackBlock>)
    requires SenderOk(s) && s.base <= ackIdx <= s.base + CC.MAX_CWND
    requires BlocksInWindow(blocks, Wrap(ackIdx))
    ensures var ack := Wrap(ackIdx);
            var removed := Before(s.unacked, ack);
            var rest := s.unacked - removed;
            && Scanned(s.unacked, s.sendBase, AckSpan(ack, s.sendBase)) == removed
            && (blocks != [] ==>
                 var span := SackSpan(blocks, ack);
                 && NewlySacked(rest, ack, span, blocks) == CoveredUnmarked(rest, blocks)
                 && (forall k :: k in Lost(rest, ack, span, blocks) <==> k in Gaps(rest, blocks))
                 && (forall i, j :: 0 <= i < j < |Lost(rest, ack, span, blocks)| ==>
                      SeqLess(Lost(rest, ack, span, blocks)[i], Lost(rest, ack, span, blocks)[j])))
  {
    hide Wrap, Sub, SackSpan, AckSpan, SeqLess, SenderOk, Lost, BlocksInWindow, LossCandidate;
    var ack := Wrap(ackIdx);
    CumulativeScanExact(s, ackIdx);
    var rest := s.unacked - Before(s.unacked, ack);
    if blocks != [] {
      MarkScanExact(rest, ack, blocks);
      LostScanExact(rest, ack, blocks);
      LostScan(rest, ack, SackSpan(blocks, ack), blocks);
      var lost := Lost(rest, ack, SackSpan(blocks, ack), blocks);
      forall i, j | 0 <= i < j < |lost| ensures SeqLess(lost[i], lost[j]) {
        LostKeys(rest, ack, blocks, lost[i], lost[j]);
      }
    }
  }

  lemma LostKeys(m: map<uint32, Unacked>, ack: uint32, blocks: seq<SackBlock>, k: uint32, k': uint32)
    requires After(m, ack) && k in m && k' in m
    ensures SeqLess(k, k') <==> Sub(k, ack) < Sub(k', ack)
  {
    OffsetsCompare(k, k', ack);
  }
}
