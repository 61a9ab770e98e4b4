/** Exactly what an acknowledgment in the window and a timeout check do to a sender, in every run:
    which packets go on the wire again, what is still kept and with which marks, what the estimator
    and the window are told. Said through the unbounded indices and without the scans
    (pkg/tunnel/reliable.go:648-824, 1020-1061). */
module AckEffects {
  import opened SeqNum
  import opened ReliableCodec
  import CC = CongestionControl
  import RE = RttEstimation
  import opened WindowDynamics
  import opened Sender
  import opened Receiver
  import opened Endpoint
  import opened Network
  import opened SenderSafety
  import opened NetworkSafety
  import opened Safety
  import opened ScanRefinement
  import opened StreamRuns
  import opened Transmissions
  import opened Recovery

  // ---- What an acknowledgment says -----------------------------------------------------------

  /** The packet of index i is kept for retransmission. */
  ghost predicate Kept(s: SenderState, i: int) {
    Wrap(i) in s.unacked && s.unacked[Wrap(i)].idx == i
  }

  ghost function KeptAt(s: SenderState, i: int): Unacked
    requires Kept(s, i)
  {
    s.unacked[Wrap(i)]
  }

  /** Some block of an acknowledgment of the first n packets reports index i. */
  ghost predicate Reported(blocks: seq<SackBlock>, n: nat, i: int) {
    exists b :: b in blocks && Sub(b.left, Wrap(n)) <= i - n <= Sub(b.right, Wrap(n))
  }

  /** Some block reaches past index i. */
  ghost predicate Overtaken(blocks: seq<SackBlock>, n: nat, i: int) {
    exists b :: b in blocks && i - n < Sub(b.right, Wrap(n))
  }

  /** A hole: kept, never reported, and something after it has been. */
  ghost predicate Hole(s: SenderState, n: nat, blocks: seq<SackBlock>, i: int) {
    && Kept(s, i) && n <= i && !KeptAt(s, i).sacked
    && !Reported(blocks, n, i) && Overtaken(blocks, n, i)
  }

  /** Half a timeout has passed since holes were last resent. */
  predicate MayResendHoles(s: SenderState, rtt: RE.Rtt, now: int) {
    now - s.lastSackTime >= rtt.RTO() / 2 * 1_000_000
  }

  /** The third acknowledgment in a row without blocks and without progress; the oldest packet is kept. */
  ghost predicate ThirdDuplicate(s: SenderState, n: nat) {
    n == s.base && s.dupAckCount >= 2 && Kept(s, n) && !KeptAt(s, n).sacked
  }

  /** The acknowledgment makes the sender resend index i. */
  ghost predicate ResentBy(s: SenderState, n: nat, blocks: seq<SackBlock>, now: int, rtt: RE.Rtt, i: int) {
    if blocks == [] then i == n && ThirdDuplicate(s, n)
    else MayResendHoles(s, rtt, now) && Hole(s, n, blocks, i)
  }

  /** It counts as a loss: without progress also when the blocks leave no hole. */
  ghost predicate SignalsLoss(s: SenderState, n: nat, blocks: seq<SackBlock>, now: int, rtt: RE.Rtt) {
    if blocks == [] then ThirdDuplicate(s, n)
    else MayResendHoles(s, rtt, now) && (n == s.base || exists i :: Hole(s, n, blocks, i))
  }

  // ---- The scans through the indices ---------------------------------------------------------

  lemma KeyIndex(s: SenderState, k: uint32)
    requires SenderOk(s) && k in s.unacked
    ensures Kept(s, s.unacked[k].idx) && k == Wrap(s.unacked[k].idx)
    ensures s.base <= s.unacked[k].idx < s.base + HALF
  {
    assert KeyOk(s, k);
  }

  lemma BlocksThroughIndices(s: SenderState, n: nat, blocks: seq<SackBlock>, k: uint32)
    requires SenderOk(s) && s.base <= n <= s.base + CC.MAX_CWND && BlocksInWindow(blocks, Wrap(n))
    requires k in s.unacked && n <= s.unacked[k].idx
    ensures InSack(blocks, k) <==> Reported(blocks, n, s.unacked[k].idx)
  {
    KeyIndex(s, k);
    KeyVersusAck(s, n, k);
    hide Wrap, Sub, SeqLess, SeqLessOrEqual, SenderOk;
    var i := s.unacked[k].idx;
    forall j | 0 <= j < |blocks|
      ensures InBlock(blocks[j], k) <==> Sub(blocks[j].left, Wrap(n)) <= i - n <= Sub(blocks[j].right, Wrap(n))
    {
      OffsetsCompare(k, blocks[j].left, Wrap(n));
      OffsetsCompare(k, blocks[j].right, Wrap(n));
    }
    if InSack(blocks, k) {
      var j :| 0 <= j < |blocks| && InBlock(blocks[j], k);
      assert blocks[j] in blocks;
    }
  }

  lemma HighestThroughIndices(s: SenderState, n: nat, blocks: seq<SackBlock>, k: uint32)
    requires SenderOk(s) && s.base <= n <= s.base + CC.MAX_CWND && BlocksInWindow(blocks, Wrap(n)) && blocks != []
    requires k in s.unacked && n <= s.unacked[k].idx
    ensures SeqLess(k, MaxRight(blocks)) <==> Overtaken(blocks, n, s.unacked[k].idx)
  {
    KeyIndex(s, k);
    KeyVersusAck(s, n, k);
    MaxRightIsMax(blocks, Wrap(n));
    MaxRightIsOne(blocks);
    OffsetsCompare(k, MaxRight(blocks), Wrap(n));
    hide Wrap, Sub, SeqLess, SenderOk, MaxRight;
    var i := s.unacked[k].idx;
    var j :| 0 <= j < |blocks| && MaxRight(blocks) == blocks[j].right;
    assert blocks[j] in blocks;
    if Overtaken(blocks, n, i) {
      var b :| b in blocks && i - n < Sub(b.right, Wrap(n));
    }
  }

  lemma CandidateIsHole(s: SenderState, n: nat, blocks: seq<SackBlock>, k: uint32)
    requires SenderOk(s) && s.base <= n <= s.base + CC.MAX_CWND && BlocksInWindow(blocks, Wrap(n)) && blocks != []
    requires k in s.unacked && n <= s.unacked[k].idx
    ensures LossCandidate(s.unacked, k, blocks) <==> Hole(s, n, blocks, s.unacked[k].idx)
  {
    KeyIndex(s, k);
    BlocksThroughIndices(s, n, blocks, k);
    HighestThroughIndices(s, n, blocks, k);
    hide Wrap, SenderOk, InSack, MaxRight, SeqLess, Reported, Overtaken;
  }

  /** Nothing before index n is kept. */
  ghost predicate Trimmed(s: SenderState, n: nat) {
    SenderOk(s) && s.base <= n <= s.base + CC.MAX_CWND && forall k :: k in s.unacked ==> n <= s.unacked[k].idx
  }

  lemma KeysAfterAck(s: SenderState, n: nat)
    requires Trimmed(s, n)
    ensures ScanRefinement.After(s.unacked, Wrap(n)) && OneKeyPerIndex(s.unacked)
  {
    hide Wrap, Sub, SeqLess;
    KeysByIndex(s);
    forall k | k in s.unacked ensures Sub(k, Wrap(n)) < 0x8000_0000 {
      KeyIndex(s, k);
      KeyVersusAck(s, n, k);
    }
  }

  lemma ScansThroughIndices(s: SenderState, n: nat, blocks: seq<SackBlock>)
    requires Trimmed(s, n) && BlocksInWindow(blocks, Wrap(n)) && blocks != []
    ensures var lost := Lost(s.unacked, Wrap(n), SackSpan(blocks, Wrap(n)), blocks);
            && Distinct(lost)
            && forall k :: k in lost <==> k in s.unacked && Hole(s, n, blocks, s.unacked[k].idx)
    ensures var newly := NewlySacked(s.unacked, Wrap(n), SackSpan(blocks, Wrap(n)), blocks);
            forall k :: k in newly <==>
              k in s.unacked && !s.unacked[k].sacked && Reported(blocks, n, s.unacked[k].idx)
  {
    KeysAfterAck(s, n);
    LostDistinct(s.unacked, Wrap(n), SackSpan(blocks, Wrap(n)), blocks);
    LostScanExact(s.unacked, Wrap(n), blocks);
    MarkScanExact(s.unacked, Wrap(n), blocks);
    hide Wrap, Lost, NewlySacked, SackSpan, InSack, SenderOk, Distinct, BlocksInWindow, Hole, Reported, LossCandidate;
    forall k | k in s.unacked
      ensures LossCandidate(s.unacked, k, blocks) <==> Hole(s, n, blocks, s.unacked[k].idx)
      ensures InSack(blocks, k) <==> Reported(blocks, n, s.unacked[k].idx)
    {
      CandidateIsHole(s, n, blocks, k);
      BlocksThroughIndices(s, n, blocks, k);
    }
  }

  // ---- What is resent and what is marked -----------------------------------------------------

  function AfterAck(u: Unacked, reported: bool, resent: bool, now: int): Unacked {
    u.(sacked := u.sacked || reported,
       retries := if resent then u.retries + 1 else u.retries,
       sentTime := if resent then now else u.sentTime)
  }

  /** One copy of each packet the acknowledgment calls for, and of no other. */
  ghost predicate SendsCalledFor(s: SenderState, n: nat, blocks: seq<SackBlock>, now: int, rtt: RE.Rtt,
        out: seq<Copy>) {
    forall i: nat :: CopiesOf(out, i) == if ResentBy(s, n, blocks, now, rtt, i) then 1 else 0
  }

  ghost predicate MarksCalledFor(s: SenderState, n: nat, blocks: seq<SackBlock>, now: int, rtt: RE.Rtt,
        m: map<uint32, Unacked>) {
    && (forall k :: k in m <==> k in s.unacked && n <= s.unacked[k].idx)
    && (forall k :: k in m ==>
         var u := s.unacked[k];
         m[k] == AfterAck(u, Reported(blocks, n, u.idx), ResentBy(s, n, blocks, now, rtt, u.idx), now))
  }

  lemma CopiesOfKeys(s: SenderState, keys: seq<uint32>, i: nat)
    requires SenderOk(s) && OneKeyPerIndex(s.unacked) && Distinct(keys)
    requires forall j :: 0 <= j < |keys| ==> keys[j] in s.unacked
    ensures CopiesOf(Copies(s.unacked, keys), i) == if Kept(s, i) && Wrap(i) in keys then 1 else 0
  {
    CopiesOfEach(s.unacked, keys, i);
    hide Wrap, CopiesOf, Copies, OneKeyPerIndex, Distinct, SenderOk;
    if k :| k in s.unacked && s.unacked[k].idx == i {
      KeyIndex(s, k);
    }
  }

  lemma HoleIsKept(s: SenderState, n: nat, blocks: seq<SackBlock>, lost: seq<uint32>)
    requires SenderOk(s)
    requires forall k :: k in lost <==> k in s.unacked && Hole(s, n, blocks, s.unacked[k].idx)
    ensures forall i :: Hole(s, n, blocks, i) <==> Kept(s, i) && Wrap(i) in lost
  {
    hide Wrap, Reported, Overtaken, SenderOk;
  }

  lemma HolesSent(s: SenderState, n: nat, blocks: seq<SackBlock>, now: int, rtt: RE.Rtt)
    requires Trimmed(s, n) && BlocksInWindow(blocks, Wrap(n)) && blocks != []
    requires MayResendHoles(s, rtt, now)
    ensures var lost := Lost(s.unacked, Wrap(n), SackSpan(blocks, Wrap(n)), blocks);
            && SendsCalledFor(s, n, blocks, now, rtt, Copies(s.unacked, lost))
            && (lost != [] <==> exists i :: Hole(s, n, blocks, i))
  {
    KeysAfterAck(s, n);
    ScansThroughIndices(s, n, blocks);
    var lost := Lost(s.unacked, Wrap(n), SackSpan(blocks, Wrap(n)), blocks);
    hide Lost, NewlySacked, SackSpan, SenderOk, Distinct, BlocksInWindow, OneKeyPerIndex, CopiesOf, Copies, Wrap;
    HoleIsKept(s, n, blocks, lost);
    hide Hole, Kept, MayResendHoles;
    forall i: nat ensures CopiesOf(Copies(s.unacked, lost), i) == if Hole(s, n, blocks, i) then 1 else 0 {
      CopiesOfKeys(s, lost, i);
    }
    if lost != [] {
      assert lost[0] in lost;
    }
    if i :| Hole(s, n, blocks, i) {
      assert Wrap(i) in lost;
    }
  }

  lemma HolesMarked(s: SenderState, n: nat, blocks: seq<SackBlock>, now: int, rtt: RE.Rtt)
    requires Trimmed(s, n) && BlocksInWindow(blocks, Wrap(n)) && blocks != []
    requires MayResendHoles(s, rtt, now)
    ensures var span := SackSpan(blocks, Wrap(n));
            var marked := MarkSacked(s.unacked, NewlySacked(s.unacked, Wrap(n), span, blocks));
            MarksCalledFor(s, n, blocks, now, rtt, MarkResent(marked, Lost(s.unacked, Wrap(n), span, blocks), now))
  {
    ScansThroughIndices(s, n, blocks);
    hide Lost, NewlySacked, SackSpan, SenderOk, Distinct, BlocksInWindow, Wrap, Reported, Hole;
  }

  lemma HolesResent(s: SenderState, n: nat, blocks: seq<SackBlock>, now: int, rtt: RE.Rtt)
    requires Trimmed(s, n) && BlocksInWindow(blocks, Wrap(n)) && blocks != []
    requires MayResendHoles(s, rtt, now)
    ensures var span := SackSpan(blocks, Wrap(n));
            var lost := Lost(s.unacked, Wrap(n), span, blocks);
            var marked := MarkSacked(s.unacked, NewlySacked(s.unacked, Wrap(n), span, blocks));
            && SendsCalledFor(s, n, blocks, now, rtt, Copies(s.unacked, lost))
            && MarksCalledFor(s, n, blocks, now, rtt, MarkResent(marked, lost, now))
            && (lost != [] <==> exists i :: Hole(s, n, blocks, i))
  {
    hide *;
    HolesSent(s, n, blocks, now, rtt);
    HolesMarked(s, n, blocks, now, rtt);
  }

  lemma HolesWait(s: SenderState, n: nat, blocks: seq<SackBlock>, now: int, rtt: RE.Rtt)
    requires Trimmed(s, n) && BlocksInWindow(blocks, Wrap(n)) && blocks != []
    requires !MayResendHoles(s, rtt, now) || !exists i :: Hole(s, n, blocks, i)
    ensures var marked := MarkSacked(s.unacked, NewlySacked(s.unacked, Wrap(n), SackSpan(blocks, Wrap(n)), blocks));
            SendsCalledFor(s, n, blocks, now, rtt, []) && MarksCalledFor(s, n, blocks, now, rtt, marked)
  {
    ScansThroughIndices(s, n, blocks);
    hide Lost, NewlySacked, SackSpan, SenderOk, Distinct, BlocksInWindow, Wrap, Hole, Reported;
  }

  lemma OldestResent(s: SenderState, now: int, rtt: RE.Rtt)
    requires Trimmed(s, s.base)
    ensures ThirdDuplicate(s, s.base) ==>
              && s.sendBase in s.unacked
              && SendsCalledFor(s, s.base, [], now, rtt, Copies(s.unacked, [s.sendBase]))
              && MarksCalledFor(s, s.base, [], now, rtt, MarkResent(s.unacked, [s.sendBase], now))
    ensures !ThirdDuplicate(s, s.base) ==>
              SendsCalledFor(s, s.base, [], now, rtt, []) && MarksCalledFor(s, s.base, [], now, rtt, s.unacked)
    ensures ThirdDuplicate(s, s.base) <==>
              s.dupAckCount >= 2 && s.sendBase in s.unacked && !s.unacked[s.sendBase].sacked
  {
    KeysAfterAck(s, s.base);
    forall k | k in s.unacked ensures Kept(s, s.unacked[k].idx) && k == Wrap(s.unacked[k].idx) {
      KeyIndex(s, k);
    }
    assert s.sendBase == Wrap(s.base) && s.sendBase in s.unacked ==> s.unacked[s.sendBase].idx == s.base by {
      OldestKey(s);
    }
    hide Wrap, SenderOk, OneKeyPerIndex, CopiesOf, Copies;
    if s.sendBase in s.unacked {
      forall i: nat
        ensures CopiesOf(Copies(s.unacked, [s.sendBase]), i) == if Kept(s, i) && i == s.base then 1 else 0
      {
        CopiesOfKeys(s, [s.sendBase], i);
      }
    }
    NothingSent();
  }

  lemma NothingSent()
    ensures forall i: nat :: CopiesOf([], i) == 0
  {
  }

  lemma OldestKey(s: SenderState)
    requires SenderOk(s)
    ensures s.sendBase == Wrap(s.base)
    ensures s.sendBase in s.unacked ==> s.unacked[s.sendBase].idx == s.base
  {
    if s.sendBase in s.unacked {
      assert KeyOk(s, s.sendBase);
      WrapInjective(s.unacked[s.sendBase].idx, s.base);
    }
  }

  // ---- The two paths -------------------------------------------------------------------------

  lemma IntervalIsHalfTimeout(r: RE.Rtt)
    requires RtoInRange(r)
    ensures SackInterval(r) == r.RTO() / 2 * 1_000_000
  {
    assert r.RTO() >= 100;
  }

  lemma DuplicateEffect(s: SenderState, blocks: seq<SackBlock>, now: int)
    requires Trimmed(s, s.base) && BlocksInWindow(blocks, Wrap(s.base)) && RtoInRange(s.rtt)
    ensures var (t, out) := DuplicateAck(s, blocks, now);
            && SendsCalledFor(s, s.base, blocks, now, s.rtt, out)
            && MarksCalledFor(s, s.base, blocks, now, s.rtt, t.unacked)
            && t == s.(unacked := t.unacked,
                       dupAckCount := if blocks == [] && s.dupAckCount >= 2 then 0 else s.dupAckCount + 1,
                       lastSackTime := if blocks != [] && MayResendHoles(s, s.rtt, now) then now else s.lastSackTime,
                       cc := if SignalsLoss(s, s.base, blocks, now, s.rtt)
                             then CC.OnLoss(s.cc, now, RoundTripNs(s.rtt)) else s.cc)
  {
    IntervalIsHalfTimeout(s.rtt);
    OldestKey(s);
    LossHalves(s.cc, now, s.rtt);
    assert CC.LossIntervalNs(s.rtt) == RoundTripNs(s.rtt);
    hide SackInterval, CC.LossIntervalNs, RoundTripNs, CC.OnLoss, Trimmed, RtoInRange;
    hide SackSpan, NewlySacked, Lost, Copies, MarkSacked, MarkResent, Wrap, BlocksInWindow, Hole;
    hide SendsCalledFor, MarksCalledFor;
    if blocks == [] {
      OldestResent(s, now, s.rtt);
      hide ThirdDuplicate;
    } else if MayResendHoles(s, s.rtt, now) {
      HolesResent(s, s.base, blocks, now, s.rtt);
    } else {
      HolesWait(s, s.base, blocks, now, s.rtt);
    }
  }

  lemma SelectiveEffect(s: SenderState, n: nat, blocks: seq<SackBlock>, now: int)
    requires Trimmed(s, n) && s.base < n && BlocksInWindow(blocks, Wrap(n)) && RtoInRange(s.rtt)
    ensures var (t, out) := Selective(s, Wrap(n), blocks, now);
            var loss := SignalsLoss(s, n, blocks, now, s.rtt);
            && SendsCalledFor(s, n, blocks, now, s.rtt, out)
            && MarksCalledFor(s, n, blocks, now, s.rtt, t.unacked)
            && t == s.(unacked := t.unacked,
                       lastSackTime := if loss then now else s.lastSackTime,
                       cc := if loss then CC.OnLoss(s.cc, now, RoundTripNs(s.rtt)) else s.cc)
  {
    IntervalIsHalfTimeout(s.rtt);
    assert CC.LossIntervalNs(s.rtt) == RoundTripNs(s.rtt) by { LossHalves(s.cc, now, s.rtt); }
    hide SackInterval, CC.LossIntervalNs, RoundTripNs, CC.OnLoss, RtoInRange;
    hide SackSpan, NewlySacked, Lost, Copies, MarkSacked, MarkResent, Wrap, BlocksInWindow;
    if blocks == [] {
      NothingSent();
      hide CopiesOf, SenderOk;
    } else if MayResendHoles(s, s.rtt, now) {
      HolesResent(s, n, blocks, now, s.rtt);
      hide SendsCalledFor, MarksCalledFor, Trimmed, Hole;
      if !exists i :: Hole(s, n, blocks, i) {
        HolesWait(s, n, blocks, now, s.rtt);
      }
    } else {
      hide SendsCalledFor, MarksCalledFor, Trimmed, Hole;
      HolesWait(s, n, blocks, now, s.rtt);
    }
  }

  // ---- The samples ---------------------------------------------------------------------------

  /** How long a packet has been out, in whole milliseconds, toward zero. */
  function AgeMs(u: Unacked, now: int): int {
    if now >= u.sentTime then (now - u.sentTime) / 1_000_000 else -((u.sentTime - now) / 1_000_000)
  }

  /** xs are the ages of the packets at indices `from`: all those before index n that are kept and have
      not been resent, in order. */
  ghost predicate AgesOf(s: SenderState, n: nat, now: int, xs: seq<int>, from: seq<int>) {
    && |xs| == |from|
    && (forall j :: 0 <= j < |from| ==>
         && Kept(s, from[j]) && s.base <= from[j] < n
         && KeptAt(s, from[j]).retries == 0 && xs[j] == AgeMs(KeptAt(s, from[j]), now))
    && (forall i, j :: 0 <= i < j < |from| ==> from[i] < from[j])
    && (forall i :: Kept(s, i) && s.base <= i < n && KeptAt(s, i).retries == 0 ==> i in from)
  }

  lemma OneMoreAge(s: SenderState, n: nat, now: int, xs: seq<int>, from: seq<int>)
    requires SenderOk(s) && s.base <= n && AgesOf(s, n, now, xs, from)
    ensures Kept(s, n) && KeptAt(s, n).retries == 0 ==>
              AgesOf(s, n + 1, now, xs + [AgeMs(KeptAt(s, n), now)], from + [n])
    ensures !(Kept(s, n) && KeptAt(s, n).retries == 0) ==> AgesOf(s, n + 1, now, xs, from)
  {
    hide Wrap, SenderOk, AgeMs;
    assert Kept(s, n) ==> n in from + [n];
  }

  lemma KeyKept(s: SenderState, i: nat)
    requires SenderOk(s) && s.base <= i < s.base + HALF
    ensures Wrap(i) in s.unacked <==> Kept(s, i)
    ensures Wrap(i) == Add(s.sendBase, i - s.base)
  {
    AddWrap(s.base, i - s.base);
    if Wrap(i) in s.unacked {
      assert KeyOk(s, Wrap(i));
      WrapInjective(s.unacked[Wrap(i)].idx, i);
    }
  }

  /** The scan samples each such packet once. */
  lemma {:induction false} SamplesAreAges(s: SenderState, n: nat, now: int) returns (from: seq<int>)
    requires SenderOk(s) && s.base <= n <= s.base + CC.MAX_CWND
    ensures AgesOf(s, n, now, Samples(s.unacked, s.sendBase, n - s.base, now), from)
  {
    hide Wrap, Add, SenderOk, AgesOf, AgeMs;
    if n == s.base {
      from := [];
      assert AgesOf(s, n, now, [], from) by { NoAges(s, now); }
    } else {
      from := SamplesAreAges(s, n - 1, now);
      var xs := Samples(s.unacked, s.sendBase, n - 1 - s.base, now);
      OneMoreAge(s, n - 1, now, xs, from);
      KeyKept(s, n - 1);
      assert xs + [] == xs;
      if Kept(s, n - 1) && KeptAt(s, n - 1).retries == 0 {
        AgeIsSample(KeptAt(s, n - 1), now);
        from := from + [n - 1];
      }
    }
  }

  lemma NoAges(s: SenderState, now: int)
    ensures AgesOf(s, s.base, now, [], [])
  {
  }

  lemma AgeIsSample(u: Unacked, now: int)
    ensures SampleOf(u, now) == AgeMs(u, now)
  {
  }

  /** The first acknowledgment with blocks on a stream never waits: its clock would have to be before 1970. */
  lemma FirstHolesNotDelayed(now: int)
    requires now >= 0
    ensures MayResendHoles(NewSender(), NewSender().rtt, now)
  {
  }

  // ---- The whole handler ---------------------------------------------------------------------

  ghost function AckedBy(s: SenderState, n: nat): set<uint32> {
    set k | k in s.unacked && s.unacked[k].idx < n
  }

  /** The window after an acknowledgment: at most one loss, then the packets acknowledged. */
  ghost function WindowAfter(s: SenderState, n: nat, loss: bool, now: int, rtt: RE.Rtt): CC.Congestion
    requires CC.Valid(s.cc)
  {
    var reduced := if loss then CC.OnLoss(s.cc, now, RoundTripNs(rtt)) else s.cc;
    if n == s.base then reduced else CC.OnAckAdvance(reduced, |AckedBy(s, n)|)
  }

  /** The state after an acknowledgment of the first n packets, and the packets sent. */
  ghost predicate AckEffect(s: SenderState, n: nat, blocks: seq<SackBlock>, now: int, t: SenderState, out: seq<Copy>)
    requires CC.Valid(s.cc)
  {
    var loss := SignalsLoss(s, n, blocks, now, t.rtt);
    && SendsCalledFor(s, n, blocks, now, t.rtt, out)
    && MarksCalledFor(s, n, blocks, now, t.rtt, t.unacked)
    && t.base == n && t.sendBase == Wrap(n) && t.sent == s.sent && t.sendSeq == s.sendSeq
    && t.dupAckCount == (if n > s.base || (blocks == [] && s.dupAckCount >= 2) then 0 else s.dupAckCount + 1)
    && t.lastSackTime == (if blocks != [] && loss then now else s.lastSackTime)
    && t.cc == WindowAfter(s, n, loss, now, t.rtt)
    && (n == s.base ==> t.rtt == s.rtt)
    && (n > s.base ==> exists xs: seq<int>, from: seq<int> ::
         AgesOf(s, n, now, xs, from) && t.rtt == RE.UpdatedAll(s.rtt, xs))
  }

  lemma CumulativeThroughIndices(s: SenderState, n: nat, now: int)
    requires SenderOk(s) && s.base < n <= s.base + CC.MAX_CWND
    ensures var c := Cumulative(s, Wrap(n), now);
            && Trimmed(c, n)
            && (forall k :: k in c.unacked <==> k in s.unacked && n <= s.unacked[k].idx)
            && (forall k :: k in c.unacked ==> c.unacked[k] == s.unacked[k])
            && Scanned(s.unacked, s.sendBase, AckSpan(Wrap(n), s.sendBase)) == AckedBy(s, n)
            && AckSpan(Wrap(n), s.sendBase) == n - s.base
  {
    AckCompare(s, n);
    forall k | k in s.unacked
      ensures k in Scanned(s.unacked, s.sendBase, AckSpan(Wrap(n), s.sendBase)) <==> s.unacked[k].idx < n
    {
      ScanIsPrefix(s, n, k);
    }
    hide Wrap, Samples, RE.UpdatedAll, AckSpan, Scanned;
    var c := Cumulative(s, Wrap(n), now);
    forall k | k in c.unacked ensures KeyOk(c, k) {
      assert KeyOk(s, k);
    }
  }

  lemma CalledForAlike(c: SenderState, s: SenderState, n: nat, blocks: seq<SackBlock>, now: int, rtt: RE.Rtt)
    requires c.base == s.base < n && c.lastSackTime == s.lastSackTime
    requires forall k :: k in c.unacked <==> k in s.unacked && n <= s.unacked[k].idx
    requires forall k :: k in c.unacked ==> c.unacked[k] == s.unacked[k]
    ensures forall i :: ResentBy(c, n, blocks, now, rtt, i) <==> ResentBy(s, n, blocks, now, rtt, i)
    ensures SignalsLoss(c, n, blocks, now, rtt) <==> SignalsLoss(s, n, blocks, now, rtt)
  {
    hide Wrap, Reported, Overtaken;
    forall i ensures Hole(c, n, blocks, i) <==> Hole(s, n, blocks, i) {
    }
    hide Hole, MayResendHoles;
  }

  lemma DuplicateExactly(s: SenderState, blocks: seq<SackBlock>, now: int)
    requires SenderOk(s) && CC.Valid(s.cc) && BlocksInWindow(blocks, Wrap(s.base)) && RtoInRange(s.rtt)
    ensures var (t, out) := DuplicateAck(s, blocks, now); AckEffect(s, s.base, blocks, now, t, out)
  {
    assert Trimmed(s, s.base) by { AllFromBase(s); }
    DuplicateEffect(s, blocks, now);
    assert s.sendBase == Wrap(s.base) by { OldestKey(s); }
    hide SenderOk, DuplicateAck, SendsCalledFor, MarksCalledFor, BlocksInWindow, RtoInRange, CC.OnLoss, RoundTripNs,
      CC.Valid, ThirdDuplicate, Hole, Wrap;
  }

  lemma AllFromBase(s: SenderState)
    requires SenderOk(s)
    ensures Trimmed(s, s.base)
  {
    forall k | k in s.unacked ensures s.base <= s.unacked[k].idx {
      assert KeyOk(s, k);
    }
  }

  lemma CalledForCarriesOver(c: SenderState, s: SenderState, n: nat, blocks: seq<SackBlock>, now: int, rtt: RE.Rtt,
        m: map<uint32, Unacked>, out: seq<Copy>)
    requires c.base == s.base < n && c.lastSackTime == s.lastSackTime
    requires forall k :: k in c.unacked <==> k in s.unacked && n <= s.unacked[k].idx
    requires forall k :: k in c.unacked ==> c.unacked[k] == s.unacked[k]
    requires SendsCalledFor(c, n, blocks, now, rtt, out) && MarksCalledFor(c, n, blocks, now, rtt, m)
    ensures SendsCalledFor(s, n, blocks, now, rtt, out) && MarksCalledFor(s, n, blocks, now, rtt, m)
    ensures SignalsLoss(c, n, blocks, now, rtt) <==> SignalsLoss(s, n, blocks, now, rtt)
  {
    CalledForAlike(c, s, n, blocks, now, rtt);
    hide ResentBy, SignalsLoss, Reported, CopiesOf;
  }

  lemma NewAckExactly(s: SenderState, n: nat, blocks: seq<SackBlock>, now: int)
    requires SenderOk(s) && CC.Valid(s.cc) && s.base < n <= s.base + CC.MAX_CWND
    requires BlocksInWindow(blocks, Wrap(n)) && RtoInRange(s.rtt)
    ensures var (t, out) := NewAck(s, Wrap(n), blocks, now); AckEffect(s, n, blocks, now, t, out)
  {
    var c := Cumulative(s, Wrap(n), now);
    var (d, out) := Selective(c, Wrap(n), blocks, now);
    CumulativeThroughIndices(s, n, now);
    assert RtoInRange(c.rtt) by {
      UpdatesKeepRange(s.rtt, Samples(s.unacked, s.sendBase, AckSpan(Wrap(n), s.sendBase), now));
    }
    var from := SamplesAreAges(s, n, now);
    hide SenderOk, Samples, RtoInRange, CC.Valid, RE.UpdatedAll, AckSpan, Scanned, AckedBy, BlocksInWindow;
    SelectiveEffect(c, n, blocks, now);
    CalledForCarriesOver(c, s, n, blocks, now, c.rtt, d.unacked, out);
    AdvancedTo(s, n, blocks, now);
    hide Selective, Trimmed, SendsCalledFor, MarksCalledFor, SignalsLoss, CC.OnLoss, RoundTripNs, AgesOf;
    hide Wrap, CC.OnAckAdvance, NewAck;
  }

  lemma AdvancedTo(s: SenderState, n: nat, blocks: seq<SackBlock>, now: int)
    requires SenderOk(s) && CC.Valid(s.cc) && s.base < n <= s.base + CC.MAX_CWND
    ensures var (d, out) := Selective(Cumulative(s, Wrap(n), now), Wrap(n), blocks, now);
            && CC.Valid(d.cc)
            && NewAck(s, Wrap(n), blocks, now)
               == (d.(sendBase := Wrap(n), base := n, cc := CC.OnAckAdvance(d.cc, |AckedBy(s, n)|)), out)
  {
    AckCompare(s, n);
    CumulativeThroughIndices(s, n, now);
    hide SenderOk, Samples, RE.UpdatedAll, AckSpan, Scanned, AckedBy, Wrap, Trimmed, AckInRange, Sub, SeqGreater;
    SelectiveKeeps(Cumulative(s, Wrap(n), now), Wrap(n), blocks, now);
    hide Selective, CC.OnAckAdvance, CC.Valid;
  }

  lemma SelectiveKeeps(s: SenderState, ack: uint32, blocks: seq<SackBlock>, now: int)
    requires CC.Valid(s.cc)
    ensures var d := Selective(s, ack, blocks, now).0; CC.Valid(d.cc) && d.base == s.base && d.sendBase == s.sendBase
  {
    SelectiveShrinks(s, ack, blocks, now);
    hide Selective, CC.Valid, Shrinks, FromMap, NewlySacked, SackSpan;
  }

  /** An acknowledgment in the window has exactly the effect the indices say. */
  lemma AckExactly(s: SenderState, n: nat, blocks: seq<SackBlock>, now: int)
    requires SenderOk(s) && CC.Valid(s.cc) && s.base <= n <= s.base + CC.MAX_CWND
    requires BlocksInWindow(blocks, Wrap(n)) && RtoInRange(s.rtt)
    ensures var (t, out) := ProcessAck(s, Wrap(n), blocks, now); AckEffect(s, n, blocks, now, t, out)
  {
    AckCompare(s, n);
    hide SenderOk, Wrap, AckEffect, DuplicateAck, NewAck, BlocksInWindow, RtoInRange, CC.Valid, AckSpan;
    if n == s.base {
      DuplicateExactly(s, blocks, now);
    } else {
      NewAckExactly(s, n, blocks, now);
    }
  }

  // ---- Stale acknowledgments -----------------------------------------------------------------

  /** What a stale acknowledgment forgets: everything up to the bound of the scan. */
  ghost function Forgotten(s: SenderState): set<uint32> {
    set k | k in s.unacked && s.unacked[k].idx < s.base + 32768
  }

  lemma NothingInReach(s: SenderState, m: map<uint32, Unacked>, n: nat, blocks: seq<SackBlock>)
    requires SenderOk(s) && AckInRange(s, n) && n < s.base && BlocksInWindow(blocks, Wrap(n)) && blocks != []
    requires m == s.unacked - Forgotten(s)
    ensures Lost(m, Wrap(n), SackSpan(blocks, Wrap(n)), blocks) == []
    ensures NewlySacked(m, Wrap(n), SackSpan(blocks, Wrap(n)), blocks) == {}
  {
    SpanReachesMaxRight(blocks, Wrap(n));
    MaxRightIsMax(blocks, Wrap(n));
    var lost := Lost(m, Wrap(n), SackSpan(blocks, Wrap(n)), blocks);
    assert lost == [] || lost[0] in lost;
    LostScan(m, Wrap(n), SackSpan(blocks, Wrap(n)), blocks);
    hide Wrap, Sub, SenderOk, SackSpan, AckInRange;
    forall k | k in m ensures Sub(k, Wrap(n)) >= CC.MAX_CWND {
      if Sub(k, Wrap(n)) < CC.MAX_CWND {
        KeyFromAck(s, n, k);
      }
    }
  }

  lemma StaleCumulative(s: SenderState, n: nat, now: int)
    requires SenderOk(s) && AckInRange(s, n) && n < s.base
    ensures Scanned(s.unacked, s.sendBase, AckSpan(Wrap(n), s.sendBase)) == Forgotten(s)
    ensures var c := Cumulative(s, Wrap(n), now);
            c == s.(dupAckCount := 0, rtt := c.rtt, unacked := s.unacked - Forgotten(s))
  {
    forall k | k in s.unacked
      ensures k in Scanned(s.unacked, s.sendBase, AckSpan(Wrap(n), s.sendBase)) <==> s.unacked[k].idx < s.base + 32768
    {
      StaleScan(s, n, k);
    }
    hide SenderOk, AckSpan, Wrap, Sub, Samples, RE.UpdatedAll;
  }

  /** An acknowledgment behind sendBase resends nothing and marks nothing; it forgets every packet up to
      32768 past sendBase, and counts them all as acknowledged when it grows the window. */
  lemma StaleAckExactly(s: SenderState, n: nat, blocks: seq<SackBlock>, now: int)
    requires SenderOk(s) && CC.Valid(s.cc) && AckInRange(s, n) && n < s.base && BlocksInWindow(blocks, Wrap(n))
    ensures var (t, out) := ProcessAck(s, Wrap(n), blocks, now);
            && out == []
            && (forall k :: k in t.unacked <==> k in s.unacked && s.unacked[k].idx >= s.base + 32768)
            && (forall k :: k in t.unacked ==> t.unacked[k] == s.unacked[k])
            && t == s.(unacked := t.unacked, dupAckCount := 0, rtt := t.rtt,
                       cc := CC.OnAckAdvance(s.cc, |Forgotten(s)|))
  {
    AckCompare(s, n);
    StaleCumulative(s, n, now);
    var c := Cumulative(s, Wrap(n), now);
    if blocks != [] {
      NothingInReach(s, c.unacked, n, blocks);
    }
    assert CC.Valid(c.cc);
    assert MarkSacked(c.unacked, {}) == c.unacked;
    hide Cumulative, SenderOk, Wrap, AckSpan, Lost, NewlySacked, SackSpan, SackInterval, CC.OnAckAdvance, CC.OnLoss,
      CC.LossIntervalNs, CC.Valid, BlocksInWindow, MarkSacked, MarkResent, Copies, Scanned;
  }

  // ---- Timeout checks ------------------------------------------------------------------------

  /** Out for longer than the timeout and not reported. */
  ghost predicate Overdue(s: SenderState, i: int, now: int) {
    Kept(s, i) && !KeptAt(s, i).sacked && now - KeptAt(s, i).sentTime > s.rtt.RTO() * 1_000_000
  }

  ghost predicate ResentByCheck(s: SenderState, i: int, now: int) {
    Overdue(s, i, now) && KeptAt(s, i).retries < 20
  }

  ghost predicate GivenUpByCheck(s: SenderState, i: int, now: int) {
    Overdue(s, i, now) && KeptAt(s, i).retries >= 20
  }

  /** One copy of each overdue packet, up to twenty times; after that it is forgotten. The first resend
      of a check also doubles the timeout and counts as one loss. */
  ghost predicate CheckEffect(s: SenderState, now: int, t: SenderState) {
    var resends := exists i :: ResentByCheck(s, i, now);
    && (forall k :: k in t.unacked <==> k in s.unacked && !GivenUpByCheck(s, s.unacked[k].idx, now))
    && (forall k :: k in t.unacked ==>
         t.unacked[k] == AfterAck(s.unacked[k], false, ResentByCheck(s, s.unacked[k].idx, now), now))
    && t == s.(unacked := t.unacked,
               cc := if resends then CC.OnLoss(s.cc, now, RoundTripNs(s.rtt)) else s.cc,
               rtt := if resends then s.rtt.(rto := if s.rtt.rto > 2000.0 then 4000.0 else 2.0 * s.rtt.rto) else s.rtt)
  }

  lemma CheckExactly(s: SenderState, now: int)
    requires SenderOk(s)
    ensures CheckEffect(s, now, CheckRetransmit(s, now))
    ensures forall k :: k in Due(s, now) <==> k in s.unacked && ResentByCheck(s, s.unacked[k].idx, now)
  {
    assert CC.LossIntervalNs(s.rtt) == RoundTripNs(s.rtt) by { LossHalves(s.cc, now, s.rtt); }
    forall k | k in s.unacked ensures Kept(s, s.unacked[k].idx) && k == Wrap(s.unacked[k].idx) {
      KeyIndex(s, k);
    }
    hide SenderOk, Wrap, CC.LossIntervalNs, RoundTripNs, CC.OnLoss, RE.Rtt.RTO;
    if k :| k in Due(s, now) {
      assert ResentByCheck(s, s.unacked[k].idx, now);
    }
    if i :| ResentByCheck(s, i, now) {
      assert Wrap(i) in Due(s, now);
    }
  }

  // ---- In every run --------------------------------------------------------------------------

  lemma RtoRangeInRuns(streamID: uint32, es: seq<Event>)
    ensures RtoInRange(Reach(streamID, es).a.snd.rtt)
  {
    hide Inv, Run;
    InitDrives(streamID);
    HistoriesDrive(Init(streamID), es, []);
    RE.RtoWithinBounds([] + RttHistory(Init(streamID), es));
  }

  lemma BlocksOkInWindow(blocks: seq<SackBlock>, n: nat, r: ReceiverState)
    requires BlocksOk(blocks, n, r)
    ensures BlocksInWindow(blocks, Wrap(n))
  {
    hide Wrap, Sub;
    forall i | 0 <= i < |blocks|
      ensures Sub(blocks[i].left, Wrap(n)) <= Sub(blocks[i].right, Wrap(n)) < CC.MAX_CWND
    {
      assert BlockOk(blocks[i], n, r);
    }
  }

  /** Copies of kept packets. */
  ghost predicate CopiesKept(s: SenderState, out: seq<Copy>) {
    forall c :: c in out ==> Kept(s, c.idx) && c == CopyOf(KeptAt(s, c.idx))
  }

  lemma FromMapKept(s: SenderState, out: seq<Copy>)
    requires SenderOk(s) && FromMap(out, s.unacked)
    ensures CopiesKept(s, out)
  {
    hide SenderOk, Wrap;
    forall c | c in out ensures Kept(s, c.idx) && c == CopyOf(KeptAt(s, c.idx)) {
      var k :| k in s.unacked && c == CopyOf(s.unacked[k]);
      KeyIndex(s, k);
    }
  }

  lemma ReceiveAckExactly(x: EndpointState, p: ReliablePacket, n: nat, now: int)
    requires SenderOk(x.snd) && CC.Valid(x.snd.cc) && x.snd.base <= n <= x.snd.base + CC.MAX_CWND && p.HasAck()
    requires p.ack == Wrap(n) && BlocksInWindow(p.sackBlocks, Wrap(n)) && RtoInRange(x.snd.rtt)
    ensures var (x1, out) := ReceiveAck(x, p, now);
            AckEffect(x.snd, n, p.sackBlocks, now, x1.snd, out) && CopiesKept(x.snd, out)
  {
    AckExactly(x.snd, n, p.sackBlocks, now);
    ProcessAckShrinks(x.snd, p.ack, p.sackBlocks, now);
    FromMapKept(x.snd, ProcessAck(x.snd, p.ack, p.sackBlocks, now).1);
    hide SenderOk, ProcessAck, AckEffect, FromMap, Wrap, CC.Valid, CopiesKept;
  }

  /** In every run, an acknowledgment that is not behind sendBase puts on the wire one copy of each packet
      it calls for and of no other, and leaves the sender in exactly that state: the oldest packet at the
      third duplicate without blocks; with blocks, when half a timeout has passed since the last time,
      every hole below the highest block, on either path. */
  lemma AckInRuns(streamID: uint32, es: seq<Event>, c: Copy, now: int) returns (out: seq<Copy>)
    requires Enabled(Reach(streamID, es), DoReceive(c, now)) && CC.Valid(Reach(streamID, es).a.snd.cc)
    requires Decode(c.wire).pkt.HasAck() && Reach(streamID, es).a.snd.base <= c.ackIdx
    ensures var s := Reach(streamID, es);
            var t := Step(s, Event(true, DoReceive(c, now)));
            && AckEffect(s.a.snd, c.ackIdx, Decode(c.wire).pkt.sackBlocks, now, t.a.snd, out)
            && CopiesKept(s.a.snd, out) && Elements(out) <= t.ab
            && forall i: nat :: Emitted(s.a, DoReceive(c, now), i) == CopiesOf(out, i)
  {
    var s := Reach(streamID, es);
    var p := Decode(c.wire).pkt;
    RtoRangeInRuns(streamID, es);
    hide Reach;
    AckInFlight(s, c);
    BlocksOkInWindow(p.sackBlocks, c.ackIdx, s.b.rcv);
    DeliveredInWindow(s.a.snd, s.b.rcv);
    ReceiveAckExactly(s.a, p, c.ackIdx, now);
    ReceiveSender(s.a, p, now);
    out := ReceiveAck(s.a, p, now).1;
    hide Inv, SenderOk, Matches, BlocksOk, BlocksInWindow, AckEffect, CopiesKept, CopiesOf, ReceiveAck, Decode;
    hide FreshFor, CC.Valid, RtoInRange, Wrap, ProcessData, Drain;
  }

  /** In every run, a timeout check puts on the wire one copy of each overdue packet with retries left
      and of no other, and leaves the sender in exactly that state. */
  lemma CheckInRuns(streamID: uint32, es: seq<Event>, now: int)
    ensures var s := Reach(streamID, es);
            var t := Step(s, Event(true, DoTick(now)));
            && CheckEffect(s.a.snd, now, t.a.snd)
            && (forall i :: ResentByCheck(s.a.snd, i, now) ==> CopyOf(KeptAt(s.a.snd, i)) in t.ab)
            && (CC.Valid(s.a.snd.cc) ==>
                 forall i: nat :: Emitted(s.a, DoTick(now), i) == if ResentByCheck(s.a.snd, i, now) then 1 else 0)
  {
    var s := Reach(streamID, es);
    hide Reach;
    LocalBuffer(s.a, s.ab);
    CheckExactly(s.a.snd, now);
    KeysByIndex(s.a.snd);
    forall k | k in s.a.snd.unacked ensures Kept(s.a.snd, s.a.snd.unacked[k].idx) && k == Wrap(s.a.snd.unacked[k].idx) {
      KeyIndex(s.a.snd, k);
    }
    hide Inv, SenderOk, CheckEffect, Wrap, CC.Valid, CheckRetransmit, Due, Overdue, OneKeyPerIndex;
    forall i: nat ensures Emitted(s.a, DoTick(now), i) == if ResentByCheck(s.a.snd, i, now) then 1 else 0 {
      TickCounts(s.a.snd, now, i);
    }
  }
}
