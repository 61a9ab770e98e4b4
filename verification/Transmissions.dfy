/** How often each packet has been put on the wire, counted over whole runs, and Karn's rule stated
    with that count: a round-trip sample only ever comes from a packet sent exactly once
    (pkg/tunnel/reliable.go:575-585, 733-740, 779-782, 1041-1046). */
module Transmissions {
  import opened SeqNum
  import opened ReliableCodec
  import CC = CongestionControl
  import RE = RttEstimation
  import opened Sender
  import opened Receiver
  import opened Endpoint
  import opened Network
  import opened SenderSafety
  import opened NetworkSafety
  import opened Safety
  import opened StreamRuns

  /** The copies of index i in a sequence of packets handed to the network. */
  function CopiesOf(out: seq<Copy>, i: nat): nat {
    if out == [] then 0
    else CopiesOf(out[..|out| - 1], i) + (if out[|out| - 1].idx == i then 1 else 0)
  }

  /** How many copies of its index i an action of endpoint x puts on the wire. The acknowledgments it
      sends besides spend no number. */
  ghost function Emitted(x: EndpointState, act: Action, i: nat): nat
    requires CC.Valid(x.snd.cc)
  {
    match act
    case DoSend(data, now) => CopiesOf(Endpoint.Send(x, data, now).1, i)
    case DoSendClose(now) => CopiesOf(Endpoint.SendClose(x, now).1, i)
    case DoReceive(c, now) =>
      if Decode(c.wire).Parsed? then CopiesOf(ReceiveAck(x, Decode(c.wire).pkt, now).1, i) else 0
    case DoTick(now) => |set c | c in Tick(x, now).1 && c.idx == i|
    case _ => 0
  }

  /** How many copies of endpoint a's index i a run has put on the wire. */
  ghost function Transmitted(s: System, es: seq<Event>, i: nat): nat
    requires Inv(s)
  {
    if es == [] then 0
    else
      var t, e := Run(s, es[..|es| - 1]), es[|es| - 1];
      InvValid(t);
      Transmitted(s, es[..|es| - 1], i) + (if e.byA && Enabled(t, e.act) then Emitted(t.a, e.act, i) else 0)
  }

  // ---- Acknowledgments -----------------------------------------------------------------------

  ghost predicate OneKeyPerIndex(m: map<uint32, Unacked>) {
    forall k, k' :: k in m && k' in m && m[k].idx == m[k'].idx ==> k == k'
  }

  ghost predicate Distinct(keys: seq<uint32>) {
    forall i, j :: 0 <= i < j < |keys| ==> keys[i] != keys[j]
  }

  lemma {:induction false} CopiesOfEach(m: map<uint32, Unacked>, keys: seq<uint32>, i: nat)
    requires OneKeyPerIndex(m) && Distinct(keys) && forall j :: 0 <= j < |keys| ==> keys[j] in m
    ensures forall k :: k in m && m[k].idx == i ==> CopiesOf(Copies(m, keys), i) == if k in keys then 1 else 0
    ensures (forall k :: k in m ==> m[k].idx != i) ==> CopiesOf(Copies(m, keys), i) == 0
  {
    if keys != [] {
      var init, last := keys[..|keys| - 1], keys[|keys| - 1];
      CopiesOfEach(m, init, i);
      assert Copies(m, keys)[..|keys| - 1] == Copies(m, init);
      assert keys == init + [last];
      assert last !in init;
    }
  }

  lemma LostDistinct(m: map<uint32, Unacked>, ack: uint32, span: nat, blocks: seq<SackBlock>)
    requires blocks != [] && span <= 2 * CC.MAX_CWND
    ensures Distinct(Lost(m, ack, span, blocks))
  {
    LostScan(m, ack, span, blocks);
    hide Lost;
  }

  /** Every packet kept: its retry count grew by the copies of its index that went out. */
  ghost predicate Counts(m: map<uint32, Unacked>, m': map<uint32, Unacked>, out: seq<Copy>) {
    forall k :: k in m' ==>
      k in m && m'[k].idx == m[k].idx && m'[k].retries == m[k].retries + CopiesOf(out, m[k].idx)
  }

  ghost predicate OnlyKnown(m: map<uint32, Unacked>, out: seq<Copy>) {
    forall i: nat :: (forall k :: k in m ==> m[k].idx != i) ==> CopiesOf(out, i) == 0
  }

  lemma CopiesCount(m: map<uint32, Unacked>, m': map<uint32, Unacked>, keys: seq<uint32>)
    requires OneKeyPerIndex(m) && Distinct(keys) && forall j :: 0 <= j < |keys| ==> keys[j] in m
    requires forall k :: k in m' ==>
               k in m && m'[k].idx == m[k].idx && m'[k].retries == m[k].retries + (if k in keys then 1 else 0)
    ensures Counts(m, m', Copies(m, keys))
  {
    forall k | k in m' ensures CopiesOf(Copies(m, keys), m[k].idx) == if k in keys then 1 else 0 {
      CopiesOfEach(m, keys, m[k].idx);
    }
    hide CopiesOf, Copies, OneKeyPerIndex, Distinct;
  }

  lemma CopiesKnown(m: map<uint32, Unacked>, keys: seq<uint32>)
    requires OneKeyPerIndex(m) && Distinct(keys) && forall j :: 0 <= j < |keys| ==> keys[j] in m
    ensures OnlyKnown(m, Copies(m, keys))
  {
    hide CopiesOf, Copies;
    forall i: nat ensures (forall k :: k in m ==> m[k].idx != i) ==> CopiesOf(Copies(m, keys), i) == 0 {
      CopiesOfEach(m, keys, i);
    }
  }

  lemma ResentCounts(m: map<uint32, Unacked>, newly: set<uint32>, keys: seq<uint32>, now: int)
    requires OneKeyPerIndex(m) && Distinct(keys) && forall j :: 0 <= j < |keys| ==> keys[j] in m
    ensures Counts(m, MarkResent(MarkSacked(m, newly), keys, now), Copies(m, keys))
    ensures Counts(m, MarkResent(m, keys, now), Copies(m, keys))
    ensures OnlyKnown(m, Copies(m, keys))
  {
    hide CopiesOf, Copies, Counts, OneKeyPerIndex, Distinct, OnlyKnown;
    CopiesKnown(m, keys);
    CopiesCount(m, MarkResent(MarkSacked(m, newly), keys, now), keys);
    CopiesCount(m, MarkResent(m, keys, now), keys);
  }

  lemma NothingCounts(m: map<uint32, Unacked>, newly: set<uint32>)
    ensures Counts(m, MarkSacked(m, newly), []) && Counts(m, m, []) && OnlyKnown(m, [])
  {
  }

  lemma DuplicateCounts(s: SenderState, blocks: seq<SackBlock>, now: int)
    requires OneKeyPerIndex(s.unacked)
    ensures var (s', out) := DuplicateAck(s, blocks, now);
            Counts(s.unacked, s'.unacked, out) && OnlyKnown(s.unacked, out)
  {
    hide SackSpan, NewlySacked, Lost, Copies, SackInterval, CC.LossIntervalNs, CC.OnLoss, MarkSacked,
      MarkResent, Counts, OnlyKnown, Wrap;
    if blocks != [] {
      var span := SackSpan(blocks, s.sendBase);
      var newly := NewlySacked(s.unacked, s.sendBase, span, blocks);
      LostDistinct(s.unacked, s.sendBase, span, blocks);
      NothingCounts(s.unacked, newly);
      ResentCounts(s.unacked, newly, Lost(s.unacked, s.sendBase, span, blocks), now);
    } else {
      NothingCounts(s.unacked, {});
      if s.sendBase in s.unacked {
        ResentCounts(s.unacked, {}, [s.sendBase], now);
      }
    }
  }

  lemma SelectiveCounts(s: SenderState, ack: uint32, blocks: seq<SackBlock>, now: int)
    requires OneKeyPerIndex(s.unacked)
    ensures var (s', out) := Selective(s, ack, blocks, now);
            Counts(s.unacked, s'.unacked, out) && OnlyKnown(s.unacked, out)
  {
    hide SackSpan, NewlySacked, Lost, Copies, SackInterval, CC.LossIntervalNs, CC.OnLoss, MarkSacked,
      MarkResent, Counts, OnlyKnown, Wrap;
    NothingCounts(s.unacked, {});
    if blocks != [] {
      var span := SackSpan(blocks, ack);
      var newly := NewlySacked(s.unacked, ack, span, blocks);
      LostDistinct(s.unacked, ack, span, blocks);
      NothingCounts(s.unacked, newly);
      ResentCounts(s.unacked, newly, Lost(s.unacked, ack, span, blocks), now);
    }
  }

  lemma CountsWider(c: map<uint32, Unacked>, m: map<uint32, Unacked>, m': map<uint32, Unacked>, out: seq<Copy>)
    requires (forall k :: k in c ==> k in m && c[k] == m[k]) && Counts(c, m', out) && OnlyKnown(c, out)
    ensures Counts(m, m', out) && OnlyKnown(m, out)
  {
  }

  lemma AckCounts(s: SenderState, ack: uint32, blocks: seq<SackBlock>, now: int)
    requires CC.Valid(s.cc) && OneKeyPerIndex(s.unacked)
    ensures var (s', out) := ProcessAck(s, ack, blocks, now);
            Counts(s.unacked, s'.unacked, out) && OnlyKnown(s.unacked, out)
  {
    hide Scanned, AckSpan, Selective, DuplicateAck, Wrap, SeqGreater, Sub, Samples, RE.UpdatedAll, Counts,
      OnlyKnown, CC.Valid, CC.OnAckAdvance;
    if ack == s.sendBase {
      DuplicateCounts(s, blocks, now);
    } else {
      var c := Cumulative(s, ack, now);
      SelectiveCounts(c, ack, blocks, now);
      CountsWider(c.unacked, s.unacked, Selective(c, ack, blocks, now).0.unacked, Selective(c, ack, blocks, now).1);
    }
  }

  lemma KeysByIndex(s: SenderState)
    requires SenderOk(s)
    ensures OneKeyPerIndex(s.unacked)
    ensures forall k :: k in s.unacked ==> s.unacked[k].idx < |s.sent|
  {
    forall k | k in s.unacked ensures k == Wrap(s.unacked[k].idx) && s.unacked[k].idx < |s.sent| {
      assert KeyOk(s, k);
    }
    hide Wrap, KeyOk;
  }

  // ---- Timeouts ------------------------------------------------------------------------------

  lemma TickCounts(s: SenderState, now: int, i: nat)
    requires OneKeyPerIndex(s.unacked)
    ensures var out := set c | c in RetransmittedCopies(s, now) && c.idx == i;
            && (forall k :: k in s.unacked && s.unacked[k].idx == i ==> |out| == if k in Due(s, now) then 1 else 0)
            && ((forall k :: k in s.unacked ==> s.unacked[k].idx != i) ==> |out| == 0)
  {
    hide TimedOut;
    var out := set c | c in RetransmittedCopies(s, now) && c.idx == i;
    if k :| k in s.unacked && s.unacked[k].idx == i {
      if k in Due(s, now) {
        assert out == {CopyOf(s.unacked[k])};
      } else {
        assert out == {};
      }
    } else {
      assert out == {};
    }
  }

  // ---- Over one action and over runs ---------------------------------------------------------

  /** A kept packet was kept before and its retries grew by what went out, or it is the one just sent. */
  ghost predicate Tracks(x: EndpointState, act: Action, x': EndpointState)
    requires CC.Valid(x.snd.cc)
  {
    && (forall k :: k in x'.snd.unacked ==>
         var u := x'.snd.unacked[k];
         || (k in x.snd.unacked && x.snd.unacked[k].idx == u.idx && u.idx < |x.snd.sent|
             && u.retries == x.snd.unacked[k].retries + Emitted(x, act, u.idx))
         || (u.idx == |x.snd.sent| && u.retries == 0 && Emitted(x, act, u.idx) == 1))
    && (forall i: nat :: i >= |x'.snd.sent| ==> Emitted(x, act, i) == 0)
    && |x.snd.sent| <= |x'.snd.sent|
  }

  lemma OneCopy(c: Copy, i: nat)
    ensures CopiesOf([c], i) == if c.idx == i then 1 else 0
  {
    assert [c][..0] == [];
  }

  lemma SendTracks(x: EndpointState, act: Action, x': EndpointState, c: Copy)
    requires SenderOk(x.snd) && CC.Valid(x.snd.cc) && c.idx == |x.snd.sent|
    requires (forall i: nat :: Emitted(x, act, i) == CopiesOf([c], i)) && |x'.snd.sent| == |x.snd.sent| + 1
    requires forall k :: k in x'.snd.unacked ==>
               (x'.snd.unacked[k].idx == |x.snd.sent| && x'.snd.unacked[k].retries == 0)
               || (k in x.snd.unacked && x'.snd.unacked[k] == x.snd.unacked[k])
    ensures Tracks(x, act, x')
  {
    KeysByIndex(x.snd);
    hide SenderOk, Emitted, CopiesOf;
    forall i: nat ensures CopiesOf([c], i) == if c.idx == i then 1 else 0 {
      OneCopy(c, i);
    }
  }

  lemma CountsTrack(x: EndpointState, act: Action, x': EndpointState, out: seq<Copy>)
    requires SenderOk(x.snd) && CC.Valid(x.snd.cc) && |x'.snd.sent| == |x.snd.sent|
    requires forall i: nat :: Emitted(x, act, i) == CopiesOf(out, i)
    requires Counts(x.snd.unacked, x'.snd.unacked, out) && OnlyKnown(x.snd.unacked, out)
    ensures Tracks(x, act, x')
  {
    KeysByIndex(x.snd);
    hide SenderOk, Emitted, CopiesOf;
  }

  lemma NoneEmitted(i: nat)
    ensures CopiesOf([], i) == 0
  {
  }

  lemma AckPart(x: EndpointState, p: ReliablePacket, now: int)
    requires SenderOk(x.snd) && CC.Valid(x.snd.cc)
    ensures var (x1, out) := ReceiveAck(x, p, now);
            Counts(x.snd.unacked, x1.snd.unacked, out) && OnlyKnown(x.snd.unacked, out) && |x1.snd.sent| == |x.snd.sent|
  {
    KeysByIndex(x.snd);
    NothingCounts(x.snd.unacked, {});
    hide SenderOk, ProcessAck, CC.Valid, Counts, OnlyKnown;
    if p.HasAck() {
      AckCounts(x.snd, p.ack, p.sackBlocks, now);
      ProcessAckShrinks(x.snd, p.ack, p.sackBlocks, now);
    }
  }

  lemma ReceiveSender(x: EndpointState, p: ReliablePacket, now: int)
    requires CC.Valid(x.snd.cc)
    ensures Receive(x, p, now).0.snd == ReceiveAck(x, p, now).0.snd
  {
    hide ReceiveAck, ProcessData, Drain;
  }

  lemma ReceiveTracks(s: System, c: Copy, now: int)
    requires Inv(s) && CC.Valid(s.a.snd.cc) && Enabled(s, DoReceive(c, now))
    ensures Tracks(s.a, DoReceive(c, now), Act(s, DoReceive(c, now)).a)
  {
    LocalBuffer(s.a, s.ab);
    hide Inv, SenderOk, Decode, Receive, ReceiveAck, CC.Valid, FreshFor, CopiesOf, Tracks, Counts, OnlyKnown;
    var p := Decode(c.wire).pkt;
    AckPart(s.a, p, now);
    ReceiveSender(s.a, p, now);
    CountsTrack(s.a, DoReceive(c, now), Act(s, DoReceive(c, now)).a, ReceiveAck(s.a, p, now).1);
  }

  lemma TickRetries(s: SenderState, now: int)
    ensures var t := CheckRetransmit(s, now);
            && t.sent == s.sent
            && forall k :: k in t.unacked ==>
                 k in s.unacked && t.unacked[k].idx == s.unacked[k].idx
                 && t.unacked[k].retries == s.unacked[k].retries + (if k in Due(s, now) then 1 else 0)
  {
    hide CC.OnLoss, CC.LossIntervalNs, Due, GivenUp, RE.BackedOff;
  }

  lemma TickTracks(x: EndpointState, now: int)
    requires SenderOk(x.snd) && CC.Valid(x.snd.cc)
    ensures Tracks(x, DoTick(now), Tick(x, now).0)
  {
    KeysByIndex(x.snd);
    TickRetries(x.snd, now);
    hide SenderOk, CC.Valid, Due, CheckRetransmit, RetransmittedCopies;
    forall i: nat
      ensures forall k :: k in x.snd.unacked && x.snd.unacked[k].idx == i ==>
                Emitted(x, DoTick(now), i) == if k in Due(x.snd, now) then 1 else 0
      ensures (forall k :: k in x.snd.unacked ==> x.snd.unacked[k].idx != i) ==> Emitted(x, DoTick(now), i) == 0
    {
      TickCounts(x.snd, now, i);
    }
  }

  lemma QuietTracks(x: EndpointState, act: Action, x': EndpointState)
    requires SenderOk(x.snd) && CC.Valid(x.snd.cc) && x'.snd == x.snd
             && (act.DoAckTimer? || act.DoClose? || act.DoDrop?)
    ensures Tracks(x, act, x')
  {
    KeysByIndex(x.snd);
    hide SenderOk;
  }

  lemma ActTracks(s: System, act: Action)
    requires Inv(s) && CC.Valid(s.a.snd.cc) && Enabled(s, act)
    ensures Tracks(s.a, act, Act(s, act).a)
  {
    LocalBuffer(s.a, s.ab);
    hide Inv, SenderOk, Encode, DataPacket, ClosePacket, WindowOpen, Receive, Tick, CC.Valid, CopiesOf,
      FreshFor, Tracks;
    match act
    case DoSend(data, now) => SendTracks(s.a, act, Act(s, act).a, Endpoint.Send(s.a, data, now).1[0]);
    case DoSendClose(now) => SendTracks(s.a, act, Act(s, act).a, Endpoint.SendClose(s.a, now).1[0]);
    case DoReceive(c, now) => ReceiveTracks(s, c, now);
    case DoTick(now) => TickTracks(s.a, now);
    case _ => QuietTracks(s.a, act, Act(s, act).a);
  }

  ghost function TransmittedSoFar(streamID: uint32, es: seq<Event>, i: nat): nat {
    InitInv(streamID);
    Transmitted(Init(streamID), es, i)
  }

  lemma TransmittedStep(streamID: uint32, es: seq<Event>, i: nat)
    requires es != [] && CC.Valid(Reach(streamID, es[..|es| - 1]).a.snd.cc)
    ensures var t, e := Reach(streamID, es[..|es| - 1]), es[|es| - 1];
            TransmittedSoFar(streamID, es, i) == TransmittedSoFar(streamID, es[..|es| - 1], i) +
              (if e.byA && Enabled(t, e.act) then Emitted(t.a, e.act, i) else 0)
  {
    hide Inv, Enabled, Emitted, Run, CC.Valid;
  }

  /** What a count says about a sender. */
  ghost predicate Counted(s: SenderState, streamID: uint32, es: seq<Event>) {
    && (forall k :: k in s.unacked ==> TransmittedSoFar(streamID, es, s.unacked[k].idx) == s.unacked[k].retries + 1)
    && (forall i: nat :: i >= |s.sent| ==> TransmittedSoFar(streamID, es, i) == 0)
  }

  lemma LiveCounts(x: EndpointState, act: Action, x': EndpointState, streamID: uint32, init: seq<Event>, es: seq<Event>)
    requires CC.Valid(x.snd.cc) && Tracks(x, act, x') && Counted(x.snd, streamID, init)
    requires forall i: nat ::
               TransmittedSoFar(streamID, es, i) == TransmittedSoFar(streamID, init, i) + Emitted(x, act, i)
    ensures Counted(x'.snd, streamID, es)
  {
    hide CC.Valid, TransmittedSoFar, Emitted;
  }

  lemma IdleCounts(s: SenderState, s': SenderState, streamID: uint32, init: seq<Event>, es: seq<Event>)
    requires Counted(s, streamID, init) && s' == s
    requires forall i: nat :: TransmittedSoFar(streamID, es, i) == TransmittedSoFar(streamID, init, i)
    ensures Counted(s', streamID, es)
  {
    hide TransmittedSoFar;
  }

  lemma StepCounts(streamID: uint32, es: seq<Event>)
    requires es != [] && Counted(Reach(streamID, es[..|es| - 1]).a.snd, streamID, es[..|es| - 1])
    ensures Counted(Reach(streamID, es).a.snd, streamID, es)
  {
    hide Inv, Act, Enabled, Emitted, TransmittedSoFar, CC.Valid, Counted, Tracks, Reach;
    var init, e := es[..|es| - 1], es[|es| - 1];
    var t := Reach(streamID, init);
    InvValid(t);
    InvSwap(t);
    ReachStep(streamID, es);
    forall i: nat
      ensures TransmittedSoFar(streamID, es, i) ==
                TransmittedSoFar(streamID, init, i) + (if e.byA && Enabled(t, e.act) then Emitted(t.a, e.act, i) else 0)
    {
      TransmittedStep(streamID, es, i);
    }
    if e.byA && Enabled(t, e.act) {
      ActTracks(t, e.act);
      LiveCounts(t.a, e.act, Act(t, e.act).a, streamID, init, es);
    } else {
      if !e.byA && Enabled(Swap(t), e.act) {
        OtherSideUnchanged(Swap(t), e.act);
      }
      IdleCounts(t.a.snd, Reach(streamID, es).a.snd, streamID, init, es);
    }
  }

  lemma ReachStep(streamID: uint32, es: seq<Event>)
    requires es != []
    ensures Reach(streamID, es) == Step(Reach(streamID, es[..|es| - 1]), es[|es| - 1])
  {
    hide Inv, Step;
  }

  /** Every packet kept has been put on the wire once more than its retry count says, and no index
      that has not been sent ever was. */
  lemma {:induction false} RetriesCount(streamID: uint32, es: seq<Event>)
    ensures Counted(Reach(streamID, es).a.snd, streamID, es)
  {
    hide Inv, Step, Enabled, Emitted;
    InitInv(streamID);
    if es != [] {
      hide Counted, Reach;
      RetriesCount(streamID, es[..|es| - 1]);
      StepCounts(streamID, es);
    }
  }

  /** Karn's rule, in every run: each sample an acknowledgment feeds to the estimator is the age of a
      packet that had been put on the wire exactly once. */
  lemma KarnInRuns(streamID: uint32, es: seq<Event>, act: Action)
    requires Enabled(Reach(streamID, es), act)
    ensures var x := Reach(streamID, es).a;
            forall e :: e in RttEvents(x, act) && e.Sample? ==>
              exists k :: k in x.snd.unacked && e == RE.Sample(SampleOf(x.snd.unacked[k], ClockOf(act)) as real)
                          && TransmittedSoFar(streamID, es, x.snd.unacked[k].idx) == 1
  {
    RetriesCount(streamID, es);
    hide Reach, TransmittedSoFar, Enabled, Decode, AckSpan, Samples, SampleOf, Due;
    var x := Reach(streamID, es).a;
    if act.DoReceive? && Decode(act.copy.wire).Parsed? && Decode(act.copy.wire).pkt.HasAck() {
      var span := AckSpan(Decode(act.copy.wire).pkt.ack, x.snd.sendBase);
      SamplesNotRetransmitted(x.snd.unacked, x.snd.sendBase, span, act.now);
      var xs := Samples(x.snd.unacked, x.snd.sendBase, span, act.now);
      forall e | e in RttEvents(x, act)
        ensures exists k :: k in x.snd.unacked && e == RE.Sample(SampleOf(x.snd.unacked[k], ClockOf(act)) as real)
                            && TransmittedSoFar(streamID, es, x.snd.unacked[k].idx) == 1
      {
        var j :| 0 <= j < |xs| && e == RE.Sample(xs[j] as real);
        assert xs[j] in xs;
      }
    }
  }
}
