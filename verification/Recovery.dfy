/** When the sender resends: fast retransmission by duplicate count, gap retransmission at a limited
    rate, timeouts with exponential backoff and the give-up after twenty retries
    (pkg/tunnel/reliable.go:700-824, 1020-1061). */
module Recovery {
  import opened SeqNum
  import opened ReliableCodec
  import CC = CongestionControl
  import RE = RttEstimation
  import opened Sender
  import opened Receiver
  import opened Endpoint
  import opened Network
  import opened Safety
  import opened StreamRuns
  import opened Transmissions

  // ---- Fast retransmission -------------------------------------------------------------------

  /** A run of acknowledgments equal to sendBase without SACK blocks, at the given times. */
  function Duplicates(s: SenderState, times: seq<int>): (r: (SenderState, seq<Copy>))
    requires CC.Valid(s.cc)
    ensures CC.Valid(r.0.cc)
  {
    if times == [] then (s, [])
    else
      var (t, out) := Duplicates(s, times[..|times| - 1]);
      var (t', more) := ProcessAck(t, t.sendBase, [], times[|times| - 1]);
      (t', out + more)
  }

  predicate FirstResendable(s: SenderState) {
    s.sendBase in s.unacked && !s.unacked[s.sendBase].sacked
  }

  /** How many duplicates already count: duplicates with blocks are counted but never reset. */
  function Counted(s: SenderState): nat {
    if s.dupAckCount < 0 then 0 else if s.dupAckCount > 2 then 2 else s.dupAckCount
  }

  lemma DuplicateStep(s: SenderState, now: int)
    requires CC.Valid(s.cc) && s.dupAckCount >= 0
    ensures var (t, out) := ProcessAck(s, s.sendBase, [], now);
            && t.sendBase == s.sendBase
            && (FirstResendable(t) <==> FirstResendable(s))
            && (FirstResendable(s) ==> CopyOf(t.unacked[s.sendBase]) == CopyOf(s.unacked[s.sendBase]))
            && t.dupAckCount == (if Counted(s) == 2 then 0 else s.dupAckCount + 1)
            && out == (if Counted(s) == 2 && FirstResendable(s) then [CopyOf(s.unacked[s.sendBase])] else [])
  {
    hide CC.OnLoss, CC.LossIntervalNs, CC.Valid;
  }

  /** Every third duplicate resends the oldest unacknowledged packet, once each, and nothing else. */
  lemma {:induction false} EveryThirdDuplicateResends(s: SenderState, times: seq<int>)
    requires CC.Valid(s.cc) && s.dupAckCount >= 0
    ensures var (t, out) := Duplicates(s, times);
            && t.sendBase == s.sendBase
            && (FirstResendable(t) <==> FirstResendable(s))
            && (FirstResendable(s) ==> CopyOf(t.unacked[s.sendBase]) == CopyOf(s.unacked[s.sendBase]))
            && t.dupAckCount == (if times == [] then s.dupAckCount else (Counted(s) + |times|) % FAST_RETRANSMIT_COUNT)
            && |out| == (if FirstResendable(s) then (Counted(s) + |times|) / FAST_RETRANSMIT_COUNT else 0)
            && (forall c :: c in out ==> FirstResendable(s) && c == CopyOf(s.unacked[s.sendBase]))
  {
    hide ProcessAck, CC.Valid;
    if times != [] {
      var init := times[..|times| - 1];
      EveryThirdDuplicateResends(s, init);
      DuplicateStep(Duplicates(s, init).0, times[|times| - 1]);
    }
  }

  // ---- Gap retransmission --------------------------------------------------------------------

  datatype SenderEvent = Ack(ack: uint32, blocks: seq<SackBlock>, now: int) | Check(now: int)

  function StepSender(s: SenderState, e: SenderEvent): (s': SenderState)
    requires CC.Valid(s.cc)
    ensures CC.Valid(s'.cc)
  {
    match e
    case Ack(ack, blocks, now) => ProcessAck(s, ack, blocks, now).0
    case Check(now) => CheckRetransmit(s, now)
  }

  function RunSender(s: SenderState, es: seq<SenderEvent>): (s': SenderState)
    requires CC.Valid(s.cc)
    ensures CC.Valid(s'.cc)
  {
    if es == [] then s else StepSender(RunSender(s, es[..|es| - 1]), es[|es| - 1])
  }

  /** The event sets off a retransmission of gaps. */
  predicate Burst(s: SenderState, e: SenderEvent) {
    e.Ack? && e.blocks != [] &&
    (if e.ack == s.sendBase then DuplicateLoss(s, e.blocks, e.now)
     else SelectiveLoss(Cumulative(s, e.ack, e.now), e.ack, e.blocks, e.now))
  }

  function Bursts(s: SenderState, es: seq<SenderEvent>): nat
    requires CC.Valid(s.cc)
  {
    if es == [] then 0
    else Bursts(s, es[..|es| - 1]) + (if Burst(RunSender(s, es[..|es| - 1]), es[|es| - 1]) then 1 else 0)
  }

  predicate RtoInRange(r: RE.Rtt) {
    RE.MIN_RTO_MS <= r.rto <= RE.MAX_RTO_MS
  }

  /** Half the smallest timeout: the 10 ms floor in the code is never what limits. */
  const SHORTEST_GAP := 50 * MILLISECOND

  lemma SackIntervalFloor(r: RE.Rtt)
    requires RtoInRange(r)
    ensures SackInterval(r) >= SHORTEST_GAP
  {
    assert r.RTO() >= 100;
  }

  lemma {:induction false} UpdatesKeepRange(r: RE.Rtt, xs: seq<int>)
    requires RtoInRange(r)
    ensures RtoInRange(RE.UpdatedAll(r, xs))
  {
    if xs != [] {
      UpdatesKeepRange(r, xs[..|xs| - 1]);
    }
  }

  lemma RangeKept(s: SenderState, e: SenderEvent)
    requires CC.Valid(s.cc) && RtoInRange(s.rtt)
    ensures RtoInRange(StepSender(s, e).rtt)
    ensures e.Ack? ==> RtoInRange(Cumulative(s, e.ack, e.now).rtt)
  {
    hide CC.Valid, CC.OnLoss, CC.OnAckAdvance, CC.LossIntervalNs, Lost, NewlySacked, MarkSacked, MarkResent,
      Copies, SackSpan, Samples, Scanned, AckSpan, RE.UpdatedAll, Wrap, SeqGreater, Sub, Due, GivenUp;
    if e.Ack? {
      UpdatesKeepRange(s.rtt, Samples(s.unacked, s.sendBase, AckSpan(e.ack, s.sendBase), e.now));
    }
  }

  lemma BurstStep(s: SenderState, e: SenderEvent)
    requires CC.Valid(s.cc) && RtoInRange(s.rtt)
    ensures StepSender(s, e).lastSackTime == (if Burst(s, e) then e.now else s.lastSackTime)
    ensures Burst(s, e) ==> e.now - s.lastSackTime >= SHORTEST_GAP
  {
    RangeKept(s, e);
    hide SackInterval, CC.Valid, CC.OnLoss, CC.OnAckAdvance, CC.LossIntervalNs, Lost, NewlySacked, MarkSacked,
      MarkResent, Copies, SackSpan, Samples, Scanned, AckSpan, RE.UpdatedAll, Wrap, SeqGreater, Sub;
    if e.Ack? {
      SackIntervalFloor(s.rtt);
      SackIntervalFloor(Cumulative(s, e.ack, e.now).rtt);
    }
  }

  predicate TimesWithin(es: seq<SenderEvent>, from: int, to: int) {
    && (forall i :: 0 <= i < |es| ==> from <= es[i].now <= to)
    && (forall i, j :: 0 <= i < j < |es| ==> es[i].now <= es[j].now)
  }

  lemma TimesBefore(es: seq<SenderEvent>, from: int, to: int)
    requires es != [] && TimesWithin(es, from, to)
    ensures TimesWithin(es[..|es| - 1], from, to) && from <= es[|es| - 1].now <= to
  {
  }

  lemma {:induction false} BurstsSpaced(s: SenderState, es: seq<SenderEvent>, from: int, to: int)
    requires CC.Valid(s.cc) && RtoInRange(s.rtt) && TimesWithin(es, from, to)
    ensures RtoInRange(RunSender(s, es).rtt)
    ensures Bursts(s, es) > 0 ==>
              from + (Bursts(s, es) - 1) * SHORTEST_GAP <= RunSender(s, es).lastSackTime <= to
  {
    hide StepSender, Burst, CC.Valid, RtoInRange, TimesWithin;
    if es != [] {
      var init, e := es[..|es| - 1], es[|es| - 1];
      TimesBefore(es, from, to);
      BurstsSpaced(s, init, from, to);
      BurstStep(RunSender(s, init), e);
      RangeKept(RunSender(s, init), e);
    }
  }

  lemma BurstCount(n: nat, last: int, from: int, to: int)
    requires from <= to && (n > 0 ==> from + (n - 1) * SHORTEST_GAP <= last <= to)
    ensures n <= 1 + (to - from) / SHORTEST_GAP
  {
    if n > 0 {
      CC.QuotientBound(n - 1, SHORTEST_GAP, to - from);
    } else {
      CC.QuotientBound(0, SHORTEST_GAP, to - from);
    }
  }

  /** Over time t, with any acknowledgments whatsoever and timeout checks, gaps are resent at most
      1 + t/50ms times. */
  lemma GapResendsAreRateLimited(s: SenderState, es: seq<SenderEvent>, from: int, to: int)
    requires CC.Valid(s.cc) && RtoInRange(s.rtt) && TimesWithin(es, from, to) && from <= to
    ensures Bursts(s, es) <= 1 + (to - from) / SHORTEST_GAP
  {
    hide RunSender, Bursts, CC.Valid, TimesWithin;
    BurstsSpaced(s, es, from, to);
    BurstCount(Bursts(s, es), RunSender(s, es).lastSackTime, from, to);
  }

  // ---- The same in network runs --------------------------------------------------------------

  predicate BurstIn(s: System, e: Event) {
    && e.byA && Enabled(s, e.act) && e.act.DoReceive? && Decode(e.act.copy.wire).pkt.HasAck()
    && Burst(s.a.snd, Ack(Decode(e.act.copy.wire).pkt.ack, Decode(e.act.copy.wire).pkt.sackBlocks, e.act.now))
  }

  ghost function BurstsIn(s: System, es: seq<Event>): nat
    requires Inv(s)
  {
    if es == [] then 0
    else BurstsIn(s, es[..|es| - 1]) + (if BurstIn(Run(s, es[..|es| - 1]), es[|es| - 1]) then 1 else 0)
  }

  lemma ActSackTime(s: System, act: Action)
    requires Inv(s) && CC.Valid(s.a.snd.cc) && Enabled(s, act) && RtoInRange(s.a.snd.rtt)
    ensures var x, burst := Act(s, act).a.snd, BurstIn(s, Event(true, act));
            && x.lastSackTime == (if burst then ClockOf(act) else s.a.snd.lastSackTime)
            && (burst ==> ClockOf(act) - s.a.snd.lastSackTime >= SHORTEST_GAP)
  {
    hide Inv, Encode, Decode, ProcessAck, ProcessData, Drain, Burst, DataPacket, WindowOpen, CC.Valid, FreshFor;
    match act
    case DoReceive(c, now) =>
      var p := Decode(c.wire).pkt;
      if p.HasAck() {
        BurstStep(s.a.snd, Ack(p.ack, p.sackBlocks, now));
      }
    case DoTick(now) => BurstStep(s.a.snd, Check(now));
    case _ =>
  }

  lemma StepSackTime(s: System, e: Event)
    requires Inv(s) && CC.Valid(s.a.snd.cc) && RtoInRange(s.a.snd.rtt)
    ensures Step(s, e).a.snd.lastSackTime == (if BurstIn(s, e) then ClockOf(e.act) else s.a.snd.lastSackTime)
    ensures BurstIn(s, e) ==> ReadsClock(e) && ClockOf(e.act) - s.a.snd.lastSackTime >= SHORTEST_GAP
  {
    InvValid(s);
    InvSwap(s);
    hide Inv, Act, Enabled, Burst, CC.Valid, ClockOf, Decode;
    if e.byA {
      if Enabled(s, e.act) {
        assert e == Event(true, e.act);
        ActSackTime(s, e.act);
      }
    } else if Enabled(Swap(s), e.act) {
      OtherSideUnchanged(Swap(s), e.act);
    }
  }

  lemma {:induction false} BurstsInSpaced(s: System, es: seq<Event>, h: seq<RE.RttEvent>, from: int, to: int)
    requires Inv(s) && CC.Valid(s.a.snd.cc) && s.a.snd.rtt == RE.After(h) && ClockWithin(es, from, to)
    ensures BurstsIn(s, es) > 0 ==>
              from + (BurstsIn(s, es) - 1) * SHORTEST_GAP <= Run(s, es).a.snd.lastSackTime <= to
  {
    hide Inv, Step, BurstIn, RE.After, CC.Valid, ClockOf, RttHistory, WindowHistory, CC.Run;
    if es != [] {
      var init, e := es[..|es| - 1], es[|es| - 1];
      var t := Run(s, init);
      BurstsInSpaced(s, init, h, from, to);
      HistoriesDrive(s, init, h);
      RE.RtoWithinBounds(h + RttHistory(s, init));
      InvValid(t);
      StepSackTime(t, e);
    }
  }

  /** From any reachable state on, while endpoint a's clock stays in [from, to]: gaps are resent at most
      1 + t/50ms times, whatever the network does. */
  lemma GapResendsInStream(streamID: uint32, es: seq<Event>, later: seq<Event>, from: int, to: int)
    requires ClockWithin(later, from, to) && from <= to
    ensures BurstsIn(Reach(streamID, es), later) <= 1 + (to - from) / SHORTEST_GAP
  {
    hide Inv, Run, RE.After, ClockWithin, BurstsIn, RttHistory, WindowHistory, CC.Valid;
    InitDrives(streamID);
    HistoriesDrive(Init(streamID), es, []);
    InvValid(Reach(streamID, es));
    BurstsInSpaced(Reach(streamID, es), later, [] + RttHistory(Init(streamID), es), from, to);
    var t := Run(Reach(streamID, es), later);
    BurstCount(BurstsIn(Reach(streamID, es), later), t.a.snd.lastSackTime, from, to);
  }

  // ---- Why a packet is resent ----------------------------------------------------------------

  lemma {:induction false} CopyPresent(out: seq<Copy>, i: nat) returns (j: nat)
    requires CopiesOf(out, i) > 0
    ensures j < |out| && out[j].idx == i
  {
    if out[|out| - 1].idx == i {
      j := |out| - 1;
    } else {
      j := CopyPresent(out[..|out| - 1], i);
    }
  }

  /** The oldest packet, at the third duplicate; or a gap below the highest block, at a permitted burst. */
  predicate CalledFor(s: SenderState, ack: uint32, blocks: seq<SackBlock>, now: int, k: uint32) {
    && k in s.unacked && !s.unacked[k].sacked
    && if blocks == [] then k == ack == s.sendBase && s.dupAckCount + 1 >= FAST_RETRANSMIT_COUNT
       else Burst(s, Ack(ack, blocks, now)) && LossCandidate(s.unacked, k, blocks)
  }

  lemma ResentKey(m: map<uint32, Unacked>, keys: seq<uint32>, i: nat) returns (k: uint32)
    requires (forall j :: 0 <= j < |keys| ==> keys[j] in m) && CopiesOf(Copies(m, keys), i) > 0
    ensures k in keys && k in m && m[k].idx == i
  {
    var j := CopyPresent(Copies(m, keys), i);
    k := keys[j];
  }

  lemma DuplicateResends(s: SenderState, blocks: seq<SackBlock>, now: int, i: nat) returns (k: uint32)
    requires CopiesOf(DuplicateAck(s, blocks, now).1, i) > 0
    ensures CalledFor(s, s.sendBase, blocks, now, k) && s.unacked[k].idx == i
  {
    NoneEmitted(i);
    hide SackSpan, NewlySacked, Copies, SackInterval, CC.LossIntervalNs, CC.OnLoss, MarkSacked, MarkResent,
      Wrap, CopiesOf, Lost;
    if blocks != [] {
      var lost := Lost(s.unacked, s.sendBase, SackSpan(blocks, s.sendBase), blocks);
      k := ResentKey(s.unacked, lost, i);
    } else {
      k := ResentKey(s.unacked, [s.sendBase], i);
    }
  }

  lemma SelectiveResends(s: SenderState, ack: uint32, blocks: seq<SackBlock>, now: int, i: nat) returns (k: uint32)
    requires CopiesOf(Selective(s, ack, blocks, now).1, i) > 0
    ensures blocks != [] && SelectiveLoss(s, ack, blocks, now) && LossCandidate(s.unacked, k, blocks)
            && s.unacked[k].idx == i
  {
    NoneEmitted(i);
    hide SackSpan, NewlySacked, Copies, SackInterval, CC.LossIntervalNs, CC.OnLoss, MarkSacked, MarkResent,
      Wrap, CopiesOf, Lost;
    var lost := Lost(s.unacked, ack, SackSpan(blocks, ack), blocks);
    k := ResentKey(s.unacked, lost, i);
  }

  lemma AckResends(s: SenderState, ack: uint32, blocks: seq<SackBlock>, now: int, i: nat) returns (k: uint32)
    requires CC.Valid(s.cc) && CopiesOf(ProcessAck(s, ack, blocks, now).1, i) > 0
    ensures CalledFor(s, ack, blocks, now, k) && s.unacked[k].idx == i
  {
    hide Scanned, AckSpan, Selective, DuplicateAck, Wrap, SeqGreater, Sub, Samples, RE.UpdatedAll, CC.Valid,
      CC.OnAckAdvance, SelectiveLoss, DuplicateLoss, CopiesOf, InSack, MaxRight;
    if ack == s.sendBase {
      k := DuplicateResends(s, blocks, now, i);
    } else {
      k := SelectiveResends(Cumulative(s, ack, now), ack, blocks, now, i);
    }
  }

  /** In every run, a packet sent before goes on the wire again only if it is unmarked and either has
      been out for longer than the RTO with retries left, or is called for by the acknowledgment. */
  lemma ResendCause(streamID: uint32, es: seq<Event>, act: Action, i: nat) returns (k: uint32)
    requires Enabled(Reach(streamID, es), act) && i < |Reach(streamID, es).a.snd.sent|
    requires CC.Valid(Reach(streamID, es).a.snd.cc) && Emitted(Reach(streamID, es).a, act, i) > 0
    ensures var x := Reach(streamID, es).a.snd;
            && k in x.unacked && x.unacked[k].idx == i && !x.unacked[k].sacked
            && match act
               case DoTick(now) =>
                 now - x.unacked[k].sentTime > x.rtt.RTO() * MILLISECOND && x.unacked[k].retries < MAX_RETRIES
               case DoReceive(c, now) =>
                 Decode(c.wire).pkt.HasAck()
                 && CalledFor(x, Decode(c.wire).pkt.ack, Decode(c.wire).pkt.sackBlocks, now, k)
               case _ => false
  {
    hide Inv, Reach, Decode, ProcessAck, Burst, CopiesOf, Encode, DataPacket, ClosePacket, WindowOpen, FreshFor,
      CC.Valid, CheckRetransmit;
    var x := Reach(streamID, es).a;
    NoneEmitted(i);
    match act
    case DoTick(now) =>
      var c :| c in (set c | c in Tick(x, now).1 && c.idx == i);
      k :| k in Due(x.snd, now) && c == CopyOf(x.snd.unacked[k]);
    case DoReceive(c, now) =>
      k := AckResends(x.snd, Decode(c.wire).pkt.ack, Decode(c.wire).pkt.sackBlocks, now, i);
    case DoSend(data, now) => OneCopy(Endpoint.Send(x, data, now).1[0], i);
    case DoSendClose(now) => OneCopy(Endpoint.SendClose(x, now).1[0], i);
    case _ =>
  }

  // ---- Timeouts and giving up ----------------------------------------------------------------

  /** A silent peer: timeout checks only. */
  function Checks(s: SenderState, times: seq<int>): SenderState {
    if times == [] then s else CheckRetransmit(Checks(s, times[..|times| - 1]), times[|times| - 1])
  }

  function Backed(r: RE.Rtt, n: nat): RE.Rtt {
    if n == 0 then r else RE.BackedOff(Backed(r, n - 1))
  }

  /** The first n timeouts of exponential backoff, added up, in nanoseconds. */
  function Waited(r: RE.Rtt, n: nat): int {
    if n == 0 then 0 else Waited(r, n - 1) + Backed(r, n - 1).RTO() * MILLISECOND
  }

  lemma {:induction false} BackedGrows(r: RE.Rtt, i: nat, j: nat)
    requires RtoInRange(r) && i <= j
    ensures RtoInRange(Backed(r, i)) && RtoInRange(Backed(r, j)) && Backed(r, i).rto <= Backed(r, j).rto
    ensures Backed(r, i).RTO() <= Backed(r, j).RTO()
    decreases j
  {
    if i < j {
      BackedGrows(r, i, j - 1);
    } else if i > 0 {
      BackedGrows(r, i - 1, i - 1);
    }
  }

  /** Checks that found something due, each of which backed the timeout off. */
  function Backoffs(s: SenderState, times: seq<int>): nat {
    if times == [] then 0
    else
      var init, now := times[..|times| - 1], times[|times| - 1];
      Backoffs(s, init) + (if Due(Checks(s, init), now) == {} then 0 else 1)
  }

  lemma CheckStep(s: SenderState, now: int, k: uint32)
    requires k in s.unacked && !s.unacked[k].sacked
    ensures var t, u := CheckRetransmit(s, now), s.unacked[k];
            && t.rtt == (if Due(s, now) == {} then s.rtt else RE.BackedOff(s.rtt))
            && (k in Due(s, now) <==> now - u.sentTime > s.rtt.RTO() * MILLISECOND && u.retries < MAX_RETRIES)
            && (k !in t.unacked <==> now - u.sentTime > s.rtt.RTO() * MILLISECOND && u.retries >= MAX_RETRIES)
            && (k in t.unacked ==> t.unacked[k] == if k in Due(s, now) then Resent(u, now) else u)
  {
    hide CC.OnLoss, CC.LossIntervalNs, RE.BackedOff;
  }

  /** A packet sent once, then silence: as long as it is kept, its r-th resend waited for the sum of
      the first r backed-off timeouts, and there are at most twenty. */
  lemma {:induction false} SilenceKept(s: SenderState, times: seq<int>, k: uint32)
    requires k in s.unacked && s.unacked[k].retries == 0 && !s.unacked[k].sacked && RtoInRange(s.rtt)
    ensures var t := Checks(s, times);
            && t.rtt == Backed(s.rtt, Backoffs(s, times))
            && (k in t.unacked ==>
                 && !t.unacked[k].sacked && 0 <= t.unacked[k].retries <= MAX_RETRIES
                 && t.unacked[k].retries <= Backoffs(s, times)
                 && t.unacked[k].sentTime >= s.unacked[k].sentTime + Waited(s.rtt, t.unacked[k].retries))
  {
    hide CheckRetransmit, Due, Resent;
    if times != [] {
      var init, now := times[..|times| - 1], times[|times| - 1];
      SilenceKept(s, init, k);
      var t := Checks(s, init);
      if k in t.unacked {
        var u := t.unacked[k];
        CheckStep(t, now, k);
        BackedGrows(s.rtt, u.retries, Backoffs(s, init));
        ResentFields(u, now);
      } else {
        GoneStays(t, now, k);
        CheckRtt(t, now);
      }
    }
  }

  lemma ResentFields(u: Unacked, now: int)
    ensures Resent(u, now).retries == u.retries + 1 && Resent(u, now).sentTime == now
            && Resent(u, now).sacked == u.sacked
  {
  }

  lemma GoneStays(s: SenderState, now: int, k: uint32)
    requires k !in s.unacked
    ensures k !in CheckRetransmit(s, now).unacked
  {
  }

  lemma CheckRtt(s: SenderState, now: int)
    ensures CheckRetransmit(s, now).rtt == (if Due(s, now) == {} then s.rtt else RE.BackedOff(s.rtt))
  {
  }

  /** The check that gives a packet up comes after twenty resends and later than the sum of all
      twenty-one backed-off timeouts since it was first sent. */
  lemma GivenUpOnlyAfter(s: SenderState, times: seq<int>, now: int, k: uint32)
    requires k in s.unacked && s.unacked[k].retries == 0 && !s.unacked[k].sacked && RtoInRange(s.rtt)
    requires k in Checks(s, times).unacked && k !in CheckRetransmit(Checks(s, times), now).unacked
    ensures Checks(s, times).unacked[k].retries == MAX_RETRIES
    ensures now > s.unacked[k].sentTime + Waited(s.rtt, MAX_RETRIES + 1)
  {
    hide CheckRetransmit, Due, Checks;
    SilenceKept(s, times, k);
    CheckStep(Checks(s, times), now, k);
    BackedGrows(s.rtt, MAX_RETRIES, Backoffs(s, times));
  }

  lemma {:induction false} WaitedFromDefault(n: nat)
    requires n >= 2
    ensures Backed(RE.Fresh(), n).rto == RE.MAX_RTO_MS
    ensures Waited(RE.Fresh(), n) == (3000 + (n - 2) * 4000) * MILLISECOND
  {
    if n == 2 {
      assert Backed(RE.Fresh(), 1).rto == 2000.0;
      assert Waited(RE.Fresh(), 1) == 1000 * MILLISECOND;
    } else {
      WaitedFromDefault(n - 1);
    }
  }

  /** Before the first round-trip sample that is 79 seconds. */
  lemma SilenceBeforeGivingUp(s: SenderState, times: seq<int>, now: int, k: uint32)
    requires k in s.unacked && s.unacked[k].retries == 0 && !s.unacked[k].sacked && s.rtt == RE.Fresh()
    requires k in Checks(s, times).unacked && k !in CheckRetransmit(Checks(s, times), now).unacked
    ensures now > s.unacked[k].sentTime + 79_000 * MILLISECOND
  {
    hide CheckRetransmit, Checks;
    GivenUpOnlyAfter(s, times, now, k);
    WaitedFromDefault(MAX_RETRIES + 1);
  }
}
