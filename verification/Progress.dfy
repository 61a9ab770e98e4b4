/** Possible progress: from any state reached by a clean run with both endpoints open, and from any
    time on, some finite schedule of one timeout check and deliveries hands everything sent to the
    receiving application. */
module Progress {
  import opened SeqNum
  import opened Bytes
  import opened ReliableCodec
  import CC = CongestionControl
  import opened Sender
  import opened Receiver
  import opened Endpoint
  import opened Network
  import opened ReceiverSafety
  import opened NetworkSafety
  import opened Safety
  import opened Retention

  /** What is still to be delivered are non-empty payloads: no close lies in between, and the code
      ignores empty data. */
  ghost predicate OnlyPayloadsAhead(s: SenderState, r: ReceiverState) {
    forall i :: |r.delivered| <= i < |s.sent| ==> s.sent[i].Payload? && s.sent[i].data != []
  }

  /** Every missing packet has a retry left, and what it piggybacks is not yet 2^31 old. */
  ghost predicate Retriable(x: EndpointState, r: ReceiverState) {
    forall k :: k in x.snd.unacked && Missing(x.snd, r, x.snd.unacked[k].idx) ==>
      x.snd.unacked[k].retries < MAX_RETRIES && |x.rcv.delivered| <= x.snd.unacked[k].ackIdx + HALF
  }

  /** A deliverable copy of payload i. */
  ghost predicate Supplies(c: Copy, i: int, data: bytes, ackedBy: nat) {
    && c.idx == i && ackedBy <= c.ackIdx + HALF
    && Decode(c.wire).Parsed?
    && Decode(c.wire).pkt.HasData() && Decode(c.wire).pkt.data == data && Decode(c.wire).pkt.seqNo == Wrap(i)
  }

  /** Every missing payload is in flight. */
  ghost predicate Supplied(s: System) {
    forall i :: Missing(s.a.snd, s.b.rcv, i) ==>
      exists c :: c in s.ab && Supplies(c, i, s.a.snd.sent[i].data, |s.a.rcv.delivered|)
  }

  function TimeOf(act: Action): int {
    match act
    case DoReceive(_, now) => now
    case DoTick(now) => now
    case _ => 0
  }

  /** Timeout checks and deliveries only, at times that start at t or later and never go back. */
  predicate ScheduleFrom(es: seq<Event>, t: int) {
    && (forall i :: 0 <= i < |es| ==> (es[i].act.DoTick? || es[i].act.DoReceive?) && t <= TimeOf(es[i].act))
    && (forall i, j :: 0 <= i < j < |es| ==> TimeOf(es[i].act) <= TimeOf(es[j].act))
  }

  /** A moment, at t or later, at which everything kept has timed out. */
  lemma {:induction false} LateEnough(m: map<uint32, Unacked>, keys: set<uint32>, wait: int, t: int) returns (now: int)
    requires keys <= m.Keys
    ensures now >= t
    ensures forall k :: k in keys ==> now - m[k].sentTime > wait
  {
    if keys == {} {
      now := t;
    } else {
      var k :| k in keys;
      var rest := LateEnough(m, keys - {k}, wait, t);
      var mine := m[k].sentTime + wait + 1;
      now := if rest > mine then rest else mine;
      assert forall k' :: k' in keys ==> k' == k || k' in keys - {k};
    }
  }

  /** One timeout check puts every missing payload in flight. */
  lemma TickSupplies(s: System, now: int)
    requires Inv(s) && !s.a.closed && Retained(s.a.snd, s.b.rcv) && Retriable(s.a, s.b.rcv)
    requires forall k :: k in s.a.snd.unacked ==> now - s.a.snd.unacked[k].sentTime > s.a.snd.rtt.RTO() * MILLISECOND
    ensures var s' := Step(s, Event(true, DoTick(now)));
            && Supplied(s') && s'.b == s.b && s'.a.snd.sent == s.a.snd.sent && s'.a.rcv == s.a.rcv && !s'.a.closed
  {
    hide Decode, Wrap, Received, CheckRetransmit, Local, Direction;
    InvValid(s);
    InvSwap(s);
    var s' := Step(s, Event(true, DoTick(now)));
    TickKeepsSent(s.a.snd, now);
    hide Step;
    forall i | Missing(s'.a.snd, s'.b.rcv, i)
      ensures exists c :: c in s'.ab && Supplies(c, i, s'.a.snd.sent[i].data, |s'.a.rcv.delivered|)
    {
      assert Missing(s.a.snd, s.b.rcv, i);
      var k := Wrap(i);
      var u := s.a.snd.unacked[k];
      assert Carries(u, i, s.a.snd.sent[i].data);
      assert k in Due(s.a.snd, now);
      var c := CopyOf(u);
      assert c in RetransmittedCopies(s.a.snd, now);
      assert c in s'.ab && Supplies(c, i, s'.a.snd.sent[i].data, |s'.a.rcv.delivered|);
    }
  }

  lemma NextIsMissing(s: SenderState, r: ReceiverState)
    requires BufferOk(r) && OnlyPayloadsAhead(s, r) && |r.delivered| < |s.sent|
    ensures Missing(s, r, |r.delivered|)
  {
    SelfOffset(r.recvNext);
  }

  lemma InOrderDelivers(streamID: uint32, r: ReceiverState, data: bytes)
    requires BufferOk(r)
    ensures |ProcessData(streamID, r, r.recvNext, data).0.delivered| > |r.delivered|
  {
    hide Wrap, Drain, AckCopy, Draining, BufferOk;
    DeliverDraining(r, data);
    DrainOk(Deliver(r, data));
  }

  /** Delivering the copy of the next payload makes progress and changes nothing at the sender. */
  lemma DeliverNextCopy(s: System, c: Copy, now: int)
    requires Inv(s) && !s.b.closed && OnlyPayloadsAhead(s.a.snd, s.b.rcv) && |s.b.rcv.delivered| < |s.a.snd.sent|
    requires c in s.ab && Supplies(c, |s.b.rcv.delivered|, s.a.snd.sent[|s.b.rcv.delivered|].data, |s.a.rcv.delivered|)
    ensures var s' := Step(s, Event(false, DoReceive(c, now)));
            && s'.a == s.a && s'.ab == s.ab && !s'.b.closed && |s'.b.rcv.delivered| > |s.b.rcv.delivered|
  {
    hide Encode, Wrap, Received, Local, ReceiveAck, ProcessData;
    InvValid(s);
    InvSwap(s);
    var act := DoReceive(c, now);
    var p := Decode(c.wire).pkt;
    assert s.b.snd.base <= |s.a.rcv.delivered|;
    assert Enabled(Swap(s), act);
    OtherSideUnchanged(Swap(s), act);
    LocalBuffer(s.b, s.ba);
    var (b1, out1) := ReceiveAck(s.b, p, now);
    AckLeavesReceiver(s.b, p, now);
    assert |p.data| > 0;
    assert s.b.rcv.recvNext == p.seqNo by { BufferCounter(s.b.rcv); }
    InOrderDelivers(s.b.streamID, s.b.rcv, p.data);
    var (b2, out2) := ReceiveData(b1, p);
    DataStep(b1, p);
    DrainGrows(b2.rcv);
  }

  lemma AckLeavesReceiver(e: EndpointState, p: ReliablePacket, now: int)
    requires CC.Valid(e.snd.cc)
    ensures ReceiveAck(e, p, now).0 == e.(snd := ReceiveAck(e, p, now).0.snd)
  {
    hide ProcessAck;
  }

  lemma DataStep(e: EndpointState, p: ReliablePacket)
    requires p.HasData() && |p.data| > 0
    ensures ReceiveData(e, p).0.rcv == ProcessData(e.streamID, e.rcv, p.seqNo, p.data).0
  {
    hide ProcessData;
  }

  lemma {:induction false} DrainGrows(r: ReceiverState)
    ensures |r.delivered| <= |Drain(r).delivered|
    decreases |r.outOfOrder|
  {
    if r.recvNext in r.outOfOrder {
      assert r.outOfOrder.Keys == (r.outOfOrder - {r.recvNext}).Keys + {r.recvNext};
      DrainGrows(TakeOne(r));
    }
  }

  lemma SuppliedLater(s: System, s': System)
    requires Supplied(s) && s'.a == s.a && s'.ab == s.ab && Keeps(s.b.rcv, s'.b.rcv)
    ensures Supplied(s')
    ensures OnlyPayloadsAhead(s.a.snd, s.b.rcv) ==> OnlyPayloadsAhead(s'.a.snd, s'.b.rcv)
  {
    hide Received, Supplies;
    forall i | Missing(s'.a.snd, s'.b.rcv, i) ensures Missing(s.a.snd, s.b.rcv, i) {
    }
  }

  lemma RunSnoc(s: System, es: seq<Event>, e: Event)
    requires Inv(s)
    ensures Run(s, es + [e]) == Step(Run(s, es), e)
  {
    hide Inv, Step;
    assert (es + [e])[..|es|] == es;
  }

  /** Deliver the next payload, at the given time, until there is none. */
  lemma {:induction false} DeliverAll(s: System, es: seq<Event>, now: int) returns (more: seq<Event>)
    requires Inv(s) && Supplied(Run(s, es)) && OnlyPayloadsAhead(Run(s, es).a.snd, Run(s, es).b.rcv)
    requires !Run(s, es).a.closed && !Run(s, es).b.closed
    ensures forall i :: 0 <= i < |more| ==> more[i].act.DoReceive? && more[i].act.now == now
    ensures var t := Run(s, es + more);
            && t.a.snd.sent == Run(s, es).a.snd.sent && |t.b.rcv.delivered| == |t.a.snd.sent|
            && !t.a.closed && !t.b.closed
    decreases |Run(s, es).a.snd.sent| - |Run(s, es).b.rcv.delivered|
  {
    hide Inv, Step, Supplied, Supplies, OnlyPayloadsAhead, Run, Keeps, BufferOk, Missing;
    var t := Run(s, es);
    InvBounds(t);
    var n := |t.b.rcv.delivered|;
    if n == |t.a.snd.sent| {
      more := [];
      assert es + more == es;
    } else {
      NextIsMissing(t.a.snd, t.b.rcv);
      var c := CopyFor(t, n);
      var e := Event(false, DoReceive(c, now));
      DeliverNextCopy(t, c, now);
      StepKeepsHoldings(t, e);
      RunSnoc(s, es, e);
      SuppliedLater(t, Run(s, es + [e]));
      var rest := DeliverAll(s, es + [e], now);
      more := [e] + rest;
      assert es + more == es + [e] + rest;
    }
  }

  lemma CopyFor(s: System, i: int) returns (c: Copy)
    requires Supplied(s) && Missing(s.a.snd, s.b.rcv, i)
    ensures c in s.ab && Supplies(c, i, s.a.snd.sent[i].data, |s.a.rcv.delivered|)
  {
    hide Supplies, Received;
    c :| c in s.ab && Supplies(c, i, s.a.snd.sent[i].data, |s.a.rcv.delivered|);
  }

  lemma InvBounds(s: System)
    requires Inv(s)
    ensures |s.b.rcv.delivered| <= |s.a.snd.sent| && BufferOk(s.b.rcv)
  {
    hide CopyOk;
  }

  /** From a state reached by a clean run, both endpoints open, with only payloads ahead and retries
      left: for every time t some finite schedule from t on completes the transfer. Afterwards the
      delivered payloads are all those sent, and both endpoints are still open. */
  lemma CompletionIsPossible(streamID: uint32, es: seq<Event>, t: int)
    requires CleanHistory(streamID, es)
    requires !Reach(streamID, es).a.closed && !Reach(streamID, es).b.closed
    requires OnlyPayloadsAhead(Reach(streamID, es).a.snd, Reach(streamID, es).b.rcv)
    requires Retriable(Reach(streamID, es).a, Reach(streamID, es).b.rcv)
    ensures exists more: seq<Event> :: ScheduleFrom(more, t) && Completes(Reach(streamID, es), more)
  {
    hide Inv, Step, Supplied, OnlyPayloadsAhead, Run, Reach, CleanHistory, Retained, Retriable, Keeps, PrefixOf;
    var s := Reach(streamID, es);
    RetentionHolds(streamID, es);
    var now := LateEnough(s.a.snd.unacked, s.a.snd.unacked.Keys, s.a.snd.rtt.RTO() * MILLISECOND, t);
    TickSupplies(s, now);
    var tick := [Event(true, DoTick(now))];
    RunOne(s, tick[0]);
    assert OnlyPayloadsAhead(Run(s, tick).a.snd, Run(s, tick).b.rcv) by {
      AheadOf(s.a.snd, Run(s, tick).a.snd, s.b.rcv);
    }
    var more := DeliverAll(s, tick, now);
    assert PrefixOf(Run(s, tick + more).b.rcv.delivered, s.a.snd.sent) by { InvPrefix(Run(s, tick + more)); }
    assert ScheduleFrom(tick + more, t);
    assert Completes(s, tick + more);
  }

  ghost predicate Completes(s: System, more: seq<Event>)
    requires Inv(s)
  {
    var t := Run(s, more);
    && t.a.snd.sent == s.a.snd.sent && |t.b.rcv.delivered| == |s.a.snd.sent|
       && PrefixOf(t.b.rcv.delivered, s.a.snd.sent)
    && !t.a.closed && !t.b.closed
  }

  lemma RunOne(s: System, e: Event)
    requires Inv(s)
    ensures Run(s, [e]) == Step(s, e)
  {
    hide Inv, Step;
    assert [e][..0] == [];
    assert Run(s, []) == s;
  }

  lemma AheadOf(s: SenderState, s': SenderState, r: ReceiverState)
    requires OnlyPayloadsAhead(s, r) && s'.sent == s.sent
    ensures OnlyPayloadsAhead(s', r)
  {
  }

  lemma InvPrefix(s: System)
    requires Inv(s)
    ensures PrefixOf(s.b.rcv.delivered, s.a.snd.sent)
  {
    hide CopyOk, SenderOk, BufferOk;
  }
}
