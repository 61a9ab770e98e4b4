/** What may happen while a Send waits for the window, and why taking the sequence number before the
    wait makes no difference: no other handler looks at sendSeq (pkg/tunnel/reliable.go:391-417,
    542-548). */
module Waiting {
  import opened SeqNum
  import opened ReliableCodec
  import CC = CongestionControl
  import RttEstimation
  import opened Sender
  import opened Receiver
  import opened Endpoint

  /** What another goroutine does during a wait: the receive loop, the retransmission ticker, the
      ack timer, a Close; or nothing, when the 100 ms safety timer ends the wait. */
  datatype Pause = Arrived(pkt: ReliablePacket, now: int) | Ticked(now: int) | TimerFired | ClosedMeanwhile | Nothing

  ghost function AfterPause(e: EndpointState, p: Pause): (r: EndpointState)
    requires CC.Valid(e.snd.cc)
    ensures CC.Valid(r.snd.cc)
  {
    match p
    case Arrived(pkt, now) =>
      assert CC.Valid(Receive(e, pkt, now).0.snd.cc) by { ReceiveSnd(e, pkt, now); }
      Receive(e, pkt, now).0
    case Ticked(now) => Tick(e, now).0
    case TimerFired => if e.rcv.timerArmed then AckTimer(e).0 else e
    case ClosedMeanwhile => Endpoint.Close(e)
    case Nothing => e
  }

  lemma ReceiveSnd(e: EndpointState, pkt: ReliablePacket, now: int)
    requires CC.Valid(e.snd.cc)
    ensures Receive(e, pkt, now).0.snd ==
              if pkt.HasAck() then ProcessAck(e.snd, pkt.ack, pkt.sackBlocks, now).0 else e.snd
  {
    hide ProcessAck, ProcessData, Drain, CC.Valid;
  }

  ghost function AfterPauses(e: EndpointState, ps: seq<Pause>): (r: EndpointState)
    requires CC.Valid(e.snd.cc)
    ensures CC.Valid(r.snd.cc)
  {
    if ps == [] then e else AfterPause(AfterPauses(e, ps[..|ps| - 1]), ps[|ps| - 1])
  }

  /** The state with the next number taken. */
  function Reserved(e: EndpointState): EndpointState {
    e.(snd := e.snd.(sendSeq := Add(e.snd.sendSeq, 1)))
  }

  function WithSeq(s: SenderState, x: uint32): SenderState {
    s.(sendSeq := x)
  }

  lemma DuplicateCommutes(s: SenderState, blocks: seq<SackBlock>, now: int, x: uint32)
    ensures var (t, out) := DuplicateAck(s, blocks, now);
            DuplicateAck(WithSeq(s, x), blocks, now) == (WithSeq(t, x), out) && t.sendSeq == s.sendSeq
  {
    hide SackSpan, NewlySacked, Lost, Copies, SackInterval, CC.LossIntervalNs, CC.OnLoss, MarkSacked, MarkResent, Wrap;
  }

  lemma SelectiveCommutes(s: SenderState, ack: uint32, blocks: seq<SackBlock>, now: int, x: uint32)
    ensures var (t, out) := Selective(s, ack, blocks, now);
            Selective(WithSeq(s, x), ack, blocks, now) == (WithSeq(t, x), out) && t.sendSeq == s.sendSeq
  {
    hide SackSpan, NewlySacked, Lost, Copies, SackInterval, CC.LossIntervalNs, CC.OnLoss, MarkSacked, MarkResent, Wrap;
  }

  lemma AckCommutes(s: SenderState, ack: uint32, blocks: seq<SackBlock>, now: int, x: uint32)
    requires CC.Valid(s.cc)
    ensures var (t, out) := ProcessAck(s, ack, blocks, now);
            ProcessAck(WithSeq(s, x), ack, blocks, now) == (WithSeq(t, x), out) && t.sendSeq == s.sendSeq
  {
    hide Scanned, AckSpan, Selective, DuplicateAck, Wrap, SeqGreater, Sub, Samples, RttEstimation.UpdatedAll,
      CC.OnAckAdvance, CC.Valid;
    if ack == s.sendBase {
      DuplicateCommutes(s, blocks, now, x);
    } else {
      SelectiveCommutes(Cumulative(s, ack, now), ack, blocks, now, x);
    }
  }

  lemma TickCommutes(s: SenderState, now: int, x: uint32)
    ensures CheckRetransmit(WithSeq(s, x), now) == WithSeq(CheckRetransmit(s, now), x)
    ensures CheckRetransmit(s, now).sendSeq == s.sendSeq
  {
    assert Due(WithSeq(s, x), now) == Due(s, now);
    assert GivenUp(WithSeq(s, x), now) == GivenUp(s, now);
    hide Due, GivenUp, CC.LossIntervalNs, CC.OnLoss, RttEstimation.BackedOff;
  }

  /** A pause does the same with the number taken as without. */
  lemma PauseCommutes(e: EndpointState, p: Pause)
    requires CC.Valid(e.snd.cc)
    ensures AfterPause(Reserved(e), p) == Reserved(AfterPause(e, p))
    ensures AfterPause(e, p).snd.sendSeq == e.snd.sendSeq && AfterPause(e, p).streamID == e.streamID
  {
    hide ProcessAck, CheckRetransmit, ProcessData, Drain, CC.Valid, Add;
    match p
    case Arrived(pkt, now) =>
      if pkt.HasAck() {
        AckCommutes(e.snd, pkt.ack, pkt.sackBlocks, now, Add(e.snd.sendSeq, 1));
      }
    case Ticked(now) => TickCommutes(e.snd, now, Add(e.snd.sendSeq, 1));
    case _ =>
  }

  /** Nor do any number of them. */
  lemma {:induction false} PausesCommute(e: EndpointState, ps: seq<Pause>)
    requires CC.Valid(e.snd.cc)
    ensures AfterPauses(Reserved(e), ps) == Reserved(AfterPauses(e, ps))
    ensures AfterPauses(e, ps).snd.sendSeq == e.snd.sendSeq && AfterPauses(e, ps).streamID == e.streamID
  {
    hide AfterPause, CC.Valid, Reserved;
    if ps != [] {
      PausesCommute(e, ps[..|ps| - 1]);
      PauseCommutes(AfterPauses(e, ps[..|ps| - 1]), ps[|ps| - 1]);
    }
  }
}
