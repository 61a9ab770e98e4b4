/** One end of a reliable stream: the handlers as functions on sender and receiver state
    (pkg/tunnel/reliable.go:536-646, 1020-1072). Each is one atomic step and returns the packets it
    hands to the network, in order. */
module Endpoint {
  import opened SeqNum
  import opened Bytes
  import opened ReliableCodec
  import opened SackBuilder
  import CongestionControl

  import Receiver
  import opened Sender

  datatype EndpointState = EndpointState(
    streamID: uint32,
    snd: Sender.SenderState,
    rcv: Receiver.ReceiverState,
    closed: bool)

  function NewEndpoint(streamID: uint32): EndpointState {
    EndpointState(streamID, Sender.NewSender(), Receiver.NewReceiver(), false)
  }

  /** A data packet, carrying an acknowledgment when one is pending. */
  ghost function DataPacket(e: EndpointState, data: bytes): ReliablePacket {
    if e.rcv.pendingAck then
      var blocks := SackBlocks(e.rcv.outOfOrder.Keys, e.rcv.recvNext);
      ReliablePacket(e.streamID, if |blocks| > 0 then FLAG_DATA + FLAG_ACK + FLAG_SACK else FLAG_DATA + FLAG_ACK,
                     e.snd.sendSeq, e.rcv.recvNext, blocks, data)
    else ReliablePacket(e.streamID, FLAG_DATA, e.snd.sendSeq, 0, [], data)
  }

  /** Send, once it has found the stream open and the window open. */
  ghost function Send(e: EndpointState, data: bytes, now: int): (EndpointState, seq<Copy>) {
    var pkt := DataPacket(e, data);
    (e.(snd := Sender.Record(e.snd, Payload(data), pkt, |e.rcv.delivered|, now),
        rcv := if e.rcv.pendingAck then Receiver.Acknowledged(e.rcv) else e.rcv),
     [Copy(Encode(pkt), |e.snd.sent|, |e.rcv.delivered|)])
  }

  function ClosePacket(e: EndpointState): ReliablePacket {
    ReliablePacket(e.streamID, FLAG_CLOSE + FLAG_ACK, e.snd.sendSeq, e.rcv.recvNext, [], [])
  }

  /** SendClose on an open stream: no window check, and a pending acknowledgment stays pending. */
  function SendClose(e: EndpointState, now: int): (EndpointState, seq<Copy>) {
    var pkt := ClosePacket(e);
    (e.(snd := Sender.Record(e.snd, Fin, pkt, |e.rcv.delivered|, now),
        rcv := e.rcv.(acked := |e.rcv.delivered|, sinceAck := 0)),
     [Copy(Encode(pkt), |e.snd.sent|, |e.rcv.delivered|)])
  }

  function ReceiveAck(e: EndpointState, pkt: ReliablePacket, now: int): (EndpointState, seq<Copy>)
    requires CongestionControl.Valid(e.snd.cc)
  {
    if pkt.HasAck() then
      var (snd, out) := Sender.ProcessAck(e.snd, pkt.ack, pkt.sackBlocks, now);
      (e.(snd := snd), out)
    else (e, [])
  }

  ghost function ReceiveData(e: EndpointState, pkt: ReliablePacket): (EndpointState, seq<Copy>) {
    if pkt.HasData() && |pkt.data| > 0 then
      var (rcv, out) := Receiver.ProcessData(e.streamID, e.rcv, pkt.seqNo, pkt.data);
      (e.(rcv := rcv), out)
    else (e, [])
  }

  function ReceiveClose(e: EndpointState, pkt: ReliablePacket): EndpointState {
    if pkt.HasClose() then e.(rcv := Receiver.Drain(e.rcv)) else e
  }

  ghost function Receive(e: EndpointState, pkt: ReliablePacket, now: int): (EndpointState, seq<Copy>)
    requires CongestionControl.Valid(e.snd.cc)
  {
    var (e1, out1) := ReceiveAck(e, pkt, now);
    var (e2, out2) := ReceiveData(e1, pkt);
    (ReceiveClose(e2, pkt), out1 + out2)
  }

  /** checkRetransmit. The order in which Go walks the map decides only the order of the copies. */
  function Tick(e: EndpointState, now: int): (EndpointState, set<Copy>) {
    (e.(snd := Sender.CheckRetransmit(e.snd, now)), Sender.RetransmittedCopies(e.snd, now))
  }

  /** The ack timer goes off. */
  ghost function AckTimer(e: EndpointState): (EndpointState, seq<Copy>) {
    var (rcv, out) := Receiver.AckTimerFires(e.streamID, e.rcv);
    (e.(rcv := rcv), out)
  }

  function Close(e: EndpointState): EndpointState {
    if e.closed then e else e.(closed := true, rcv := e.rcv.(timerArmed := false))
  }
}
