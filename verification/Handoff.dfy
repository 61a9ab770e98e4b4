/** The server's hand-off of stream data to a backend connection that is still being dialled
    (pkg/shadowgre/server.go:153-362, 426-457), as a state machine over the atomic steps of its
    goroutines: the receive loop, connectAndRun and its writer, and whoever runs close().

    The receive loop delivers data and the client's close one after the other, so a client's close
    falls between two calls of the handler (pkg/transport/server.go:110-148). close() may be run by
    anyone at any time, also by several at once; each runs its parts in order. A write may fail at
    any time, after any number of bytes, and must fail once the connection is closed. */
module Handoff {
  import opened Bytes

  const WRITE_CH_CAPACITY := 4096

  datatype StreamState = Connecting | Connected | Closed

  /** handleReliableData, between its atomic steps, with the data it holds. */
  datatype Handler =
    | Idle
    | AtLock(data: bytes)        // saw Connecting, about to take pendingMu
    | AtCloseCheck(data: bytes)  // about to look at writeCloseCh
    | AtQueue(data: bytes)       // about to send on writeCh

  /** connectAndRun, then its writer. A drain ends with shutting the write side down if it was the
      client's close that was seen. */
  datatype Writer =
    | Dialing
    | ConnReady                                // backendConn is set, pendingMu not yet taken
    | Flushing(rest: seq<bytes>)               // writing what was pending
    | Waiting                                  // writeToBackend's select
    | Holding(data: bytes)                     // received from writeCh, about to write
    | Draining(shut: bool)                     // drainWriteCh's select
    | DrainHolding(data: bytes, shut: bool)
    | Exited

  /** What one Write put on the connection: bytes from the front of the accepted item at `place`. */
  datatype Chunk = Chunk(place: nat, data: bytes)

  /** History: what the handler queued, in order; what was written; how many items were taken for
      writing; whether a write of the flush or the writer failed, and whether one of the drain did. */
  datatype Log = Log(accepted: seq<bytes>, written: seq<Chunk>, taken: nat, failed: bool, drainFailed: bool)

  datatype HandoffState = HandoffState(
    state: StreamState,
    pending: seq<bytes>,
    writeCh: seq<bytes>,
    writeClosed: bool,     // writeCloseCh
    closing: bool,         // some close() has won its compare-and-swap
    closeSignalled: bool,  // closeCh
    connClosed: bool,
    eofSent: bool,         // CloseWrite reached the backend
    handler: Handler,
    writer: Writer,
    log: Log)

  function Start(): HandoffState {
    HandoffState(Connecting, [], [], false, false, false, false, false, Idle, Dialing, Log([], [], 0, false, false))
  }

  datatype Step =
    | Arrive(data: bytes)      // the handler is called and loads the state
    | LockAndRecheck           // its critical section
    | CheckWriteClosed
    | Queue                    // the channel send succeeds
    | QueueTimeout             // the channel stayed full: drop, close() follows
    | ClientClose              // handleReliableClose, in the same goroutine
    | DialFails
    | DialSucceeds
    | TakePending              // connectAndRun's critical section
    | FlushOne
    | FlushFails(n: nat)       // after n bytes
    | FlushDone
    | WriterReceives
    | WriterWrites
    | WriterFails(n: nat)
    | WriterSeesWriteClose
    | WriterSeesClose
    | DrainReceives
    | DrainWrites
    | DrainFails(n: nat)
    | DrainEnds                // channel empty
    | CloseState               // the parts of close()
    | CloseWrite
    | CloseSignal
    | CloseConn

  // ---- The log -------------------------------------------------------------------------------

  function Accept(g: Log, data: bytes): Log {
    g.(accepted := g.accepted + [data])
  }

  function Give(g: Log, data: bytes): Log {
    g.(written := g.written + [Chunk(g.taken, data)], taken := g.taken + 1)
  }

  /** A failing write: fewer bytes than the item has, none on a closed connection. */
  function Cut(data: bytes, n: nat, open: bool): bytes {
    if open && n < |data| then data[..n] else []
  }

  function Lose(g: Log, cut: bytes): Log {
    g.(written := if cut == [] then g.written else g.written + [Chunk(g.taken, cut)], taken := g.taken + 1)
  }

  // ---- The steps -----------------------------------------------------------------------------

  function HandlerStep(s: HandoffState, e: Step): HandoffState {
    match e
    case Arrive(data) =>
      if !s.handler.Idle? || s.state.Closed? || |data| == 0 then s
      else if s.state.Connecting? then s.(handler := AtLock(data))
      else s.(handler := AtCloseCheck(data))
    case LockAndRecheck =>
      if !s.handler.AtLock? then s
      else if s.state.Connecting? then
        s.(handler := Idle, pending := s.pending + [s.handler.data], log := Accept(s.log, s.handler.data))
      else s.(handler := AtCloseCheck(s.handler.data))
    case CheckWriteClosed =>
      if !s.handler.AtCloseCheck? then s
      else if s.writeClosed then s.(handler := Idle)
      else s.(handler := AtQueue(s.handler.data))
    case Queue =>
      if !s.handler.AtQueue? || |s.writeCh| >= WRITE_CH_CAPACITY then s
      else s.(handler := Idle, writeCh := s.writeCh + [s.handler.data], log := Accept(s.log, s.handler.data))
    case QueueTimeout =>
      if !s.handler.AtQueue? then s else s.(handler := Idle)
    case ClientClose =>
      if !s.handler.Idle? then s else s.(writeClosed := true)
    case _ => s
  }

  /** connectAndRun up to the start of the writer. */
  function ConnectStep(s: HandoffState, e: Step): HandoffState {
    match e
    case DialFails =>
      if !s.writer.Dialing? then s else s.(writer := Exited, state := Closed)
    case DialSucceeds =>
      if !s.writer.Dialing? then s else s.(writer := ConnReady)
    case TakePending =>
      if !s.writer.ConnReady? then s
      else s.(writer := Flushing(s.pending), pending := [], state := Connected)
    case FlushOne =>
      if !s.writer.Flushing? || s.writer.rest == [] || s.connClosed then s
      else s.(writer := Flushing(s.writer.rest[1..]), log := Give(s.log, s.writer.rest[0]))
    case FlushFails(n) =>
      if !s.writer.Flushing? || s.writer.rest == [] then s
      else s.(writer := Exited, log := Lose(s.log, Cut(s.writer.rest[0], n, !s.connClosed)).(failed := true))
    case FlushDone =>
      if !s.writer.Flushing? || s.writer.rest != [] then s else s.(writer := Waiting)
    case _ => s
  }

  function WriterStep(s: HandoffState, e: Step): HandoffState {
    match e
    case WriterReceives =>
      if !s.writer.Waiting? || s.writeCh == [] then s
      else s.(writer := Holding(s.writeCh[0]), writeCh := s.writeCh[1..])
    case WriterWrites =>
      if !s.writer.Holding? || s.connClosed then s
      else s.(writer := Waiting, log := Give(s.log, s.writer.data))
    case WriterFails(n) =>
      if !s.writer.Holding? then s
      else s.(writer := Exited, log := Lose(s.log, Cut(s.writer.data, n, !s.connClosed)).(failed := true))
    case WriterSeesWriteClose =>
      if !s.writer.Waiting? || !s.writeClosed then s else s.(writer := Draining(true))
    case WriterSeesClose =>
      if !s.writer.Waiting? || !s.closeSignalled then s else s.(writer := Draining(false))
    case DrainReceives =>
      if !s.writer.Draining? || s.writeCh == [] then s
      else s.(writer := DrainHolding(s.writeCh[0], s.writer.shut), writeCh := s.writeCh[1..])
    case DrainWrites =>
      if !s.writer.DrainHolding? || s.connClosed then s
      else s.(writer := Draining(s.writer.shut), log := Give(s.log, s.writer.data))
    case DrainFails(n) =>
      if !s.writer.DrainHolding? then s
      else s.(writer := Draining(s.writer.shut),
              log := Lose(s.log, Cut(s.writer.data, n, !s.connClosed)).(drainFailed := true))
    case DrainEnds =>
      if !s.writer.Draining? || s.writeCh != [] then s
      else s.(writer := Exited, eofSent := s.writer.shut && !s.connClosed)
    case _ => s
  }

  /** Each close() does its parts in this order, once it has found the stream open. */
  function CloserStep(s: HandoffState, e: Step): HandoffState {
    match e
    case CloseState => if s.state.Closed? then s else s.(state := Closed, closing := true)
    case CloseWrite => if !s.closing then s else s.(writeClosed := true)
    case CloseSignal => if !s.closing || !s.writeClosed then s else s.(closeSignalled := true)
    case CloseConn => if !s.closeSignalled || s.writer.Dialing? then s else s.(connClosed := true)
    case _ => s
  }

  predicate ByHandler(e: Step) {
    e.Arrive? || e.LockAndRecheck? || e.CheckWriteClosed? || e.Queue? || e.QueueTimeout? || e.ClientClose?
  }

  predicate ByConnect(e: Step) {
    e.DialFails? || e.DialSucceeds? || e.TakePending? || e.FlushOne? || e.FlushFails? || e.FlushDone?
  }

  predicate ByCloser(e: Step) {
    e.CloseState? || e.CloseWrite? || e.CloseSignal? || e.CloseConn?
  }

  predicate ByWriter(e: Step) {
    !ByHandler(e) && !ByConnect(e) && !ByCloser(e)
  }

  /** One step of some goroutine; a step that is not enabled changes nothing. */
  function Next(s: HandoffState, e: Step): HandoffState {
    if ByHandler(e) then HandlerStep(s, e)
    else if ByConnect(e) then ConnectStep(s, e)
    else if ByCloser(e) then CloserStep(s, e)
    else WriterStep(s, e)
  }

  function RunFrom(s: HandoffState, es: seq<Step>): HandoffState {
    if es == [] then s else Next(RunFrom(s, es[..|es| - 1]), es[|es| - 1])
  }

  function Run(es: seq<Step>): HandoffState {
    RunFrom(Start(), es)
  }

  lemma {:induction false} RunFromAppend(s: HandoffState, es: seq<Step>, more: seq<Step>)
    ensures RunFrom(s, es + more) == RunFrom(RunFrom(s, es), more)
  {
    hide Next;
    if more == [] {
      assert es + more == es;
    } else {
      var init := more[..|more| - 1];
      RunFromAppend(s, es, init);
      assert (es + more)[..|es + more| - 1] == es + init;
    }
  }

  lemma OneMore(s: HandoffState, es: seq<Step>, e: Step)
    ensures RunFrom(s, es + [e]) == Next(RunFrom(s, es), e)
  {
    hide Next;
    assert (es + [e])[..|es|] == es;
  }

  lemma RunNone(s: HandoffState)
    ensures RunFrom(s, []) == s
  {
  }

  lemma RunOne(s: HandoffState, e: Step)
    ensures RunFrom(s, [e]) == Next(s, e)
  {
    OneMore(s, [], e);
    assert [] + [e] == [e];
  }

  // ---- The invariant -------------------------------------------------------------------------

  function Unflushed(w: Writer): seq<bytes> {
    if w.Flushing? then w.rest else []
  }

  function InHand(w: Writer): seq<bytes> {
    if w.Holding? || w.DrainHolding? then [w.data] else []
  }

  /** What has been accepted and not yet taken for writing, in the order it will be. */
  function Remainder(s: HandoffState): seq<bytes> {
    Unflushed(s.writer) + s.pending + InHand(s.writer) + s.writeCh
  }

  predicate BeforeFlush(w: Writer) {
    w.Dialing? || w.ConnReady?
  }

  predicate InDrain(w: Writer) {
    w.Draining? || w.DrainHolding?
  }

  ghost predicate Shape(s: HandoffState) {
    // While connecting nothing has gone past the pending list.
    && (s.state.Connecting? ==> BeforeFlush(s.writer) && s.writeCh == [] && (s.handler.Idle? || s.handler.AtLock?))
    // Once the pending list has been taken it stays empty.
    && (!BeforeFlush(s.writer) && s.pending != [] ==> s.writer.Exited?)
    && (s.log.failed ==> s.writer.Exited? && !s.log.drainFailed)
    && (s.log.drainFailed ==> InDrain(s.writer) || s.writer.Exited?)
    // A drain has seen one of the close channels closed, and closeCh never closes before writeCloseCh.
    && (InDrain(s.writer) || s.log.drainFailed ==> s.writeClosed)
    && (s.closeSignalled ==> s.writeClosed)
    // Only a close() can come between the handler's look at writeCloseCh and its send.
    && (s.handler.AtQueue? && s.writeClosed ==> s.closing)
  }

  /** Each write carried the front of an accepted item, in order, no item twice. */
  ghost predicate OrderKept(g: Log) {
    && g.taken <= |g.accepted|
    && (forall i :: 0 <= i < |g.written| ==>
         g.written[i].place < g.taken && g.written[i].data <= g.accepted[g.written[i].place])
    && (forall i, j :: 0 <= i < j < |g.written| ==> g.written[i].place < g.written[j].place)
  }

  /** Moreover none was skipped, and none but the last cut short. */
  ghost predicate Gapless(g: Log) {
    && |g.written| <= |g.accepted|
    && forall i :: 0 <= i < |g.written| ==>
         && g.written[i].place == i && g.written[i].data <= g.accepted[i]
         && (i + 1 < |g.written| ==> g.written[i].data == g.accepted[i])
  }

  /** Everything taken was written in full. */
  ghost predicate AllWritten(g: Log) {
    && |g.written| == g.taken <= |g.accepted|
    && forall i :: 0 <= i < |g.written| ==> g.written[i] == Chunk(i, g.accepted[i])
  }

  ghost predicate Accounted(s: HandoffState) {
    s.log.taken <= |s.log.accepted| && s.log.accepted[s.log.taken..] == Remainder(s)
  }

  ghost predicate Inv(s: HandoffState) {
    && Shape(s)
    && OrderKept(s.log)
    && (!s.log.failed ==> Accounted(s))
    && (!s.log.drainFailed ==> if s.log.failed then Gapless(s.log) else AllWritten(s.log))
  }

  // ---- The log under its operations ----------------------------------------------------------

  lemma AcceptKeepsOrder(g: Log, data: bytes)
    requires OrderKept(g)
    ensures OrderKept(Accept(g, data))
  {
  }

  lemma AcceptKeepsWrites(g: Log, data: bytes)
    ensures Gapless(g) ==> Gapless(Accept(g, data))
    ensures AllWritten(g) ==> AllWritten(Accept(g, data))
  {
  }

  lemma AcceptKeeps(g: Log, data: bytes)
    requires OrderKept(g)
    ensures OrderKept(Accept(g, data))
    ensures Gapless(g) ==> Gapless(Accept(g, data))
    ensures AllWritten(g) ==> AllWritten(Accept(g, data))
    ensures Accept(g, data).accepted[g.taken..] == g.accepted[g.taken..] + [data]
  {
    AcceptKeepsOrder(g, data);
    AcceptKeepsWrites(g, data);
    hide Gapless, AllWritten;
  }

  lemma GiveKeeps(g: Log, data: bytes)
    requires OrderKept(g) && g.taken < |g.accepted| && g.accepted[g.taken] == data
    ensures OrderKept(Give(g, data))
    ensures AllWritten(g) ==> AllWritten(Give(g, data))
  {
  }

  lemma LoseKeeps(g: Log, data: bytes, n: nat, open: bool)
    requires OrderKept(g) && g.taken < |g.accepted| && g.accepted[g.taken] == data
    ensures OrderKept(Lose(g, Cut(data, n, open)))
    ensures AllWritten(g) ==> Gapless(Lose(g, Cut(data, n, open)))
  {
    var cut := Cut(data, n, open);
    assert cut <= data by { CutIsPrefix(data, n, open); }
    hide Cut;
  }

  lemma CutIsPrefix(data: bytes, n: nat, open: bool)
    ensures Cut(data, n, open) <= data
    ensures data != [] ==> |Cut(data, n, open)| < |data|
  {
  }

  /** Taking the first of what remains. */
  lemma TakeFront(accepted: seq<bytes>, taken: nat, data: bytes, rest: seq<bytes>)
    requires taken <= |accepted| && accepted[taken..] == [data] + rest
    ensures taken < |accepted| && accepted[taken] == data && accepted[taken + 1..] == rest
  {
    assert accepted[taken..][0] == data;
    assert accepted[taken + 1..] == accepted[taken..][1..];
  }

  // ---- Every step keeps the invariant --------------------------------------------------------

  lemma RemainderCases(s: HandoffState)
    requires Shape(s)
    ensures s.writer.Flushing? ==> Remainder(s) == s.writer.rest + s.writeCh
    ensures s.writer.Waiting? || s.writer.Draining? ==> Remainder(s) == s.writeCh
    ensures s.writer.Holding? || s.writer.DrainHolding? ==> Remainder(s) == [s.writer.data] + s.writeCh
    ensures BeforeFlush(s.writer) || s.writer.Exited? ==> Remainder(s) == s.pending + s.writeCh
  {
  }

  lemma FrontOf(rest: seq<bytes>, ch: seq<bytes>)
    requires rest != []
    ensures rest + ch == [rest[0]] + (rest[1..] + ch)
  {
  }

  /** Appending to the pending list, with nothing behind it, or to the channel appends to the remainder. */
  lemma Appended(s: HandoffState, h: HandoffState, data: bytes)
    requires h.writer == s.writer
    requires (h.pending == s.pending + [data] && h.writeCh == s.writeCh == [] && InHand(s.writer) == [])
          || (h.pending == s.pending && h.writeCh == s.writeCh + [data])
    ensures Remainder(h) == Remainder(s) + [data]
  {
    hide Unflushed, InHand;
  }

  lemma HandlerKeepsShape(s: HandoffState, e: Step)
    requires Shape(s)
    ensures Shape(HandlerStep(s, e))
  {
  }

  /** A handler step appends its data to the end of the remainder when it accepts it, and otherwise
      leaves the remainder alone. */
  lemma HandlerAppends(s: HandoffState, e: Step)
    requires Shape(s)
    ensures var h := HandlerStep(s, e);
            (h.log == s.log && Remainder(h) == Remainder(s)) ||
            (!s.handler.Idle? && h.log == Accept(s.log, s.handler.data)
              && Remainder(h) == Remainder(s) + [s.handler.data])
  {
    hide Accept;
    var h := HandlerStep(s, e);
    if (e.LockAndRecheck? && s.handler.AtLock? && s.state.Connecting?) ||
       (e.Queue? && s.handler.AtQueue? && |s.writeCh| < WRITE_CH_CAPACITY) {
      Appended(s, h, s.handler.data);
    }
    hide Unflushed, InHand;
  }

  lemma HandlerKeepsInv(s: HandoffState, e: Step)
    requires Inv(s)
    ensures Inv(HandlerStep(s, e))
  {
    HandlerKeepsShape(s, e);
    HandlerAppends(s, e);
    if !s.handler.Idle? {
      AcceptKeeps(s.log, s.handler.data);
    }
    hide HandlerStep, Remainder, Shape, OrderKept, Gapless, AllWritten;
  }

  lemma DialKeepsInv(s: HandoffState, e: Step)
    requires Inv(s) && (e.DialFails? || e.DialSucceeds? || e.TakePending?)
    ensures Inv(ConnectStep(s, e))
  {
    var c := ConnectStep(s, e);
    assert Shape(c) && c.log == s.log;
    RemainderCases(s);
    RemainderCases(c);
    hide Remainder, OrderKept, Gapless, AllWritten;
  }

  lemma FlagsDoNotMatter(g: Log, failed: bool, drainFailed: bool)
    ensures var f := g.(failed := failed, drainFailed := drainFailed);
            && (OrderKept(f) <==> OrderKept(g)) && (Gapless(f) <==> Gapless(g)) && (AllWritten(f) <==> AllWritten(g))
  {
  }

  /** One item taken: written in full, or cut short by a failure. */
  lemma LogMoves(g: Log, data: bytes, n: nat, open: bool)
    requires OrderKept(g) && g.taken < |g.accepted| && g.accepted[g.taken] == data
    ensures var w, l := Give(g, data), Lose(g, Cut(data, n, open));
            && OrderKept(w) && OrderKept(l) && (AllWritten(g) ==> AllWritten(w) && Gapless(l))
            && OrderKept(l.(failed := true)) && OrderKept(l.(drainFailed := true))
            && (AllWritten(g) ==> Gapless(l.(failed := true)))
  {
    GiveKeeps(g, data);
    LoseKeeps(g, data, n, open);
    var l := Lose(g, Cut(data, n, open));
    hide OrderKept, Gapless, AllWritten, Give, Lose, Cut;
    FlagsDoNotMatter(l, true, l.drainFailed);
    FlagsDoNotMatter(l, l.failed, true);
  }

  lemma ConnectKeepsShape(s: HandoffState, e: Step)
    requires Shape(s)
    ensures Shape(ConnectStep(s, e))
  {
    hide Cut;
  }

  lemma WriterKeepsShape(s: HandoffState, e: Step)
    requires Shape(s)
    ensures Shape(WriterStep(s, e))
  {
    hide Cut;
  }

  /** What a step that writes, or tries to, takes off the remainder. */
  lemma FlushMoves(s: HandoffState, e: Step)
    requires Shape(s) && s.writer.Flushing? && s.writer.rest != []
    ensures var data, c := s.writer.rest[0], ConnectStep(s, e);
            && Remainder(s) == [data] + (s.writer.rest[1..] + s.writeCh)
            && (e.FlushOne? && !s.connClosed ==>
                 c.log == Give(s.log, data) && Remainder(c) == s.writer.rest[1..] + s.writeCh)
            && (e.FlushFails? ==> c.log == Lose(s.log, Cut(data, e.n, !s.connClosed)).(failed := true))
  {
    hide Give, Lose, Cut;
    RemainderCases(s);
    FrontOf(s.writer.rest, s.writeCh);
  }

  /** A step that took the first of the remainder and wrote it, or failed to. */
  lemma TakenKeepsInv(s: HandoffState, w: HandoffState, data: bytes, rest: seq<bytes>, n: nat)
    requires Inv(s) && Shape(w) && !s.log.failed && Remainder(s) == [data] + rest
    requires (w.log == Give(s.log, data) && Remainder(w) == rest)
          || w.log == Lose(s.log, Cut(data, n, !s.connClosed)).(failed := true)
          || (w.log == Lose(s.log, Cut(data, n, !s.connClosed)).(drainFailed := true) && Remainder(w) == rest)
    requires s.log.drainFailed ==> !w.log.failed
    ensures Inv(w)
  {
    hide Remainder, OrderKept, Gapless, AllWritten, Cut, Shape;
    TakeFront(s.log.accepted, s.log.taken, data, rest);
    LogMoves(s.log, data, n, !s.connClosed);
  }

  lemma FlushKeepsInv(s: HandoffState, e: Step)
    requires Inv(s) && (e.FlushOne? || e.FlushFails? || e.FlushDone?)
    ensures Inv(ConnectStep(s, e))
  {
    ConnectKeepsShape(s, e);
    hide Remainder, OrderKept, Gapless, AllWritten, Cut, Give, Lose;
    if s.writer.Flushing? && s.writer.rest != [] && (e.FlushFails? || (e.FlushOne? && !s.connClosed)) {
      FlushMoves(s, e);
      TakenKeepsInv(s, ConnectStep(s, e), s.writer.rest[0], s.writer.rest[1..] + s.writeCh,
        if e.FlushFails? then e.n else 0);
    } else {
      RemainderCases(s);
      RemainderCases(ConnectStep(s, e));
    }
  }

  lemma HoldMoves(s: HandoffState, e: Step)
    requires Shape(s) && (s.writer.Holding? || s.writer.DrainHolding?)
    ensures var data, w := s.writer.data, WriterStep(s, e);
            && Remainder(s) == [data] + s.writeCh
            && (w == s || (w.log == Give(s.log, data) && Remainder(w) == s.writeCh)
                || (e.WriterFails? && w.log == Lose(s.log, Cut(data, e.n, !s.connClosed)).(failed := true))
                || (e.DrainFails? && w.log == Lose(s.log, Cut(data, e.n, !s.connClosed)).(drainFailed := true)
                    && Remainder(w) == s.writeCh))
  {
    hide Give, Lose, Cut;
    RemainderCases(s);
  }

  lemma WriteKeepsInv(s: HandoffState, e: Step)
    requires Inv(s) && (s.writer.Holding? || s.writer.DrainHolding?)
    ensures Inv(WriterStep(s, e))
  {
    WriterKeepsShape(s, e);
    hide Remainder, OrderKept, Gapless, AllWritten, Cut, Give, Lose;
    HoldMoves(s, e);
    var w := WriterStep(s, e);
    if w != s {
      assert w.log.failed ==> w.writer.Exited? && !w.log.drainFailed;
      TakenKeepsInv(s, w, s.writer.data, s.writeCh, if e.WriterFails? || e.DrainFails? then e.n else 0);
    }
  }

  /** Receiving, turning to the drain and ending it move nothing. */
  lemma ReceiveMoves(s: HandoffState, e: Step)
    requires Shape(s) && !s.writer.Holding? && !s.writer.DrainHolding?
    ensures WriterStep(s, e).log == s.log
  {
    hide Shape, Give, Lose, Cut;
  }

  lemma PendingTaken(s: HandoffState)
    requires Shape(s) && !BeforeFlush(s.writer) && !s.writer.Exited?
    ensures s.pending == []
  {
  }

  lemma RemainderBehind(s: HandoffState)
    requires s.pending == [] && !s.writer.Flushing?
    ensures Remainder(s) == InHand(s.writer) + s.writeCh
  {
  }

  lemma FirstAndRest(ch: seq<bytes>)
    ensures ch != [] ==> [ch[0]] + ch[1..] == ch
    ensures [] + ch == ch
  {
  }

  /** In a select nothing is in hand, and what a step takes in hand it takes from the channel's front. */
  lemma SelectStep(s: HandoffState, e: Step)
    requires s.writer.Waiting? || s.writer.Draining?
    ensures var w := WriterStep(s, e);
            && w.pending == s.pending && !w.writer.Flushing?
            && ((InHand(w.writer) == [] && w.writeCh == s.writeCh)
                || (s.writeCh != [] && InHand(w.writer) == [s.writeCh[0]] && w.writeCh == s.writeCh[1..]))
  {
    hide Give, Lose, Cut;
  }

  lemma SelectRemainder(s: HandoffState, e: Step)
    requires s.pending == [] && (s.writer.Waiting? || s.writer.Draining?)
    ensures Remainder(WriterStep(s, e)) == Remainder(s)
  {
    hide Remainder, WriterStep;
    SelectStep(s, e);
    RemainderBehind(s);
    RemainderBehind(WriterStep(s, e));
    FirstAndRest(s.writeCh);
  }

  lemma OtherwiseIdle(s: HandoffState, e: Step)
    requires !s.writer.Waiting? && !s.writer.Draining? && !s.writer.Holding? && !s.writer.DrainHolding?
    ensures WriterStep(s, e) == s
  {
  }

  lemma ReceiveRemainder(s: HandoffState, e: Step)
    requires Shape(s) && !s.writer.Holding? && !s.writer.DrainHolding?
    ensures Remainder(WriterStep(s, e)) == Remainder(s)
  {
    hide Shape, WriterStep, Remainder;
    if s.writer.Waiting? || s.writer.Draining? {
      PendingTaken(s);
      SelectRemainder(s, e);
    } else {
      OtherwiseIdle(s, e);
    }
  }

  lemma SameKeepsInv(s: HandoffState, w: HandoffState)
    requires Inv(s) && Shape(w) && w.log == s.log && Remainder(w) == Remainder(s)
    ensures Inv(w)
  {
    hide Shape, Remainder, OrderKept, Gapless, AllWritten;
  }

  lemma ReceiveKeepsInv(s: HandoffState, e: Step)
    requires Inv(s) && !s.writer.Holding? && !s.writer.DrainHolding?
    ensures Inv(WriterStep(s, e))
  {
    assert Shape(s);
    hide Inv, Shape, WriterStep, Remainder;
    WriterKeepsShape(s, e);
    ReceiveMoves(s, e);
    ReceiveRemainder(s, e);
    SameKeepsInv(s, WriterStep(s, e));
  }

  lemma CloserKeepsInv(s: HandoffState, e: Step)
    requires Inv(s)
    ensures Inv(CloserStep(s, e))
  {
    assert Shape(CloserStep(s, e));
    hide OrderKept, Gapless, AllWritten;
  }

  lemma NextKeepsInv(s: HandoffState, e: Step)
    requires Inv(s)
    ensures Inv(Next(s, e))
  {
    hide HandlerStep, ConnectStep, WriterStep, CloserStep, Inv;
    if ByHandler(e) {
      HandlerKeepsInv(s, e);
    } else if ByConnect(e) {
      if e.FlushOne? || e.FlushFails? || e.FlushDone? {
        FlushKeepsInv(s, e);
      } else {
        DialKeepsInv(s, e);
      }
    } else if ByCloser(e) {
      CloserKeepsInv(s, e);
    } else if s.writer.Holding? || s.writer.DrainHolding? {
      WriteKeepsInv(s, e);
    } else {
      ReceiveKeepsInv(s, e);
    }
  }

  lemma {:induction false} RunFromInv(s: HandoffState, es: seq<Step>)
    requires Inv(s)
    ensures Inv(RunFrom(s, es))
  {
    hide Inv, Next;
    if es != [] {
      RunFromInv(s, es[..|es| - 1]);
      NextKeepsInv(RunFrom(s, es[..|es| - 1]), es[|es| - 1]);
    }
  }

  lemma StartInv()
    ensures Inv(Start())
  {
    assert Remainder(Start()) == [];
    hide Remainder;
  }

  lemma RunInv(es: seq<Step>)
    ensures Inv(Run(es))
  {
    StartInv();
    hide RunFrom, Inv;
    RunFromInv(Start(), es);
  }

  // ---- What each goroutine leaves alone ------------------------------------------------------

  lemma HandlerLeaves(s: HandoffState, e: Step)
    ensures var h := HandlerStep(s, e);
            && h.writer == s.writer && h.connClosed == s.connClosed
            && (h.log == s.log || (!s.handler.Idle? && h.log == Accept(s.log, s.handler.data)))
  {
    hide Accept;
  }

  lemma ConnectLeaves(s: HandoffState, e: Step)
    ensures var c := ConnectStep(s, e);
            && c.handler == s.handler && (s.writer.Exited? ==> c == s) && (s.connClosed ==> c.connClosed)
            && LogExtends(s.log, c.log, s.connClosed)
  {
    hide Cut;
    CutClosed();
  }

  lemma WriterLeaves(s: HandoffState, e: Step)
    ensures var w := WriterStep(s, e);
            && w.handler == s.handler && (s.writer.Exited? ==> w == s) && (s.connClosed ==> w.connClosed)
            && LogExtends(s.log, w.log, s.connClosed)
  {
    WriterExtends(s, e);
    hide Give, Lose, Cut, LogExtends;
  }

  lemma WriterExtends(s: HandoffState, e: Step)
    ensures LogExtends(s.log, WriterStep(s, e).log, s.connClosed)
  {
    hide Cut;
    CutClosed();
  }

  /** Only writes were added, and none on a closed connection. */
  predicate LogExtends(g: Log, h: Log, connClosed: bool) {
    h.accepted == g.accepted && g.written <= h.written && (connClosed ==> h.written == g.written)
  }

  lemma CutClosed()
    ensures forall data, n :: Cut(data, n, false) == []
  {
  }

  lemma CloserLeaves(s: HandoffState, e: Step)
    ensures var c := CloserStep(s, e);
            && c.handler == s.handler && c.writer == s.writer && c.log == s.log && (s.connClosed ==> c.connClosed)
  {
  }

  lemma NextLeaves(s: HandoffState, e: Step)
    ensures var t := Next(s, e);
            && s.log.accepted <= t.log.accepted && s.log.written <= t.log.written
            && (!ByHandler(e) ==> t.handler == s.handler && t.log.accepted == s.log.accepted)
            && (!ByConnect(e) && !ByWriter(e) ==>
                 t.writer == s.writer && t.log == s.log.(accepted := t.log.accepted))
            && (s.writer.Exited? ==> t.writer.Exited? && t.log == s.log.(accepted := t.log.accepted))
            && (s.connClosed ==> t.connClosed && t.log.written == s.log.written)
  {
    HandlerLeaves(s, e);
    ConnectLeaves(s, e);
    WriterLeaves(s, e);
    CloserLeaves(s, e);
    hide HandlerStep, ConnectStep, WriterStep, CloserStep, ByHandler, ByConnect, ByCloser;
  }

  lemma {:induction false} RunFromLeaves(s: HandoffState, es: seq<Step>)
    ensures var t := RunFrom(s, es);
            && s.log.accepted <= t.log.accepted && s.log.written <= t.log.written
            && (s.writer.Exited? ==> t.writer.Exited? && t.log.written == s.log.written)
            && (s.connClosed ==> t.connClosed && t.log.written == s.log.written)
  {
    hide Next;
    if es != [] {
      RunFromLeaves(s, es[..|es| - 1]);
      NextLeaves(RunFrom(s, es[..|es| - 1]), es[|es| - 1]);
    }
  }
}
