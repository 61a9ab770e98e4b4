/** The server's stream as the program has it: one object whose fields the receive loop, the
    connecting goroutine, the writer and closers change (pkg/shadowgre/server.go:153-230, 250-362,
    426-457).

    Between the atomic sections of a method the other goroutines may take any steps; a caller gives
    them as a schedule, together with which writes fail. Each method is proved to be a sequence of
    steps of the hand-off state machine, so everything proved there about all interleavings holds of
    this code. */
module ServerStream {
  import opened Bytes
  import opened Handoff
  import opened HandoffSafety

  predicate NotHandler(es: seq<Step>) {
    forall i :: 0 <= i < |es| ==> !ByHandler(es[i])
  }

  /** Steps of anyone but connectAndRun's goroutines. */
  predicate NotWriter(es: seq<Step>) {
    forall i :: 0 <= i < |es| ==> !ByConnect(es[i]) && !ByWriter(es[i])
  }

  /** What the others do between the parts of close(). */
  datatype Closing = Closing(afterState: seq<Step>, afterWrite: seq<Step>, afterSignal: seq<Step>)

  /** What the others do before a write; whether it fails on its own, after n bytes; and what they do
      during the close() that follows a failure. */
  datatype WriteTry = WriteTry(before: seq<Step>, fails: bool, n: nat, closing: Closing)

  /** What happens around one round of the writer's loop. */
  datatype Round = Round(beforeSelect: seq<Step>, write: WriteTry)

  const QUIET := Round([], WriteTry([], false, 0, Closing([], [], [])))

  predicate ClosingNotHandler(c: Closing) {
    NotHandler(c.afterState) && NotHandler(c.afterWrite) && NotHandler(c.afterSignal)
  }

  predicate ClosingNotWriter(c: Closing) {
    NotWriter(c.afterState) && NotWriter(c.afterWrite) && NotWriter(c.afterSignal)
  }

  predicate WriteNotWriter(t: WriteTry) {
    NotWriter(t.before) && ClosingNotWriter(t.closing)
  }

  predicate RoundNotWriter(r: Round) {
    NotWriter(r.beforeSelect) && WriteNotWriter(r.write)
  }

  predicate RoundsNotWriter(rounds: seq<Round>) {
    forall i :: 0 <= i < |rounds| ==> RoundNotWriter(rounds[i])
  }

  lemma QuietRound()
    ensures RoundNotWriter(QUIET)
  {
  }

  // ---- What the other goroutines leave alone -------------------------------------------------

  lemma {:induction false} OthersLeaveHandler(s: HandoffState, es: seq<Step>)
    requires NotHandler(es)
    ensures RunFrom(s, es).handler == s.handler && RunFrom(s, es).log.accepted == s.log.accepted
  {
    hide Next, ByHandler;
    if es != [] {
      OthersLeaveHandler(s, es[..|es| - 1]);
      NextLeaves(RunFrom(s, es[..|es| - 1]), es[|es| - 1]);
    }
  }

  lemma {:induction false} OthersLeaveWriter(s: HandoffState, es: seq<Step>)
    requires NotWriter(es)
    ensures var s' := RunFrom(s, es);
            s'.writer == s.writer && s'.log == s.log.(accepted := s'.log.accepted) && s.log.accepted <= s'.log.accepted
  {
    hide Next, ByConnect, ByWriter;
    if es != [] {
      OthersLeaveWriter(s, es[..|es| - 1]);
      NextLeaves(RunFrom(s, es[..|es| - 1]), es[|es| - 1]);
    }
  }

  lemma ClosedStep(s: HandoffState, e: Step)
    ensures (s.closing ==> Next(s, e).closing) && (s.writeClosed ==> Next(s, e).writeClosed)
    ensures s.closeSignalled ==> Next(s, e).closeSignalled
  {
    HandlerFlags(s, e);
    ConnectFlags(s, e);
    WriterFlags(s, e);
    hide HandlerStep, ConnectStep, WriterStep, ByHandler, ByConnect;
  }

  lemma HandlerFlags(s: HandoffState, e: Step)
    ensures var h := HandlerStep(s, e);
            h.closing == s.closing && (s.writeClosed ==> h.writeClosed) && h.closeSignalled == s.closeSignalled
  {
    hide Accept;
  }

  lemma ConnectFlags(s: HandoffState, e: Step)
    ensures var c := ConnectStep(s, e);
            c.closing == s.closing && c.writeClosed == s.writeClosed && c.closeSignalled == s.closeSignalled
  {
    hide Give, Lose, Cut;
  }

  lemma WriterFlags(s: HandoffState, e: Step)
    ensures var w := WriterStep(s, e);
            w.closing == s.closing && w.writeClosed == s.writeClosed && w.closeSignalled == s.closeSignalled
  {
    hide Give, Lose, Cut;
  }

  /** What a close() has done stays done. */
  lemma {:induction false} ClosedStays(s: HandoffState, es: seq<Step>)
    ensures var s' := RunFrom(s, es);
            (s.closing ==> s'.closing) && (s.writeClosed ==> s'.writeClosed) && (s.closeSignalled ==> s'.closeSignalled)
  {
    hide Next;
    if es != [] {
      ClosedStays(s, es[..|es| - 1]);
      ClosedStep(RunFrom(s, es[..|es| - 1]), es[|es| - 1]);
    }
  }

  /** For either kind of caller. */
  lemma Leaves(s: HandoffState, es: seq<Step>)
    ensures NotHandler(es) ==> RunFrom(s, es).handler == s.handler && RunFrom(s, es).log.accepted == s.log.accepted
    ensures NotWriter(es) ==>
              RunFrom(s, es).writer == s.writer && RunFrom(s, es).log == s.log.(accepted := RunFrom(s, es).log.accepted)
  {
    hide RunFrom, NotHandler, NotWriter;
    if NotHandler(es) {
      OthersLeaveHandler(s, es);
    }
    if NotWriter(es) {
      OthersLeaveWriter(s, es);
    }
  }

  class ServerStream {
    var state: StreamState
    var pendingData: seq<bytes>
    var writeCh: seq<bytes>
    var writeCloseCh: bool   // closed
    var closeCh: bool        // closed
    var connClosed: bool     // backendConn.Close was called
    var eofSent: bool        // backendConn.CloseWrite was called
    // Where the goroutines are, and history, with what backendConn was given
    var closing: bool
    var handler: Handler
    var writer: Writer
    var log: Log

    function View(): HandoffState
      reads this
    {
      HandoffState(state, pendingData, writeCh, writeCloseCh, closing, closeCh, connClosed, eofSent,
        handler, writer, log)
    }

    constructor ()
      ensures View() == Start()
    {
      state, pendingData, writeCh, writeCloseCh, closeCh, connClosed := Connecting, [], [], false, false, false;
      eofSent, closing, handler, writer, log := false, false, Idle, Dialing, Log([], [], 0, false, false);
    }

    /** The steps other goroutines take in between. */
    method Others(es: seq<Step>)
      modifies this
      ensures View() == RunFrom(old(View()), es)
    {
      hide RunFrom;
      var s := RunFrom(View(), es);
      state, pendingData, writeCh, writeCloseCh, closeCh :=
        s.state, s.pending, s.writeCh, s.writeClosed, s.closeSignalled;
      connClosed, eofSent, closing, handler, writer, log :=
        s.connClosed, s.eofSent, s.closing, s.handler, s.writer, s.log;
    }

    // ---- Closing -----------------------------------------------------------------------------

    /** closeWrite: a channel is closed once. */
    method CloseWriteSide()
      modifies `writeCloseCh
      ensures View() == old(View()).(writeClosed := true)
    {
      if !writeCloseCh {
        writeCloseCh := true;
      }
    }

    /** handleReliableClose, called by the receive loop between two deliveries. */
    method HandleReliableClose()
      requires handler.Idle?
      modifies `writeCloseCh
      ensures View() == Next(old(View()), ClientClose) && writeCloseCh
    {
      CloseWriteSide();
    }

    /** close: only a caller that finds the stream open does the rest, and others run in between. */
    method Close(c: Closing) returns (ghost steps: seq<Step>)
      modifies this
      ensures View() == RunFrom(old(View()), steps)
      ensures old(state).Closed? ==> View() == old(View())
      ensures !old(state).Closed? ==> writeCloseCh && closeCh && (connClosed || writer.Dialing?)
      ensures ClosingNotHandler(c) ==> handler == old(handler) && log.accepted == old(log).accepted
      ensures ClosingNotWriter(c) ==> writer == old(writer) && log == old(log).(accepted := log.accepted)
    {
      hide RunFrom, NotHandler, NotWriter;
      ghost var s0 := View();
      if state.Closed? {
        RunNone(s0);
        return [];
      }
      state, closing := Closed, true;
      RunOne(s0, CloseState);
      ghost var more := CloseRest(c);
      RunFromAppend(s0, [CloseState], more);
      return [CloseState] + more;
    }

    method CloseRest(c: Closing) returns (ghost steps: seq<Step>)
      requires closing
      modifies this
      ensures View() == RunFrom(old(View()), steps)
      ensures writeCloseCh && closeCh && (connClosed || writer.Dialing?)
      ensures ClosingNotHandler(c) ==> handler == old(handler) && log.accepted == old(log).accepted
      ensures ClosingNotWriter(c) ==> writer == old(writer) && log == old(log).(accepted := log.accepted)
    {
      hide RunFrom, NotHandler, NotWriter;
      ghost var s0 := View();
      ClosedStays(View(), c.afterState);
      Leaves(View(), c.afterState);
      Others(c.afterState);
      OneMore(s0, c.afterState, CloseWrite);
      steps := c.afterState + [CloseWrite];
      CloseWriteSide();
      ghost var more := SignalClose(c.afterWrite, c.afterSignal);
      RunFromAppend(s0, steps, more);
      steps := steps + more;
    }

    method SignalClose(afterWrite: seq<Step>, afterSignal: seq<Step>) returns (ghost steps: seq<Step>)
      requires closing && writeCloseCh
      modifies this
      ensures View() == RunFrom(old(View()), steps)
      ensures writeCloseCh && closeCh && (connClosed || writer.Dialing?)
      ensures NotHandler(afterWrite) && NotHandler(afterSignal) ==>
                handler == old(handler) && log.accepted == old(log).accepted
      ensures NotWriter(afterWrite) && NotWriter(afterSignal) ==>
                writer == old(writer) && log == old(log).(accepted := log.accepted)
    {
      hide RunFrom, NotHandler, NotWriter;
      ghost var s0 := View();
      ClosedStays(View(), afterWrite);
      Leaves(View(), afterWrite);
      Others(afterWrite);
      OneMore(s0, afterWrite, CloseSignal);
      steps := afterWrite + [CloseSignal];
      if !closeCh {
        closeCh := true;
      }
      ghost var more := CloseBackend(afterSignal);
      RunFromAppend(s0, steps, more);
      steps := steps + more;
    }

    method CloseBackend(afterSignal: seq<Step>) returns (ghost steps: seq<Step>)
      requires writeCloseCh && closeCh
      modifies this
      ensures View() == RunFrom(old(View()), steps)
      ensures writeCloseCh && closeCh && (connClosed || writer.Dialing?)
      ensures NotHandler(afterSignal) ==> handler == old(handler) && log.accepted == old(log).accepted
      ensures NotWriter(afterSignal) ==> writer == old(writer) && log == old(log).(accepted := log.accepted)
    {
      hide RunFrom, NotHandler, NotWriter;
      ghost var s0 := View();
      ClosedStays(View(), afterSignal);
      Leaves(View(), afterSignal);
      Others(afterSignal);
      OneMore(s0, afterSignal, CloseConn);
      steps := afterSignal + [CloseConn];
      if !writer.Dialing? {
        connClosed := true;
      }
    }

    // ---- The packet handler ------------------------------------------------------------------

    /** handleReliableData, from loading the state. */
    method HandleReliableData(data: bytes, beforeLock: seq<Step>, beforeCheck: seq<Step>, beforeQueue: seq<Step>,
        timedOut: bool, c: Closing)
      returns (queued: bool, ghost steps: seq<Step>)
      requires handler.Idle? && NotHandler(beforeLock) && NotHandler(beforeCheck) && NotHandler(beforeQueue)
      requires ClosingNotHandler(c)
      modifies this
      ensures View() == RunFrom(old(View()), steps)
      ensures handler.Idle? && log.accepted == old(log).accepted + (if queued then [data] else [])
      ensures old(state).Closed? || data == [] ==> !queued && View() == old(View())
      ensures old(state).Connecting? && data != [] && beforeLock == [] ==>
                queued && pendingData == old(pendingData) + [data] && writeCh == old(writeCh)
    {
      hide NotHandler, RunFrom, ClosingNotHandler;
      ghost var s0 := View();
      if state.Closed? || |data| == 0 {
        steps := [];
        RunNone(s0);
        return false, steps;
      }
      RunOne(s0, Arrive(data));
      hide Next;
      Begin(data);
      ghost var more;
      queued, more := Continue(data, beforeLock, beforeCheck, beforeQueue, timedOut, c);
      RunFromAppend(s0, [Arrive(data)], more);
      steps := [Arrive(data)] + more;
    }

    /** The rest, by the state that was loaded. */
    method Continue(data: bytes, beforeLock: seq<Step>, beforeCheck: seq<Step>, beforeQueue: seq<Step>,
        timedOut: bool, c: Closing)
      returns (queued: bool, ghost steps: seq<Step>)
      requires handler == AtLock(data) || handler == AtCloseCheck(data)
      requires NotHandler(beforeLock) && NotHandler(beforeCheck) && NotHandler(beforeQueue) && ClosingNotHandler(c)
      modifies this
      ensures View() == RunFrom(old(View()), steps)
      ensures handler.Idle? && log.accepted == old(log).accepted + (if queued then [data] else [])
      ensures old(handler).AtLock? && old(state).Connecting? && beforeLock == [] ==>
                queued && pendingData == old(pendingData) + [data] && writeCh == old(writeCh)
    {
      hide NotHandler, RunFrom, ClosingNotHandler;
      ghost var s0 := View();
      steps := [];
      RunNone(s0);
      ghost var more;
      if handler.AtLock? {
        queued, steps := PendUnlessConnected(data, beforeLock);
        if queued {
          return;
        }
      }
      queued, more := QueueData(data, beforeCheck, beforeQueue, timedOut, c);
      RunFromAppend(s0, steps, more);
      steps := steps + more;
    }

    /** Which way to go, by the state loaded. */
    method Begin(data: bytes)
      requires handler.Idle? && !state.Closed? && data != []
      modifies `handler
      ensures View() == Next(old(View()), Arrive(data))
      ensures handler == if state.Connecting? then AtLock(data) else AtCloseCheck(data)
    {
      handler := if state.Connecting? then AtLock(data) else AtCloseCheck(data);
    }

    /** The critical section under pendingMu, with its second look at the state. */
    method PendUnlessConnected(data: bytes, beforeLock: seq<Step>) returns (pended: bool, ghost steps: seq<Step>)
      requires handler == AtLock(data) && NotHandler(beforeLock)
      modifies this
      ensures View() == RunFrom(old(View()), steps)
      ensures pended ==> handler.Idle? && log.accepted == old(log).accepted + [data]
      ensures !pended ==> handler == AtCloseCheck(data) && log.accepted == old(log).accepted && !state.Connecting?
      ensures old(state).Connecting? && beforeLock == [] ==>
                pended && pendingData == old(pendingData) + [data] && writeCh == old(writeCh)
    {
      hide NotHandler, RunFrom;
      ghost var s0 := View();
      OthersLeaveHandler(View(), beforeLock);
      RunNone(View());
      Others(beforeLock);
      OneMore(s0, beforeLock, LockAndRecheck);
      steps := beforeLock + [LockAndRecheck];
      pended := state.Connecting?;
      if pended {
        pendingData := pendingData + [data];
        handler, log := Idle, Accept(log, data);
      } else {
        handler := AtCloseCheck(data);
      }
    }

    /** The part that hands data to the writer through the channel. */
    method QueueData(data: bytes, beforeCheck: seq<Step>, beforeQueue: seq<Step>, timedOut: bool, c: Closing)
      returns (queued: bool, ghost steps: seq<Step>)
      requires handler == AtCloseCheck(data)
      requires NotHandler(beforeCheck) && NotHandler(beforeQueue) && ClosingNotHandler(c)
      modifies this
      ensures View() == RunFrom(old(View()), steps)
      ensures handler.Idle? && log.accepted == old(log).accepted + (if queued then [data] else [])
      ensures old(writeCloseCh) && beforeCheck == [] ==> !queued
    {
      hide NotHandler, RunFrom, ClosingNotHandler;
      ghost var s0 := View();
      OthersLeaveHandler(View(), beforeCheck);
      RunNone(View());
      Others(beforeCheck);
      OneMore(s0, beforeCheck, CheckWriteClosed);
      steps := beforeCheck + [CheckWriteClosed];
      if writeCloseCh {
        handler := Idle;
        return false, steps;
      }
      handler := AtQueue(data);
      ghost var more;
      queued, more := SendToWriter(data, beforeQueue, timedOut, c);
      RunFromAppend(s0, steps, more);
      steps := steps + more;
    }

    /** The select between the channel and the five-second timer. */
    method SendToWriter(data: bytes, beforeQueue: seq<Step>, timedOut: bool, c: Closing)
      returns (queued: bool, ghost steps: seq<Step>)
      requires handler == AtQueue(data) && NotHandler(beforeQueue) && ClosingNotHandler(c)
      modifies this
      ensures View() == RunFrom(old(View()), steps)
      ensures handler.Idle? && log.accepted == old(log).accepted + (if queued then [data] else [])
      ensures queued ==> writeCh != [] && writeCh[|writeCh| - 1] == data
      ensures beforeQueue == [] ==>
                (queued <==> |old(writeCh)| < 4096 && !timedOut) && (queued ==> writeCh == old(writeCh) + [data])
      ensures beforeQueue == [] && !queued ==> old(state).Closed? || (writeCloseCh && closeCh)
    {
      hide NotHandler, RunFrom, ClosingNotHandler;
      ghost var s0 := View();
      OthersLeaveHandler(View(), beforeQueue);
      RunNone(View());
      Others(beforeQueue);
      if |writeCh| < WRITE_CH_CAPACITY && !timedOut {
        OneMore(s0, beforeQueue, Queue);
        writeCh := writeCh + [data];
        handler, log := Idle, Accept(log, data);
        return true, beforeQueue + [Queue];
      }
      OneMore(s0, beforeQueue, QueueTimeout);
      handler := Idle;
      ghost var more := Close(c);
      RunFromAppend(s0, beforeQueue + [QueueTimeout], more);
      return false, beforeQueue + [QueueTimeout] + more;
    }

    // ---- The connecting goroutine ------------------------------------------------------------

    /** The critical section under pendingMu that ends the pending phase. */
    method TakePendingData() returns (pending: seq<bytes>)
      requires writer.ConnReady?
      modifies this
      ensures View() == Next(old(View()), TakePending)
      ensures pending == old(pendingData) && writer == Flushing(pending) && state.Connected? && pendingData == []
      ensures log == old(log)
    {
      pending := pendingData;
      pendingData := [];
      state := Connected;
      writer := Flushing(pending);
    }

    /** The read and write goroutines start. */
    method StartWriter()
      requires writer == Flushing([])
      modifies `writer
      ensures View() == Next(old(View()), FlushDone) && writer.Waiting?
    {
      writer := Waiting;
    }

    /** connectAndRun's flush: one critical section takes the pending list and opens the channel path,
        then the list is written in order. */
    method FlushPending(tries: seq<WriteTry>) returns (ok: bool, ghost steps: seq<Step>)
      requires writer.ConnReady?
      requires forall i :: 0 <= i < |tries| ==> WriteNotWriter(tries[i])
      modifies this
      ensures View() == RunFrom(old(View()), steps)
      ensures if ok then writer.Waiting? && Data(log.written) == Data(old(log).written) + old(pendingData)
              else writer.Exited? && log.failed
    {
      hide RunFrom, Next, WriteNotWriter;
      ghost var s0 := View();
      RunOne(s0, TakePending);
      var pending := TakePendingData();
      steps := [TakePending];
      var i := 0;
      while i < |pending|
        invariant 0 <= i <= |pending|
        invariant writer == Flushing(pending[i..])
        invariant Data(log.written) == Data(s0.log.written) + pending[..i]
        invariant View() == RunFrom(s0, steps)
      {
        var try := if i < |tries| then tries[i] else QUIET.write;
        ghost var more;
        QuietRound();
        ok, more := FlushNext(pending[i], pending[i + 1..], try);
        RunFromAppend(s0, steps, more);
        steps := steps + more;
        if !ok {
          return;
        }
        i := i + 1;
      }
      OneMore(s0, steps, FlushDone);
      StartWriter();
      ok, steps := true, steps + [FlushDone];
    }

    /** One round of the flush loop. */
    method FlushNext(data: bytes, rest: seq<bytes>, try: WriteTry) returns (ok: bool, ghost steps: seq<Step>)
      requires writer == Flushing([data] + rest) && WriteNotWriter(try)
      modifies this
      ensures View() == RunFrom(old(View()), steps)
      ensures if ok then writer == Flushing(rest) && Data(log.written) == Data(old(log).written) + [data]
              else writer.Exited? && log.failed
    {
      hide NotWriter, RunFrom, ClosingNotWriter, Next, Data;
      ghost var s0 := View();
      OthersLeaveWriter(View(), try.before);
      Others(try.before);
      if connClosed || try.fails {
        ghost var more := FlushFailed(try.n, try.closing);
        RunFromAppend(s0, try.before, more);
        return false, try.before + more;
      }
      OneMore(s0, try.before, FlushOne);
      DataGives(log, data);
      WriteFlushed(data, rest);
      return true, try.before + [FlushOne];
    }

    method WriteFlushed(data: bytes, rest: seq<bytes>)
      requires writer == Flushing([data] + rest) && !connClosed
      modifies `writer, `log
      ensures View() == Next(old(View()), FlushOne)
      ensures writer == Flushing(rest) && log == Give(old(log), data)
    {
      hide Give;
      writer, log := Flushing(rest), Give(log, data);
    }

    method FlushFailed(n: nat, c: Closing) returns (ghost steps: seq<Step>)
      requires writer.Flushing? && writer.rest != [] && ClosingNotWriter(c)
      modifies this
      ensures View() == RunFrom(old(View()), steps)
      ensures writer.Exited? && log.failed
      ensures old(state).Closed? || (writeCloseCh && closeCh && connClosed)
    {
      hide RunFrom, ClosingNotWriter, Cut, Lose;
      RunOne(View(), FlushFails(n));
      ghost var s0 := View();
      writer, log := Exited, Lose(log, Cut(writer.rest[0], n, !connClosed)).(failed := true);
      ghost var more := Close(c);
      RunFromAppend(s0, [FlushFails(n)], more);
      steps := [FlushFails(n)] + more;
    }

    // ---- The writer --------------------------------------------------------------------------

    /** One round of writeToBackend's select; Go picks any case that is ready. */
    method WriterRound(r: Round) returns (ghost steps: seq<Step>)
      requires writer.Waiting? && RoundNotWriter(r)
      modifies this
      ensures View() == RunFrom(old(View()), steps)
      ensures writer.Waiting? || writer.Draining? || (writer.Exited? && log.failed)
    {
      hide NotWriter, RunFrom, WriteNotWriter;
      ghost var s0 := View();
      OthersLeaveWriter(View(), r.beforeSelect);
      Others(r.beforeSelect);
      steps := r.beforeSelect;
      hide Next;
      if {
        case writeCh != [] =>
          OneMore(s0, steps, WriterReceives);
          steps := steps + [WriterReceives];
          ReceiveNext();
          ghost var more := WriteHeld(r.write);
          RunFromAppend(s0, steps, more);
          steps := steps + more;
        case writeCloseCh =>
          OneMore(s0, steps, WriterSeesWriteClose);
          steps := steps + [WriterSeesWriteClose];
          SeeClose(true);
        case closeCh =>
          OneMore(s0, steps, WriterSeesClose);
          steps := steps + [WriterSeesClose];
          SeeClose(false);
        case writeCh == [] && !writeCloseCh && !closeCh =>
      }
    }

    method ReceiveNext()
      requires writer.Waiting? && writeCh != []
      modifies `writer, `writeCh
      ensures View() == Next(old(View()), WriterReceives)
      ensures writer == Holding(old(writeCh)[0])
    {
      writer, writeCh := Holding(writeCh[0]), writeCh[1..];
    }

    method SeeClose(shut: bool)
      requires writer.Waiting? && (if shut then writeCloseCh else closeCh)
      modifies `writer
      ensures View() == Next(old(View()), if shut then WriterSeesWriteClose else WriterSeesClose)
      ensures writer == Draining(shut)
    {
      writer := Draining(shut);
    }

    method WriteHeld(try: WriteTry) returns (ghost steps: seq<Step>)
      requires writer.Holding? && WriteNotWriter(try)
      modifies this
      ensures View() == RunFrom(old(View()), steps)
      ensures if writer.Exited? then log.failed
              else writer.Waiting? && Data(log.written) == Data(old(log).written) + [old(writer.data)]
    {
      hide NotWriter, RunFrom, ClosingNotWriter, Data;
      ghost var s0 := View();
      OthersLeaveWriter(View(), try.before);
      Others(try.before);
      if connClosed || try.fails {
        ghost var more := WriteFailed(try.n, try.closing);
        RunFromAppend(s0, try.before, more);
        return try.before + more;
      }
      OneMore(s0, try.before, WriterWrites);
      DataGives(log, writer.data);
      hide Give;
      log, writer := Give(log, writer.data), Waiting;
      return try.before + [WriterWrites];
    }

    method WriteFailed(n: nat, c: Closing) returns (ghost steps: seq<Step>)
      requires writer.Holding? && ClosingNotWriter(c)
      modifies this
      ensures View() == RunFrom(old(View()), steps)
      ensures writer.Exited? && log.failed
      ensures old(state).Closed? || (writeCloseCh && closeCh && connClosed)
    {
      hide RunFrom, ClosingNotWriter, Cut, Lose;
      RunOne(View(), WriterFails(n));
      ghost var s0 := View();
      log, writer := Lose(log, Cut(writer.data, n, !connClosed)).(failed := true), Exited;
      ghost var more := Close(c);
      RunFromAppend(s0, [WriterFails(n)], more);
      steps := [WriterFails(n)] + more;
    }

    /** One round of drainWriteCh; a write error is ignored. At the round that finds the channel
        empty everything accepted has been written, unless a write of the drain failed. */
    method DrainRound(r: Round) returns (done: bool, ghost steps: seq<Step>)
      requires Inv(View()) && writer.Draining? && RoundNotWriter(r)
      modifies this
      ensures View() == RunFrom(old(View()), steps)
      ensures if done then writer.Exited? && (!log.drainFailed ==> AllDelivered(View())) else writer.Draining?
      ensures r == QUIET ==> if done then writeCh == old(writeCh) else |writeCh| < |old(writeCh)|
    {
      hide NotWriter, RunFrom, Inv, WriteNotWriter, AllDelivered;
      ghost var s0 := View();
      OthersLeaveWriter(View(), r.beforeSelect);
      RunFromInv(View(), r.beforeSelect);
      RunNone(View());
      Others(r.beforeSelect);
      if writeCh != [] {
        ghost var more := DrainNext(r.write);
        RunFromAppend(s0, r.beforeSelect, more);
        return false, r.beforeSelect + more;
      }
      OneMore(s0, r.beforeSelect, DrainEnds);
      FinishDrain();
      return true, r.beforeSelect + [DrainEnds];
    }

    /** The drain is over; after a client's close the backend is told. */
    method FinishDrain()
      requires Inv(View()) && writer.Draining? && writeCh == []
      modifies this
      ensures View() == Next(old(View()), DrainEnds)
      ensures writer.Exited? && writeCh == [] && (!log.drainFailed ==> AllDelivered(View()))
    {
      if !log.drainFailed {
        DrainEmpty(View());
      }
      hide Inv;
      eofSent := writer.shut && !connClosed;
      writer := Exited;
    }

    method DrainNext(try: WriteTry) returns (ghost steps: seq<Step>)
      requires writer.Draining? && writeCh != [] && WriteNotWriter(try)
      modifies this
      ensures View() == RunFrom(old(View()), steps)
      ensures writer.Draining? && (try == QUIET.write ==> |writeCh| < |old(writeCh)|)
    {
      hide WriteNotWriter, RunFrom, Next;
      ghost var s0 := View();
      RunOne(s0, DrainReceives);
      DrainReceive();
      ghost var more := WriteDrained(try);
      RunFromAppend(s0, [DrainReceives], more);
      steps := [DrainReceives] + more;
    }

    method DrainReceive()
      requires writer.Draining? && writeCh != []
      modifies `writer, `writeCh
      ensures View() == Next(old(View()), DrainReceives)
      ensures writer.DrainHolding? && writeCh == old(writeCh)[1..]
    {
      writer, writeCh := DrainHolding(writeCh[0], writer.shut), writeCh[1..];
    }

    method WriteDrained(try: WriteTry) returns (ghost steps: seq<Step>)
      requires writer.DrainHolding? && WriteNotWriter(try)
      modifies this
      ensures View() == RunFrom(old(View()), steps)
      ensures writer.Draining? && (try == QUIET.write ==> writeCh == old(writeCh))
      ensures Data(log.written) == Data(old(log).written) + [old(writer.data)] || log.drainFailed
    {
      hide NotWriter, RunFrom, ClosingNotWriter, Data, Next;
      ghost var s0 := View();
      OthersLeaveWriter(View(), try.before);
      RunNone(View());
      Others(try.before);
      if connClosed || try.fails {
        OneMore(s0, try.before, DrainFails(try.n));
        IgnoreFailure(try.n);
        return try.before + [DrainFails(try.n)];
      }
      OneMore(s0, try.before, DrainWrites);
      DataGives(log, writer.data);
      WriteDraining();
      return try.before + [DrainWrites];
    }

    method WriteDraining()
      requires writer.DrainHolding? && !connClosed
      modifies `writer, `log
      ensures View() == Next(old(View()), DrainWrites)
      ensures writer.Draining? && log == Give(old(log), old(writer.data))
    {
      hide Give;
      writer, log := Draining(writer.shut), Give(log, writer.data);
    }

    method IgnoreFailure(n: nat)
      requires writer.DrainHolding?
      modifies `writer, `log
      ensures View() == Next(old(View()), DrainFails(n))
      ensures writer.Draining? && log.drainFailed
    {
      hide Lose, Cut;
      writer, log := Draining(writer.shut), Lose(log, Cut(writer.data, n, !connClosed)).(drainFailed := true);
    }

    /** drainWriteCh: its loop ends once the others stop adding. */
    method DrainWriteCh(rounds: seq<Round>) returns (ghost steps: seq<Step>)
      requires Inv(View()) && writer.Draining? && RoundsNotWriter(rounds)
      modifies this
      ensures View() == RunFrom(old(View()), steps)
      ensures writer.Exited? && (!log.drainFailed ==> AllDelivered(View()))
    {
      hide RoundNotWriter, RunFrom, Inv, AllDelivered;
      ghost var s0 := View();
      steps := [];
      RunNone(s0);
      QuietRound();
      var i, done := 0, false;
      while !done
        invariant 0 <= i <= |rounds|
        invariant View() == RunFrom(s0, steps) && Inv(View())
        invariant if done then writer.Exited? && (!log.drainFailed ==> AllDelivered(View())) else writer.Draining?
        decreases |rounds| - i, |writeCh|, !done
      {
        ghost var more;
        done, more := DrainRound(if i < |rounds| then rounds[i] else QUIET);
        RunFromAppend(s0, steps, more);
        RunFromInv(RunFrom(s0, steps), more);
        steps := steps + more;
        if i < |rounds| {
          i := i + 1;
        }
      }
    }

    /** writeToBackend until the schedule ends or the writer leaves. */
    method WriteToBackend(rounds: seq<Round>, drainRounds: seq<Round>) returns (ghost steps: seq<Step>)
      requires Inv(View()) && writer.Waiting? && RoundsNotWriter(rounds) && RoundsNotWriter(drainRounds)
      modifies this
      ensures View() == RunFrom(old(View()), steps) && Inv(View())
      ensures writer.Waiting? || writer.Exited?
      ensures writer.Exited? && !log.failed && !log.drainFailed ==> AllDelivered(View())
    {
      hide RoundNotWriter, RunFrom, Inv, AllDelivered;
      ghost var s0 := View();
      steps := [];
      RunNone(s0);
      for i := 0 to |rounds|
        invariant View() == RunFrom(s0, steps) && Inv(View()) && writer.Waiting?
      {
        ghost var more := WriterRound(rounds[i]);
        RunFromAppend(s0, steps, more);
        RunFromInv(RunFrom(s0, steps), more);
        steps := steps + more;
        if writer.Draining? {
          more := DrainWriteCh(drainRounds);
          RunFromAppend(s0, steps, more);
          RunFromInv(RunFrom(s0, steps), more);
          steps := steps + more;
          return;
        }
        if writer.Exited? {
          return;
        }
      }
    }

    /** connectAndRun: dial, flush, write. At every moment the writes are fronts of accepted items in
        order; if it ended without a failed write, it had written everything accepted by then. */
    method ConnectAndRun(dialOk: bool, beforeDialed: seq<Step>, beforeTake: seq<Step>, tries: seq<WriteTry>,
        rounds: seq<Round>, drainRounds: seq<Round>)
      returns (ghost steps: seq<Step>)
      requires Inv(View()) && writer.Dialing? && NotWriter(beforeDialed) && NotWriter(beforeTake)
      requires forall i :: 0 <= i < |tries| ==> WriteNotWriter(tries[i])
      requires RoundsNotWriter(rounds) && RoundsNotWriter(drainRounds)
      modifies this
      ensures View() == RunFrom(old(View()), steps) && Inv(View())
      ensures !dialOk ==> writer.Exited? && state.Closed? && log.written == old(log).written
      ensures dialOk && writer.Exited? && !log.failed && !log.drainFailed ==> AllDelivered(View())
    {
      hide RunFrom, Inv, RoundsNotWriter, WriteNotWriter, AllDelivered;
      ghost var s0 := View();
      OthersLeaveWriter(View(), beforeDialed);
      Others(beforeDialed);
      steps := beforeDialed;
      if !dialOk {
        OneMore(s0, steps, DialFails);
        writer, state := Exited, Closed;
        steps := steps + [DialFails];
        RunFromInv(s0, steps);
        return;
      }
      OneMore(s0, steps, DialSucceeds);
      writer := ConnReady;
      steps := steps + [DialSucceeds];
      RunFromInv(s0, steps);
      ghost var more := RunConnected(beforeTake, tries, rounds, drainRounds);
      RunFromAppend(s0, steps, more);
      steps := steps + more;
      RunFromInv(s0, steps);
    }

    method RunConnected(beforeTake: seq<Step>, tries: seq<WriteTry>, rounds: seq<Round>, drainRounds: seq<Round>)
      returns (ghost steps: seq<Step>)
      requires Inv(View()) && writer.ConnReady? && NotWriter(beforeTake)
      requires forall i :: 0 <= i < |tries| ==> WriteNotWriter(tries[i])
      requires RoundsNotWriter(rounds) && RoundsNotWriter(drainRounds)
      modifies this
      ensures View() == RunFrom(old(View()), steps)
      ensures writer.Exited? && !log.failed && !log.drainFailed ==> AllDelivered(View())
    {
      hide RunFrom, Inv, RoundsNotWriter, WriteNotWriter, NotWriter, AllDelivered;
      ghost var s0 := View();
      OthersLeaveWriter(View(), beforeTake);
      Others(beforeTake);
      var ok;
      ghost var more;
      ok, more := FlushPending(tries);
      RunFromAppend(s0, beforeTake, more);
      steps := beforeTake + more;
      RunFromInv(s0, steps);
      if ok {
        more := WriteToBackend(rounds, drainRounds);
        RunFromAppend(s0, steps, more);
        steps := steps + more;
      }
    }
  }

  lemma DataGives(g: Log, data: bytes)
    ensures Data(Give(g, data).written) == Data(g.written) + [data]
  {
  }

  lemma DrainEmpty(s: HandoffState)
    requires Inv(s) && s.writer.Draining? && s.writeCh == [] && !s.log.drainFailed
    ensures AllDelivered(s) && AllDelivered(Next(s, DrainEnds))
  {
    hide OrderKept, AllWritten;
    RemainderCases(s);
    NothingLeft(s);
  }
}
