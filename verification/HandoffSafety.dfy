/** What the hand-off guarantees under every interleaving, and exactly when a close loses data. */
module HandoffSafety {
  import opened Bytes
  import opened Handoff

  // ---- What it means -------------------------------------------------------------------------

  function Data(written: seq<Chunk>): seq<bytes> {
    seq(|written|, i requires 0 <= i < |written| => written[i].data)
  }

  function Flat(items: seq<bytes>): bytes {
    if items == [] then [] else Flat(items[..|items| - 1]) + items[|items| - 1]
  }

  lemma {:induction false} FlatPrefix(items: seq<bytes>, n: nat)
    requires n <= |items|
    ensures Flat(items[..n]) <= Flat(items)
  {
    if n == |items| {
      assert items[..n] == items;
    } else {
      FlatPrefix(items[..|items| - 1], n);
      assert items[..|items| - 1][..n] == items[..n];
    }
  }

  lemma GaplessIsPrefix(g: Log)
    requires Gapless(g)
    ensures Flat(Data(g.written)) <= Flat(g.accepted)
  {
    var n := |g.written|;
    if n > 0 {
      assert Data(g.written)[..n - 1] == g.accepted[..n - 1];
      assert g.accepted[..n][..n - 1] == g.accepted[..n - 1];
      assert g.written[n - 1].data <= g.accepted[n - 1];
      FlatPrefix(g.accepted, n);
    }
  }

  lemma AllWrittenIsGapless(g: Log)
    requires AllWritten(g)
    ensures Gapless(g) && Data(g.written) == g.accepted[..g.taken]
  {
  }

  /** Under every interleaving and whatever fails, the writes to the backend carry fronts of accepted
      items, in order, no item twice. */
  lemma OrderAlwaysKept(es: seq<Step>)
    ensures OrderKept(Run(es).log)
  {
    RunInv(es);
    hide OrderKept;
  }

  /** As long as no write of a drain has failed, the bytes the backend has been given are a prefix of
      the bytes accepted, also after a failed write of the flush or of the writer. */
  lemma WrittenIsPrefix(es: seq<Step>)
    requires !Run(es).log.drainFailed
    ensures Gapless(Run(es).log) && Flat(Data(Run(es).log.written)) <= Flat(Run(es).log.accepted)
  {
    RunInv(es);
    hide Run, Shape, OrderKept, AllWritten, Gapless, Remainder;
    if !Run(es).log.failed {
      AllWrittenIsGapless(Run(es).log);
    }
    GaplessIsPrefix(Run(es).log);
  }

  /** Conservation: as long as no write has failed, the rest of what was accepted is, in order, the
      flush remainder, the pending list, the item in the writer's hand, the channel. */
  lemma NothingLost(es: seq<Step>)
    requires !Run(es).log.failed && !Run(es).log.drainFailed
    ensures Run(es).log.accepted == Data(Run(es).log.written) + Remainder(Run(es))
  {
    RunInv(es);
    hide Run, Shape, OrderKept, AllWritten, Remainder;
    AllWrittenIsGapless(Run(es).log);
  }

  ghost predicate AllDelivered(s: HandoffState) {
    Data(s.log.written) == s.log.accepted
  }

  lemma NothingLeft(s: HandoffState)
    requires Inv(s) && !s.log.failed && !s.log.drainFailed && Remainder(s) == []
    ensures AllDelivered(s)
  {
    AllWrittenIsGapless(s.log);
    hide Remainder;
  }

  /** When a drain ends, and with it before the backend is told of the end of the stream, everything
      accepted so far has been written, unless one of its writes failed. */
  lemma DrainEndsComplete(es: seq<Step>)
    requires Run(es).writer.Draining? && Run(es).writeCh == [] && !Run(es).log.drainFailed
    ensures AllDelivered(Run(es)) && AllDelivered(Next(Run(es), DrainEnds))
    ensures Next(Run(es), DrainEnds).eofSent <==> Run(es).writer.shut && !Run(es).connClosed
  {
    RunInv(es);
    hide Run, OrderKept, AllWritten;
    RemainderCases(Run(es));
    NothingLeft(Run(es));
  }

  /** A failed write of the flush or of the writer is final: nothing is written after it. */
  lemma FailureIsFinal(es: seq<Step>, more: seq<Step>)
    requires Run(es).log.failed
    ensures Run(es + more).log.written == Run(es).log.written
  {
    RunInv(es);
    RunFromAppend(Start(), es, more);
    RunFromLeaves(Run(es), more);
    hide RunFrom, OrderKept, Gapless;
  }

  /** Nothing accepted or written is ever taken back. */
  lemma AcceptedOnlyGrows(es: seq<Step>, more: seq<Step>)
    ensures Run(es).log.accepted <= Run(es + more).log.accepted
    ensures Run(es).log.written <= Run(es + more).log.written
  {
    RunFromAppend(Start(), es, more);
    RunFromLeaves(Run(es), more);
    hide RunFrom;
  }

  // ---- A half-close delivers -----------------------------------------------------------------

  /** Steps of a stream that only the client ends: no close(), no failed dial, no failed write. */
  predicate Orderly(e: Step) {
    !e.CloseState? && !e.DialFails? && !e.FlushFails? && !e.WriterFails? && !e.DrainFails?
  }

  ghost predicate HalfClosing(s: HandoffState) {
    && !s.closing && !s.closeSignalled && !s.connClosed && !s.log.failed && !s.log.drainFailed
    && (InDrain(s.writer) ==> s.writer.shut)
    && (s.writer.Exited? <==> s.eofSent)
    && (s.writer.Exited? ==> s.writeClosed && s.writeCh == [] && s.pending == [] && !s.state.Connecting?)
  }

  lemma OrderlyStep(s: HandoffState, e: Step)
    requires Shape(s) && HalfClosing(s) && Orderly(e)
    ensures HalfClosing(Next(s, e))
  {
  }

  lemma {:induction false} OrderlyRun(es: seq<Step>)
    requires forall i :: 0 <= i < |es| ==> Orderly(es[i])
    ensures HalfClosing(Run(es))
  {
    hide Next, HalfClosing, Orderly;
    if es == [] {
      assert HalfClosing(Start()) by { StartHalfClosing(); }
    } else {
      var init := es[..|es| - 1];
      OrderlyRun(init);
      RunInv(init);
      hide OrderKept, AllWritten, Gapless, Remainder, Shape;
      OrderlyStep(Run(init), es[|es| - 1]);
    }
  }

  lemma StartHalfClosing()
    ensures HalfClosing(Start())
  {
  }

  /** In every run in which only the client ends the stream and no write fails: when the writer has
      left, everything ever accepted has been written, and the backend has been told. */
  lemma HalfCloseDelivers(es: seq<Step>)
    requires forall i :: 0 <= i < |es| ==> Orderly(es[i])
    ensures Run(es).writer.Exited? ==> AllDelivered(Run(es)) && Run(es).eofSent
    ensures Run(es).eofSent ==> Run(es).writer.Exited?
  {
    OrderlyRun(es);
    RunInv(es);
    hide Run, OrderKept, AllWritten, Gapless;
    RemainderCases(Run(es));
    if Run(es).writer.Exited? {
      NothingLeft(Run(es));
    }
  }

  // ---- What a full close does not promise ----------------------------------------------------

  /** Nothing is left for the writer and nothing can still be queued. */
  ghost predicate Settled(s: HandoffState) {
    && (s.writer.Draining? || s.writer.Exited?) && s.writeCh == [] && s.writeClosed
    && !s.handler.AtQueue? && !s.state.Connecting?
  }

  lemma SettledStep(s: HandoffState, e: Step)
    requires Settled(s)
    ensures Settled(Next(s, e)) && Next(s, e).log == s.log
  {
    hide Accept, Give, Lose, Cut;
  }

  lemma {:induction false} SettledStays(s: HandoffState, es: seq<Step>)
    requires Settled(s)
    ensures Settled(RunFrom(s, es)) && RunFrom(s, es).log == s.log
  {
    hide Next, Settled;
    if es != [] {
      SettledStays(s, es[..|es| - 1]);
      SettledStep(RunFrom(s, es[..|es| - 1]), es[|es| - 1]);
    }
  }

  lemma AtDrain(es: seq<Step>)
    requires InDrain(Run(es).writer)
    ensures Run(es).writeClosed && !Run(es).state.Connecting? && !Run(es).log.failed
  {
    RunInv(es);
    hide Run, OrderKept, AllWritten, Gapless, Remainder;
  }

  /** When a drain has found the channel empty: everything accepted is delivered in every continuation
      if and only if the handler is not, at that moment, about to send on the channel. */
  lemma DrainedExactly(es: seq<Step>)
    requires Run(es).writer.Draining? && Run(es).writeCh == [] && !Run(es).log.drainFailed
    ensures (forall more: seq<Step> :: AllDelivered(RunFrom(Next(Run(es), DrainEnds), more)))
       <==> !Run(es).handler.AtQueue?
  {
    var s := Run(es);
    var t := Next(s, DrainEnds);
    AtDrain(es);
    DrainEndsComplete(es);
    hide Run;
    if s.handler.AtQueue? {
      RunOne(t, Queue);
      assert !AllDelivered(RunFrom(t, [Queue]));
    } else {
      forall more: seq<Step> ensures AllDelivered(RunFrom(t, more)) {
        SettledStays(t, more);
      }
    }
  }

  /** Accepting more leaves a gapless log gapless. */
  lemma GaplessGrows(g: Log, h: Log)
    requires Gapless(g) && h.written == g.written && g.accepted <= h.accepted
    ensures Gapless(h)
  {
  }

  /** A chunk past a lost item leaves a gap. */
  lemma GapAfterLoss(g: Log, data: bytes, n: nat, later: Log, next: bytes)
    requires AllWritten(g) && g.taken < |g.accepted| && g.accepted[g.taken] == data
    requires later == Lose(g, Cut(data, n, true)).(drainFailed := true, accepted := later.accepted)
    requires g.accepted <= later.accepted
    ensures !Gapless(Give(later, next))
  {
    var cut := Cut(data, n, true);
    var h := Give(later, next);
    if cut != [] {
      assert h.written[g.taken] == Chunk(g.taken, cut);
      assert |cut| < |data|;
      assert h.accepted[g.taken] == data;
    } else {
      assert h.written[g.taken] == Chunk(g.taken + 1, next);
    }
  }

  /** With an item to come on an open connection, the drain writes past a lost one. */
  lemma DrainWritesOn(s: HandoffState) returns (on: seq<Step>)
    requires s.writer.Draining? && s.writeCh != [] && !s.connClosed
    ensures on == [DrainReceives] + [DrainWrites] && RunFrom(s, on).log == Give(s.log, s.writeCh[0])
  {
    on := [DrainReceives] + [DrainWrites];
    RunOne(s, DrainReceives);
    OneMore(s, [DrainReceives], DrainWrites);
    hide RunFrom, Give;
  }

  lemma DrainFailed(s: HandoffState, n: nat)
    requires Inv(s) && s.writer.DrainHolding? && !s.log.drainFailed
    ensures var l := Lose(s.log, Cut(s.writer.data, n, !s.connClosed)).(drainFailed := true);
            && Gapless(l) && AllWritten(s.log)
            && s.log.taken < |s.log.accepted| && s.log.accepted[s.log.taken] == s.writer.data
  {
    RemainderCases(s);
    assert !s.log.failed;
    hide OrderKept, Gapless, AllWritten, Shape, Cut, Remainder, Lose;
    TakeFront(s.log.accepted, s.log.taken, s.writer.data, s.writeCh);
    LogMoves(s.log, s.writer.data, n, !s.connClosed);
    var l := Lose(s.log, Cut(s.writer.data, n, !s.connClosed));
    FlagsDoNotMatter(l, true, l.drainFailed);
    FlagsDoNotMatter(l, l.failed, true);
  }

  lemma AfterDrainFailure(es: seq<Step>, n: nat)
    requires Run(es).writer.DrainHolding? && !Run(es).log.drainFailed
    ensures var s := Run(es);
            var t := Next(s, DrainFails(n));
            && t == s.(writer := Draining(s.writer.shut), log := t.log)
            && t.log == Lose(s.log, Cut(s.writer.data, n, !s.connClosed)).(drainFailed := true)
            && Gapless(t.log) && AllWritten(s.log)
            && s.log.taken < |s.log.accepted| && s.log.accepted[s.log.taken] == s.writer.data
  {
    RunInv(es);
    hide Run, Inv, Gapless, AllWritten, Cut, Lose;
    DrainFailed(Run(es), n);
  }

  lemma DrainFailureHarmless(es: seq<Step>, n: nat, more: seq<Step>)
    requires Run(es).writer.DrainHolding? && !Run(es).log.drainFailed
    requires Run(es).connClosed || (Run(es).writeCh == [] && !Run(es).handler.AtQueue?)
    ensures Gapless(RunFrom(Next(Run(es), DrainFails(n)), more).log)
  {
    var t := Next(Run(es), DrainFails(n));
    AtDrain(es);
    AfterDrainFailure(es, n);
    hide Run, RunFrom, Next, Gapless, AllWritten, Lose, Cut;
    if Run(es).connClosed {
      RunFromLeaves(t, more);
      GaplessGrows(t.log, RunFrom(t, more).log);
    } else {
      SettledStays(t, more);
    }
  }

  lemma LoseTakes(g: Log, cut: bytes)
    ensures Lose(g, cut).taken == g.taken + 1 && Lose(g, cut).accepted == g.accepted
  {
  }

  lemma DrainFailureGap(es: seq<Step>, n: nat) returns (more: seq<Step>)
    requires Run(es).writer.DrainHolding? && !Run(es).log.drainFailed
    requires !Run(es).connClosed && (Run(es).writeCh != [] || Run(es).handler.AtQueue?)
    ensures !Gapless(RunFrom(Next(Run(es), DrainFails(n)), more).log)
  {
    var s := Run(es);
    var t := Next(s, DrainFails(n));
    AfterDrainFailure(es, n);
    LoseTakes(s.log, Cut(s.writer.data, n, true));
    hide Run, RunFrom, Next, Gapless, AllWritten, Cut, Lose, Give;
    var u, before := DrainHasMore(t);
    var on := DrainWritesOn(u);
    RunFromAppend(t, before, on);
    more := before + on;
    GapAfterLoss(s.log, s.writer.data, n, u.log, u.writeCh[0]);
  }

  /** drainWriteCh ignores a failed write and goes on. The first time that happens, the writes stay
      gapless in every continuation if and only if the connection is closed, or nothing is in the
      channel and the handler is not about to send on it. */
  lemma DrainFailureExactly(es: seq<Step>, n: nat)
    requires Run(es).writer.DrainHolding? && !Run(es).log.drainFailed
    ensures (forall more: seq<Step> :: Gapless(RunFrom(Next(Run(es), DrainFails(n)), more).log))
       <==> Run(es).connClosed || (Run(es).writeCh == [] && !Run(es).handler.AtQueue?)
  {
    hide Run, RunFrom, Next, Gapless;
    if Run(es).connClosed || (Run(es).writeCh == [] && !Run(es).handler.AtQueue?) {
      forall more: seq<Step> ensures Gapless(RunFrom(Next(Run(es), DrainFails(n)), more).log) {
        DrainFailureHarmless(es, n, more);
      }
    } else {
      var more := DrainFailureGap(es, n);
    }
  }

  /** The item to come: in the channel, or about to be sent on it. */
  lemma DrainHasMore(t: HandoffState) returns (u: HandoffState, before: seq<Step>)
    requires t.writer.Draining? && !t.connClosed && (t.writeCh != [] || t.handler.AtQueue?)
    ensures u == RunFrom(t, before) && u.writer.Draining? && u.writeCh != [] && !u.connClosed
    ensures t.log.accepted <= u.log.accepted && u.log == t.log.(accepted := u.log.accepted)
  {
    if t.writeCh != [] {
      before := [];
      RunNone(t);
    } else {
      before := [Queue];
      RunOne(t, Queue);
    }
    u := RunFrom(t, before);
  }

  // ---- Runs that lose data -------------------------------------------------------------------

  /** The backend is connected and the handler is about to queue data. */
  function AboutToQueue(data: bytes): seq<Step> {
    [DialSucceeds] + [TakePending] + [FlushDone] + [Arrive(data)] + [CheckWriteClosed]
  }

  function Open(handler: Handler, log: Log): HandoffState {
    HandoffState(Connected, [], [], false, false, false, false, false, handler, Waiting, log)
  }

  const NO_LOG := Log([], [], 0, false, false)

  lemma AboutToQueueState(data: bytes)
    requires data != []
    ensures Run(AboutToQueue(data)) == Open(AtQueue(data), NO_LOG)
  {
    var s, es := Start(), [DialSucceeds];
    RunOne(s, DialSucceeds);
    hide RunFrom;
    OneMore(s, es, TakePending);
    OneMore(s, es + [TakePending], FlushDone);
    OneMore(s, es + [TakePending] + [FlushDone], Arrive(data));
    OneMore(s, es + [TakePending] + [FlushDone] + [Arrive(data)], CheckWriteClosed);
  }

  /** The backend's side ends: close() runs, the writer drains and leaves, and only then does the
      handler, which looked at writeCloseCh before, queue. */
  function LateQueue(data: bytes): seq<Step> {
    AboutToQueue(data) + [CloseState] + [CloseWrite] + [WriterSeesWriteClose] + [DrainEnds] + [Queue]
  }

  lemma CloseBegun(data: bytes)
    requires data != []
    ensures Run(AboutToQueue(data) + [CloseState] + [CloseWrite])
         == Open(AtQueue(data), NO_LOG).(state := Closed, closing := true, writeClosed := true)
  {
    AboutToQueueState(data);
    hide RunFrom, AboutToQueue;
    OneMore(Start(), AboutToQueue(data), CloseState);
    OneMore(Start(), AboutToQueue(data) + [CloseState], CloseWrite);
  }

  lemma DrainedTooEarly(data: bytes)
    requires data != []
    ensures var s := Run(AboutToQueue(data) + [CloseState] + [CloseWrite] + [WriterSeesWriteClose] + [DrainEnds]);
            s.writer.Exited? && s.writeCh == [] && s.handler == AtQueue(data) && s.log == NO_LOG
  {
    var early := AboutToQueue(data) + [CloseState] + [CloseWrite];
    CloseBegun(data);
    hide RunFrom, AboutToQueue;
    OneMore(Start(), early, WriterSeesWriteClose);
    OneMore(Start(), early + [WriterSeesWriteClose], DrainEnds);
  }

  /** A full close does not promise delivery: data is accepted, no write fails, and in every
      continuation it is never written. */
  lemma LateQueueStrands(data: bytes, es: seq<Step>)
    requires data != []
    ensures var s := Run(LateQueue(data));
            && !s.log.failed && !s.log.drainFailed && s.log.accepted == [data]
            && RunFrom(s, es).log.written == []
  {
    var drained := AboutToQueue(data) + [CloseState] + [CloseWrite] + [WriterSeesWriteClose] + [DrainEnds];
    DrainedTooEarly(data);
    RunFromLeaves(Run(LateQueue(data)), es);
    hide RunFrom, AboutToQueue;
    OneMore(Start(), drained, Queue);
  }

  /** Two items in the channel, the client closes, the first write of the drain fails. */
  function DrainGap(first: bytes, second: bytes): seq<Step> {
    AboutToQueue(first) + [Queue] + [Arrive(second)] + [CheckWriteClosed] + [Queue] + [ClientClose] +
    ([WriterSeesWriteClose] + [DrainReceives] + [DrainFails(0)]) + ([DrainReceives] + [DrainWrites])
  }

  lemma TwoQueued(first: bytes, second: bytes)
    requires first != [] && second != []
    ensures Run(AboutToQueue(first) + [Queue] + [Arrive(second)] + [CheckWriteClosed] + [Queue] + [ClientClose])
         == Open(Idle, NO_LOG.(accepted := [first, second])).(writeCh := [first, second], writeClosed := true)
  {
    hide RunFrom;
    var s, es := Start(), AboutToQueue(first);
    AboutToQueueState(first);
    OneMore(s, es, Queue);
    OneMore(s, es + [Queue], Arrive(second));
    OneMore(s, es + [Queue] + [Arrive(second)], CheckWriteClosed);
    OneMore(s, es + [Queue] + [Arrive(second)] + [CheckWriteClosed], Queue);
    OneMore(s, es + [Queue] + [Arrive(second)] + [CheckWriteClosed] + [Queue], ClientClose);
    assert [first] + [second] == [first, second];
  }

  lemma FirstLost(t: HandoffState, first: bytes, second: bytes)
    requires t == Open(Idle, NO_LOG.(accepted := [first, second])).(writeCh := [first, second], writeClosed := true)
    ensures var u := RunFrom(t, [WriterSeesWriteClose] + [DrainReceives] + [DrainFails(0)]);
            && u.writer == Draining(true) && u.writeCh == [second] && !u.connClosed
            && u.log == Log([first, second], [], 1, false, true)
  {
    RunOne(t, WriterSeesWriteClose);
    hide RunFrom;
    OneMore(t, [WriterSeesWriteClose], DrainReceives);
    OneMore(t, [WriterSeesWriteClose] + [DrainReceives], DrainFails(0));
    assert [first, second][1..] == [second];
  }

  /** The backend gets the second item without the first. */
  lemma DrainGapSkips(first: bytes, second: bytes)
    requires first != [] && second != []
    ensures var g := Run(DrainGap(first, second)).log;
            g.accepted == [first, second] && g.written == [Chunk(1, second)] && !Gapless(g)
  {
    TwoQueued(first, second);
    var es := AboutToQueue(first) + [Queue] + [Arrive(second)] + [CheckWriteClosed] + [Queue] + [ClientClose];
    var lost := [WriterSeesWriteClose] + [DrainReceives] + [DrainFails(0)];
    var t := Run(es);
    FirstLost(t, first, second);
    hide Next, Open, AboutToQueue;
    RunFromAppend(Start(), es, lost);
    var on := DrainWritesOn(Run(es + lost));
    RunFromAppend(Start(), es + lost, on);
    assert DrainGap(first, second) == es + lost + on;
    assert Run(DrainGap(first, second)).log.written[0].place == 1;
  }

  // ---- A close that comes too early ----------------------------------------------------------

  /** The server shuts down while the backend is being dialled, and then the dial succeeds. */
  function CloseDuringDial(): seq<Step> {
    [CloseState] + [CloseWrite] + [CloseSignal] + [CloseConn] + [DialSucceeds] + [TakePending]
  }

  /** A close() that finds no connection is undone: the stream is connected again, with its connection
      open, and whatever was pending is flushed. */
  lemma CloseDuringDialIsUndone()
    ensures var s := Run(CloseDuringDial());
            s.state.Connected? && !s.connClosed && s.closeSignalled && s.writer == Flushing([])
  {
    var closed := [CloseState] + [CloseWrite] + [CloseSignal] + [CloseConn];
    ClosedDuringDial();
    hide RunFrom;
    OneMore(Start(), closed, DialSucceeds);
    OneMore(Start(), closed + [DialSucceeds], TakePending);
  }

  lemma ClosedDuringDial()
    ensures Run([CloseState] + [CloseWrite] + [CloseSignal] + [CloseConn])
         == Start().(state := Closed, closing := true, writeClosed := true, closeSignalled := true)
  {
    var s := Start();
    RunOne(s, CloseState);
    hide RunFrom;
    OneMore(s, [CloseState], CloseWrite);
    OneMore(s, [CloseState] + [CloseWrite], CloseSignal);
    OneMore(s, [CloseState] + [CloseWrite] + [CloseSignal], CloseConn);
  }

  /** In every run the last part of a close() closes the connection if and only if one is there, and from
      then on nothing is written, in any continuation. */
  lemma CloseEndsWriting(es: seq<Step>, more: seq<Step>)
    requires Run(es).closeSignalled
    ensures var t := Next(Run(es), CloseConn);
            && (t.connClosed <==> !Run(es).writer.Dialing?)
            && (t.connClosed ==> RunFrom(t, more).connClosed && RunFrom(t, more).log.written == t.log.written)
  {
    RunInv(es);
    RunFromLeaves(Next(Run(es), CloseConn), more);
    NoConnectionYet(es);
    hide RunFrom, Inv;
  }

  lemma {:induction false} NoConnectionYet(es: seq<Step>)
    ensures Run(es).writer.Dialing? ==> !Run(es).connClosed
  {
    if es != [] {
      NoConnectionYet(es[..|es| - 1]);
      DialingStep(Run(es[..|es| - 1]), es[|es| - 1]);
    }
  }

  lemma ConnectDialing(s: HandoffState, e: Step)
    ensures var c := ConnectStep(s, e); c.connClosed == s.connClosed && (c.writer.Dialing? ==> s.writer.Dialing?)
  {
    hide Give, Lose, Cut;
  }

  lemma WriterDialing(s: HandoffState, e: Step)
    ensures var w := WriterStep(s, e); w.connClosed == s.connClosed && (w.writer.Dialing? ==> s.writer.Dialing?)
  {
    hide Give, Lose, Cut;
  }

  lemma DialingStep(s: HandoffState, e: Step)
    ensures Next(s, e).writer.Dialing? ==> s.writer.Dialing? && (Next(s, e).connClosed ==> s.connClosed)
  {
    HandlerLeaves(s, e);
    ConnectDialing(s, e);
    WriterDialing(s, e);
    CloserLeaves(s, e);
    hide HandlerStep, ConnectStep, WriterStep, ByHandler, ByConnect;
  }
}
