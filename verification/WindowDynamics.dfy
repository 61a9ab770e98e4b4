/** How far the congestion window moves: what losses take from it and what acknowledgments add,
    in both directions and in numbers (pkg/tunnel/reliable.go:31-35, 456-534). */
module WindowDynamics {
  import opened RttEstimation
  import opened CongestionControl

  // ---- Losses --------------------------------------------------------------------------------

  /** The round trip a reduction must wait for, in nanoseconds: SRTT, or the whole milliseconds of the
      timeout as long as no sample has arrived. */
  function RoundTripNs(r: Rtt): int {
    ((if r.hasRTT && r.srtt > 0.0 then r.srtt else r.rto.Floor as real) * 1000000.0).Floor
  }

  /** A loss signal one round trip or more after the last reduction leaves half the window, at least 8,
      as window and as threshold, and clears the fraction; an earlier one changes nothing. */
  lemma LossHalves(c: Congestion, now: int, r: Rtt)
    ensures var t := OnLoss(c, now, LossIntervalNs(r));
            if now - c.lastLossReduceNs >= RoundTripNs(r)
            then t.cwnd == t.ssthresh == Max(8, c.cwnd / 2) && t.caAccum == 0 && t.lastLossReduceNs == now
            else t == c
  {
  }

  predicate OnlyLosses(es: seq<CongestionEvent>) {
    forall i :: 0 <= i < |es| ==> es[i].Loss?
  }

  lemma HalvedAgain(x: nat, k: nat)
    ensures Max(8, Max(8, x / Pow2(k)) / 2) == Max(8, x / Pow2(k + 1))
  {
    HalvingDivides(x, Pow2(k));
  }

  /** With no acknowledgment in between, k reductions leave exactly floor(cwnd0 / 2^k), at least 8. */
  lemma {:induction false} HalvingsExact(c: Congestion, es: seq<CongestionEvent>)
    requires Valid(c) && OnlyLosses(es)
    ensures Run(c, es).cwnd == Max(8, c.cwnd / Pow2(Reductions(c, es)))
    ensures Reductions(c, es) > 0 ==> Run(c, es).ssthresh == Run(c, es).cwnd && Run(c, es).caAccum == 0
  {
    if es != [] {
      var init := es[..|es| - 1];
      HalvingsExact(c, init);
      HalvedAgain(c.cwnd, Reductions(c, init));
    }
  }

  /** Each signal comes one round trip or more after the one before, the first after the last reduction. */
  predicate Spaced(last: int, es: seq<CongestionEvent>) {
    && OnlyLosses(es)
    && (es != [] ==> es[0].now >= last + es[0].intervalNs)
    && (forall i :: 0 < i < |es| ==> es[i].now >= es[i - 1].now + es[i].intervalNs)
  }

  /** Loss signals that far apart all count, so n of them halve the window n times. */
  lemma {:induction false} SpacedLossesAllReduce(c: Congestion, es: seq<CongestionEvent>)
    requires Valid(c) && Spaced(c.lastLossReduceNs, es)
    ensures Reductions(c, es) == |es| && Run(c, es).cwnd == Max(8, c.cwnd / Pow2(|es|))
    ensures Run(c, es).lastLossReduceNs == if es == [] then c.lastLossReduceNs else es[|es| - 1].now
  {
    HalvingsExact(c, es);
    if es != [] {
      SpacedLossesAllReduce(c, es[..|es| - 1]);
    }
  }

  // ---- Acknowledgments -----------------------------------------------------------------------

  function Growth(es: seq<CongestionEvent>): nat {
    if es == [] then 0
    else
      var e := es[|es| - 1];
      Growth(es[..|es| - 1]) + (if e.Acked? && e.pkts > 0 then e.pkts else 0)
  }

  /** One advance adds at most the packets acknowledged. */
  lemma AdvanceAddsAtMost(c: Congestion, n: int)
    requires Valid(c) && n > 0
    ensures OnAckAdvance(c, n).cwnd <= c.cwnd + n
  {
    if c.cwnd >= c.ssthresh {
      var accum := c.caAccum + n;
      if accum >= c.cwnd {
        var q := accum / c.cwnd;
        assert accum == q * c.cwnd + accum % c.cwnd;
        assert (n + 1) * c.cwnd == n * c.cwnd + c.cwnd && c.cwnd * n == n * c.cwnd;
        MulMonotone(1, c.cwnd, n);
        MulMonotone(n + 1, q, c.cwnd);
      }
    }
  }

  /** Congestion avoidance divides what has been acknowledged by the window: each window's worth adds one,
      the remainder is carried on. */
  lemma AvoidanceDivides(c: Congestion, n: int)
    requires Valid(c) && c.ssthresh <= c.cwnd && n > 0 && OnAckAdvance(c, n).cwnd < 16384
    ensures var t := OnAckAdvance(c, n);
            && (t.cwnd - c.cwnd) * c.cwnd + t.caAccum == c.caAccum + n && 0 <= t.caAccum < c.cwnd
            && t == c.(cwnd := t.cwnd, caAccum := t.caAccum)
  {
    var accum := c.caAccum + n;
    assert accum == accum / c.cwnd * c.cwnd + accum % c.cwnd;
  }

  /** The ceiling that goes with the floor: after k reductions, interleaved with acknowledgments of n
      packets in all, the window is at most max(8, floor(cwnd0 / 2^k)) + n. */
  lemma {:induction false} WindowCeiling(c: Congestion, es: seq<CongestionEvent>)
    requires Valid(c)
    ensures Run(c, es).cwnd <= Max(8, c.cwnd / Pow2(Reductions(c, es))) + Growth(es)
  {
    if es != [] {
      var init, e := es[..|es| - 1], es[|es| - 1];
      WindowCeiling(c, init);
      if e.Acked? {
        if e.pkts > 0 {
          AdvanceAddsAtMost(Run(c, init), e.pkts);
        }
      } else if Reduces(Run(c, init), e.now, e.intervalNs) {
        HalvedAgain(c.cwnd, Reductions(c, init));
      }
    }
  }

  predicate Positive(acks: seq<int>) {
    forall i :: 0 <= i < |acks| ==> acks[i] > 0
  }

  lemma {:induction false} TotalNotNegative(acks: seq<int>)
    requires Positive(acks)
    ensures TotalAcked(acks) >= 0
  {
    if acks != [] {
      TotalNotNegative(acks[..|acks| - 1]);
    }
  }

  /** Slow start: until the threshold is reached, each packet acknowledged adds one to the window,
      however the acknowledgments are cut up, up to 16384. */
  lemma {:induction false} SlowStartAddsAcked(c: Congestion, acks: seq<int>)
    requires Valid(c) && Positive(acks)
    requires acks != [] ==> c.cwnd + TotalAcked(acks[..|acks| - 1]) < c.ssthresh
    ensures var t := Run(c, Acks(acks));
            && t.cwnd == (if c.cwnd + TotalAcked(acks) > 16384 then 16384 else c.cwnd + TotalAcked(acks))
            && t == c.(cwnd := t.cwnd)
  {
    if acks != [] {
      var init := acks[..|acks| - 1];
      assert Acks(acks)[..|acks| - 1] == Acks(init);
      TotalNotNegative(init);
      if init != [] {
        TotalNotNegative(init[..|init| - 1]);
      }
      SlowStartAddsAcked(c, init);
    }
  }

  /** A fresh stream starts at 32 and doubles per round trip up to 1024: after n packets, 32 + n. */
  lemma FreshWindow(acks: seq<int>)
    requires Positive(acks) && TotalAcked(acks) <= 992
    ensures Run(CongestionControl.Fresh(), Acks(acks)).cwnd == 32 + TotalAcked(acks)
  {
    if acks != [] {
      assert acks[|acks| - 1] > 0;
    }
    SlowStartAddsAcked(CongestionControl.Fresh(), acks);
  }

  lemma {:induction false} TotalSnoc(acks: seq<int>, n: int)
    ensures TotalAcked(acks + [n]) == TotalAcked(acks) + n && Acks(acks + [n]) == Acks(acks) + [Acked(n)]
  {
    assert (acks + [n])[..|acks|] == acks;
  }

  /** From there on it takes a whole window of acknowledged packets to add one: 1024 packets more give
      1025, and not one packet fewer. */
  lemma ThresholdEndsSlowStart(acks: seq<int>, n: int)
    requires Positive(acks) && TotalAcked(acks) == 992 && 0 < n <= 1024
    ensures Run(CongestionControl.Fresh(), Acks(acks + [n])).cwnd == if n == 1024 then 1025 else 1024
  {
    FreshWindow(acks);
    TotalSnoc(acks, n);
    if acks != [] {
      assert acks[|acks| - 1] > 0;
    }
    SlowStartAddsAcked(CongestionControl.Fresh(), acks);
    assert (Acks(acks) + [Acked(n)])[..|acks|] == Acks(acks);
  }
}
