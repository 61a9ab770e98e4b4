/** The congestion window (pkg/tunnel/reliable.go:31-35, 456-534): slow start, additive increase
    through a fractional accumulator, and a halving that happens at most once per round trip.
    The repository's prose describes BBR; the code is AIMD with a cap of 16384. */
module CongestionControl {
  import opened RttEstimation

  const INITIAL_CWND := 32
  const MIN_CWND := 8
  const MAX_CWND := 16384
  const DEFAULT_SSTHRESH := 1024

  datatype Congestion = Congestion(cwnd: int, ssthresh: int, caAccum: int, lastLossReduceNs: int)

  function Fresh(): Congestion {
    Congestion(INITIAL_CWND, DEFAULT_SSTHRESH, 0, 0)
  }

  function Capped(cwnd: int): int {
    if cwnd > MAX_CWND then MAX_CWND else cwnd
  }

  /** onAckAdvance. Its one caller passes at most 2 * MAX_CWND, so the int32 arithmetic is exact. */
  function OnAckAdvance(c: Congestion, pktsAcked: int): Congestion
    requires c.cwnd > 0 && c.caAccum >= 0
  {
    if pktsAcked <= 0 then c
    else if c.cwnd < c.ssthresh then c.(cwnd := Capped(c.cwnd + pktsAcked))
    else
      var accum := c.caAccum + pktsAcked;
      if accum >= c.cwnd then
        var inc := accum / c.cwnd;
        c.(caAccum := accum - inc * c.cwnd, cwnd := Capped(c.cwnd + inc))
      else c.(caAccum := accum)
  }

  /** int64(srttMs * 1e6), with the RTO standing in before the first sample. */
  function LossIntervalNs(r: Rtt): int {
    var srttMs := if r.SRTT() <= 0.0 then r.RTO() as real else r.SRTT();
    (srttMs * 1000000.0).Floor
  }

  function Halved(cwnd: int): int {
    if cwnd / 2 < MIN_CWND then MIN_CWND else cwnd / 2
  }

  /** The rate limit passes: the last reduction is at least one round trip old. */
  predicate Reduces(c: Congestion, now: int, intervalNs: int) {
    now - c.lastLossReduceNs >= intervalNs
  }

  /** onLossFast and onLossRTO reduce the window in the same way. */
  function OnLoss(c: Congestion, now: int, intervalNs: int): Congestion {
    if !Reduces(c, now, intervalNs) then c
    else Congestion(Halved(c.cwnd), Halved(c.cwnd), 0, now)
  }

  /** What every handler keeps. */
  predicate Valid(c: Congestion) {
    && MIN_CWND <= c.cwnd <= MAX_CWND
    && MIN_CWND <= c.ssthresh
    && 0 <= c.caAccum < c.cwnd
  }

  lemma AckKeepsValid(c: Congestion, pktsAcked: int)
    requires Valid(c)
    ensures Valid(OnAckAdvance(c, pktsAcked))
    ensures OnAckAdvance(c, pktsAcked).cwnd >= c.cwnd
    ensures OnAckAdvance(c, pktsAcked).ssthresh == c.ssthresh
    ensures OnAckAdvance(c, pktsAcked).lastLossReduceNs == c.lastLossReduceNs
  {
    if pktsAcked > 0 && c.cwnd >= c.ssthresh {
      var accum := c.caAccum + pktsAcked;
      assert accum == accum / c.cwnd * c.cwnd + accum % c.cwnd;
    }
  }

  // ---- Whole runs ----------------------------------------------------------------------------

  datatype CongestionEvent = Acked(pkts: int) | Loss(now: int, intervalNs: int)

  function Step(c: Congestion, e: CongestionEvent): (c': Congestion)
    requires Valid(c)
    ensures Valid(c')
  {
    match e
    case Acked(pkts) =>
      assert Valid(OnAckAdvance(c, pkts)) by { AckKeepsValid(c, pkts); }
      OnAckAdvance(c, pkts)
    case Loss(now, intervalNs) => OnLoss(c, now, intervalNs)
  }

  /** The window after a history of ACK advances and loss signals. Every state on the way
      satisfies Valid: MIN_CWND <= cwnd <= MAX_CWND, ssthresh >= MIN_CWND, 0 <= caAccum < cwnd. */
  function Run(c: Congestion, es: seq<CongestionEvent>): (c': Congestion)
    requires Valid(c)
    ensures Valid(c')
  {
    if es == [] then c else Step(Run(c, es[..|es| - 1]), es[|es| - 1])
  }

  /** How many of the loss signals actually reduced the window. */
  function Reductions(c: Congestion, es: seq<CongestionEvent>): nat
    requires Valid(c)
  {
    if es == [] then 0
    else
      var init, e := es[..|es| - 1], es[|es| - 1];
      Reductions(c, init) + (if e.Loss? && Reduces(Run(c, init), e.now, e.intervalNs) then 1 else 0)
  }

  /** Once the window has been reduced, ssthresh never exceeds it again: every later increase is
      congestion avoidance, slow start is not re-entered. */
  lemma {:induction false} SlowStartNotReentered(c: Congestion, es: seq<CongestionEvent>)
    requires Valid(c)
    ensures c.ssthresh <= c.cwnd || Reductions(c, es) > 0 ==> Run(c, es).ssthresh <= Run(c, es).cwnd
  {
    if es != [] {
      var init, e := es[..|es| - 1], es[|es| - 1];
      SlowStartNotReentered(c, init);
      if e.Acked? {
        AckKeepsValid(Run(c, init), e.pkts);
      }
    }
  }

  // ---- The additive-increase ledger ----------------------------------------------------------

  /** 0 + 1 + ... + (w-1): what congestion avoidance must see acknowledged to grow from 0 to w. */
  function Triangle(w: nat): nat {
    if w == 0 then 0 else Triangle(w - 1) + (w - 1)
  }

  lemma {:induction false} TriangleClosedForm(w: nat)
    ensures 2 * Triangle(w) == w * (w - 1)
  {
    if w > 0 {
      TriangleClosedForm(w - 1);
      assert w * (w - 1) == (w - 1) * (w - 2) + 2 * (w - 1);
    }
  }

  lemma {:induction false} TriangleSum(w: nat, inc: nat)
    ensures Triangle(w + inc) == Triangle(w) + inc * w + Triangle(inc)
  {
    if inc > 0 {
      TriangleSum(w, inc - 1);
      assert inc * w == (inc - 1) * w + w;
    }
  }

  function Credit(c: Congestion): int
    requires Valid(c)
  {
    Triangle(c.cwnd) + c.caAccum
  }

  /** Packets acknowledged over a run of ACK advances. */
  function TotalAcked(acks: seq<int>): int {
    if acks == [] then 0 else TotalAcked(acks[..|acks| - 1]) + acks[|acks| - 1]
  }

  function Acks(acks: seq<int>): seq<CongestionEvent> {
    seq(|acks|, i requires 0 <= i < |acks| => Acked(acks[i]))
  }

  lemma LedgerStep(c: Congestion, n: int)
    requires Valid(c) && c.ssthresh <= c.cwnd && n > 0
    requires OnAckAdvance(c, n).cwnd < MAX_CWND
    ensures Valid(OnAckAdvance(c, n))
    ensures Credit(c) + n <= Credit(OnAckAdvance(c, n))
    ensures n <= c.cwnd ==> Credit(c) + n == Credit(OnAckAdvance(c, n))
  {
    AckKeepsValid(c, n);
    var accum := c.caAccum + n;
    if accum >= c.cwnd {
      var inc := accum / c.cwnd;
      TriangleSum(c.cwnd, inc);
      assert inc >= 1 by { QuotientBound(1, c.cwnd, accum); }
      if n <= c.cwnd {
        QuotientIs(accum, c.cwnd, 1, accum - c.cwnd);
        assert Triangle(1) == Triangle(0);
      }
    }
  }

  /** Conservation in congestion avoidance: no acknowledged packet is lost by the accumulator, so
      cwnd + 1 costs cwnd acknowledgments. The window can only be ahead of the ledger when one ACK
      covers more than a window. */
  lemma {:induction false} AdditiveIncreaseLedger(c: Congestion, acks: seq<int>)
    requires Valid(c) && c.ssthresh <= c.cwnd
    requires forall i :: 0 <= i < |acks| ==> acks[i] > 0
    requires Run(c, Acks(acks)).cwnd < MAX_CWND
    ensures TotalAcked(acks) + Credit(c) <= Credit(Run(c, Acks(acks)))
    ensures (forall i :: 0 <= i < |acks| ==> acks[i] <= Run(c, Acks(acks[..i])).cwnd)
            ==> TotalAcked(acks) + Credit(c) == Credit(Run(c, Acks(acks)))
  {
    if acks != [] {
      var n := |acks| - 1;
      var init := acks[..n];
      assert Acks(acks)[..n] == Acks(init);
      var before := Run(c, Acks(init));
      AckKeepsValid(before, acks[n]);
      AdditiveIncreaseLedger(c, init);
      SlowStartNotReentered(c, Acks(init));
      LedgerStep(before, acks[n]);
      if forall i :: 0 <= i < |acks| ==> acks[i] <= Run(c, Acks(acks[..i])).cwnd {
        forall i | 0 <= i < |init| ensures init[i] <= Run(c, Acks(init[..i])).cwnd {
          assert init[..i] == acks[..i];
        }
      }
    }
  }

  // ---- The rate limit on reductions ----------------------------------------------------------

  /** Loss signals arrive in time order within [from, to], and the round trip used never drops
      below s. */
  predicate LossesWithin(es: seq<CongestionEvent>, from: int, to: int, s: int) {
    && (forall i :: 0 <= i < |es| && es[i].Loss? ==> from <= es[i].now <= to && es[i].intervalNs >= s)
    && (forall i, j :: 0 <= i < j < |es| && es[i].Loss? && es[j].Loss? ==> es[i].now <= es[j].now)
  }

  /** In an interval of length t with round trips of at least s, the window is reduced at most
      1 + t/s times, whichever handler signals the loss and however ACKs are interleaved. */
  lemma {:induction false} ReductionsAreRateLimited(c: Congestion, es: seq<CongestionEvent>, from: int, to: int, s: int)
    requires Valid(c) && s > 0 && from <= to && LossesWithin(es, from, to, s)
    ensures Reductions(c, es) <= 1 + (to - from) / s
  {
    ReductionsSpaced(c, es, from, to, s);
    if Reductions(c, es) > 0 {
      QuotientBound(Reductions(c, es) - 1, s, to - from);
    } else {
      QuotientBound(0, s, to - from);
    }
  }

  lemma {:induction false} ReductionsSpaced(c: Congestion, es: seq<CongestionEvent>, from: int, to: int, s: int)
    requires Valid(c) && s > 0 && LossesWithin(es, from, to, s)
    ensures Reductions(c, es) > 0 ==> from + (Reductions(c, es) - 1) * s <= Run(c, es).lastLossReduceNs <= to
    ensures Reductions(c, es) == 0 ==> Run(c, es).lastLossReduceNs == c.lastLossReduceNs
  {
    if es != [] {
      var init, e := es[..|es| - 1], es[|es| - 1];
      ReductionsSpaced(c, init, from, to, s);
      var before := Run(c, init);
      var k := Reductions(c, init);
      if e.Acked? {
        AckKeepsValid(before, e.pkts);
      } else if Reduces(before, e.now, e.intervalNs) {
        assert from <= e.now <= to && e.intervalNs >= s;
        assert k * s == (k - 1) * s + s;
      }
    }
  }

  lemma MulMonotone(a: int, b: int, s: int)
    requires s >= 0
    ensures a <= b ==> a * s <= b * s
  {
  }

  lemma QuotientBound(k: int, s: int, t: int)
    requires s > 0 && k * s <= t
    ensures k <= t / s
  {
    var q := t / s;
    assert t == q * s + t % s;
    assert (q + 1) * s == q * s + s;
    MulMonotone(q + 1, k, s);
  }

  function Pow2(k: nat): (p: nat)
    ensures p >= 1
  {
    if k == 0 then 1 else 2 * Pow2(k - 1)
  }

  function Max(a: int, b: int): int {
    if a >= b then a else b
  }

  lemma HalvingDivides(x: nat, p: nat)
    requires p >= 1
    ensures x / p / 2 == x / (2 * p)
  {
    var q := x / p;
    var h := q / 2;
    assert x == q * p + x % p;
    assert q == 2 * h + q % 2;
    assert x == h * (2 * p) + (q % 2) * p + x % p;
    assert 0 <= (q % 2) * p + x % p < 2 * p;
    var r := (q % 2) * p + x % p;
    QuotientIs(x, 2 * p, h, r);
  }

  lemma QuotientIs(x: int, d: int, q: int, r: int)
    requires 0 <= r < d && x == q * d + r
    ensures x / d == q
  {
    var q' := x / d;
    assert x == q' * d + x % d;
    assert (q' + 1) * d == q' * d + d;
    assert (q + 1) * d == q * d + d;
    MulMonotone(q' + 1, q, d);
    MulMonotone(q + 1, q', d);
  }

  /** After k reductions, interleaved with any ACKs, the window is still at least
      max(MIN_CWND, floor(cwnd0 / 2^k)). */
  lemma {:induction false} WindowFloor(c: Congestion, es: seq<CongestionEvent>)
    requires Valid(c)
    ensures Run(c, es).cwnd >= Max(MIN_CWND, c.cwnd / Pow2(Reductions(c, es)))
  {
    if es != [] {
      var init, e := es[..|es| - 1], es[|es| - 1];
      WindowFloor(c, init);
      if e.Acked? {
        AckKeepsValid(Run(c, init), e.pkts);
      } else if Reduces(Run(c, init), e.now, e.intervalNs) {
        HalvingDivides(c.cwnd, Pow2(Reductions(c, init)));
      }
    }
  }

  /** The interval bound and the floor together: what a path with round trips of at least s can do
      to the window in time t. */
  lemma WindowOverInterval(c: Congestion, es: seq<CongestionEvent>, from: int, to: int, s: int)
    requires Valid(c) && s > 0 && from <= to && LossesWithin(es, from, to, s)
    ensures Run(c, es).cwnd >= Max(MIN_CWND, c.cwnd / Pow2(1 + (to - from) / s))
  {
    ReductionsAreRateLimited(c, es, from, to, s);
    WindowFloor(c, es);
    Pow2Monotone(Reductions(c, es), 1 + (to - from) / s);
    DivAntitone(c.cwnd, Pow2(Reductions(c, es)), Pow2(1 + (to - from) / s));
  }

  lemma {:induction false} Pow2Monotone(j: nat, k: nat)
    requires j <= k
    ensures Pow2(j) <= Pow2(k)
  {
    if j < k {
      Pow2Monotone(j, k - 1);
    }
  }

  lemma DivAntitone(x: nat, p: nat, q: nat)
    requires 1 <= p <= q
    ensures x / q <= x / p
  {
    var r := x / q;
    assert x == r * q + x % q;
    MulMonotone(p, q, r);
    assert r * p == p * r && r * q == q * r;
    QuotientBound(r, p, x);
  }
}
