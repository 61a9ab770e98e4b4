/** The round-trip estimator (pkg/tunnel/reliable.go:227-300): sections 2 and 3 of RFC 6298 with
    the RTO clamped to [100, 4000] ms. Floating-point values are modelled as reals. */
module RttEstimation {
  const DEFAULT_RTO_MS: real := 1000.0
  const MIN_RTO_MS: real := 100.0
  const MAX_RTO_MS: real := 4000.0
  const RTT_ALPHA: real := 0.125
  const RTT_BETA: real := 0.25

  datatype Rtt = Rtt(srtt: real, rttvar: real, rto: real, hasRTT: bool) {
    /** int(r.rto): truncation, which is the floor of a positive value. */
    function RTO(): int { rto.Floor }
    function SRTT(): real { if hasRTT then srtt else 0.0 }
  }

  function Abs(x: real): real {
    if x < 0.0 then -x else x
  }

  function Clamp(x: real): real {
    if x < MIN_RTO_MS then MIN_RTO_MS else if x > MAX_RTO_MS then MAX_RTO_MS else x
  }

  function Fresh(): Rtt {
    Rtt(0.0, 0.0, DEFAULT_RTO_MS, false)
  }

  function Updated(r: Rtt, rttMs: real): Rtt {
    var rttvar := if r.hasRTT then (1.0 - RTT_BETA) * r.rttvar + RTT_BETA * Abs(r.srtt - rttMs) else rttMs / 2.0;
    var srtt := if r.hasRTT then (1.0 - RTT_ALPHA) * r.srtt + RTT_ALPHA * rttMs else rttMs;
    Rtt(srtt, rttvar, Clamp(srtt + 4.0 * rttvar), true)
  }

  function BackedOff(r: Rtt): Rtt {
    r.(rto := if r.rto * 2.0 > MAX_RTO_MS then MAX_RTO_MS else r.rto * 2.0)
  }

  /** The samples of one cumulative ACK, taken in order. */
  function UpdatedAll(r: Rtt, samples: seq<int>): Rtt {
    if samples == [] then r
    else Updated(UpdatedAll(r, samples[..|samples| - 1]), samples[|samples| - 1] as real)
  }

  class RTTEstimator {
    var srtt: real
    var rttvar: real
    var rto: real
    var hasRTT: bool

    function State(): Rtt
      reads this
    {
      Rtt(srtt, rttvar, rto, hasRTT)
    }

    constructor ()
      ensures State() == Fresh()
    {
      srtt, rttvar, rto, hasRTT := 0.0, 0.0, DEFAULT_RTO_MS, false;
    }

    method Update(rttMs: real)
      modifies this
      ensures State() == Updated(old(State()), rttMs)
      ensures old(hasRTT) ==> 8.0 * (srtt - old(srtt)) == rttMs - old(srtt)
      ensures old(hasRTT) ==> 4.0 * (rttvar - old(rttvar)) == Abs(old(srtt) - rttMs) - old(rttvar)
      ensures !old(hasRTT) ==> srtt == rttMs && 2.0 * rttvar == rttMs
    {
      if !hasRTT {
        srtt := rttMs;
        rttvar := rttMs / 2.0;
        hasRTT := true;
      } else {
        rttvar := (1.0 - RTT_BETA) * rttvar + RTT_BETA * Abs(srtt - rttMs);
        srtt := (1.0 - RTT_ALPHA) * srtt + RTT_ALPHA * rttMs;
      }
      rto := srtt + 4.0 * rttvar;
      if rto < MIN_RTO_MS {
        rto := MIN_RTO_MS;
      }
      if rto > MAX_RTO_MS {
        rto := MAX_RTO_MS;
      }
    }

    method Backoff()
      modifies this
      ensures State() == BackedOff(old(State()))
    {
      rto := rto * 2.0;
      if rto > MAX_RTO_MS {
        rto := MAX_RTO_MS;
      }
    }
  }

  // ---- Whole runs ----------------------------------------------------------------------------

  datatype RttEvent = Sample(ms: real) | Timeout

  /** The estimator after a history of samples and timeouts, from a fresh stream. */
  function After(es: seq<RttEvent>): Rtt {
    if es == [] then Fresh()
    else
      var r := After(es[..|es| - 1]);
      match es[|es| - 1]
      case Sample(ms) => Updated(r, ms)
      case Timeout => BackedOff(r)
  }

  predicate SamplesWithin(es: seq<RttEvent>, lo: real, hi: real) {
    forall i :: 0 <= i < |es| && es[i].Sample? ==> lo <= es[i].ms <= hi
  }

  /** The RTO stays in [100, 4000] ms whatever the samples and timeouts. */
  lemma {:induction false} RtoWithinBounds(es: seq<RttEvent>)
    ensures MIN_RTO_MS <= After(es).rto <= MAX_RTO_MS
    ensures 100 <= After(es).RTO() <= 4000
  {
    if es != [] {
      RtoWithinBounds(es[..|es| - 1]);
    }
  }

  /** A Backoff never lowers the RTO and at most doubles it. */
  lemma BackoffGrows(es: seq<RttEvent>)
    ensures After(es).rto <= BackedOff(After(es)).rto <= 2.0 * After(es).rto
    ensures BackedOff(After(es)).rto == 2.0 * After(es).rto || BackedOff(After(es)).rto == MAX_RTO_MS
  {
    RtoWithinBounds(es);
  }

  /** With every sample in [lo, hi], SRTT stays in [lo, hi] and RTTVAR is at most the larger of
      hi/2, its starting point, and hi-lo, the largest possible deviation. */
  lemma {:induction false} EstimatesWithinSamples(es: seq<RttEvent>, lo: real, hi: real)
    requires 0.0 <= lo <= hi && SamplesWithin(es, lo, hi)
    ensures var r := After(es);
            if r.hasRTT then
              && lo <= r.srtt <= hi
              && 0.0 <= r.rttvar <= (if hi / 2.0 > hi - lo then hi / 2.0 else hi - lo)
            else r.srtt == 0.0 && r.rttvar == 0.0
  {
    if es != [] {
      var init := es[..|es| - 1];
      assert SamplesWithin(init, lo, hi);
      EstimatesWithinSamples(init, lo, hi);
      if es[|es| - 1].Sample? {
        assert lo <= es[|es| - 1].ms <= hi;
      }
    }
  }

  function ThreeQuartersTo(n: nat): (x: real)
    ensures 0.0 < x <= 1.0
  {
    if n == 0 then 1.0 else 0.75 * ThreeQuartersTo(n - 1)
  }

  function Constant(rttMs: real, n: nat): seq<RttEvent> {
    seq(n, _ => Sample(rttMs))
  }

  lemma RepeatedSample(r: Rtt, rttMs: real)
    requires r.hasRTT && r.srtt == rttMs
    ensures Updated(r, rttMs) == Rtt(rttMs, 0.75 * r.rttvar, Clamp(rttMs + 3.0 * r.rttvar), true)
  {
    assert (1.0 - RTT_ALPHA) * rttMs + RTT_ALPHA * rttMs == rttMs;
    assert Abs(r.srtt - rttMs) == 0.0;
    assert (1.0 - RTT_BETA) * r.rttvar == 0.75 * r.rttvar;
  }

  /** RTTVAR after n + 1 equal samples, and four times it. */
  function Variation(rttMs: real, n: nat): real {
    rttMs / 2.0 * ThreeQuartersTo(n)
  }

  function Margin(rttMs: real, n: nat): real {
    2.0 * rttMs * ThreeQuartersTo(n)
  }

  lemma FirstVariation(rttMs: real)
    ensures Variation(rttMs, 0) == rttMs / 2.0 && Margin(rttMs, 0) == 2.0 * rttMs
  {
  }

  lemma NextVariation(rttMs: real, n: nat)
    requires n > 0
    ensures Variation(rttMs, n) == 0.75 * Variation(rttMs, n - 1) && Margin(rttMs, n) == 3.0 * Variation(rttMs, n - 1)
  {
    Reassociate(rttMs, ThreeQuartersTo(n - 1));
  }

  lemma FirstSample(rttMs: real)
    ensures After(Constant(rttMs, 1)) == Rtt(rttMs, Variation(rttMs, 0), Clamp(rttMs + Margin(rttMs, 0)), true)
  {
    FirstVariation(rttMs);
    hide Clamp, Abs, Variation, Margin;
    assert Constant(rttMs, 1)[..0] == [];
    assert rttMs + 4.0 * (rttMs / 2.0) == rttMs + 2.0 * rttMs;
  }

  lemma NextSample(rttMs: real, n: nat)
    ensures After(Constant(rttMs, n + 1)) == Updated(After(Constant(rttMs, n)), rttMs)
  {
    hide Updated;
    assert Constant(rttMs, n + 1)[..n] == Constant(rttMs, n);
  }

  lemma {:induction false} ConstantSamples(rttMs: real, n: nat)
    ensures After(Constant(rttMs, n + 1)) == Rtt(rttMs, Variation(rttMs, n), Clamp(rttMs + Margin(rttMs, n)), true)
  {
    hide Clamp, Updated, After, Variation, Margin;
    if n == 0 {
      FirstSample(rttMs);
    } else {
      ConstantSamples(rttMs, n - 1);
      NextSample(rttMs, n);
      RepeatedSample(After(Constant(rttMs, n)), rttMs);
      NextVariation(rttMs, n);
    }
  }

  /** n+1 equal samples R from a fresh stream: SRTT is R exactly and the variance term decays
      geometrically, so the RTO is clamp(R + 2 R (3/4)^n). */
  lemma ConstantSamplesConverge(rttMs: real, n: nat)
    ensures After(Constant(rttMs, n + 1))
         == Rtt(rttMs, rttMs / 2.0 * ThreeQuartersTo(n), Clamp(rttMs + 2.0 * rttMs * ThreeQuartersTo(n)), true)
  {
    ConstantSamples(rttMs, n);
    hide After, Clamp, ThreeQuartersTo;
  }

  // ---- The response to a step ----------------------------------------------------------------

  /** Section 2 of RFC 6298, in numbers: a first sample R gives SRTT R and RTTVAR R/2; any other moves
      SRTT by an eighth of the way to R and RTTVAR by a quarter of the way to |SRTT - R|, with the old
      SRTT; the RTO is SRTT + 4 RTTVAR within [100, 4000] ms. */
  lemma SampleMovesEstimates(r: Rtt, rttMs: real)
    ensures var t := Updated(r, rttMs);
            var deviation := if rttMs < r.srtt then r.srtt - rttMs else rttMs - r.srtt;
            var timeout := t.srtt + 4.0 * t.rttvar;
            && t.hasRTT
            && (!r.hasRTT ==> t.srtt == rttMs && 2.0 * t.rttvar == rttMs)
            && (r.hasRTT ==> 8.0 * (t.srtt - r.srtt) == rttMs - r.srtt)
            && (r.hasRTT ==> 4.0 * (t.rttvar - r.rttvar) == deviation - r.rttvar)
            && (100.0 <= timeout <= 4000.0 ==> t.rto == timeout)
            && (timeout < 100.0 ==> t.rto == 100.0) && (timeout > 4000.0 ==> t.rto == 4000.0)
  {
  }

  function Repeated(r: Rtt, rttMs: real, n: nat): Rtt {
    if n == 0 then r else Updated(Repeated(r, rttMs, n - 1), rttMs)
  }

  function SevenEighthsTo(n: nat): (x: real)
    ensures 0.0 < x <= 1.0
  {
    if n == 0 then 1.0 else 0.875 * SevenEighthsTo(n - 1)
  }

  lemma Eighth(d: real, a: real, rttMs: real)
    ensures 0.875 * (rttMs + d * a) + 0.125 * rttMs == rttMs + d * (0.875 * a)
  {
    var x := d * a;
    assert d * (0.875 * a) == 0.875 * x;
  }

  lemma Distance(d: real, a: real)
    requires a > 0.0
    ensures Abs(d * a) == Abs(d) * a
  {
    if d >= 0.0 {
      assert d * a >= 0.0;
    } else {
      assert -d * a > 0.0;
      assert -d * a == -(d * a);
    }
  }

  /** SRTT is the fraction a of the step S - R away from R; of RTTVAR the fraction b is left, plus what
      the step has put in and not yet lost again. */
  predicate Responded(t: Rtt, r: Rtt, rttMs: real, a: real, b: real) {
    && t.hasRTT
    && t.srtt == rttMs + (r.srtt - rttMs) * a
    && t.rttvar == r.rttvar * b + 2.0 * Abs(r.srtt - rttMs) * (a - b)
  }

  lemma NextResponse(t: Rtt, r: Rtt, rttMs: real, a: real, b: real)
    requires a > 0.0 && Responded(t, r, rttMs, a, b)
    ensures Responded(Updated(t, rttMs), r, rttMs, 0.875 * a, 0.75 * b)
  {
    var d := r.srtt - rttMs;
    Eighth(d, a, rttMs);
    Distance(d, a);
    VariationStep(r.rttvar, Abs(d), a, b);
    assert Abs(t.srtt - rttMs) == Abs(d * a);
    hide Abs, Clamp;
  }

  lemma NotYetResponded(r: Rtt, rttMs: real)
    requires r.hasRTT
    ensures Responded(r, r, rttMs, 1.0, 1.0)
  {
  }

  /** From SRTT S and RTTVAR V, n samples R: the distance to R shrinks by 7/8 a sample, and RTTVAR first
      takes the step up and then forgets it, so that the timeout comes down to R. */
  lemma {:induction false} StepResponse(r: Rtt, rttMs: real, n: nat)
    requires r.hasRTT
    ensures Responded(Repeated(r, rttMs, n), r, rttMs, SevenEighthsTo(n), ThreeQuartersTo(n))
    ensures n > 0 ==> var t := Repeated(r, rttMs, n); t.rto == Clamp(t.srtt + 4.0 * t.rttvar)
  {
    hide Clamp, Responded, Updated;
    if n == 0 {
      NotYetResponded(r, rttMs);
    } else {
      var t := Repeated(r, rttMs, n - 1);
      StepResponse(r, rttMs, n - 1);
      NextResponse(t, r, rttMs, SevenEighthsTo(n - 1), ThreeQuartersTo(n - 1));
      UpdatedRto(t, rttMs);
    }
  }

  lemma UpdatedRto(r: Rtt, rttMs: real)
    ensures var t := Updated(r, rttMs); t.hasRTT && t.rto == Clamp(t.srtt + 4.0 * t.rttvar)
  {
  }

  lemma VariationStep(v: real, d: real, a: real, b: real)
    ensures 0.75 * (v * b + 2.0 * d * (a - b)) + 0.25 * (d * a) == v * (0.75 * b) + 2.0 * d * (0.875 * a - 0.75 * b)
  {
    var x, y, z := d * a, d * b, v * b;
    assert 2.0 * d * (a - b) == 2.0 * x - 2.0 * y;
    assert v * (0.75 * b) == 0.75 * z;
    assert 2.0 * d * (0.875 * a - 0.75 * b) == 1.75 * x - 1.5 * y;
  }

  lemma Reassociate(r: real, x: real)
    ensures 0.75 * (r / 2.0 * x) == r / 2.0 * (0.75 * x)
    ensures 3.0 * (r / 2.0 * x) == 2.0 * r * (0.75 * x)
  {
    var y := r * x;
    assert r / 2.0 * x == y / 2.0;
    assert r / 2.0 * (0.75 * x) == 0.375 * y;
    assert 2.0 * r * (0.75 * x) == 1.5 * y;
  }
}
