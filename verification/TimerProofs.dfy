/** Bounds, overflow freedom, convergence and monotonicity of the round-trip-time estimator. */
module TimerProofs {
  import opened Arithmetic
  import opened SeqSpace
  import opened TcpTimer

  /** The largest sample, in microseconds, for which the scaled arithmetic fits in 32 bits. */
  const MAX_RTT_US: int := 0xFFF_FFFF

  predicate SamplesIn(samples: seq<RttSample>, low: int, high: int) {
    forall i :: 0 <= i < |samples| ==> low <= samples[i].rtt <= high
  }

  /** What every estimate built from samples in [low, high] satisfies. */
  predicate Bounded(e: Estimate, low: int, high: int) {
    && low <= e.srttX8 / 8 <= high
    && 0 <= e.meanDevX4 <= 4 * high
    && e.meanDevX4 <= e.rttVarX4
    && MIN_RTO_US <= e.maxMeanDevX4 <= e.rttVarX4 <= Max(MIN_RTO_US, 4 * high)
  }

  // ----- bounds over every run

  /** A geometric average stays between the bounds of its inputs, in the scaled representation. */
  lemma SmoothedBounds(e: Estimate, s: RttSample, low: int, high: int)
    requires 1 <= low <= high && Bounded(e, low, high) && low <= s.rtt <= high
    ensures Bounded(Smoothed(e, s), low, high)
  {
    var error := s.rtt - e.srttX8 / 8;
    assert 0 <= e.meanDevX4 + MeanDevUpdate(error, e.meanDevX4) <= 4 * high;
  }

  lemma SampledBounds(e: Estimate, s: RttSample, low: int, high: int)
    requires 1 <= low <= high && low <= s.rtt <= high
    requires e.srttX8 == 0 || Bounded(e, low, high)
    ensures Bounded(Sampled(e, s), low, high)
  {
    if e.srttX8 != 0 {
      SmoothedBounds(e, s, low, high);
    }
  }

  /** After any positive number of samples in [low, high] the estimate is bounded by them. */
  lemma {:induction false} EstimateBounds(samples: seq<RttSample>, low: int, high: int)
    requires 1 <= low <= high && SamplesIn(samples, low, high) && samples != []
    ensures Bounded(SampledAll(NO_ESTIMATE, samples), low, high)
  {
    var n := |samples| - 1;
    if n > 0 {
      EstimateBounds(samples[..n], low, high);
    }
    SampledBounds(SampledAll(NO_ESTIMATE, samples[..n]), samples[n], low, high);
  }

  predicate Int32(x: int) {
    -0x8000_0000 <= x <= 0x7FFF_FFFF
  }

  /** No intermediate value of AddSample leaves the 32-bit signed range. */
  lemma SampleDoesNotOverflow(e: Estimate, s: RttSample, low: int, high: int)
    requires 1 <= low <= high <= MAX_RTT_US && low <= s.rtt <= high
    requires e.srttX8 == 0 || Bounded(e, low, high)
    ensures Int32(8 * s.rtt) && Int32(2 * s.rtt)
    ensures var error := s.rtt - e.srttX8 / 8;
            e.srttX8 != 0 ==>
              && Int32(error) && Int32(-error) && Int32(e.srttX8 + error)
              && Int32(-error - e.meanDevX4 / 4) && Int32(error - e.meanDevX4 / 4)
              && Int32(e.meanDevX4 + MeanDevUpdate(error, e.meanDevX4))
              && Int32(e.rttVarX4 - e.maxMeanDevX4)
    ensures var r := Sampled(e, s);
            Int32(r.srttX8) && Int32(r.meanDevX4) && Int32(r.rttVarX4) && Int32(r.maxMeanDevX4)
  {
    SampledBounds(e, s, low, high);
  }

  /** The threshold is tight: one sample more and the scaled value no longer fits. */
  lemma OverflowThreshold()
    ensures Int32(FirstEstimate(RttSample(0, MAX_RTT_US, 0, 0)).srttX8)
    ensures !Int32(FirstEstimate(RttSample(0, MAX_RTT_US + 1, 0, 0)).srttX8)
  {
  }

  // ----- timeouts

  /** The timeout of every estimate: 200 ms before the first sample, then the smoothed value plus the variance, which
      counts at least as the clock granularity of 1 ms (rule 2.3 of RFC 6298). */
  lemma TimeoutFormula(e: Estimate)
    ensures Rto(e, 0) == if e.srttX8 == 0 then 200_000 else (e.srttX8 / 8 + Max(e.rttVarX4, 1_000)) % 0x1_0000_0000
  {
  }

  /** Once there is a sample, the clock-granularity branch of GetRTO is never taken and nothing wraps. */
  lemma RtoExact(e: Estimate, low: int, high: int)
    requires 1 <= low <= high <= MAX_RTT_US && Bounded(e, low, high)
    ensures CLOCK_GRANULARITY_US <= e.rttVarX4
    ensures Rto(e, 0) == e.srttX8 / 8 + e.rttVarX4 >= low + MIN_RTO_US
    ensures Rto(e, 0) < 0x8000_0000
  {
  }

  lemma ProbeExact(e: Estimate, low: int, high: int, delayedAck: bool)
    requires 1 <= low <= high <= MAX_RTT_US && Bounded(e, low, high)
    ensures var rtt := e.srttX8 / 8;
            var probe := if delayedAck then Max(2 * rtt, rtt + rtt / 2 + 200_000) else 2 * rtt;
            Tlp(e, delayedAck) == Min(probe, Rto(e, 0))
  {
    var rtt := e.srttX8 / 8;
    assert Wrap(rtt) == rtt && Wrap(2 * rtt) == 2 * rtt;
    assert Wrap(rtt + rtt / 2 + MAX_DELAYED_ACK_US) == rtt + rtt / 2 + MAX_DELAYED_ACK_US;
    hide Rto;
    hide Wrap;
  }

  /** The probe timeouts are ordered and never exceed the retransmission timeout. */
  lemma TimeoutOrder(e: Estimate, low: int, high: int)
    requires 1 <= low <= high <= MAX_RTT_US && Bounded(e, low, high)
    ensures Tlp(e, false) <= Tlp(e, true) <= Rto(e, 0)
    ensures Tlp(e, false) == Min(2 * (e.srttX8 / 8), Rto(e, 0))
  {
    ProbeExact(e, low, high, false);
    ProbeExact(e, low, high, true);
    hide Tlp;
    hide Rto;
    hide Bounded;
  }

  function Pow2(n: nat): (p: nat)
    ensures p >= 1
  {
    if n == 0 then 1 else 2 * Pow2(n - 1)
  }

  lemma {:induction false} BackoffBelowWrap(rto: u32, n: nat)
    requires rto < 0x8000_0000 && n >= 1
    ensures Backoff(rto, n) == Min(Pow2(n) * rto, MAX_RTO_US)
    decreases n
  {
    hide Pow2;
    assert Wrap(2 * rto) == 2 * rto;
    if 2 * rto > MAX_RTO_US {
      GrowsBy(rto, n);
    } else {
      DoubleOnce(rto, n);
      if n > 1 {
        BackoffBelowWrap(2 * rto, n - 1);
      }
    }
  }

  lemma DoubleOnce(rto: int, n: nat)
    requires n >= 1
    ensures Pow2(n) * rto == Pow2(n - 1) * (2 * rto)
    ensures n == 1 ==> Pow2(n) * rto == 2 * rto
  {
  }

  lemma GrowsBy(rto: int, n: nat)
    requires rto >= 0 && n >= 1
    ensures Pow2(n) * rto >= 2 * rto
  {
    DoubleOnce(rto, n);
  }

  /** Exponential backoff with a cap, for every timeout an estimate can produce. */
  lemma BackoffExact(e: Estimate, low: int, high: int, n: nat)
    requires 1 <= low <= high <= MAX_RTT_US && Bounded(e, low, high) && n >= 1
    ensures Rto(e, n) == Min(Pow2(n) * Rto(e, 0), MAX_RTO_US)
  {
    RtoExact(e, low, high);
    BackoffBelowWrap(Rto(e, 0), n);
  }

  /** When the 32-bit doubling agrees with a capped power of two, for all arguments. The cap is not applied
      without backoff, and the first doubling drops the top bit. */
  lemma BackoffExactIff(rto: u32, n: nat)
    ensures Backoff(rto, n) == Min(Pow2(n) * rto, MAX_RTO_US) <==>
            if n == 0 then rto <= MAX_RTO_US
            else rto < 0x8000_0000 || Pow2(n - 1) * (2 * rto - 0x1_0000_0000) >= MAX_RTO_US
  {
    if n >= 1 && rto < 0x8000_0000 {
      BackoffBelowWrap(rto, n);
    } else if n >= 1 {
      GrowsBy(rto, n);
      var dropped := 2 * rto - 0x1_0000_0000;
      assert Wrap(2 * rto) == dropped;
      if dropped > MAX_RTO_US {
        assert dropped <= Pow2(n - 1) * dropped;
      } else if n > 1 {
        BackoffBelowWrap(dropped, n - 1);
      }
    }
  }

  // ----- convergence

  /** Samples that all measure r and each acknowledge past the current round trip. */
  predicate Steady(e: Estimate, samples: seq<RttSample>, r: int) {
    samples == [] ||
    (var n := |samples| - 1;
     && Steady(e, samples[..n], r)
     && samples[n].rtt == r
     && After(samples[n].seqAcked, SampledAll(e, samples[..n]).nextSeq))
  }

  /** Distance of the scaled smoothed value from the ones that denote r. */
  function SrttGap(e: Estimate, r: int): nat {
    if e.srttX8 < 8 * r then 8 * r - e.srttX8
    else if e.srttX8 > 8 * r + 7 then e.srttX8 - (8 * r + 7)
    else 0
  }

  function DevGap(e: Estimate): nat {
    Max(e.meanDevX4 - 3, 0)
  }

  function VarGap(e: Estimate): nat {
    Max(e.rttVarX4 - (MIN_RTO_US + 3), 0)
  }

  /** One more sample r closes the smoothed value's gap by at least one and never overshoots. */
  lemma SrttStep(e: Estimate, s: RttSample)
    requires e.srttX8 != 0
    ensures SrttGap(Sampled(e, s), s.rtt) <= Max(SrttGap(e, s.rtt) - 1, 0)
  {
  }

  lemma DevStep(e: Estimate, s: RttSample)
    requires e.srttX8 != 0 && e.meanDevX4 >= 0 && SrttGap(e, s.rtt) == 0
    ensures 0 <= Sampled(e, s).meanDevX4 && DevGap(Sampled(e, s)) <= Max(DevGap(e) - 1, 0)
  {
  }

  lemma VarStep(e: Estimate, s: RttSample)
    requires e.srttX8 != 0 && 0 <= e.meanDevX4 && SrttGap(e, s.rtt) == 0 && DevGap(e) == 0
    requires e.maxMeanDevX4 == MIN_RTO_US <= e.rttVarX4 && After(s.seqAcked, e.nextSeq)
    ensures Sampled(e, s).maxMeanDevX4 == MIN_RTO_US <= Sampled(e, s).rttVarX4
    ensures VarGap(Sampled(e, s)) <= Max(VarGap(e) - 1, 0)
  {
  }

  predicate Reached(e: Estimate, r: int, high: int) {
    1 <= r <= high && Bounded(e, 1, high)
  }

  lemma {:induction false} SteadyKeeps(e: Estimate, samples: seq<RttSample>, r: int, high: int)
    requires Reached(e, r, high) && Steady(e, samples, r)
    ensures Reached(SampledAll(e, samples), r, high)
    ensures samples != [] ==> SampledAll(e, samples).maxMeanDevX4 == MIN_RTO_US
  {
    if samples != [] {
      var n := |samples| - 1;
      SteadyKeeps(e, samples[..n], r, high);
      SampledBounds(SampledAll(e, samples[..n]), samples[n], 1, high);
    }
  }

  lemma {:induction false} SampledAllConcat(e: Estimate, a: seq<RttSample>, b: seq<RttSample>, r: int)
    requires Steady(e, a + b, r)
    ensures SampledAll(e, a + b) == SampledAll(SampledAll(e, a), b)
    ensures Steady(e, a, r) && Steady(SampledAll(e, a), b, r)
    decreases |b|
  {
    if b == [] {
      assert a + b == a;
    } else {
      assert (a + b)[..|a + b| - 1] == a + b[..|b| - 1];
      SampledAllConcat(e, a, b[..|b| - 1], r);
    }
  }

  lemma {:induction false} SrttPhase(e: Estimate, samples: seq<RttSample>, r: int, high: int)
    requires Reached(e, r, high) && Steady(e, samples, r)
    ensures SrttGap(SampledAll(e, samples), r) <= Max(SrttGap(e, r) - |samples|, 0)
  {
    if samples != [] {
      var n := |samples| - 1;
      SrttPhase(e, samples[..n], r, high);
      SteadyKeeps(e, samples[..n], r, high);
      SrttStep(SampledAll(e, samples[..n]), samples[n]);
    }
  }

  lemma {:induction false} DevPhase(e: Estimate, samples: seq<RttSample>, r: int, high: int)
    requires Reached(e, r, high) && Steady(e, samples, r) && SrttGap(e, r) == 0
    ensures DevGap(SampledAll(e, samples)) <= Max(DevGap(e) - |samples|, 0)
  {
    if samples != [] {
      var n := |samples| - 1;
      DevPhase(e, samples[..n], r, high);
      SteadyKeeps(e, samples[..n], r, high);
      SrttPhase(e, samples[..n], r, high);
      DevStep(SampledAll(e, samples[..n]), samples[n]);
    }
  }

  lemma {:induction false} VarPhase(e: Estimate, samples: seq<RttSample>, r: int, high: int)
    requires Reached(e, r, high) && Steady(e, samples, r)
    requires SrttGap(e, r) == 0 && DevGap(e) == 0 && e.maxMeanDevX4 == MIN_RTO_US
    ensures VarGap(SampledAll(e, samples)) <= Max(VarGap(e) - |samples|, 0)
  {
    if samples != [] {
      var n := |samples| - 1;
      VarPhase(e, samples[..n], r, high);
      SteadyKeeps(e, samples[..n], r, high);
      SrttPhase(e, samples[..n], r, high);
      DevPhase(e, samples[..n], r, high);
      VarStep(SampledAll(e, samples[..n]), samples[n]);
    }
  }

  /** A number of steady samples that is always enough. */
  function Enough(high: int): nat
    requires high >= 1
  {
    8 * high + 4 * high + Max(MIN_RTO_US, 4 * high)
  }

  lemma GapBounds(e: Estimate, r: int, high: int)
    requires Reached(e, r, high)
    ensures SrttGap(e, r) <= 8 * high && DevGap(e) <= 4 * high && VarGap(e) <= Max(MIN_RTO_US, 4 * high)
  {
  }

  lemma GapsClosed(e: Estimate, r: int, high: int)
    requires Reached(e, r, high) && high <= MAX_RTT_US
    requires SrttGap(e, r) == 0 && VarGap(e) == 0
    ensures e.srttX8 / 8 == r && r + MIN_RTO_US <= Rto(e, 0) <= r + MIN_RTO_US + 3
  {
    RtoExact(e, 1, high);
  }

  /** The second and third phase: the smoothed value is already exact. */
  lemma SettledConverges(e: Estimate, samples: seq<RttSample>, r: int, high: int)
    requires Reached(e, r, high) && Steady(e, samples, r) && SrttGap(e, r) == 0
    requires |samples| >= 4 * high + Max(MIN_RTO_US, 4 * high)
    ensures Reached(SampledAll(e, samples), r, high)
    ensures SrttGap(SampledAll(e, samples), r) == 0 && VarGap(SampledAll(e, samples)) == 0
  {
    hide Sampled;
    hide Bounded;
    var b, c := samples[..4 * high], samples[4 * high..];
    assert samples == b + c;
    SampledAllConcat(e, b, c, r);
    var middle := SampledAll(e, b);
    GapBounds(e, r, high);
    DevPhase(e, b, r, high);
    SrttPhase(e, b, r, high);
    SteadyKeeps(e, b, r, high);
    GapBounds(middle, r, high);
    VarPhase(middle, c, r, high);
    SrttPhase(middle, c, r, high);
    SteadyKeeps(middle, c, r, high);
  }

  /** From every reachable estimate, enough steady samples bring the smoothed value to r exactly and the
      timeout to within 3 us of r plus the minimum. */
  lemma Converges(e: Estimate, samples: seq<RttSample>, r: int, high: int)
    requires Reached(e, r, high) && high <= MAX_RTT_US
    requires Steady(e, samples, r) && |samples| >= Enough(high)
    ensures SampledAll(e, samples).srttX8 / 8 == r
    ensures r + MIN_RTO_US <= Rto(SampledAll(e, samples), 0) <= r + MIN_RTO_US + 3
  {
    hide Sampled;
    hide Bounded;
    var a, rest := samples[..8 * high], samples[8 * high..];
    assert samples == a + rest;
    SampledAllConcat(e, a, rest, r);
    GapBounds(e, r, high);
    SrttPhase(e, a, r, high);
    SteadyKeeps(e, a, r, high);
    SettledConverges(SampledAll(e, a), rest, r, high);
    GapsClosed(SampledAll(e, samples), r, high);
  }

  // ----- two runs side by side

  /** Sample by sample, the first list is positive and no larger than the second. */
  predicate NoSlower(q: seq<RttSample>, o: seq<RttSample>) {
    |q| == |o| && forall i :: 0 <= i < |q| ==> 0 < q[i].rtt <= o[i].rtt
  }

  /** Smaller samples never give a larger smoothed round-trip time. */
  lemma {:induction false} SrttMonotone(q: seq<RttSample>, o: seq<RttSample>)
    requires NoSlower(q, o)
    ensures q != [] ==> 8 <= SampledAll(NO_ESTIMATE, q).srttX8
    ensures SampledAll(NO_ESTIMATE, q).srttX8 <= SampledAll(NO_ESTIMATE, o).srttX8
  {
    if q != [] {
      var n := |q| - 1;
      SrttMonotone(q[..n], o[..n]);
    }
  }

  /** The probe timeout follows as long as twice the smaller smoothed value is within the larger run's timeout;
      a smoothed value up to 200 ms always is. */
  lemma TlpMonotone(q: seq<RttSample>, o: seq<RttSample>, high: int)
    requires NoSlower(q, o) && q != [] && SamplesIn(o, 1, high) && 1 <= high <= MAX_RTT_US
    ensures var eq, eo := SampledAll(NO_ESTIMATE, q), SampledAll(NO_ESTIMATE, o);
            && (2 * (eq.srttX8 / 8) <= Rto(eo, 0) ==> Tlp(eq, false) <= Tlp(eo, false))
            && (eq.srttX8 / 8 <= MIN_RTO_US ==> 2 * (eq.srttX8 / 8) <= Rto(eo, 0))
  {
    SrttMonotone(q, o);
    EstimateBounds(q, 1, high);
    EstimateBounds(o, 1, high);
    TimeoutOrder(SampledAll(NO_ESTIMATE, q), 1, high);
    TimeoutOrder(SampledAll(NO_ESTIMATE, o), 1, high);
    RtoExact(SampledAll(NO_ESTIMATE, o), 1, high);
  }

  lemma SampledThrice(a: RttSample, b: RttSample, c: RttSample)
    requires a.rtt > 0
    ensures SampledAll(NO_ESTIMATE, [a, b, c]) == Sampled(Sampled(FirstEstimate(a), b), c)
  {
    hide FirstEstimate;
    assert [a, b, c][..2] == [a, b] && [a, b][..1] == [a] && [a][..0] == [];
    assert SampledAll(NO_ESTIMATE, [a]) == Sampled(NO_ESTIMATE, a);
    assert SampledAll(NO_ESTIMATE, [a, b]) == Sampled(SampledAll(NO_ESTIMATE, [a]), b);
  }
}
