/** When removing queueing delay cannot lengthen the retransmission timeout: an exact bound on the samples. */
module RtoOrder {
  import opened SeqSpace
  import opened TcpTimer
  import opened TimerProofs

  /** The largest bound on the samples below which the deviation never exceeds the minimum timeout. */
  const CALM_US: int := 90_709

  /** A convex region of smoothed value and mean deviation. Each of the first five lines bounds what one sample can
      reach from the line before it; the last two bound the way back down from a large sample. */
  predicate Calm(s: int, d: int) {
    && d <= s - 6
    && 7 * d <= 5 * s + 2 * CALM_US - 25
    && 98 * d <= 46 * s + 73 * CALM_US - 144
    && 2744 * d <= 712 * s + 3565 * CALM_US + 812
    && 76832 * d <= 6112 * s + 145585 * CALM_US + 136556
    && 4096 * (32 * d + s) <= 304953 * CALM_US + 350292
    && 16 * d + s <= 40 * CALM_US + 60
  }

  predicate InRange(s: int, d: int) {
    8 <= s <= 8 * CALM_US + 7 && 0 <= d && Calm(s, d)
  }

  lemma CalmPeak(s: int, d: int)
    requires Calm(s, d)
    ensures d <= MIN_RTO_US
  {
  }

  lemma CalmStart(x: int)
    requires 1 <= x <= CALM_US
    ensures InRange(8 * x, 2 * x)
  {
  }

  function NextDev(s: int, d: int, x: int): int {
    d + MeanDevUpdate(x - s / 8, d)
  }

  lemma CalmUp(s: int, d: int, x: int)
    requires InRange(s, d) && s / 8 <= x <= CALM_US
    ensures Calm(s + x - s / 8, NextDev(s, d, x))
  {
  }

  lemma CalmDown(s: int, d: int, x: int)
    requires InRange(s, d) && 1 <= x < s / 8 && s / 8 - x <= d / 4
    ensures Calm(s + x - s / 8, NextDev(s, d, x))
  {
  }

  lemma CalmFarDown(s: int, d: int, x: int)
    requires InRange(s, d) && 1 <= x < s / 8 && s / 8 - x > d / 4
    ensures Calm(s + x - s / 8, NextDev(s, d, x))
  {
  }

  /** One more sample stays in the region. */
  lemma CalmStep(s: int, d: int, x: int)
    requires InRange(s, d) && 1 <= x <= CALM_US
    ensures InRange(s + x - s / 8, NextDev(s, d, x))
  {
    hide Calm;
    if s / 8 <= x {
      CalmUp(s, d, x);
    } else if s / 8 - x <= d / 4 {
      CalmDown(s, d, x);
    } else {
      CalmFarDown(s, d, x);
    }
  }

  /** The estimate of samples that stay within the bound: no deviation ever rises above the minimum. */
  predicate Quiet(e: Estimate) {
    InRange(e.srttX8, e.meanDevX4) && e.rttVarX4 == MIN_RTO_US && e.maxMeanDevX4 == MIN_RTO_US
  }

  lemma QuietShape(e: Estimate, s: RttSample)
    requires e.srttX8 != 0 && e.rttVarX4 == MIN_RTO_US && e.maxMeanDevX4 == MIN_RTO_US
    requires NextDev(e.srttX8, e.meanDevX4, s.rtt) <= MIN_RTO_US
    ensures var r := Sampled(e, s);
            && r.srttX8 == e.srttX8 + s.rtt - e.srttX8 / 8 && r.meanDevX4 == NextDev(e.srttX8, e.meanDevX4, s.rtt)
            && r.rttVarX4 == MIN_RTO_US && r.maxMeanDevX4 == MIN_RTO_US
  {
    hide MeanDevUpdate;
    hide After;
  }

  lemma QuietStep(e: Estimate, s: RttSample)
    requires Quiet(e) && 1 <= s.rtt <= CALM_US
    ensures Quiet(Sampled(e, s))
  {
    hide Calm;
    hide Sampled;
    hide NextDev;
    CalmStep(e.srttX8, e.meanDevX4, s.rtt);
    CalmPeak(e.srttX8 + s.rtt - e.srttX8 / 8, NextDev(e.srttX8, e.meanDevX4, s.rtt));
    QuietShape(e, s);
  }

  lemma {:induction false} QuietRun(samples: seq<RttSample>)
    requires SamplesIn(samples, 1, CALM_US) && samples != []
    ensures Quiet(SampledAll(NO_ESTIMATE, samples))
  {
    var n := |samples| - 1;
    if n > 0 {
      QuietRun(samples[..n]);
      hide Quiet;
      hide Sampled;
      QuietStep(SampledAll(NO_ESTIMATE, samples[..n]), samples[n]);
    } else {
      CalmStart(samples[0].rtt);
      hide Calm;
    }
  }

  /** With queue-free samples up to the bound, a smoothed value that is no larger gives a timeout that is no larger,
      whatever the observed samples were. */
  lemma QuietRtoNoLonger(q: seq<RttSample>, o: seq<RttSample>, high: int)
    requires SamplesIn(q, 1, CALM_US) && SamplesIn(o, 1, high) && 1 <= high <= MAX_RTT_US && o != []
    requires SampledAll(NO_ESTIMATE, q).srttX8 <= SampledAll(NO_ESTIMATE, o).srttX8
    ensures Rto(SampledAll(NO_ESTIMATE, q), 0) <= Rto(SampledAll(NO_ESTIMATE, o), 0)
  {
    EstimateBounds(o, 1, high);
    RtoExact(SampledAll(NO_ESTIMATE, o), 1, high);
    if q != [] {
      QuietRun(q);
      EstimateBounds(q, 1, CALM_US);
      RtoExact(SampledAll(NO_ESTIMATE, q), 1, CALM_US);
      hide Calm;
    }
  }

  /** Whatever is taken off the samples, the timeout does not grow, as long as none of the remaining ones exceeds the
      bound. */
  ghost predicate NeverLonger(bound: int) {
    forall q, o :: NoSlower(q, o) && SamplesIn(q, 1, bound) && SamplesIn(o, 1, MAX_RTT_US) ==>
      Rto(SampledAll(NO_ESTIMATE, q), 0) <= Rto(SampledAll(NO_ESTIMATE, o), 0)
  }

  lemma CalmNeverLonger()
    ensures NeverLonger(CALM_US)
  {
    forall q, o | NoSlower(q, o) && SamplesIn(q, 1, CALM_US) && SamplesIn(o, 1, MAX_RTT_US)
      ensures Rto(SampledAll(NO_ESTIMATE, q), 0) <= Rto(SampledAll(NO_ESTIMATE, o), 0)
    {
      SrttMonotone(q, o);
      if o != [] {
        QuietRtoNoLonger(q, o, MAX_RTT_US);
      }
    }
  }

  // ----- the bound is the best possible

  function Times(s: RttSample, k: nat): (r: seq<RttSample>)
    ensures |r| == k && forall i :: 0 <= i < k ==> r[i] == s
  {
    seq(k, _ => s)
  }

  function Repeated(e: Estimate, s: RttSample, k: nat): Estimate {
    if k == 0 then e else Sampled(Repeated(e, s, k - 1), s)
  }

  lemma {:induction false} SampledTimes(first: RttSample, s: RttSample, k: nat)
    requires first.rtt > 0
    ensures SampledAll(NO_ESTIMATE, [first] + Times(s, k)) == Repeated(FirstEstimate(first), s, k)
  {
    var all := [first] + Times(s, k);
    if k == 0 {
      assert all == [first] && all[..0] == [];
    } else {
      assert all[..k] == [first] + Times(s, k - 1);
      SampledTimes(first, s, k - 1);
    }
  }

  /** A sample one microsecond past the bound. */
  const PAST := RttSample(1, CALM_US + 1, 2, 10)

  /** Seven such samples after one of 1 us push the deviation past the minimum. */
  lemma FromOne()
    ensures Repeated(FirstEstimate(RttSample(0, 1, 1, 10)), PAST, 7)
         == Estimate(440_713, 200_001, 188_106, 200_001, 10)
  {
    var e := FirstEstimate(RttSample(0, 1, 1, 10));
    assert Repeated(e, PAST, 1) == Estimate(90_717, 200_000, 90_711, 200_000, 10);
    assert Repeated(e, PAST, 2) == Estimate(170_088, 200_000, 147_405, 200_000, 10);
    assert Repeated(e, PAST, 3) == Estimate(239_537, 200_000, 180_003, 200_000, 10);
    assert Repeated(e, PAST, 4) == Estimate(300_305, 200_000, 195_771, 200_000, 10);
    assert Repeated(e, PAST, 5) == Estimate(353_477, 200_001, 200_001, 200_001, 10);
    assert Repeated(e, PAST, 6) == Estimate(400_003, 200_001, 196_527, 200_001, 10);
    assert Repeated(e, PAST, 7) == Estimate(440_713, 200_001, 188_106, 200_001, 10);
  }

  /** After one of 2 us they do not. */
  lemma FromTwo()
    ensures Repeated(FirstEstimate(RttSample(0, 2, 1, 10)), PAST, 7)
         == Estimate(440_717, 200_000, 188_103, 200_000, 10)
  {
    var e := FirstEstimate(RttSample(0, 2, 1, 10));
    assert Repeated(e, PAST, 1) == Estimate(90_724, 200_000, 90_711, 200_000, 10);
    assert Repeated(e, PAST, 2) == Estimate(170_094, 200_000, 147_404, 200_000, 10);
    assert Repeated(e, PAST, 3) == Estimate(239_543, 200_000, 180_002, 200_000, 10);
    assert Repeated(e, PAST, 4) == Estimate(300_311, 200_000, 195_770, 200_000, 10);
    assert Repeated(e, PAST, 5) == Estimate(353_483, 200_000, 200_000, 200_000, 10);
    assert Repeated(e, PAST, 6) == Estimate(400_008, 200_000, 196_525, 200_000, 10);
    assert Repeated(e, PAST, 7) == Estimate(440_717, 200_000, 188_103, 200_000, 10);
  }

  function PastRun(first: int): seq<RttSample> {
    [RttSample(0, first, 1, 10)] + Times(PAST, 7)
  }

  /** The smaller samples give the longer timeout. */
  lemma PastTheBound()
    ensures Rto(SampledAll(NO_ESTIMATE, PastRun(1)), 0) == 255_090
    ensures Rto(SampledAll(NO_ESTIMATE, PastRun(2)), 0) == 255_089
  {
    hide SampledAll;
    hide Repeated;
    hide FirstEstimate;
    hide Times;
    SampledTimes(RttSample(0, 1, 1, 10), PAST, 7);
    SampledTimes(RttSample(0, 2, 1, 10), PAST, 7);
    FromOne();
    FromTwo();
  }

  /** Removing queueing delay never lengthens the timeout exactly for bounds up to this one. */
  lemma NeverLongerIff(bound: int)
    requires 1 <= bound <= MAX_RTT_US
    ensures NeverLonger(bound) <==> bound <= CALM_US
  {
    hide SampledAll;
    hide Rto;
    if bound <= CALM_US {
      CalmNeverLonger();
      SmallerBound(bound);
    } else {
      PastTheBound();
      assert NoSlower(PastRun(1), PastRun(2));
    }
  }

  lemma SmallerBound(bound: int)
    requires NeverLonger(CALM_US) && bound <= CALM_US
    ensures NeverLonger(bound)
  {
    hide SampledAll;
    hide Rto;
    forall q, o | NoSlower(q, o) && SamplesIn(q, 1, bound) && SamplesIn(o, 1, MAX_RTT_US)
      ensures Rto(SampledAll(NO_ESTIMATE, q), 0) <= Rto(SampledAll(NO_ESTIMATE, o), 0)
    {
      assert SamplesIn(q, 1, CALM_US);
    }
  }
}
