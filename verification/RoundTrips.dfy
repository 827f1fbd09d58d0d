/** The variance of the round-trip-time estimator over whole round trips: it follows the largest mean deviation within a
    round trip, and decays once per round trip. */
module RoundTrips {
  import opened Arithmetic
  import opened SeqSpace
  import opened TcpTimer
  import opened TimerProofs

  predicate Positive(samples: seq<RttSample>) {
    forall i :: 0 <= i < |samples| ==> samples[i].rtt > 0
  }

  /** The estimate after the first k samples. */
  function EstimateAt(samples: seq<RttSample>, k: nat): Estimate
    requires k <= |samples|
  {
    SampledAll(NO_ESTIMATE, samples[..k])
  }

  /** The sample that began the current round trip: the first one that acknowledged past everything sent when the round
      trip before it began. */
  function RoundStart(samples: seq<RttSample>): (r: nat)
    requires samples != []
    ensures r < |samples|
  {
    var n := |samples| - 1;
    if n == 0 then 0
    else
      var r := RoundStart(samples[..n]);
      if After(samples[n].seqAcked, samples[r].seqNext) then n else r
  }

  lemma {:induction false} PositiveEstimate(samples: seq<RttSample>)
    requires Positive(samples) && samples != []
    ensures var e := SampledAll(NO_ESTIMATE, samples);
            e.srttX8 >= 8 && MIN_RTO_US <= e.maxMeanDevX4 <= e.rttVarX4
  {
    var n := |samples| - 1;
    SrttMonotone(samples, samples);
    if n > 0 {
      PositiveEstimate(samples[..n]);
    }
  }

  lemma {:induction false} RoundTracked(samples: seq<RttSample>)
    requires Positive(samples) && samples != []
    ensures SampledAll(NO_ESTIMATE, samples).nextSeq == samples[RoundStart(samples)].seqNext
  {
    var n := |samples| - 1;
    if n > 0 {
      RoundTracked(samples[..n]);
      PositiveEstimate(samples[..n]);
    } else {
      assert samples[..0] == [];
    }
  }

  // ----- one sample

  /** The smoothed value moves by an eighth of the error. The mean deviation moves by the size of the error less a
      quarter of itself, but only by an eighth of that when the delay drops and the deviation would grow. */
  lemma SampleExact(e: Estimate, s: RttSample)
    requires e.srttX8 >= 8 && s.rtt > 0
    ensures var f, error := Sampled(e, s), s.rtt - e.srttX8 / 8;
            var step := (if error < 0 then -error else error) - e.meanDevX4 / 4;
            && f.srttX8 == e.srttX8 + error
            && f.meanDevX4 == e.meanDevX4 + if error < 0 && step > 0 then step / 8 else step
  {
  }

  /** The variance and the largest deviation of the round trip follow the mean deviation upwards. A sample that ends the
      round trip takes a quarter of their difference off the variance and forgets the largest deviation. */
  lemma VarianceExact(e: Estimate, s: RttSample)
    requires e.srttX8 >= 8 && MIN_RTO_US <= e.maxMeanDevX4 <= e.rttVarX4
    ensures var f := Sampled(e, s);
            var v, m := Max(e.rttVarX4, f.meanDevX4), Max(e.maxMeanDevX4, f.meanDevX4);
            if After(s.seqAcked, e.nextSeq) then
              f.rttVarX4 == v - (v - m) / 4 && f.maxMeanDevX4 == 200_000
            else
              f.rttVarX4 == v && f.maxMeanDevX4 == m
  {
    hide MeanDevUpdate;
  }

  // ----- a round trip

  /** The largest of the floor and the mean deviations after samples from + 1 to k. */
  function Peak(samples: seq<RttSample>, from: nat, k: nat, floor: int): int
    requires k <= |samples|
  {
    if k <= from then floor
    else Max(Peak(samples, from, k - 1, floor), EstimateAt(samples, k).meanDevX4)
  }

  lemma {:induction false} PeakPrefix(samples: seq<RttSample>, from: nat, k: nat, floor: int)
    requires k < |samples|
    ensures Peak(samples[..|samples| - 1], from, k, floor) == Peak(samples, from, k, floor)
  {
    if k > from {
      PeakPrefix(samples, from, k - 1, floor);
    }
    assert samples[..|samples| - 1][..k] == samples[..k];
  }

  /** The largest deviation with which a round trip begins: the minimum, except for the first one. */
  function Floor(samples: seq<RttSample>, r: nat): int
    requires r < |samples|
  {
    if r == 0 then Max(2 * samples[0].rtt, 200_000) else 200_000
  }

  lemma LastEstimate(samples: seq<RttSample>)
    requires samples != []
    ensures var n := |samples| - 1;
            && EstimateAt(samples, |samples|) == SampledAll(NO_ESTIMATE, samples)
            && EstimateAt(samples, n) == SampledAll(NO_ESTIMATE, samples[..n])
            && SampledAll(NO_ESTIMATE, samples) == Sampled(SampledAll(NO_ESTIMATE, samples[..n]), samples[n])
  {
    assert samples[..|samples|] == samples;
  }

  lemma FirstPeak(samples: seq<RttSample>)
    requires |samples| == 1 && Positive(samples)
    ensures EstimateAt(samples, 1).maxMeanDevX4 == Floor(samples, 0)
  {
    LastEstimate(samples);
    assert samples[..0] == [];
  }

  lemma PeakStep(samples: seq<RttSample>, from: nat, k: nat, floor: int)
    requires from < k <= |samples|
    ensures Peak(samples, from, k, floor) == Max(Peak(samples, from, k - 1, floor), EstimateAt(samples, k).meanDevX4)
  {
  }

  /** What a round trip that began with sample r has collected after k samples. */
  predicate Collected(samples: seq<RttSample>, r: nat, k: nat) {
    && r < k <= |samples|
    && EstimateAt(samples, k).rttVarX4 == Peak(samples, r + 1, k, EstimateAt(samples, r + 1).rttVarX4)
    && EstimateAt(samples, k).maxMeanDevX4 == Peak(samples, r + 1, k, Floor(samples, r))
  }

  lemma CollectedPrefix(samples: seq<RttSample>, r: nat)
    requires |samples| >= 2 && Collected(samples[..|samples| - 1], r, |samples| - 1)
    ensures Collected(samples, r, |samples| - 1)
  {
    var n := |samples| - 1;
    assert samples[..n][..n] == samples[..n] && samples[..n][..r + 1] == samples[..r + 1];
    assert EstimateAt(samples[..n], n) == EstimateAt(samples, n);
    assert EstimateAt(samples[..n], r + 1) == EstimateAt(samples, r + 1);
    var v := EstimateAt(samples, r + 1).rttVarX4;
    var m := Floor(samples, r);
    hide SampledAll;
    hide EstimateAt;
    hide Peak;
    PeakPrefix(samples, r + 1, n, v);
    PeakPrefix(samples, r + 1, n, m);
  }

  /** The step of the variance, in terms of what was collected before the last sample. */
  lemma LastSample(samples: seq<RttSample>)
    requires Positive(samples) && |samples| >= 2
    ensures var n := |samples| - 1;
            var e, f := EstimateAt(samples, n), EstimateAt(samples, n + 1);
            var v, m := Max(e.rttVarX4, f.meanDevX4), Max(e.maxMeanDevX4, f.meanDevX4);
            && m <= v
            && if After(samples[n].seqAcked, samples[RoundStart(samples[..n])].seqNext) then
                 f.rttVarX4 == v - (v - m) / 4 && f.maxMeanDevX4 == 200_000
               else
                 f.rttVarX4 == v && f.maxMeanDevX4 == m
  {
    var n := |samples| - 1;
    PositiveEstimate(samples[..n]);
    RoundTracked(samples[..n]);
    LastEstimate(samples);
    hide Sampled;
    hide SampledAll;
    hide EstimateAt;
    hide RoundStart;
    VarianceExact(EstimateAt(samples, n), samples[n]);
  }

  /** Within a round trip the variance is the largest of its value at the beginning and all mean deviations since. */
  lemma {:induction false} RoundPeak(samples: seq<RttSample>)
    requires Positive(samples) && samples != []
    ensures Collected(samples, RoundStart(samples), |samples|)
  {
    var n := |samples| - 1;
    hide SampledAll;
    hide EstimateAt;
    if n == 0 {
      FirstPeak(samples);
    } else {
      RoundPeak(samples[..n]);
      var r := RoundStart(samples[..n]);
      CollectedPrefix(samples, r);
      LastSample(samples);
      if RoundStart(samples) == r {
        hide RoundStart;
        GoesOn(samples, r);
      }
    }
  }

  lemma GoesOn(samples: seq<RttSample>, r: nat)
    requires samples != [] && Collected(samples, r, |samples| - 1)
    ensures var n := |samples|;
            var e, f := EstimateAt(samples, n - 1), EstimateAt(samples, n);
            && Peak(samples, r + 1, n, EstimateAt(samples, r + 1).rttVarX4) == Max(e.rttVarX4, f.meanDevX4)
            && Peak(samples, r + 1, n, Floor(samples, r)) == Max(e.maxMeanDevX4, f.meanDevX4)
  {
    hide SampledAll;
    hide EstimateAt;
    PeakStep(samples, r + 1, |samples|, EstimateAt(samples, r + 1).rttVarX4);
    PeakStep(samples, r + 1, |samples|, Floor(samples, r));
    hide Peak;
  }

  lemma PositivePrefix(samples: seq<RttSample>)
    requires Positive(samples) && samples != []
    ensures Positive(samples[..|samples| - 1])
  {
  }

  /** The first sample that acknowledges past everything sent when the round trip began ends it: the variance decays by
      a quarter of what it exceeds the largest deviation of the round trip by. */
  lemma RoundEnds(samples: seq<RttSample>)
    requires Positive(samples) && |samples| >= 2
    requires After(samples[|samples| - 1].seqAcked, samples[RoundStart(samples[..|samples| - 1])].seqNext)
    ensures var r, n := RoundStart(samples[..|samples| - 1]), |samples|;
            var v := Peak(samples, r + 1, n, EstimateAt(samples, r + 1).rttVarX4);
            var m := Peak(samples, r + 1, n, Floor(samples, r));
            && EstimateAt(samples, n).rttVarX4 == v - (v - m) / 4 && m <= v
            && EstimateAt(samples, n).maxMeanDevX4 == 200_000
  {
    hide *;
    var r := RoundStart(samples[..|samples| - 1]);
    assert Positive(samples[..|samples| - 1]) by {
      PositivePrefix(samples);
    }
    RoundPeak(samples[..|samples| - 1]);
    CollectedPrefix(samples, r);
    LastSample(samples);
    GoesOn(samples, r);
  }
}
