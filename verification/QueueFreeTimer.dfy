/** The timer recomputed without queueing delay, and how its estimates compare with the connection's. */
module QueueFreeTimer {
  import opened SeqSpace
  import opened TcpTimer
  import opened EndpointModel
  import opened EndpointInvariants
  import opened TimerProofs
  import opened RtoOrder

  // ----- the recomputed samples

  /** The samples with the estimated queueing delay of their packet taken off; a sample that would not stay positive
      is dropped. */
  function QueueFree(samples: seq<RttSample>, queueing: nat -> u32): seq<RttSample> {
    if samples == [] then []
    else
      var n := |samples| - 1;
      QueueFree(samples[..n], queueing)
      + if samples[n].rtt > Signed(queueing(samples[n].packet)) then
          [samples[n].(rtt := samples[n].rtt - Signed(queueing(samples[n].packet)))]
        else []
  }

  /** The samples at these positions remain, in order, each with the queueing delay of its packet taken off. */
  ghost predicate Remain(samples: seq<RttSample>, queueing: nat -> u32, rest: seq<RttSample>, positions: seq<nat>) {
    && |rest| == |positions|
    && (forall j, k :: 0 <= j < k < |positions| ==> positions[j] < positions[k])
    && (forall i: nat :: i in positions <==>
          i < |samples| && samples[i].rtt - Signed(queueing(samples[i].packet)) > 0)
    && forall k :: 0 <= k < |rest| && positions[k] < |samples| ==>
         var s := samples[positions[k]];
         rest[k] == RttSample(s.packet, s.rtt - Signed(queueing(s.packet)), s.seqAcked, s.seqNext)
  }

  lemma RemainSnoc(samples: seq<RttSample>, queueing: nat -> u32, rest: seq<RttSample>, positions: seq<nat>,
                   s: RttSample)
    requires Remain(samples, queueing, rest, positions)
    ensures var left := s.rtt - Signed(queueing(s.packet));
            if left > 0 then
              Remain(samples + [s], queueing, rest + [RttSample(s.packet, left, s.seqAcked, s.seqNext)],
                     positions + [|samples|])
            else Remain(samples + [s], queueing, rest, positions)
  {
    hide Signed;
    assert forall k :: 0 <= k < |positions| ==> positions[k] in positions;
  }

  lemma QueueFreeSnoc(samples: seq<RttSample>, queueing: nat -> u32, s: RttSample)
    ensures var left := s.rtt - Signed(queueing(s.packet));
            QueueFree(samples + [s], queueing)
            == if left > 0 then QueueFree(samples, queueing) + [RttSample(s.packet, left, s.seqAcked, s.seqNext)]
               else QueueFree(samples, queueing)
  {
    assert (samples + [s])[..|samples|] == samples;
  }

  lemma NoneRemain(queueing: nat -> u32)
    ensures Remain([], queueing, QueueFree([], queueing), [])
  {
  }

  /** Exactly the samples that stay positive without their queueing delay remain, in order, and nothing but the measured
      time changes. */
  lemma {:induction false} QueueFreeExact(samples: seq<RttSample>, queueing: nat -> u32)
    ensures exists positions :: Remain(samples, queueing, QueueFree(samples, queueing), positions)
  {
    hide *;
    if samples == [] {
      NoneRemain(queueing);
    } else {
      var n := |samples| - 1;
      QueueFreeExact(samples[..n], queueing);
      var positions :| Remain(samples[..n], queueing, QueueFree(samples[..n], queueing), positions);
      RemainSnoc(samples[..n], queueing, QueueFree(samples[..n], queueing), positions, samples[n]);
      QueueFreeSnoc(samples[..n], queueing, samples[n]);
      assert samples == samples[..n] + [samples[n]];
    }
  }

  predicate FilteredAt(s: RttSample, delay: int, kept: int, dropped: int) {
    0 <= delay && 0 < s.rtt && if s.rtt > delay then s.rtt - delay <= kept else s.rtt >= dropped
  }

  /** What remains of each sample is at most `kept`, and every dropped sample is at least `dropped`. */
  predicate Filtered(samples: seq<RttSample>, queueing: nat -> u32, kept: int, dropped: int) {
    forall i :: 0 <= i < |samples| ==> FilteredAt(samples[i], Signed(queueing(samples[i].packet)), kept, dropped)
  }

  lemma {:induction false} QueueFreeIn(samples: seq<RttSample>, queueing: nat -> u32, kept: int, dropped: int)
    requires Filtered(samples, queueing, kept, dropped)
    ensures SamplesIn(QueueFree(samples, queueing), 1, kept)
  {
    if samples != [] {
      var n := |samples| - 1;
      FilteredPrefix(samples, queueing, kept, dropped);
      QueueFreeIn(samples[..n], queueing, kept, dropped);
      hide Signed;
      assert FilteredAt(samples[n], Signed(queueing(samples[n].packet)), kept, dropped);
    }
  }

  lemma FilteredPrefix(samples: seq<RttSample>, queueing: nat -> u32, kept: int, dropped: int)
    requires samples != [] && Filtered(samples, queueing, kept, dropped)
    ensures Filtered(samples[..|samples| - 1], queueing, kept, dropped)
  {
    hide FilteredAt;
    hide Signed;
  }

  // ----- the smoothed value

  lemma SmoothedMonotone(q: Estimate, o: Estimate, s: RttSample, t: RttSample)
    requires q.srttX8 <= o.srttX8 && 8 <= q.srttX8 && 0 < s.rtt <= t.rtt
    ensures 8 <= Sampled(q, s).srttX8 <= Sampled(o, t).srttX8
  {
    hide MeanDevUpdate;
    hide After;
  }

  lemma DropMonotone(q: Estimate, o: Estimate, t: RttSample)
    requires 8 <= q.srttX8 <= o.srttX8 && q.srttX8 / 8 <= t.rtt
    ensures q.srttX8 <= Sampled(o, t).srttX8
  {
    hide MeanDevUpdate;
    hide After;
  }

  /** One sample more or less: leaving it out gives the larger smoothed value exactly when it is below the current
      one. */
  lemma DropRaisesIff(e: Estimate, s: RttSample)
    requires e.srttX8 != 0
    ensures e.srttX8 > Sampled(e, s).srttX8 <==> s.rtt < e.srttX8 / 8
  {
    hide MeanDevUpdate;
    hide After;
  }

  lemma FirstKept(o: Estimate, s: RttSample, t: RttSample, bound: int)
    requires 0 < s.rtt <= t.rtt && s.rtt <= bound && (o.srttX8 == 0 || 8 * bound <= o.srttX8)
    ensures 8 <= Sampled(NO_ESTIMATE, s).srttX8 <= Sampled(o, t).srttX8
  {
    hide MeanDevUpdate;
    hide After;
  }

  lemma StaysAbove(o: Estimate, t: RttSample, bound: int)
    requires 0 < bound <= t.rtt && (o.srttX8 == 0 || 8 * bound <= o.srttX8)
    ensures 8 * bound <= Sampled(o, t).srttX8
  {
    hide MeanDevUpdate;
    hide After;
  }

  /** How the two smoothed values compare after the same samples. Before the first kept sample, all were dropped, and
      were large. */
  predicate Compared(q: Estimate, o: Estimate, bound: int) {
    && (q.srttX8 == 0 || 8 <= q.srttX8) && q.srttX8 / 8 <= bound && q.srttX8 <= o.srttX8
    && (q.srttX8 == 0 ==> q == NO_ESTIMATE && (o.srttX8 == 0 || 8 * bound <= o.srttX8))
  }

  lemma KeptCompared(q: Estimate, o: Estimate, s: RttSample, t: RttSample, bound: int)
    requires Compared(q, o, bound) && 0 < s.rtt <= t.rtt && s.rtt <= bound
    ensures q.srttX8 == 0 || Sampled(q, s).srttX8 / 8 <= bound
    ensures Compared(Sampled(q, s), Sampled(o, t), bound)
  {
    if q.srttX8 == 0 {
      FirstKept(o, s, t, bound);
    } else {
      SmoothedMonotone(q, o, s, t);
    }
    hide MeanDevUpdate;
    hide After;
  }

  lemma DroppedCompared(q: Estimate, o: Estimate, t: RttSample, bound: int)
    requires Compared(q, o, bound) && 0 < bound <= t.rtt
    ensures Compared(q, Sampled(o, t), bound)
  {
    if q.srttX8 == 0 {
      StaysAbove(o, t, bound);
    } else {
      DropMonotone(q, o, t);
    }
    hide Sampled;
  }

  lemma {:induction false} FilteredCompared(samples: seq<RttSample>, queueing: nat -> u32, bound: int)
    requires 0 < bound && Filtered(samples, queueing, bound, bound)
    ensures Compared(SampledAll(NO_ESTIMATE, QueueFree(samples, queueing)), SampledAll(NO_ESTIMATE, samples), bound)
  {
    if samples != [] {
      hide Signed;
      hide Sampled;
      hide Compared;
      var n := |samples| - 1;
      var s, delay := samples[n], Signed(queueing(samples[n].packet));
      var kept := QueueFree(samples[..n], queueing);
      var q, o := SampledAll(NO_ESTIMATE, kept), SampledAll(NO_ESTIMATE, samples[..n]);
      FilteredPrefix(samples, queueing, bound, bound);
      FilteredCompared(samples[..n], queueing, bound);
      assert FilteredAt(s, delay, bound, bound);
      if s.rtt <= delay {
        DroppedCompared(q, o, s, bound);
        assert QueueFree(samples, queueing) == kept;
      } else {
        var adjusted := s.(rtt := s.rtt - delay);
        assert (kept + [adjusted])[..|kept|] == kept;
        KeptCompared(q, o, adjusted, s, bound);
      }
    }
  }

  lemma FilteredBetween(samples: seq<RttSample>, queueing: nat -> u32, kept: int, dropped: int)
    requires Filtered(samples, queueing, kept, dropped) && kept <= dropped
    ensures Filtered(samples, queueing, kept, kept)
  {
    hide Signed;
    forall i | 0 <= i < |samples|
      ensures FilteredAt(samples[i], Signed(queueing(samples[i].packet)), kept, kept)
    {
      assert FilteredAt(samples[i], Signed(queueing(samples[i].packet)), kept, dropped);
    }
  }

  lemma FilteredSrtt(samples: seq<RttSample>, queueing: nat -> u32, kept: int, dropped: int)
    requires 1 <= kept <= dropped && Filtered(samples, queueing, kept, dropped)
    ensures SampledAll(NO_ESTIMATE, QueueFree(samples, queueing)).srttX8 <= SampledAll(NO_ESTIMATE, samples).srttX8
  {
    FilteredBetween(samples, queueing, kept, dropped);
    FilteredCompared(samples, queueing, kept);
    hide SampledAll;
    hide Filtered;
  }

  // ----- the exact condition

  /** Whatever is taken off which samples, the recomputed smoothed value is no larger than the observed one, as long as
      no remaining sample exceeds `kept` and every dropped one is at least `dropped`. */
  ghost predicate NeverHigher(kept: int, dropped: int) {
    forall samples, queueing: nat -> u32 :: Filtered(samples, queueing, kept, dropped) ==>
      SampledAll(NO_ESTIMATE, QueueFree(samples, queueing)).srttX8 <= SampledAll(NO_ESTIMATE, samples).srttX8
  }

  lemma SampledTwice(a: RttSample, b: RttSample)
    requires a.rtt > 0
    ensures SampledAll(NO_ESTIMATE, [a, b]) == Sampled(FirstEstimate(a), b)
    ensures SampledAll(NO_ESTIMATE, [a]) == FirstEstimate(a)
  {
    assert [a, b][..1] == [a] && [a][..0] == [];
    assert SampledAll(NO_ESTIMATE, [a]) == Sampled(NO_ESTIMATE, a);
  }

  /** Two samples of which the second, smaller one is dropped. */
  function Pair(kept: int, dropped: int): seq<RttSample> {
    [RttSample(0, kept, 1, 10), RttSample(1, dropped, 2, 10)]
  }

  function DropSecond(dropped: u32): nat -> u32 {
    packet => if packet == 1 then dropped else 0
  }

  lemma PairFiltered(kept: int, dropped: int)
    requires 1 <= dropped <= MAX_RTT_US && 1 <= kept
    ensures Filtered(Pair(kept, dropped), DropSecond(dropped), kept, dropped)
    ensures QueueFree(Pair(kept, dropped), DropSecond(dropped)) == [Pair(kept, dropped)[0]]
  {
    var samples, queueing := Pair(kept, dropped), DropSecond(dropped);
    assert samples[..1] == [samples[0]] && samples[..1][..0] == [];
    assert QueueFree(samples[..1], queueing) == [samples[0]];
    assert Signed(queueing(0)) == 0 && Signed(queueing(1)) == dropped;
  }

  /** Every dropped sample that is smaller than what remains raises the smoothed value. */
  lemma DroppedSampleRaises(kept: int, dropped: int)
    requires 1 <= dropped < kept && dropped <= MAX_RTT_US
    ensures var samples := Pair(kept, dropped);
            && SampledAll(NO_ESTIMATE, QueueFree(samples, DropSecond(dropped))).srttX8 == 8 * kept
            && SampledAll(NO_ESTIMATE, samples).srttX8 == 7 * kept + dropped < 8 * kept
  {
    var samples := Pair(kept, dropped);
    PairFiltered(kept, dropped);
    SampledTwice(samples[0], samples[1]);
    hide SampledAll;
    hide QueueFree;
    hide MeanDevUpdate;
    hide After;
  }

  /** Taking queueing delay off never raises the smoothed value exactly when every dropped sample is at least as large
      as every remaining one may be. */
  lemma NeverHigherIff(kept: int, dropped: int)
    requires 1 <= kept && 1 <= dropped <= MAX_RTT_US
    ensures NeverHigher(kept, dropped) <==> kept <= dropped
  {
    hide SampledAll;
    hide QueueFree;
    hide Filtered;
    if kept <= dropped {
      forall samples, queueing: nat -> u32 | Filtered(samples, queueing, kept, dropped)
        ensures SampledAll(NO_ESTIMATE, QueueFree(samples, queueing)).srttX8
             <= SampledAll(NO_ESTIMATE, samples).srttX8
      {
        FilteredSrtt(samples, queueing, kept, dropped);
      }
    } else {
      PairFiltered(kept, dropped);
      DroppedSampleRaises(kept, dropped);
      assert Filtered(Pair(kept, dropped), DropSecond(dropped), kept, dropped);
    }
  }

  /** The same for the retransmission timeout. */
  ghost predicate NeverLater(kept: int, dropped: int) {
    forall samples, queueing: nat -> u32 ::
      Filtered(samples, queueing, kept, dropped) && SamplesIn(samples, 1, MAX_RTT_US) ==>
        Rto(SampledAll(NO_ESTIMATE, QueueFree(samples, queueing)), 0) <= Rto(SampledAll(NO_ESTIMATE, samples), 0)
  }

  lemma FilteredRto(samples: seq<RttSample>, queueing: nat -> u32, kept: int, dropped: int, high: int)
    requires 1 <= kept <= dropped && kept <= CALM_US && Filtered(samples, queueing, kept, dropped)
    requires SamplesIn(samples, 1, high) && 1 <= high <= MAX_RTT_US
    ensures Rto(SampledAll(NO_ESTIMATE, QueueFree(samples, queueing)), 0) <= Rto(SampledAll(NO_ESTIMATE, samples), 0)
  {
    hide SampledAll;
    hide Rto;
    FilteredSrtt(samples, queueing, kept, dropped);
    QueueFreeIn(samples, queueing, kept, dropped);
    if samples != [] {
      QuietRtoNoLonger(QueueFree(samples, queueing), samples, high);
    } else {
      assert QueueFree(samples, queueing) == samples;
    }
  }

  lemma PairLater(kept: int, dropped: int)
    requires 1 <= dropped < kept <= CALM_US
    ensures Rto(SampledAll(NO_ESTIMATE, QueueFree(Pair(kept, dropped), DropSecond(dropped))), 0)
          > Rto(SampledAll(NO_ESTIMATE, Pair(kept, dropped)), 0)
  {
    var samples := Pair(kept, dropped);
    PairFiltered(kept, dropped);
    DroppedSampleRaises(kept, dropped);
    assert SamplesIn(samples, 1, CALM_US) && SamplesIn([samples[0]], 1, CALM_US);
    QuietRun(samples);
    QuietRun([samples[0]]);
    QuietRto(SampledAll(NO_ESTIMATE, samples));
    QuietRto(SampledAll(NO_ESTIMATE, [samples[0]]));
    hide SampledAll;
    hide Rto;
    hide QueueFree;
    hide Quiet;
  }

  lemma QuietRto(e: Estimate)
    requires Quiet(e)
    ensures Rto(e, 0) == e.srttX8 / 8 + MIN_RTO_US
  {
    hide Calm;
  }

  lemma TailKept(first: RttSample, k: nat, queueing: nat -> u32)
    requires queueing(1) == 0 && 0 <= Signed(queueing(first.packet)) < first.rtt
    ensures QueueFree([first] + Times(PAST, k), queueing)
         == [first.(rtt := first.rtt - Signed(queueing(first.packet)))] + Times(PAST, k)
  {
    var all := [first] + Times(PAST, k);
    if k == 0 {
      assert all[..0] == [];
    } else {
      assert all[..k] == [first] + Times(PAST, k - 1);
      TailKept(first, k - 1, queueing);
      assert all[k] == PAST;
      assert Times(PAST, k) == Times(PAST, k - 1) + [PAST];
    }
  }

  /** One microsecond off the first sample, nothing off the others. */
  function OneOff(packet: nat): u32 {
    if packet == 0 then 1 else 0
  }

  lemma PastLater(kept: int, dropped: int)
    requires CALM_US < kept
    ensures Filtered(PastRun(2), OneOff, kept, dropped) && SamplesIn(PastRun(2), 1, MAX_RTT_US)
    ensures Rto(SampledAll(NO_ESTIMATE, QueueFree(PastRun(2), OneOff)), 0) > Rto(SampledAll(NO_ESTIMATE, PastRun(2)), 0)
  {
    hide SampledAll;
    hide Rto;
    hide QueueFree;
    TailKept(RttSample(0, 2, 1, 10), 7, OneOff);
    PastTheBound();
    assert QueueFree(PastRun(2), OneOff) == PastRun(1);
  }

  /** Taking queueing delay off never lengthens the retransmission timeout exactly when, besides that, no remaining
      sample exceeds the bound. */
  lemma NeverLaterIff(kept: int, dropped: int)
    requires 1 <= kept && 1 <= dropped <= MAX_RTT_US
    ensures NeverLater(kept, dropped) <==> kept <= dropped && kept <= CALM_US
  {
    hide SampledAll;
    hide QueueFree;
    hide Rto;
    if kept > CALM_US {
      PastLater(kept, dropped);
    } else if kept > dropped {
      PairFiltered(kept, dropped);
      PairLater(kept, dropped);
      assert SamplesIn(Pair(kept, dropped), 1, MAX_RTT_US);
    } else {
      hide Filtered;
      forall samples, queueing: nat -> u32 |
        Filtered(samples, queueing, kept, dropped) && SamplesIn(samples, 1, MAX_RTT_US)
        ensures Rto(SampledAll(NO_ESTIMATE, QueueFree(samples, queueing)), 0)
             <= Rto(SampledAll(NO_ESTIMATE, samples), 0)
      {
        FilteredRto(samples, queueing, kept, dropped, MAX_RTT_US);
      }
    }
  }

  // ----- against the connection's own estimate

  /** In every reachable endpoint: as long as no dropped sample is smaller than a remaining one, recomputing the timer
      without queueing delay gives no larger a smoothed round-trip time than the connection had. */
  lemma QueueFreeSrtt(e: Endpoint, queueing: nat -> u32, kept: int, dropped: int)
    requires Invariant(e) && Filtered(e.samples, queueing, kept, dropped) && 1 <= kept <= dropped
    ensures SampledAll(NO_ESTIMATE, QueueFree(e.samples, queueing)).srttX8 <= e.estimate.srttX8
  {
    FilteredSrtt(e.samples, queueing, kept, dropped);
  }

  /** Nor a longer retransmission timeout, while no remaining sample exceeds the bound. */
  lemma QueueFreeRto(e: Endpoint, queueing: nat -> u32, kept: int, dropped: int, high: int)
    requires Invariant(e) && Filtered(e.samples, queueing, kept, dropped) && 1 <= kept <= dropped && kept <= CALM_US
    requires SamplesIn(e.samples, 1, high) && 1 <= high <= MAX_RTT_US
    ensures Rto(SampledAll(NO_ESTIMATE, QueueFree(e.samples, queueing)), 0) <= Rto(e.estimate, 0)
  {
    hide Rto;
    hide QueueFree;
    FilteredRto(e.samples, queueing, kept, dropped, high);
  }
}
