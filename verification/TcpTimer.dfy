/** The round-trip-time estimator: scaled fixed-point arithmetic on 32-bit signed integers. */
module TcpTimer {
  import opened Arithmetic
  import opened SeqSpace

  const CLOCK_GRANULARITY_US: int := 1_000
  const MIN_RTO_US: int := 200_000
  const MAX_RTO_US: u32 := 120_000_000
  const MAX_DELAYED_ACK_US: int := 200_000

  /** One measured round-trip time; `packet` is the position of the measured packet in its sender's list. */
  datatype RttSample = RttSample(packet: nat, rtt: int, seqAcked: u32, seqNext: u32)

  /** The smoothed values, scaled by 8 and by 4; a zero smoothed value means that there is no sample yet. */
  datatype Estimate = Estimate(srttX8: int, rttVarX4: int, meanDevX4: int, maxMeanDevX4: int, nextSeq: u32)

  const NO_ESTIMATE := Estimate(0, 0, 0, 0, 0)

  /** A 32-bit pattern read as a signed integer. */
  function Signed(x: u32): int {
    if x < 0x8000_0000 then x else x - 0x1_0000_0000
  }

  // ----- one sample

  function MeanDevUpdate(error: int, meanDevX4: int): int {
    if error >= 0 then error - meanDevX4 / 4
    else if -error - meanDevX4 / 4 > 0 then (-error - meanDevX4 / 4) / 8
    else -error - meanDevX4 / 4
  }

  function FirstEstimate(s: RttSample): Estimate {
    var rttVar := Max(2 * s.rtt, MIN_RTO_US);
    Estimate(8 * s.rtt, rttVar, 2 * s.rtt, rttVar, s.seqNext)
  }

  /** The smoothed value and the deviations before the once-per-round-trip update. */
  function Smoothed(e: Estimate, s: RttSample): Estimate {
    var error := s.rtt - e.srttX8 / 8;
    var meanDev := e.meanDevX4 + MeanDevUpdate(error, e.meanDevX4);
    e.(srttX8 := e.srttX8 + error,
       meanDevX4 := meanDev,
       maxMeanDevX4 := Max(e.maxMeanDevX4, meanDev),
       rttVarX4 := if meanDev > e.maxMeanDevX4 then Max(e.rttVarX4, meanDev) else e.rttVarX4)
  }

  function RoundTripUpdate(e: Estimate, s: RttSample): Estimate {
    if After(s.seqAcked, e.nextSeq) then
      e.(rttVarX4 := if e.maxMeanDevX4 < e.rttVarX4 then e.rttVarX4 - (e.rttVarX4 - e.maxMeanDevX4) / 4
                     else e.rttVarX4,
         nextSeq := s.seqNext,
         maxMeanDevX4 := MIN_RTO_US)
    else e
  }

  function Sampled(e: Estimate, s: RttSample): Estimate {
    if e.srttX8 == 0 then FirstEstimate(s) else RoundTripUpdate(Smoothed(e, s), s)
  }

  function SampledAll(e: Estimate, samples: seq<RttSample>): Estimate {
    if samples == [] then e else Sampled(SampledAll(e, samples[..|samples| - 1]), samples[|samples| - 1])
  }

  // ----- timeouts

  /** Doubling `n` times in 32 bits, stopping at the maximum. */
  function Backoff(rto: u32, n: nat): u32
    decreases n
  {
    if n == 0 then rto
    else if Wrap(2 * rto) > MAX_RTO_US then MAX_RTO_US
    else Backoff(Wrap(2 * rto), n - 1)
  }

  function Rto(e: Estimate, rtos: nat): u32 {
    var rto := if e.srttX8 == 0 then MIN_RTO_US
               else if CLOCK_GRANULARITY_US > e.rttVarX4 then Wrap(e.srttX8 / 8 + CLOCK_GRANULARITY_US)
               else Wrap(e.srttX8 / 8 + e.rttVarX4);
    Backoff(rto, rtos)
  }

  function Tlp(e: Estimate, delayedAck: bool): u32 {
    var rtt := Wrap(e.srttX8 / 8);
    var tlp := Wrap(2 * rtt);
    var probe := if delayedAck then Max(tlp, Wrap(rtt + rtt / 2 + MAX_DELAYED_ACK_US)) else tlp;
    Min(probe, Rto(e, 0))
  }

  // ----- the class

  class RttTimer {
    var smoothedRttX8: int
    var rttVarX4: int
    var meanDevX4: int
    var maxMeanDevX4: int
    var nextSeq: u32
    var samples: seq<RttSample>

    function State(): Estimate
      reads this
    {
      Estimate(smoothedRttX8, rttVarX4, meanDevX4, maxMeanDevX4, nextSeq)
    }

    constructor ()
      ensures State() == NO_ESTIMATE && samples == []
    {
      smoothedRttX8, rttVarX4, meanDevX4, maxMeanDevX4, nextSeq := 0, 0, 0, 0, 0;
      samples := [];
    }

    method AddSample(sample: RttSample)
      modifies this
      ensures State() == Sampled(old(State()), sample)
      ensures samples == old(samples) + [sample]
    {
      samples := samples + [sample];
      var rtt := sample.rtt;
      if smoothedRttX8 == 0 {
        smoothedRttX8 := rtt * 8;
        meanDevX4 := rtt * 2;
        rttVarX4 := Max(meanDevX4, MIN_RTO_US);
        maxMeanDevX4 := rttVarX4;
        nextSeq := sample.seqNext;
        return;
      }
      var error := rtt - smoothedRttX8 / 8;
      smoothedRttX8 := smoothedRttX8 + error;
      var update;
      if error < 0 {
        update := -error;
        update := update - meanDevX4 / 4;
        if update > 0 {
          update := update / 8;
        }
      } else {
        update := error - meanDevX4 / 4;
      }
      meanDevX4 := meanDevX4 + update;
      if meanDevX4 > maxMeanDevX4 {
        maxMeanDevX4 := meanDevX4;
        if meanDevX4 > rttVarX4 {
          rttVarX4 := meanDevX4;
        }
      }
      if After(sample.seqAcked, nextSeq) {
        if maxMeanDevX4 < rttVarX4 {
          rttVarX4 := rttVarX4 - (rttVarX4 - maxMeanDevX4) / 4;
        }
        nextSeq := sample.seqNext;
        maxMeanDevX4 := MIN_RTO_US;
      }
    }

    method GetRTO(rtos: nat) returns (rto: u32)
      ensures rto == Rto(State(), rtos)
    {
      if smoothedRttX8 == 0 {
        rto := MIN_RTO_US;
      } else if CLOCK_GRANULARITY_US > rttVarX4 {
        rto := Wrap(smoothedRttX8 / 8 + CLOCK_GRANULARITY_US);
      } else {
        rto := Wrap(smoothedRttX8 / 8 + rttVarX4);
      }
      rto := AdjustRTOForBackoff(rto, rtos);
    }

    method GetTLP(delayedAck: bool) returns (tlp: u32)
      ensures tlp == Tlp(State(), delayedAck)
    {
      var rtt := Wrap(smoothedRttX8 / 8);
      tlp := Wrap(2 * rtt);
      if delayedAck {
        tlp := Max(tlp, Wrap(rtt + rtt / 2 + MAX_DELAYED_ACK_US));
      }
      var rto := GetRTO(0);
      tlp := Min(tlp, rto);
    }

    static method AdjustRTOForBackoff(initial: u32, rtos: nat) returns (rto: u32)
      ensures rto == Backoff(initial, rtos)
    {
      rto := initial;
      var left := rtos;
      while left != 0
        invariant Backoff(rto, left) == Backoff(initial, rtos)
      {
        rto := Wrap(2 * rto);
        if rto > MAX_RTO_US {
          return MAX_RTO_US;
        }
        left := left - 1;
      }
    }
  }
}
