/** The analysis of one endpoint's worst latency, step by step, against DelayModel. */
module DelayAnalysis {
  import opened SeqSpace
  import opened TcpTimer
  import opened EndpointModel
  import opened Retransmissions
  import opened DelayModel
  import opened LinearFit
  import opened QueueFreeTimer

  class Analysis {
    const packets: seq<Packet>
    const acks: Acks
    const samples: seq<RttSample>
    const seqInit: u32
    var firstPacket: Option<nat>
    var worstPacket: Option<nat>
    var tail: Delays
    var bytesNeededBuffered: int

    constructor (e: Endpoint)
      ensures packets == e.packets && acks == e.acks && samples == e.samples && seqInit == e.seqs.init
    {
      packets, acks, samples, seqInit := e.packets, e.acks, e.samples, e.seqs.init;
      firstPacket, worstPacket, tail, bytesNeededBuffered := None, None, NO_DELAYS, 0;
    }

    /** The scan for the worst packet, which stops at the first one past the limit. */
    method FindWorstPacket(limit: u32)
      modifies this`firstPacket, this`worstPacket
      ensures var n := Considered(packets, seqInit, limit, 0);
              && (worstPacket.None? <==> forall j :: 0 <= j < n ==> packets[j].segment.len == 0)
              && (worstPacket.Some? ==> IsWorst(packets, n, worstPacket.value))
              && (worstPacket.None? <==> firstPacket.None?)
              && (firstPacket.Some? ==> IsFirst(packets, n, firstPacket.value))
    {
      firstPacket, worstPacket := None, None;
      var i := 0;
      while i < |packets| && !(limit != 0 && After(RelativeSeq(packets[i].segment, seqInit), limit))
        invariant i <= |packets|
        invariant Considered(packets, seqInit, limit, i) == Considered(packets, seqInit, limit, 0)
        invariant worstPacket.None? <==> forall j :: 0 <= j < i ==> packets[j].segment.len == 0
        invariant worstPacket.Some? ==> IsWorst(packets, i, worstPacket.value)
        invariant worstPacket.None? <==> firstPacket.None?
        invariant firstPacket.Some? ==> IsFirst(packets, i, firstPacket.value)
      {
        if packets[i].segment.len != 0 {
          if firstPacket.None? {
            firstPacket := Some(i);
          }
          if worstPacket.None? || packets[i].acked.delay > packets[worstPacket.value].acked.delay {
            worstPacket := Some(i);
          }
        }
        i := i + 1;
      }
    }

    /** The fit over three sample sets: the usable one with the highest correlation. */
    method CalculateRttLinearFit(worst: nat) returns (fit: Option<Fit>)
      ensures fit == ChosenFit(packets, worst)
    {
      hide Usable;
      hide MomentsOf;
      var sets := SampleSets(packets, worst);
      var best: Option<Moments> := None;
      for i := 0 to |sets|
        invariant best == Best(sets[..i])
      {
        assert sets[..i + 1][..i] == sets[..i];
        var current := MomentsOf(sets[i]);
        if Usable(current) && (best.None? || BetterCorrelated(current, best.value)) {
          best := Some(current);
        }
      }
      assert sets[..|sets|] == sets;
      fit := if best.Some? && Usable(best.value) && Correlated(best.value) then Some(LineOf(best.value)) else None;
    }

    method AnalyzeTailLatency(limit: u32, look: Lookups)
      requires Forest(packets)
      modifies this`firstPacket, this`worstPacket, this`tail
      ensures worstPacket.None? ==> tail == NO_DELAYS
      ensures worstPacket.Some? ==>
                var w := worstPacket.value;
                && w < |packets| && IsWorst(packets, Considered(packets, seqInit, limit, 0), w)
                && tail == if packets[w].acked.delay == 0 then NO_DELAYS else Analyzed(packets, acks, w, look)
    {
      hide Attributed;
      hide TriggerDelay;
      hide LastTx;
      hide Considered;
      hide Forest;
      hide ChosenFit;
      hide PacketQueueing;
      tail := NO_DELAYS;
      FindWorstPacket(limit);
      if worstPacket.None? {
        return;
      }
      var w := worstPacket.value;
      var worst := packets[w];
      tail := tail.(overall := worst.acked.delay);
      if tail.overall == 0 {
        return;
      }
      tail := tail.(propagation := acks.minRtt);
      if IsLost(packets, worst) && worst.links.rtx.value < |packets| {
        tail := tail.(loss := worst.tally.finalDelay,
                      timeToFirstRtx := Wrap(packets[worst.links.rtx.value].segment.ts - worst.segment.ts));
      }
      var fit := CalculateRttLinearFit(w);
      if fit.Some? {
        var est := FitEstimates(packets, acks.minRtt, fit.value, look);
        var lastTx := FindLastTx(w);
        var breakdown := GetTriggerDelay(w, est);
        tail := tail.(queueing := est.queueing(lastTx), breakdown := breakdown, trigger := Total(breakdown));
      }
      SplitTail();
    }

    /** Enforcing the constraints between the parts. */
    method SplitTail()
      modifies this`tail
      ensures tail == Attributed(old(tail))
    {
      hide BaseLoss;
      hide DelayModel.ClampQueueing;
      ClampQueueing();
      SeparateTrigger();
      tail := WithOther(tail);
    }

    method ClampQueueing()
      modifies this`tail
      ensures tail == DelayModel.ClampQueueing(old(tail))
    {
      var nonPropLoss := Sub(Sub(tail.overall, tail.loss), tail.propagation);
      if tail.queueing > nonPropLoss {
        tail := tail.(queueing := nonPropLoss);
      }
    }

    method SeparateTrigger()
      modifies this`tail
      ensures tail == DelayModel.SeparateTrigger(old(tail))
    {
      hide Wrap;
      hide Sub;
      var baseLoss := tail.breakdown.noQueueTimeout;
      if tail.breakdown.lateAckArms != 0 || tail.breakdown.lateAckTriggers != 0 {
        baseLoss := Wrap(baseLoss + tail.propagation);
      }
      var loss := if tail.loss < tail.trigger then 0 else tail.loss - tail.trigger;
      tail := tail.(loss := loss);
      if tail.loss < baseLoss {
        var diff := baseLoss - tail.loss;
        tail := tail.(loss := tail.loss + diff, trigger := Sub(tail.trigger, diff));
      }
    }

    method FindLastTx(start: nat) returns (last: nat)
      requires Forest(packets) && start < |packets|
      ensures last == LastTx(packets, start)
    {
      last := start;
      while IsLost(packets, packets[last])
        invariant last < |packets| && LastTx(packets, last) == LastTx(packets, start)
        decreases |packets| - last
      {
        assert LinkedAt(packets, last);
        last := packets[last].links.rtx.value;
      }
    }

    /** The walk from the transmission that arrived back towards the original one. */
    method GetTriggerDelay(i: nat, est: Estimates) returns (delays: TriggerDelays)
      requires Forest(packets) && i < |packets|
      ensures delays == TriggerDelay(packets, acks, i, est)
    {
      delays := NO_TRIGGER_DELAYS;
      if !IsLost(packets, packets[i]) {
        return;
      }
      var last := FindLastTx(i);
      var current: nat := last;
      while packets[current].links.previous.Some?
        invariant current < |packets|
        invariant WalkBack(packets, acks, current, est, delays)
               == WalkBack(packets, acks, last, est, NO_TRIGGER_DELAYS)
        decreases current
      {
        assert LinkedAt(packets, current);
        if packets[current].trigger.Some? {
          delays := AddTrigger(packets, current, est, delays);
          return;
        }
        delays := AddTimer(packets, acks, current, est, delays);
        current := packets[current].links.previous.value;
      }
    }

    /** The loop over the ACKs that follow the last one before the worst packet, up to the one that acknowledges it. */
    method ComputeBufferNeed(points: seq<AckPoint>, startTs: nat, startAck: u32, rate: nat)
      modifies this`bytesNeededBuffered
      ensures IsNeeded(points, startTs, startAck, rate, |points|, bytesNeededBuffered)
    {
      var needed, most := 0, 0;
      var currentAck, currentTs := startAck, startTs;
      for k := 0 to |points|
        invariant currentTs == TimeBefore(points, startTs, k) && currentAck == HighestAck(points, startAck, k)
        invariant needed == Consumed(points, startTs, rate, k) - Gained(points, startAck, k)
        invariant IsNeeded(points, startTs, startAck, rate, k, most)
      {
        var elapsed := Elapsed(points[k].ts, currentTs);
        currentTs := points[k].ts;
        needed := needed + BytesIn(elapsed, rate);
        assert needed == Balance(points, startTs, startAck, rate, k);
        if needed > most {
          most := needed;
        }
        if After(points[k].number, currentAck) {
          needed := needed - Sub(points[k].number, currentAck);
          currentAck := points[k].number;
        }
      }
      bytesNeededBuffered := most;
    }

    /** Replaying the samples into a fresh timer with the queueing delay taken off. */
    method ComputeQueueFreeTimer(queueing: nat -> u32) returns (timer: RttTimer)
      ensures fresh(timer) && timer.samples == QueueFree(samples, queueing)
      ensures timer.State() == SampledAll(NO_ESTIMATE, QueueFree(samples, queueing))
    {
      timer := new RttTimer();
      for i := 0 to |samples|
        invariant fresh(timer) && timer.samples == QueueFree(samples[..i], queueing)
        invariant timer.State() == SampledAll(NO_ESTIMATE, QueueFree(samples[..i], queueing))
      {
        assert samples[..i + 1][..i] == samples[..i];
        var delay := Signed(queueing(samples[i].packet));
        if samples[i].rtt > delay {
          ghost var kept := QueueFree(samples[..i], queueing);
          var adjusted := samples[i].(rtt := samples[i].rtt - delay);
          assert (kept + [adjusted])[..|kept|] == kept;
          timer.AddSample(adjusted);
        }
      }
      assert samples[..|samples|] == samples;
    }
  }
}
