/** Splitting the latency of the worst packet into causes: the arithmetic, and when it adds up. */
module DelayModel {
  import opened Arithmetic
  import opened SeqSpace
  import opened EndpointModel
  import opened Conservation
  import opened Retransmissions
  import opened Measurements
  import opened EndpointInvariants
  import opened TimerProofs
  import opened LinearFit

  // ----- attribution

  datatype TriggerDelays = TriggerDelays(noQueueTimeout: u32, timeout: u32, lateAckArms: u32, lateAckTriggers: u32,
                                         lateTriggerForTrigger: u32)

  const NO_TRIGGER_DELAYS := TriggerDelays(0, 0, 0, 0, 0)

  function Total(t: TriggerDelays): u32 {
    Wrap(t.timeout + t.lateAckArms + t.lateAckTriggers + t.lateTriggerForTrigger)
  }

  datatype Delays = Delays(overall: u32, propagation: u32, loss: u32, timeToFirstRtx: u32, trigger: u32,
                           breakdown: TriggerDelays, queueing: u32, other: u32)

  const NO_DELAYS := Delays(0, 0, 0, 0, 0, NO_TRIGGER_DELAYS, 0, 0)

  /** The part of the loss that no trigger can explain. */
  function BaseLoss(d: Delays): u32 {
    if d.breakdown.lateAckArms != 0 || d.breakdown.lateAckTriggers != 0 then
      Wrap(d.breakdown.noQueueTimeout + d.propagation)
    else d.breakdown.noQueueTimeout
  }

  function ClampQueueing(d: Delays): Delays {
    var left := Sub(Sub(d.overall, d.loss), d.propagation);
    if d.queueing > left then d.(queueing := left) else d
  }

  function SeparateTrigger(d: Delays): Delays {
    var loss := if d.loss < d.trigger then 0 else d.loss - d.trigger;
    var base := BaseLoss(d);
    if loss < base then d.(loss := base, trigger := Sub(d.trigger, base - loss)) else d.(loss := loss)
  }

  function WithOther(d: Delays): Delays {
    var all := Wrap(d.propagation + d.loss + d.trigger + d.queueing);
    d.(other := if all > d.overall then 0 else d.overall - all)
  }

  function Attributed(d: Delays): Delays {
    WithOther(SeparateTrigger(ClampQueueing(d)))
  }

  function SumOfCauses(d: Delays): int {
    d.propagation + d.loss + d.trigger + d.queueing + d.other
  }

  /** Checked before the attribution: the base loss fits into what loss or trigger explain, and propagation, the
      larger of loss and trigger, and the clamped queueing fit into the whole. */
  predicate Explains(d: Delays) {
    var lost := Max(d.loss, d.trigger);
    && BaseLoss(d) <= lost
    && d.propagation + lost + Min(d.queueing, Max(d.overall - d.loss - d.propagation, 0)) <= d.overall
  }

  lemma SeparateTriggerExact(d: Delays)
    ensures var s := SeparateTrigger(d);
            && s == d.(loss := s.loss, trigger := s.trigger)
            && (BaseLoss(d) <= Max(d.loss, d.trigger) ==> s.loss + s.trigger == Max(d.loss, d.trigger))
            && (BaseLoss(d) > Max(d.loss, d.trigger) ==> s.loss + s.trigger >= 0x1_0000_0000)
  {
    hide BaseLoss;
  }

  lemma ClampQueueingExact(d: Delays)
    ensures var c := ClampQueueing(d);
            && c == d.(queueing := c.queueing)
            && (d.loss + d.propagation <= d.overall ==>
                  c.queueing == Min(d.queueing, d.overall - d.loss - d.propagation))
  {
  }

  /** The causes add up to the overall delay exactly under the condition above, for all 32-bit inputs. */
  lemma ConservationIff(d: Delays)
    ensures SumOfCauses(Attributed(d)) == d.overall <==> Explains(d)
  {
    ClampQueueingExact(d);
    hide BaseLoss;
    hide SeparateTrigger;
    hide ClampQueueing;
    var c := ClampQueueing(d);
    SeparateTriggerExact(c);
    BaseLossFrame(d, c.queueing);
    OtherFills(SeparateTrigger(c));
    hide WithOther;
  }

  /** The remainder makes up the whole exactly when the parts do not exceed it. */
  lemma OtherFills(d: Delays)
    ensures var all := d.propagation + d.loss + d.trigger + d.queueing;
            && WithOther(d) == d.(other := WithOther(d).other)
            && (SumOfCauses(WithOther(d)) == d.overall <==> all <= d.overall)
  {
  }

  /** In particular when the trigger and the base loss are parts of a loss that fits into the overall delay. */
  lemma PartsExplain(d: Delays)
    requires d.propagation + d.loss <= d.overall && d.trigger <= d.loss && BaseLoss(d) <= d.loss
    ensures Explains(d) && SumOfCauses(Attributed(d)) == d.overall
    ensures Attributed(d).loss + Attributed(d).trigger == d.loss
  {
    hide BaseLoss;
    ConservationIff(d);
    ClampQueueingExact(d);
    SeparateTriggerExact(ClampQueueing(d));
    assert BaseLoss(ClampQueueing(d)) == BaseLoss(d) by {
      assert ClampQueueing(d) == d.(queueing := ClampQueueing(d).queueing);
      BaseLossFrame(d, ClampQueueing(d).queueing);
    }
    hide SeparateTrigger;
    hide ClampQueueing;
  }

  lemma BaseLossFrame(d: Delays, queueing: u32)
    ensures BaseLoss(d.(queueing := queueing)) == BaseLoss(d)
  {
  }

  // ----- the worst packet

  function RelativeSeq(g: Segment, seqInit: u32): u32 {
    Sub(g.seqNo, seqInit)
  }

  /** The number of packets before the first one past the limit. */
  function Considered(ps: seq<Packet>, seqInit: u32, limit: u32, from: nat): (n: nat)
    requires from <= |ps|
    ensures from <= n <= |ps|
    decreases |ps| - from
  {
    if from == |ps| || (limit != 0 && After(RelativeSeq(ps[from].segment, seqInit), limit)) then from
    else Considered(ps, seqInit, limit, from + 1)
  }

  /** In terms of positions relative to the initial one: the scan covers the packets up to the first one that starts
      after the limit, across wraparounds. */
  lemma {:induction false} ConsideredExact(ps: seq<Packet>, seqInit: u32, limit: u32, from: nat, offsets: seq<int>)
    requires |offsets| == |ps| && from <= |ps|
    requires forall j :: 0 <= j < |ps| ==>
               ps[j].segment.seqNo == Wrap(seqInit + offsets[j]) && -WINDOW <= offsets[j] - limit <= WINDOW
    ensures var n := Considered(ps, seqInit, limit, from);
            && (forall j :: from <= j < n ==> limit == 0 || offsets[j] <= limit)
            && (n < |ps| ==> limit != 0 && offsets[n] > limit)
    decreases |ps| - from
  {
    if from < |ps| {
      RelativeExact(ps[from].segment, seqInit, limit, offsets[from]);
      hide RelativeSeq;
      hide After;
      hide Wrap;
      if !(limit != 0 && After(RelativeSeq(ps[from].segment, seqInit), limit)) {
        ConsideredExact(ps, seqInit, limit, from + 1, offsets);
      }
    }
  }

  lemma RelativeExact(g: Segment, seqInit: u32, limit: u32, offset: int)
    requires g.seqNo == Wrap(seqInit + offset) && -WINDOW <= offset - limit <= WINDOW
    ensures After(RelativeSeq(g, seqInit), limit) <==> offset > limit
  {
    assert RelativeSeq(g, seqInit) == Wrap(offset);
    AfterExact(offset, limit);
  }

  /** The first data packet among the first n with the largest delay. */
  predicate IsWorst(ps: seq<Packet>, n: nat, w: nat)
    requires n <= |ps|
  {
    && w < n && ps[w].segment.len != 0
    && (forall j :: 0 <= j < n && ps[j].segment.len != 0 ==> ps[j].acked.delay <= ps[w].acked.delay)
    && (forall j :: 0 <= j < w && ps[j].segment.len != 0 ==> ps[j].acked.delay < ps[w].acked.delay)
  }

  /** Ties are decided: there is one worst packet. */
  lemma WorstUnique(ps: seq<Packet>, n: nat, v: nat, w: nat)
    requires n <= |ps| && IsWorst(ps, n, v) && IsWorst(ps, n, w)
    ensures v == w
  {
  }

  predicate IsFirst(ps: seq<Packet>, n: nat, f: nat)
    requires n <= |ps|
  {
    f < n && ps[f].segment.len != 0 && forall j :: 0 <= j < f ==> ps[j].segment.len == 0
  }

  /** Delays measured for packet w, before attribution. */
  function Measured(ps: seq<Packet>, w: nat, minRtt: u32, queueing: u32, t: TriggerDelays): Delays
    requires w < |ps|
  {
    var lost := IsLost(ps, ps[w]) && ps[w].links.rtx.value < |ps|;
    Delays(ps[w].acked.delay, minRtt, if lost then ps[w].tally.finalDelay else 0,
           if lost then Wrap(ps[ps[w].links.rtx.value].segment.ts - ps[w].segment.ts) else 0,
           Total(t), t, queueing, 0)
  }

  /** In every reachable endpoint with positive delays, the causes of an acknowledged original transmission that was
      not lost add up, whatever queueing delay is estimated for it: the minimum round-trip time is a lower bound. */
  lemma NotLostAddsUp(e: Endpoint, w: nat, queueing: u32)
    requires Invariant(e) && PositiveDelays(e.packets)
    requires w < |e.packets| && IsMeasured(e.packets[w]) && !IsLost(e.packets, e.packets[w])
    ensures var d := Measured(e.packets, w, e.acks.minRtt, queueing, NO_TRIGGER_DELAYS);
            && d.propagation <= d.overall && d.propagation > 0
            && SumOfCauses(Attributed(d)) == d.overall
            && Attributed(d).loss == 0 && Attributed(d).trigger == 0
  {
    hide Trees;
    hide Conserved;
    hide SnapshotsOk;
    hide SequencesOk;
    hide TimersOk;
    var d := Measured(e.packets, w, e.acks.minRtt, queueing, NO_TRIGGER_DELAYS);
    assert d.propagation <= d.overall;
    PartsExplain(d);
  }

  // ----- the trigger of a retransmission

  /** What the walk needs to know from outside: the estimated queueing delay of a packet, the timeout that would have
      been in force without queueing, and the trigger delay of another loss. */
  datatype Estimates = Estimates(queueing: nat -> u32, noQueueTimeout: nat -> u32, triggerOfLoss: nat -> u32)

  function TimerOf(p: Packet): TimerInfo {
    if p.flags.isRto then p.rtoInfo else if p.flags.isTlp then p.tlpInfo else CLEARED
  }

  /** The queueing delay of the packet whose ACK armed the timer; a timer armed by a packet of the endpoint itself is
      not late. */
  function ArmingDelay(acks: Acks, p: Packet, est: Estimates): u32 {
    var armer := TimerOf(p).armer;
    if armer.Peer? && armer.ack.id in acks.triggers then est.queueing(acks.triggers[armer.ack.id]) else 0
  }

  datatype Cause = Timeout | Inflation | LateArming

  /** What the timer behind packet i contributes: the timeout without queueing, its inflation, or its late arming. */
  function Share(ps: seq<Packet>, acks: Acks, i: nat, est: Estimates, c: Cause): u32
    requires i < |ps|
  {
    var noQueue := if ps[i].flags.isRto || ps[i].flags.isTlp then est.noQueueTimeout(i) else 0;
    var actual := Wrap(TimerOf(ps[i]).delay);
    match c
    case Timeout => noQueue
    case Inflation => if noQueue != 0 && actual > noQueue then actual - noQueue else 0
    case LateArming => ArmingDelay(acks, ps[i], est)
  }

  function AddTimer(ps: seq<Packet>, acks: Acks, i: nat, est: Estimates, d: TriggerDelays): TriggerDelays
    requires i < |ps|
  {
    d.(noQueueTimeout := Wrap(d.noQueueTimeout + Share(ps, acks, i, est, Timeout)),
       timeout := Wrap(d.timeout + Share(ps, acks, i, est, Inflation)),
       lateAckArms := Wrap(d.lateAckArms + Share(ps, acks, i, est, LateArming)))
  }

  function AddTrigger(ps: seq<Packet>, i: nat, est: Estimates, d: TriggerDelays): TriggerDelays
    requires i < |ps| && ps[i].trigger.Some?
  {
    var t := ps[i].trigger.value;
    d.(lateAckTriggers := est.queueing(t),
       lateTriggerForTrigger := if ps[i].flags.isSlowStart && t < |ps| then est.triggerOfLoss(ps[t].links.first)
                                else d.lateTriggerForTrigger)
  }

  /** The walk back from packet i, up to the original transmission or the first packet that has a trigger. */
  function WalkBack(ps: seq<Packet>, acks: Acks, i: nat, est: Estimates, d: TriggerDelays): TriggerDelays
    requires i < |ps|
    decreases i
  {
    var before := ps[i].links.previous;
    if before.None? || before.value >= i then d
    else if ps[i].trigger.Some? then AddTrigger(ps, i, est, d)
    else WalkBack(ps, acks, before.value, est, AddTimer(ps, acks, i, est, d))
  }

  function TriggerDelay(ps: seq<Packet>, acks: Acks, i: nat, est: Estimates): TriggerDelays
    requires Forest(ps) && i < |ps|
  {
    if !IsLost(ps, ps[i]) then NO_TRIGGER_DELAYS else WalkBack(ps, acks, LastTx(ps, i), est, NO_TRIGGER_DELAYS)
  }

  /** Where the walk from packet i ends: the original transmission, or the first packet that has a trigger. */
  function StopsAt(ps: seq<Packet>, i: nat): (s: nat)
    requires i < |ps|
    ensures s <= i
    decreases i
  {
    var before := ps[i].links.previous;
    if before.None? || before.value >= i || ps[i].trigger.Some? then i else StopsAt(ps, before.value)
  }

  /** The sum of the shares of the retransmissions passed on the way. */
  function SumOfShares(ps: seq<Packet>, acks: Acks, i: nat, est: Estimates, c: Cause): nat
    requires i < |ps|
    decreases i
  {
    if StopsAt(ps, i) == i then 0
    else Share(ps, acks, i, est, c) + SumOfShares(ps, acks, ps[i].links.previous.value, est, c)
  }

  /** The walk stops inside the chain, at its root unless a trigger is met. */
  lemma {:induction false} StopInChain(ps: seq<Packet>, i: nat)
    requires Forest(ps) && i < |ps|
    ensures var s := StopsAt(ps, i);
            && InChain(ps, i, s)
            && (ps[s].links.previous.Some? ==> ps[s].trigger.Some?)
            && (ps[s].links.previous.None? ==> s == ps[i].links.first)
    decreases i
  {
    assert LinkedAt(ps, i);
    var before := ps[i].links.previous;
    if before.Some? && ps[i].trigger.None? {
      StopInChain(ps, before.value);
    }
  }

  lemma AddTimerSums(d: u32, share: u32, rest: nat)
    ensures Wrap(Wrap(d + share) + rest) == Wrap(d + (share + rest))
  {
    WrapAdd(d + share, rest);
  }

  /** What the packet at which the walk stops is charged with: nothing if it is the original transmission, otherwise the
      queueing delay of its trigger and, in slow start, the trigger delay of the loss that the trigger belongs to. */
  predicate Charged(ps: seq<Packet>, s: nat, est: Estimates, d: TriggerDelays, r: TriggerDelays)
    requires s < |ps|
  {
    if ps[s].links.previous.None? || ps[s].trigger.None? then
      r.lateAckTriggers == d.lateAckTriggers && r.lateTriggerForTrigger == d.lateTriggerForTrigger
    else
      var t := ps[s].trigger.value;
      && r.lateAckTriggers == est.queueing(t)
      && r.lateTriggerForTrigger == if ps[s].flags.isSlowStart && t < |ps| then est.triggerOfLoss(ps[t].links.first)
                                    else d.lateTriggerForTrigger
  }

  /** The walk adds up the timers of exactly the retransmissions it passes, and charges the trigger, if any, of the
      one where it stops. */
  lemma {:induction false} WalkBackExact(ps: seq<Packet>, acks: Acks, i: nat, est: Estimates, d: TriggerDelays)
    requires Forest(ps) && i < |ps|
    ensures var r, s := WalkBack(ps, acks, i, est, d), StopsAt(ps, i);
            && r.noQueueTimeout == Wrap(d.noQueueTimeout + SumOfShares(ps, acks, i, est, Timeout))
            && r.timeout == Wrap(d.timeout + SumOfShares(ps, acks, i, est, Inflation))
            && r.lateAckArms == Wrap(d.lateAckArms + SumOfShares(ps, acks, i, est, LateArming))
            && Charged(ps, s, est, d, r)
    decreases i
  {
    hide Share;
    hide Wrap;
    assert LinkedAt(ps, i);
    var before := ps[i].links.previous;
    if before.Some? && ps[i].trigger.None? {
      WalkBackExact(ps, acks, before.value, est, AddTimer(ps, acks, i, est, d));
      AddTimerSums(d.noQueueTimeout, Share(ps, acks, i, est, Timeout),
                   SumOfShares(ps, acks, before.value, est, Timeout));
      AddTimerSums(d.timeout, Share(ps, acks, i, est, Inflation), SumOfShares(ps, acks, before.value, est, Inflation));
      AddTimerSums(d.lateAckArms, Share(ps, acks, i, est, LateArming),
                   SumOfShares(ps, acks, before.value, est, LateArming));
    } else {
      WrapOfSmall(d);
    }
  }

  lemma WrapOfSmall(d: TriggerDelays)
    ensures Wrap(d.noQueueTimeout + 0) == d.noQueueTimeout && Wrap(d.timeout + 0) == d.timeout
    ensures Wrap(d.lateAckArms + 0) == d.lateAckArms
  {
  }

  /** The trigger delay of a lost packet is found on the way from the transmission that arrived back to the original
      one, and the way leads through the lost packet unless it ends earlier at a trigger. */
  lemma TriggerDelayExact(ps: seq<Packet>, acks: Acks, i: nat, est: Estimates)
    requires Forest(ps) && i < |ps| && IsLost(ps, ps[i])
    ensures var last, t := LastTx(ps, i), TriggerDelay(ps, acks, i, est);
            && !IsLost(ps, ps[last]) && InChain(ps, last, i) && InChain(ps, last, StopsAt(ps, last))
            && t.noQueueTimeout == Wrap(SumOfShares(ps, acks, last, est, Timeout))
            && t.timeout == Wrap(SumOfShares(ps, acks, last, est, Inflation))
            && t.lateAckArms == Wrap(SumOfShares(ps, acks, last, est, LateArming))
            && (var stop := StopsAt(ps, last);
                && Charged(ps, stop, est, NO_TRIGGER_DELAYS, t)
                && (stop == ps[i].links.first || (ps[stop].links.previous.Some? && ps[stop].trigger.Some?)))
  {
    var last := LastTx(ps, i);
    WalkRetraces(ps, i);
    StopInChain(ps, last);
    WalkBackExact(ps, acks, last, est, NO_TRIGGER_DELAYS);
    hide WalkBack;
    hide SumOfShares;
    hide Wrap;
  }

  /** The shares of a retransmission, in terms of what it recorded. A timeout is charged with the timer of the timeout,
      also when it could be a probe. */
  lemma ShareExact(ps: seq<Packet>, acks: Acks, i: nat, est: Estimates)
    requires i < |ps|
    ensures var p := ps[i];
            var timed, t := p.flags.isRto || p.flags.isTlp, if p.flags.isRto then p.rtoInfo else p.tlpInfo;
            var noQueue, actual := est.noQueueTimeout(i), t.delay % 0x1_0000_0000;
            && Share(ps, acks, i, est, Timeout) == (if timed then noQueue else 0)
            && Share(ps, acks, i, est, Inflation)
               == (if timed && noQueue > 0 then Max(actual - noQueue, 0) else 0)
            && Share(ps, acks, i, est, LateArming)
               == if timed && t.armer.Peer? && t.armer.ack.id in acks.triggers
                  then est.queueing(acks.triggers[t.armer.ack.id]) else 0
  {
  }

  // ----- the whole attribution

  /** What does not come from the line: the timeouts recomputed without queueing, and the trigger delay of another
      loss. */
  datatype Lookups = Lookups(noQueueTimeout: nat -> u32, triggerOfLoss: nat -> u32)

  /** The queueing delays are those of the chosen line above the minimum round-trip time. */
  function FitEstimates(ps: seq<Packet>, minRtt: u32, f: Fit, look: Lookups): Estimates {
    Estimates(pos => PacketQueueing(ps, pos, f, minRtt), look.noQueueTimeout, look.triggerOfLoss)
  }

  /** Without a line, nothing is attributed to queueing or to triggers. */
  function Analyzed(ps: seq<Packet>, acks: Acks, w: nat, look: Lookups): Delays
    requires Forest(ps) && w < |ps|
  {
    var fit := ChosenFit(ps, w);
    if fit.None? then Attributed(Measured(ps, w, acks.minRtt, 0, NO_TRIGGER_DELAYS))
    else
      var est := FitEstimates(ps, acks.minRtt, fit.value, look);
      Attributed(Measured(ps, w, acks.minRtt, est.queueing(LastTx(ps, w)), TriggerDelay(ps, acks, w, est)))
  }

  lemma AttributedKeepsOverall(d: Delays)
    ensures Attributed(d).overall == d.overall
  {
    ClampQueueingExact(d);
    SeparateTriggerExact(ClampQueueing(d));
    hide ClampQueueing;
    hide SeparateTrigger;
  }

  /** In every reachable endpoint with positive delays, whichever line is chosen: the causes of an acknowledged original
      transmission that was not lost add up. */
  lemma NotLostAnalyzed(e: Endpoint, w: nat, look: Lookups)
    requires Invariant(e) && PositiveDelays(e.packets)
    requires w < |e.packets| && IsMeasured(e.packets[w]) && !IsLost(e.packets, e.packets[w])
    ensures SumOfCauses(Analyzed(e.packets, e.acks, w, look)) == e.packets[w].acked.delay
  {
    var ps, fit := e.packets, ChosenFit(e.packets, w);
    hide ChosenFit;
    hide Attributed;
    hide PacketQueueing;
    var queueing := if fit.None? then 0
                    else PacketQueueing(ps, LastTx(ps, w), fit.value, e.acks.minRtt);
    hide LastTx;
    NotLostAddsUp(e, w, queueing);
    hide Invariant;
  }

  /** The retransmissions of a packet, each lost but the last. */
  predicate Transmissions(ps: seq<Packet>, path: seq<nat>) {
    && path != [] && (forall k :: 0 <= k < |path| ==> path[k] < |ps|)
    && (forall k :: 0 <= k < |path| - 1 ==>
          IsLost(ps, ps[path[k]]) && ps[path[k]].links.rtx == Some(path[k + 1]))
    && !IsLost(ps, ps[path[|path| - 1]])
  }

  lemma {:induction false} TransmissionsEnd(ps: seq<Packet>, path: seq<nat>)
    requires Forest(ps) && Transmissions(ps, path)
    ensures LastTx(ps, path[0]) == path[|path| - 1]
  {
    hide IsLost;
    if |path| > 1 {
      TransmissionsEnd(ps, path[1..]);
    }
  }

  lemma {:induction false} TransmissionsExist(ps: seq<Packet>, w: nat)
    requires Forest(ps) && w < |ps|
    ensures exists path :: Transmissions(ps, path) && path[0] == w
    decreases |ps| - w
  {
    hide Forest;
    if IsLost(ps, ps[w]) {
      assert LinkedAt(ps, w) by { ForestAt(ps, w); }
      var next := ps[w].links.rtx.value;
      TransmissionsExist(ps, next);
      var rest :| Transmissions(ps, rest) && rest[0] == next;
      assert Transmissions(ps, [w] + rest);
    } else {
      assert Transmissions(ps, [w]);
    }
  }

  lemma ForestAt(ps: seq<Packet>, i: nat)
    requires Forest(ps) && i < |ps|
    ensures LinkedAt(ps, i)
  {
  }

  /** What is reported of a lost packet when its loss and the propagation fit into the whole: the queueing delay is that
      of the transmission that arrived, as far as it fits, and the loss is what the trigger delays leave of it, but not
      less than the timeouts without queueing and, with a late ACK, the propagation. */
  predicate Reported(ps: seq<Packet>, w: nat, minRtt: u32, last: nat, f: Fit, t: TriggerDelays, d: Delays)
    requires w < |ps|
  {
    var overall, loss := ps[w].acked.delay, ps[w].tally.finalDelay;
    var trigger := (t.timeout + t.lateAckArms + t.lateAckTriggers + t.lateTriggerForTrigger) % 0x1_0000_0000;
    var late := t.lateAckArms != 0 || t.lateAckTriggers != 0;
    var base := (t.noQueueTimeout + if late then minRtt else 0) % 0x1_0000_0000;
    var rest := Max(loss - trigger, 0);
    && d.overall == overall && d.propagation == minRtt && d.breakdown == t
    && ps[w].links.rtx.Some? && ps[w].links.rtx.value < |ps|
    && d.timeToFirstRtx == (ps[ps[w].links.rtx.value].segment.ts - ps[w].segment.ts) % 0x1_0000_0000
    && d.queueing == Min(PacketQueueing(ps, last, f, minRtt), overall - loss - minRtt)
    && d.loss == Max(rest, base)
    && d.trigger == (trigger - (d.loss - rest)) % 0x1_0000_0000
  }

  lemma LostAnalyzed(ps: seq<Packet>, acks: Acks, look: Lookups, path: seq<nat>, f: Fit)
    requires Forest(ps) && Transmissions(ps, path) && |path| > 1
    requires ChosenFit(ps, path[0]) == Some(f)
    requires ps[path[0]].tally.finalDelay + acks.minRtt <= ps[path[0]].acked.delay
    ensures var w, last, est := path[0], path[|path| - 1], FitEstimates(ps, acks.minRtt, f, look);
            Reported(ps, w, acks.minRtt, last, f, TriggerDelay(ps, acks, w, est), Analyzed(ps, acks, w, look))
  {
    TransmissionsEnd(ps, path);
    var w, est := path[0], FitEstimates(ps, acks.minRtt, f, look);
    assert IsLost(ps, ps[w]) && ps[w].links.rtx.value < |ps|;
    var t := TriggerDelay(ps, acks, w, est);
    hide ChosenFit;
    hide Attributed;
    hide TriggerDelay;
    hide LastTx;
    hide PacketQueueing;
    hide Forest;
    hide Transmissions;
    AttributedReports(ps, w, acks.minRtt, path[|path| - 1], f, t);
  }

  lemma SeparatedParts(d: Delays)
    ensures var s, rest := SeparateTrigger(d), Max(d.loss - d.trigger, 0);
            && s == d.(loss := s.loss, trigger := s.trigger)
            && s.loss == Max(rest, BaseLoss(d))
            && s.trigger == (d.trigger - (s.loss - rest)) % 0x1_0000_0000
  {
    hide BaseLoss;
  }

  /** The attribution, with the clamped queueing delay and the separated loss written out. */
  lemma AttributedParts(d: Delays)
    requires d.loss + d.propagation <= d.overall
    ensures var r, rest := Attributed(d), Max(d.loss - d.trigger, 0);
            && r == d.(queueing := r.queueing, loss := r.loss, trigger := r.trigger, other := r.other)
            && r.queueing == Min(d.queueing, d.overall - d.loss - d.propagation)
            && r.loss == Max(rest, BaseLoss(d))
            && r.trigger == (d.trigger - (r.loss - rest)) % 0x1_0000_0000
            && r.other == Max(d.overall - (r.propagation + r.loss + r.trigger + r.queueing) % 0x1_0000_0000, 0)
  {
    var c := ClampQueueing(d);
    ClampQueueingExact(d);
    SeparatedParts(c);
    BaseLossFrame(d, c.queueing);
    hide BaseLoss;
    hide ClampQueueing;
    hide SeparateTrigger;
  }

  lemma BaseLossExact(d: Delays)
    ensures var late := d.breakdown.lateAckArms != 0 || d.breakdown.lateAckTriggers != 0;
            BaseLoss(d) == (d.breakdown.noQueueTimeout + if late then d.propagation else 0) % 0x1_0000_0000
  {
  }

  lemma LostMeasures(ps: seq<Packet>, w: nat, minRtt: u32, queueing: u32, t: TriggerDelays)
    requires w < |ps| && IsLost(ps, ps[w]) && ps[w].links.rtx.value < |ps|
    ensures var d := Measured(ps, w, minRtt, queueing, t);
            && d.overall == ps[w].acked.delay && d.propagation == minRtt && d.loss == ps[w].tally.finalDelay
            && d.timeToFirstRtx
               == (ps[ps[w].links.rtx.value].segment.ts - ps[w].segment.ts) % 0x1_0000_0000
            && d.trigger == (t.timeout + t.lateAckArms + t.lateAckTriggers + t.lateTriggerForTrigger) % 0x1_0000_0000
            && d.breakdown == t && d.queueing == queueing
  {
  }

  lemma AttributedReports(ps: seq<Packet>, w: nat, minRtt: u32, last: nat, f: Fit, t: TriggerDelays)
    requires w < |ps| && IsLost(ps, ps[w]) && ps[w].links.rtx.value < |ps|
    requires ps[w].tally.finalDelay + minRtt <= ps[w].acked.delay
    ensures Reported(ps, w, minRtt, last, f, t,
                     Attributed(Measured(ps, w, minRtt, PacketQueueing(ps, last, f, minRtt), t)))
  {
    assert ps[w].links.rtx.Some?;
    var d := Measured(ps, w, minRtt, PacketQueueing(ps, last, f, minRtt), t);
    LostMeasures(ps, w, minRtt, PacketQueueing(ps, last, f, minRtt), t);
    hide PacketQueueing;
    hide Measured;
    hide IsLost;
    hide Attributed;
    hide BaseLoss;
    AttributedParts(d);
    BaseLossExact(d);
    hide Max;
    hide Min;
  }

  lemma {:induction false} LaterAttempt(ps: seq<Packet>, r: nat, n: nat, k: nat)
    requires k < n <= |ps| && k != r && ps[k].links.first == r
    ensures LastAttempt(ps, r, n).Some?
    decreases n
  {
    if k < n - 1 {
      LaterAttempt(ps, r, n - 1, k);
    }
  }

  lemma {:induction false} AttemptIsPacket(ps: seq<Packet>, r: nat, n: nat)
    requires n <= |ps| && LastAttempt(ps, r, n).Some?
    ensures exists k :: 0 <= k < n && k != r && ps[k].links.first == r
                        && ps[k].segment.ts == LastAttempt(ps, r, n).value
  {
    if !(n - 1 != r && ps[n - 1].links.first == r) {
      AttemptIsPacket(ps, r, n - 1);
    }
  }

  /** The loss of an original transmission is the time until its last retransmission. */
  lemma LossExact(ps: seq<Packet>, w: nat)
    requires Forest(ps) && Tallied(ps) && Ordered(ps)
    requires w < |ps| && ps[w].links.previous.None? && ps[w].links.rtx.Some?
    ensures var last := LastAttempt(ps, w, |ps|);
            last.Some? && last.value >= ps[w].segment.ts && ps[w].tally.finalDelay == last.value - ps[w].segment.ts
  {
    hide CoversStart;
    assert LinkedAt(ps, w) && TalliedAt(ps, w);
    var k := ps[w].links.rtx.value;
    assert LinkedAt(ps, k);
    LaterAttempt(ps, w, |ps|, k);
    AttemptIsPacket(ps, w, |ps|);
    var j :| 0 <= j < |ps| && j != w && ps[j].links.first == w
             && ps[j].segment.ts == LastAttempt(ps, w, |ps|).value;
    assert LinkedAt(ps, j);
    hide LastAttempt;
    hide Attempts;
    hide Forest;
    hide Tallied;
  }

  /** A loss by itself, without queueing or trigger delays. */
  lemma LossExplains(d: Delays)
    requires d.breakdown == NO_TRIGGER_DELAYS && d.trigger == 0
    ensures Explains(d) <==> d.propagation + d.loss <= d.overall
  {
  }

  /** The latency of a lost original transmission without a usable line adds up exactly when its last retransmission
      was sent at least the minimum round-trip time before the ACK: otherwise loss and propagation together exceed the
      whole. */
  lemma LostAddsUpIff(e: Endpoint, w: nat, look: Lookups)
    requires Invariant(e) && Ordered(e.packets)
    requires w < |e.packets| && IsMeasured(e.packets[w]) && IsLost(e.packets, e.packets[w])
    requires 0 <= e.packets[w].acked.packet.value.ts - e.packets[w].segment.ts < 0x1_0000_0000
    requires ChosenFit(e.packets, w).None?
    ensures LastAttempt(e.packets, w, |e.packets|).Some?
    ensures var d := Analyzed(e.packets, e.acks, w, look);
            SumOfCauses(d) == d.overall <==>
            LastAttempt(e.packets, w, |e.packets|).value + e.acks.minRtt <= e.packets[w].acked.packet.value.ts
  {
    LostMeasured(e, w);
    hide *;
    var d := Measured(e.packets, w, e.acks.minRtt, 0, NO_TRIGGER_DELAYS);
    AnalyzedWithoutLine(e.packets, e.acks, w, look);
    LossExplains(d);
    ConservationIff(d);
    AttributedKeepsOverall(d);
  }

  lemma LostMeasured(e: Endpoint, w: nat)
    requires Invariant(e) && Ordered(e.packets)
    requires w < |e.packets| && IsMeasured(e.packets[w]) && IsLost(e.packets, e.packets[w])
    requires 0 <= e.packets[w].acked.packet.value.ts - e.packets[w].segment.ts < 0x1_0000_0000
    ensures Forest(e.packets)
    ensures var d := Measured(e.packets, w, e.acks.minRtt, 0, NO_TRIGGER_DELAYS);
            var last, sent := LastAttempt(e.packets, w, |e.packets|), e.packets[w].segment.ts;
            && last.Some? && d.overall == e.packets[w].acked.packet.value.ts - sent && d.loss == last.value - sent
            && d.propagation == e.acks.minRtt && d.breakdown == NO_TRIGGER_DELAYS && d.trigger == 0
  {
    hide Ordered;
    hide Forest;
    hide Tallied;
    hide Delayed;
    hide Ledger;
    hide SnapshotsOk;
    hide SequencesOk;
    hide TimersOk;
    hide Increasing;
    hide LastAttempt;
    hide Measured;
    LossExact(e.packets, w);
    LossMeasured(e.packets, w, e.acks.minRtt);
    assert Recorded(e.packets[w]);
    hide Invariant;
  }

  lemma LossMeasured(ps: seq<Packet>, w: nat, minRtt: u32)
    requires Forest(ps) && w < |ps| && IsLost(ps, ps[w])
    ensures var d := Measured(ps, w, minRtt, 0, NO_TRIGGER_DELAYS);
            && d.loss == ps[w].tally.finalDelay && d.propagation == minRtt && d.overall == ps[w].acked.delay
            && d.breakdown == NO_TRIGGER_DELAYS && d.trigger == 0
  {
    hide CoversStart;
    assert LinkedAt(ps, w);
  }

  lemma AnalyzedWithoutLine(ps: seq<Packet>, acks: Acks, w: nat, look: Lookups)
    requires Forest(ps) && w < |ps| && ChosenFit(ps, w).None?
    ensures Analyzed(ps, acks, w, look) == Attributed(Measured(ps, w, acks.minRtt, 0, NO_TRIGGER_DELAYS))
  {
    hide Attributed;
    hide ChosenFit;
  }

  // ----- data to buffer for the worst packet

  /** An ACK of the peer: its timestamp and its number. */
  datatype AckPoint = AckPoint(ts: nat, number: u32)

  const BITS_PER_SECOND: nat := 8_000_000

  function TimeBefore(points: seq<AckPoint>, startTs: nat, k: nat): nat
    requires k <= |points|
  {
    if k == 0 then startTs else points[k - 1].ts
  }

  /** Rate times time, in units of one byte per 8 million. */
  function Work(elapsed: int, rate: nat): (w: int)
    ensures elapsed >= 0 ==> w >= 0
  {
    elapsed * rate
  }

  /** The whole bytes consumed in an interval. */
  function BytesIn(elapsed: nat, rate: nat): nat {
    Work(elapsed, rate) / BITS_PER_SECOND
  }

  /** The bytes consumed up to ACK k at the given rate, each interval rounded down. */
  function Consumed(points: seq<AckPoint>, startTs: nat, rate: nat, k: nat): nat
    requires k <= |points|
  {
    if k == 0 then 0
    else Consumed(points, startTs, rate, k - 1)
         + BytesIn(Elapsed(points[k - 1].ts, TimeBefore(points, startTs, k - 1)), rate)
  }

  /** The highest ACK number among the first k, in 32-bit order. */
  function HighestAck(points: seq<AckPoint>, startAck: u32, k: nat): u32
    requires k <= |points|
  {
    if k == 0 then startAck
    else
      var high := HighestAck(points, startAck, k - 1);
      if After(points[k - 1].number, high) then points[k - 1].number else high
  }

  /** The bytes acknowledged in order by the first k ACKs. */
  function Gained(points: seq<AckPoint>, startAck: u32, k: nat): nat
    requires k <= |points|
  {
    if k == 0 then 0
    else Gained(points, startAck, k - 1)
         + Sub(HighestAck(points, startAck, k), HighestAck(points, startAck, k - 1))
  }

  /** The balance when ACK k arrives, before it is counted. */
  function Balance(points: seq<AckPoint>, startTs: nat, startAck: u32, rate: nat, k: nat): int
    requires k < |points|
  {
    Consumed(points, startTs, rate, k + 1) - Gained(points, startAck, k)
  }

  /** The least amount that covers every balance among the first n. */
  predicate IsNeeded(points: seq<AckPoint>, startTs: nat, startAck: u32, rate: nat, n: nat, need: int)
    requires n <= |points|
  {
    && need >= 0
    && (forall k :: 0 <= k < n ==> Balance(points, startTs, startAck, rate, k) <= need)
    && (need == 0 || exists k :: 0 <= k < n && Balance(points, startTs, startAck, rate, k) == need)
  }

  /** Data buffered in advance lasts at every ACK exactly when there is at least as much as needed. */
  lemma NeedIsLeast(points: seq<AckPoint>, startTs: nat, startAck: u32, rate: nat, n: nat, need: int, buffered: nat)
    requires n <= |points| && IsNeeded(points, startTs, startAck, rate, n, need)
    ensures buffered >= need <==>
            forall k :: 0 <= k < n ==>
              Consumed(points, startTs, rate, k + 1) <= buffered + Gained(points, startAck, k)
  {
    hide Consumed;
    hide Gained;
    assert forall k :: 0 <= k < n ==>
      Balance(points, startTs, startAck, rate, k)
      == Consumed(points, startTs, rate, k + 1) - Gained(points, startAck, k);
    hide Balance;
    if need > buffered {
      var k :| 0 <= k < n && Balance(points, startTs, startAck, rate, k) == need;
      assert Consumed(points, startTs, rate, k + 1) > buffered + Gained(points, startAck, k);
    }
  }

  predicate InOrder(points: seq<AckPoint>, startTs: nat) {
    forall k :: 0 <= k < |points| ==>
      TimeBefore(points, startTs, k) <= points[k].ts < startTs + 0x1_0000_0000_0000_0000
  }

  lemma {:induction false} OrderedFromStart(points: seq<AckPoint>, startTs: nat, k: nat)
    requires InOrder(points, startTs) && k <= |points|
    ensures startTs <= TimeBefore(points, startTs, k)
  {
    if k > 0 {
      OrderedFromStart(points, startTs, k - 1);
    }
  }

  lemma RoundedSum(sum: int, bytes: nat, part: nat, k: nat)
    requires bytes * BITS_PER_SECOND <= sum <= (bytes + k) * BITS_PER_SECOND
    ensures var more := bytes + part / BITS_PER_SECOND;
            more * BITS_PER_SECOND <= sum + part < (more + k + 1) * BITS_PER_SECOND
  {
  }

  lemma WorkOfNothing(rate: nat)
    ensures Work(0, rate) == 0
  {
  }

  lemma ElapsedInOrder(ts: nat, since: nat)
    requires since <= ts < since + 0x1_0000_0000_0000_0000
    ensures Elapsed(ts, since) == ts - since
  {
  }

  lemma WorkAdds(a: int, b: int, rate: nat)
    ensures Work(a, rate) + Work(b, rate) == Work(a + b, rate)
  {
  }

  /** Rounding down loses less than one byte per ACK. */
  lemma {:induction false} ConsumedBounds(points: seq<AckPoint>, startTs: nat, rate: nat, k: nat)
    requires InOrder(points, startTs) && k <= |points|
    ensures var exact := Work(TimeBefore(points, startTs, k) - startTs, rate);
            && Consumed(points, startTs, rate, k) * 8_000_000 <= exact
            && exact <= (Consumed(points, startTs, rate, k) + k) * 8_000_000
            && (k > 0 ==> exact < (Consumed(points, startTs, rate, k) + k) * 8_000_000)
  {
    hide Work;
    hide Elapsed;
    if k == 0 {
      WorkOfNothing(rate);
    } else {
      ConsumedBounds(points, startTs, rate, k - 1);
      OrderedFromStart(points, startTs, k - 1);
      var t0, t1 := TimeBefore(points, startTs, k - 1), points[k - 1].ts;
      ElapsedInOrder(t1, t0);
      WorkAdds(t0 - startTs, t1 - t0, rate);
      RoundedSum(Work(t0 - startTs, rate), Consumed(points, startTs, rate, k - 1), Work(t1 - t0, rate), k - 1);
    }
  }

  function RunningMax(numbers: seq<int>, start: int, k: nat): (m: int)
    requires k <= |numbers|
    ensures m >= start
  {
    if k == 0 then start else Max(RunningMax(numbers, start, k - 1), numbers[k - 1])
  }

  /** When the numbers stay within the window of what is already acknowledged, the bytes gained are the advance of
      the highest number, across wraparounds. */
  lemma {:induction false} GainedExact(points: seq<AckPoint>, startAck: u32, numbers: seq<int>, start: int, k: nat)
    requires |numbers| == |points| && k <= |points| && startAck == Wrap(start)
    requires forall i :: 0 <= i < |points| ==> points[i].number == Wrap(numbers[i])
    requires forall i :: 0 <= i < |points| ==> -WINDOW <= numbers[i] - RunningMax(numbers, start, i) <= WINDOW
    ensures HighestAck(points, startAck, k) == Wrap(RunningMax(numbers, start, k))
    ensures Gained(points, startAck, k) == RunningMax(numbers, start, k) - start
  {
    if k > 0 {
      GainedExact(points, startAck, numbers, start, k - 1);
      var high := RunningMax(numbers, start, k - 1);
      GainedStep(numbers[k - 1], high);
      hide Wrap;
      hide Sub;
      hide After;
    }
  }

  lemma GainedStep(number: int, high: int)
    requires -WINDOW <= number - high <= WINDOW
    ensures After(Wrap(number), Wrap(high)) <==> number > high
    ensures Sub(Wrap(Max(high, number)), Wrap(high)) == Max(high, number) - high
  {
    AfterExact(number, high);
    SubExact(Max(high, number), high);
  }

  lemma {:induction false} GainedGrows(points: seq<AckPoint>, startTs: nat, startAck: u32, rate: nat, k: nat, n: nat)
    requires k <= n <= |points|
    ensures Gained(points, startAck, k) <= Gained(points, startAck, n)
    ensures Consumed(points, startTs, rate, k) <= Consumed(points, startTs, rate, n)
    decreases n
  {
    if k < n {
      GainedGrows(points, startTs, startAck, rate, k, n - 1);
      hide Sub;
      hide HighestAck;
      hide Elapsed;
      hide BytesIn;
    }
  }

  /** While the totals fit in 31 bits, no balance leaves the 32-bit signed range. */
  lemma BalanceFits(points: seq<AckPoint>, startTs: nat, startAck: u32, rate: nat, k: nat)
    requires k < |points|
    requires Consumed(points, startTs, rate, |points|) <= 0x7FFF_FFFF
    requires Gained(points, startAck, |points|) <= 0x8000_0000
    ensures Int32(Balance(points, startTs, startAck, rate, k))
    ensures Int32(Balance(points, startTs, startAck, rate, k)
                  - Sub(HighestAck(points, startAck, k + 1), HighestAck(points, startAck, k)))
  {
    GainedGrows(points, startTs, startAck, rate, k + 1, |points|);
    GainedGrows(points, startTs, startAck, rate, k, |points|);
  }
}
