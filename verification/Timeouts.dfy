/** When a retransmission is a timeout or a probe, how timeouts are counted and backed off, and what starts a timer. */
module Timeouts {
  import opened Arithmetic
  import opened SeqSpace
  import opened TcpSacks
  import opened TcpTimer
  import opened EndpointModel
  import opened Conservation
  import opened Retransmissions
  import opened EndpointInvariants
  import opened TimerProofs

  // ----- expiry

  /** The timer was started at that time, by a packet of the endpoint or by an ACK. */
  predicate StartedAt(t: TimerInfo, at: nat) {
    match t.armer
    case Nobody => false
    case Own(_, ts) => ts == at
    case Peer(ack) => ack.ts == at
  }

  /** At most a fifth of the delay before or after the expiry. */
  predicate OnTime(at: nat, delay: nat, ts: nat) {
    5 * (at + delay - ts) <= delay && 5 * (ts - (at + delay)) <= delay
  }

  /** The packet that started the timer is taken for a probe. */
  predicate StartedByProbe(e: Endpoint) {
    match e.timers.rto.armer
    case Nobody => false
    case Own(pos, _) => pos < |e.packets| && e.packets[pos].flags.isTlp
    case Peer(ack) => ack.isTlp
  }

  lemma WindowExact(t: TimerInfo, at: nat, ts: nat)
    requires StartedAt(t, at)
    ensures !OffSchedule(t, ts) <==> OnTime(at, t.delay, ts)
    ensures ArmerTs(t.armer) == at
  {
  }

  /** 64-bit microseconds since the start. */
  predicate Counts(elapsed: nat, ts: nat, at: nat) {
    at <= ts && ts - at < 0x1_0000_0000_0000_0000 ==> elapsed == ts - at
  }

  /** The packet is marked as a timeout, with the timer as it ran, the timeout is counted, and recovery starts. */
  predicate TimedOut(e: Endpoint, f: Endpoint, at: nat) {
    var ts := e.current.segment.ts;
    && f.timers.rtos == (e.timers.rtos + 1) % 256
    && f.timers.rto == e.timers.rto.(delay := f.timers.rto.delay) && Counts(f.timers.rto.delay, ts, at)
    && f.current == e.current.(flags := e.current.flags.(isRto := true), rtoInfo := f.timers.rto)
    && f.seqs == e.seqs.(rtoHigh := e.seqs.next)
    && f == e.(timers := e.timers.(rto := f.timers.rto, rtos := f.timers.rtos, tlpEnabled := f.timers.tlpEnabled),
               current := f.current, seqs := f.seqs, packets := f.packets)
  }

  /** Probes are given up at a first timeout that is none, and at a second one that was started by one, whose flag is
      taken back. */
  predicate ProbesReviewed(e: Endpoint, f: Endpoint) {
    var second := e.timers.rtos == 1 && StartedByProbe(e);
    && (f.timers.tlpEnabled <==> e.timers.tlpEnabled && (e.timers.rtos == 0 ==> e.current.flags.isTlp) && !second)
    && |f.packets| == |e.packets|
    && forall i :: 0 <= i < |e.packets| ==>
         f.packets[i] == if second && e.timers.rto.armer.Own? && e.timers.rto.armer.pos == i
                         then e.packets[i].(flags := e.packets[i].flags.(isTlp := false)) else e.packets[i]
  }

  lemma ElapsedCounts(ts: nat, at: nat)
    ensures Counts(Elapsed(ts, at), ts, at)
  {
  }

  lemma TakenTimesOut(e: Endpoint, at: nat)
    requires StartedAt(e.timers.rto, at) && e.timers.rtos < 256
    ensures TimedOut(e, TakeRto(e), at)
  {
    ElapsedCounts(e.current.segment.ts, at);
    hide Elapsed;
    hide Counts;
    hide ArmerIsTlp;
    hide WithFlags;
  }

  lemma StampedFrame(e: Endpoint)
    ensures var s := StampRto(e);
            && s.packets == e.packets && s.timers.rto.armer == e.timers.rto.armer
            && s.timers.rtos == (e.timers.rtos + 1) % 256
            && (s.timers.tlpEnabled <==>
                  e.timers.tlpEnabled && (s.timers.rtos != 1 || e.current.flags.isTlp))
  {
    hide Elapsed;
  }

  lemma TakenReviewsProbes(e: Endpoint)
    requires e.timers.rto.armer != Nobody && e.timers.rtos < 256
    ensures ProbesReviewed(e, TakeRto(e))
  {
    StampedFrame(e);
    var s := StampRto(e);
    hide StampRto;
    assert (e.timers.rtos + 1) % 256 == 2 <==> e.timers.rtos == 1;
    assert (e.timers.rtos + 1) % 256 == 1 <==> e.timers.rtos == 0;
    assert ArmerIsTlp(s, s.timers.rto.armer) <==> StartedByProbe(e);
  }

  /** A retransmission on time is a timeout. */
  lemma OnTimeIsTimeout(e: Endpoint, at: nat)
    requires StartedAt(e.timers.rto, at) && OnTime(at, e.timers.rto.delay, e.current.segment.ts) && e.timers.rtos < 256
    ensures CheckForRTO(e) == (TakeRto(e), true)
    ensures TimedOut(e, CheckForRTO(e).0, at) && ProbesReviewed(e, CheckForRTO(e).0)
  {
    WindowExact(e.timers.rto, at, e.current.segment.ts);
    TakenTimesOut(e, at);
    TakenReviewsProbes(e);
    hide OffSchedule;
    hide OnTime;
    hide TakeRto;
    hide TimedOut;
    hide ProbesReviewed;
  }

  /** Without a running timer there is no timeout, and none off time unless an earlier one can be taken back. */
  lemma OffTimeIsNone(e: Endpoint, at: nat)
    requires e.timers.rto.armer.Nobody? ||
             (StartedAt(e.timers.rto, at) && !OnTime(at, e.timers.rto.delay, e.current.segment.ts)
              && !(e.timers.tlpEnabled && e.timers.rtos == 1 && StartedByProbe(e)))
    ensures CheckForRTO(e) == (e, false)
  {
    if !e.timers.rto.armer.Nobody? {
      WindowExact(e.timers.rto, at, e.current.segment.ts);
    }
    hide OffSchedule;
    hide OnTime;
  }

  /** The one timeout so far was a probe: the timer that it started is set again as if it had not been counted. */
  predicate TakenBack(e: Endpoint, f: Endpoint) {
    && f.timers.rtos == 0 && f.seqs == e.seqs.(rtoHigh := 0)
    && f.timers.rto.armer == e.timers.rto.armer && f.timers.rto.delay == Rto(e.estimate, 0)
    && f.timers.rto.backoffs == 0 && f.timers.tlpEnabled == e.timers.tlpEnabled
    && f.current == e.current && |f.packets| == |e.packets|
    && forall i :: 0 <= i < |e.packets| ==>
         f.packets[i] == if e.timers.rto.armer.Own? && e.timers.rto.armer.pos == i
                         then e.packets[i].(flags := e.packets[i].flags.(isRto := false)) else e.packets[i]
  }

  lemma TakenBackIs(e: Endpoint)
    requires e.timers.rtos == 1
    ensures TakenBack(e, RevokeRto(e))
  {
    hide InFlight;
    hide Rto;
    hide Tlp;
  }

  /** Off time, the one timeout so far is taken back if a probe started the timer; the retransmission is then a timeout
      exactly when it is on time without backoff. */
  lemma TakenBackIff(e: Endpoint, at: nat)
    requires StartedAt(e.timers.rto, at) && !OnTime(at, e.timers.rto.delay, e.current.segment.ts)
    requires e.timers.tlpEnabled && e.timers.rtos == 1 && StartedByProbe(e)
    ensures CheckForRTO(e).1 <==> OnTime(at, Rto(e.estimate, 0), e.current.segment.ts)
    ensures CheckForRTO(e).1 ==> CheckForRTO(e).0.timers.rtos == 1
    ensures !CheckForRTO(e).1 ==> TakenBack(e, CheckForRTO(e).0)
  {
    var f := RevokeRto(e);
    WindowExact(e.timers.rto, at, e.current.segment.ts);
    TakenBackIs(e);
    hide RevokeRto;
    hide OffSchedule;
    assert CheckForRTO(e) == CheckForRTO(f);
    assert StartedAt(f.timers.rto, at);
    if OnTime(at, f.timers.rto.delay, e.current.segment.ts) {
      OnTimeIsTimeout(f, at);
    } else {
      OffTimeIsNone(f, at);
    }
    hide CheckForRTO;
  }

  /** A retransmission is a probe exactly when probes are on, it carries the last byte sent, and it is on time for the
      probe timer. */
  lemma ProbeIff(e: Endpoint, at: nat)
    requires e.timers.tlp.armer.Nobody? || StartedAt(e.timers.tlp, at)
    ensures var (f, isTlp) := CheckForTLP(e);
            var ts, g := e.current.segment.ts, e.current.segment;
            && (isTlp <==> !e.timers.tlp.armer.Nobody? && e.timers.tlpEnabled && Wrap(g.seqNo + g.len) == e.seqs.next
                           && OnTime(at, e.timers.tlp.delay, ts))
            && (!isTlp ==> f == e)
            && (isTlp ==>
                  && f == e.(timers := e.timers.(tlp := f.timers.tlp), current := f.current)
                  && f.timers.tlp == e.timers.tlp.(delay := f.timers.tlp.delay)
                  && Counts(f.timers.tlp.delay, ts, at)
                  && f.current == e.current.(flags := e.current.flags.(isTlp := true), tlpInfo := f.timers.tlp))
  {
    if !e.timers.tlp.armer.Nobody? {
      WindowExact(e.timers.tlp, at, e.current.segment.ts);
    }
    ElapsedCounts(e.current.segment.ts, at);
    hide OffSchedule;
    hide OnTime;
    hide Elapsed;
    hide Counts;
  }

  /** No ACK in the last two milliseconds. */
  predicate NoRecentAck(last: Option<Ack>, ts: nat) {
    last.Some? ==> 2_000 < ts - last.value.ts < 0x1_0000_0000_0000_0000
  }

  /** On time for the probe timer and off time for the retransmission timer. */
  predicate ProbeDue(e: Endpoint, tlpAt: nat, rtoAt: nat) {
    var ts, g := e.current.segment.ts, e.current.segment;
    && StartedAt(e.timers.tlp, tlpAt) && e.timers.tlpEnabled && Wrap(g.seqNo + g.len) == e.seqs.next
    && OnTime(tlpAt, e.timers.tlp.delay, ts)
    && StartedAt(e.timers.rto, rtoAt) && !OnTime(rtoAt, e.timers.rto.delay, ts)
    && !(e.timers.rtos == 1 && StartedByProbe(e))
  }

  lemma ArmedBy(e: Endpoint, armer: Armer)
    ensures var f := ArmTimers(e, armer);
            && f == e.(timers := e.timers.(rto := f.timers.rto, tlp := f.timers.tlp))
            && f.timers.rto.armer == armer && f.timers.rto.delay == Rto(e.estimate, e.timers.rtos)
            && f.timers.rto.backoffs == e.timers.rtos
  {
    hide Rto;
    hide Tlp;
    hide InFlight;
  }

  /** A probe that is no timeout starts the retransmission timer again without a further backoff, and stops the probe
      timer. */
  lemma ProbeStartsTimer(e: Endpoint, tlpAt: nat, rtoAt: nat)
    requires NoRecentAck(e.acks.last, e.current.segment.ts) && ProbeDue(e, tlpAt, rtoAt)
    ensures var f := FindRtxTrigger(e);
            && f.current.flags == e.current.flags.(isTlp := true)
            && f.timers.rto.armer == Own(|e.packets|, e.current.segment.ts) && f.timers.tlp == CLEARED
            && f.timers.rto.delay == Rto(e.estimate, e.timers.rtos) && f.timers.rtos == e.timers.rtos
            && f.packets == e.packets && f.seqs == e.seqs
  {
    ProbeIff(e, tlpAt);
    var e1 := CheckForTLP(e).0;
    assert StartedByProbe(e1) == StartedByProbe(e);
    OffTimeIsNone(e1, rtoAt);
    ArmedBy(e1, Own(|e.packets|, e.current.segment.ts));
    hide CheckForTLP;
    hide CheckForRTO;
    hide ArmTimers;
    hide OnTime;
    hide Rto;
    hide Counts;
  }

  // ----- retransmissions in a row

  predicate SameMarks(ps: seq<Packet>, qs: seq<Packet>) {
    |qs| == |ps| && forall i :: 0 <= i < |ps| ==>
      qs[i].segment == ps[i].segment && qs[i].flags.isRto == ps[i].flags.isRto && qs[i].rtoInfo == ps[i].rtoInfo
  }

  /** The packet is marked with the timer as it ran, and the timer starts again from this packet, one step longer. */
  predicate BackedOff(e: Endpoint, p: Packet, at: nat, timers: Timers) {
    && p.flags.isRto && p.rtoInfo == e.timers.rto.(delay := p.rtoInfo.delay)
    && Counts(p.rtoInfo.delay, p.segment.ts, at)
    && timers.rtos == (e.timers.rtos + 1) % 256
    && timers.rto.armer == Own(|e.packets|, p.segment.ts) && timers.tlp == CLEARED
    && timers.rto.delay == Rto(e.estimate, timers.rtos) && timers.rto.backoffs == timers.rtos
  }

  predicate SameRest(e: Endpoint, f: Endpoint) {
    f.estimate == e.estimate && f.acks == e.acks && f.mss == e.mss
    && f.seqs.next == e.seqs.next && f.seqs.ready == e.seqs.ready
  }

  lemma CheckForTLPFrame(e: Endpoint)
    ensures var f := CheckForTLP(e).0;
            && f == e.(timers := e.timers.(tlp := f.timers.tlp), current := f.current)
            && f.current == e.current.(flags := f.current.flags, tlpInfo := f.current.tlpInfo)
            && f.current.flags == e.current.flags.(isTlp := f.current.flags.isTlp)
  {
    hide OffSchedule;
    hide Elapsed;
  }

  /** One retransmission on time. */
  predicate Timed(e: Endpoint, f: Endpoint, at: nat) {
    && BackedOff(e, f.current, at, f.timers) && f.current.segment == e.current.segment
    && SameMarks(e.packets, f.packets) && SameRest(e, f)
  }

  predicate Due(e: Endpoint, ts: nat, at: nat) {
    && NoRecentAck(e.acks.last, ts) && e.acks.lookalikes == [] && e.timers.rtos < 256
    && StartedAt(e.timers.rto, at) && OnTime(at, e.timers.rto.delay, ts)
  }

  lemma StartedAgain(e: Endpoint, at: nat)
    requires TimedOut(e, TakeRto(e), at) && ProbesReviewed(e, TakeRto(e))
    ensures var f := ArmTimers(TakeRto(e), Own(|e.packets|, e.current.segment.ts));
            Timed(e, f.(timers := f.timers.(tlp := CLEARED)), at)
  {
    var f := TakeRto(e);
    hide TakeRto;
    ArmedBy(f, Own(|e.packets|, e.current.segment.ts));
    hide ArmTimers;
    hide Rto;
    hide Counts;
  }

  lemma ProbedTimed(e: Endpoint, e1: Endpoint, f: Endpoint, at: nat)
    requires e1 == e.(timers := e.timers.(tlp := e1.timers.tlp), current := e1.current)
    requires e1.current.segment == e.current.segment && Timed(e1, f, at)
    ensures Timed(e, f, at)
  {
  }

  lemma FoundTimeout(e: Endpoint, at: nat)
    requires Due(e, e.current.segment.ts, at)
    ensures Timed(e, FindRtxTrigger(e), at)
  {
    var e1 := CheckForTLP(e).0;
    CheckForTLPFrame(e);
    hide CheckForTLP;
    assert e1.packets == e.packets;
    OnTimeIsTimeout(e1, at);
    StartedAgain(e1, at);
    var f := ArmTimers(TakeRto(e1), Own(|e.packets|, e.current.segment.ts));
    hide TakeRto;
    hide CheckForRTO;
    hide ArmTimers;
    hide ProbesReviewed;
    hide Timed;
    ProbedTimed(e, e1, f.(timers := f.timers.(tlp := CLEARED)), at);
  }

  /** Linking and marking touch neither the timers nor their marks. */
  predicate Untimed(e: Endpoint, f: Endpoint) {
    && SameMarks(e.packets, f.packets) && SameRest(e, f) && f.timers == e.timers
    && f.current.segment == e.current.segment && f.current.rtoInfo == e.current.rtoInfo
    && f.current.flags == e.current.flags && f.current.trigger == e.current.trigger
  }

  lemma LinkUntimed(e: Endpoint)
    ensures Untimed(e, LinkToPreviousTx(e).0)
  {
    LinkExact(e);
    hide LinkToPreviousTx;
    hide InChain;
    hide CoversStart;
  }

  lemma TimedThenUntimed(e: Endpoint, f: Endpoint, g: Endpoint, at: nat)
    requires Timed(e, f, at) && Untimed(f, g)
    ensures Timed(e, g, at)
  {
  }

  lemma MarkUntimed(e: Endpoint)
    ensures Untimed(e, NoteUnmatched(e)) && Untimed(e, MarkOutOfOrder(e))
  {
  }

  lemma UntimedTransitive(e: Endpoint, f: Endpoint, g: Endpoint)
    requires Untimed(e, f) && Untimed(f, g)
    ensures Untimed(e, g)
  {
  }

  lemma LinkedAndMarkedUntimed(e: Endpoint)
    ensures var (f, linked) := LinkToPreviousTx(e);
            Untimed(e, MarkOutOfOrder(if linked then f else NoteUnmatched(f)))
  {
    var (f, linked) := LinkToPreviousTx(e);
    LinkUntimed(e);
    MarkUntimed(f);
    MarkUntimed(if linked then f else NoteUnmatched(f));
    hide *;
    if linked {
      UntimedTransitive(e, f, MarkOutOfOrder(f));
    } else {
      UntimedTransitive(e, f, NoteUnmatched(f));
      UntimedTransitive(e, NoteUnmatched(f), MarkOutOfOrder(NoteUnmatched(f)));
    }
  }

  lemma FlaggedTimed(e: Endpoint, f: Endpoint, flags: Flags, at: nat)
    requires Timed(e.(current := e.current.(flags := flags)), f, at)
    ensures Timed(e, f, at)
  {
  }

  lemma ProcessRtxTimed(e: Endpoint, at: nat)
    requires Due(e, e.current.segment.ts, at)
    ensures Timed(e, ProcessRtx(e), at)
  {
    var flags := e.current.flags.(isRtx := true);
    var e1 := e.(current := e.current.(flags := flags));
    assert CheckLookalikesFrom(e, 0) == e;
    assert Due(e1, e1.current.segment.ts, at);
    var e2 := FindRtxTrigger(e1);
    var (e3, linked) := LinkToPreviousTx(e2);
    assert ProcessRtx(e) == MarkOutOfOrder(if linked then e3 else NoteUnmatched(e3));
    hide *;
    FoundTimeout(e1, at);
    FlaggedTimed(e, e2, flags, at);
    LinkedAndMarkedUntimed(e2);
    TimedThenUntimed(e, e2, MarkOutOfOrder(if linked then e3 else NoteUnmatched(e3)), at);
  }

  /** A packet that needs an acknowledgment and carries nothing new. */
  predicate Repeats(e: Endpoint, g: Segment) {
    RequiresAck(g) && if g.len != 0 then !After(SeqEnd(g), e.seqs.next) else e.unacked != []
  }

  predicate SentOnTime(e: Endpoint, f: Endpoint, g: Segment, at: nat) {
    && |f.packets| == |e.packets| + 1
    && BackedOff(e, f.packets[|e.packets|], at, f.timers) && f.packets[|e.packets|].segment == g
    && SameMarks(e.packets, f.packets[..|e.packets|]) && SameRest(e, f) && f.unacked != []
  }

  lemma PushTimed(e: Endpoint, f: Endpoint, at: nat)
    requires Timed(e, f, at)
    ensures SentOnTime(e, Push(Outstanding(f)), e.current.segment, at)
  {
  }

  lemma OnTimeStep(e: Endpoint, g: Segment, at: nat)
    requires Repeats(e, g) && Due(e, g.ts, at)
    ensures SentOnTime(e, AddWirePacket(e, g), g, at)
  {
    var e1 := Begin(e, g);
    hide Rto;
    hide Tlp;
    hide OnTime;
    hide Counts;
    hide ProcessRtx;
    if g.len != 0 {
      var e2 := e1.(seqs := AdvanceNext(e1.seqs, SeqEnd(g)));
      ProcessRtxTimed(e2, at);
      assert Timed(e1, WithSnapshot(ProcessRtx(e2)), at);
      PushTimed(e1, SendData(e1), at);
    } else {
      ProcessRtxTimed(e1, at);
      PushTimed(e1, SendSyn(e1), at);
    }
  }

  /** The timeout after k in a row. */
  function Doubled(rto: u32, k: nat): nat {
    if k == 0 then rto else Min(Pow2(k) * rto, 120_000_000)
  }

  lemma RtoIsDoubled(e: Estimate, k: nat)
    requires Rto(e, 0) < 0x8000_0000
    ensures Rto(e, k) == Doubled(Rto(e, 0), k)
  {
    if k > 0 {
      BackoffBelowWrap(Rto(e, 0), k);
    }
  }

  function LastSent(at: nat, gs: seq<Segment>): nat {
    if gs == [] then at else gs[|gs| - 1].ts
  }

  /** The packet carries nothing new and is sent when the time since the one before is about the timeout after n in a
      row. */
  predicate Follows(e: Endpoint, g: Segment, since: nat, n: nat) {
    && Repeats(e, g) && NoRecentAck(e.acks.last, g.ts)
    && OnTime(since, Doubled(Rto(e.estimate, 0), n), g.ts)
  }

  /** Packets that each follow the one before. */
  predicate InARow(e: Endpoint, at: nat, gs: seq<Segment>) {
    gs == [] ||
    (var n := |gs| - 1;
     InARow(e, at, gs[..n]) && Follows(e, gs[n], LastSent(at, gs[..n]), n))
  }

  /** The timer was started then and runs with the timeout after k in a row. */
  predicate Running(e: Endpoint, at: nat, rto: u32, k: nat) {
    && e.timers.rtos == k && e.timers.rto.backoffs == k && e.timers.rto.delay == Doubled(rto, k)
    && StartedAt(e.timers.rto, at)
  }

  /** Timeout k in a row, counted from zero; its delay is the backed-off timeout when it is sent exactly then. */
  predicate IsTimeout(p: Packet, g: Segment, at: nat, rto: u32, k: nat) {
    && p.segment == g && p.flags.isRto && p.rtoInfo.backoffs == k
    && Counts(p.rtoInfo.delay, g.ts, at)
    && (g.ts == at + Doubled(rto, k) ==> p.rtoInfo.delay == Doubled(rto, k))
  }

  lemma NextTimeout(e: Endpoint, f: Endpoint, g: Segment, at: nat, k: nat)
    requires Running(e, at, Rto(e.estimate, 0), k) && SentOnTime(e, f, g, at) && k < 255
    requires Rto(e.estimate, 0) < 0x8000_0000
    ensures Running(f, g.ts, Rto(e.estimate, 0), k + 1)
    ensures IsTimeout(f.packets[|e.packets|], g, at, Rto(e.estimate, 0), k)
  {
    RtoIsDoubled(e.estimate, k + 1);
    hide Rto;
    assert Doubled(Rto(e.estimate, 0), k) < 0x1_0000_0000_0000_0000;
  }

  /** Before the first of a row: the timer runs without backoff, and no lookalikes wait. */
  predicate Fresh(e: Endpoint, at: nat) {
    && Running(e, at, Rto(e.estimate, 0), 0) && Rto(e.estimate, 0) < 0x8000_0000
    && e.unacked != [] && e.acks.lookalikes == []
  }

  predicate AfterTimeout(e: Endpoint, f: Endpoint, g: Segment, since: nat, n: nat) {
    && SentOnTime(e, f, g, since) && Running(f, g.ts, Rto(e.estimate, 0), n + 1)
    && IsTimeout(f.packets[|e.packets|], g, since, Rto(e.estimate, 0), n)
  }

  lemma RowStep(e: Endpoint, g: Segment, since: nat, n: nat)
    requires Running(e, since, Rto(e.estimate, 0), n) && Rto(e.estimate, 0) < 0x8000_0000 && n < 255
    requires e.acks.lookalikes == [] && Follows(e, g, since, n)
    ensures AfterTimeout(e, AddWirePacket(e, g), g, since, n)
  {
    assert Due(e, g.ts, since);
    OnTimeStep(e, g, since);
    hide AddWirePacket;
    NextTimeout(e, AddWirePacket(e, g), g, since, n);
    hide *;
  }

  /** A state in the row, at which the next packet of the row is due. */
  predicate InRow(e: Endpoint, f: Endpoint, since: nat, n: nat) {
    && Running(f, since, Rto(e.estimate, 0), n) && SameRest(e, f) && f.unacked != []
    && |f.packets| == |e.packets| + n
  }

  lemma RowGoesOn(e: Endpoint, at: nat, f: Endpoint, g: Segment, since: nat, n: nat)
    requires Fresh(e, at) && InRow(e, f, since, n) && Follows(e, g, since, n) && n < 255
    ensures AfterTimeout(f, AddWirePacket(f, g), g, since, n) && InRow(e, AddWirePacket(f, g), g.ts, n + 1)
  {
    hide Doubled;
    hide OnTime;
    hide AddWirePacket;
    assert Follows(f, g, since, n);
    RowStep(f, g, since, n);
    hide Running;
    hide Follows;
    hide IsTimeout;
    hide BackedOff;
  }

  /** Retransmissions in a row, each on time, are all counted, and the timer runs from the last one with a delay doubled
      as many times, up to the maximum. */
  lemma {:induction false} TimeoutsCounted(e: Endpoint, at: nat, gs: seq<Segment>)
    requires Fresh(e, at) && InARow(e, at, gs) && |gs| < 256
    ensures InRow(e, AddWirePackets(e, gs), LastSent(at, gs), |gs|)
  {
    if gs != [] {
      var n := |gs| - 1;
      TimeoutsCounted(e, at, gs[..n]);
      hide InRow;
      hide AddWirePacket;
      RowGoesOn(e, at, AddWirePackets(e, gs[..n]), gs[n], LastSent(at, gs[..n]), n);
    }
  }

  lemma RowParts(e: Endpoint, at: nat, gs: seq<Segment>)
    requires InARow(e, at, gs) && gs != []
    ensures var n := |gs| - 1;
            && InARow(e, at, gs[..n]) && Follows(e, gs[n], LastSent(at, gs[..n]), n)
            && AddWirePackets(e, gs) == AddWirePacket(AddWirePackets(e, gs[..n]), gs[n])
  {
    hide AddWirePacket;
    hide Follows;
  }

  lemma PrefixOfPrefix(gs: seq<Segment>, k: nat, n: nat)
    requires k < n <= |gs|
    ensures gs[..n][..k] == gs[..k] && gs[..n][k] == gs[k]
  {
  }

  /** Packet i of the row was this timeout. */
  predicate TimeoutAt(e: Endpoint, f: Endpoint, at: nat, gs: seq<Segment>, k: nat) {
    && |e.packets| + k < |f.packets| && k < |gs|
    && IsTimeout(f.packets[|e.packets| + k], gs[k], LastSent(at, gs[..k]), Rto(e.estimate, 0), k)
  }

  lemma LastTimeoutAt(e: Endpoint, f: Endpoint, h: Endpoint, at: nat, gs: seq<Segment>)
    requires gs != [] && InRow(e, f, LastSent(at, gs[..|gs| - 1]), |gs| - 1)
    requires AfterTimeout(f, h, gs[|gs| - 1], LastSent(at, gs[..|gs| - 1]), |gs| - 1)
    ensures TimeoutAt(e, h, at, gs, |gs| - 1)
  {
    hide IsTimeout;
    hide Running;
    hide BackedOff;
    hide Rto;
  }

  lemma TimeoutKept(e: Endpoint, f: Endpoint, h: Endpoint, g: Segment, since: nat, at: nat, gs: seq<Segment>, k: nat)
    requires k < |gs| - 1 && AfterTimeout(f, h, g, since, |gs| - 1)
    requires TimeoutAt(e, f, at, gs[..|gs| - 1], k)
    ensures TimeoutAt(e, h, at, gs, k)
  {
    var i := |e.packets| + k;
    PrefixOfPrefix(gs, k, |gs| - 1);
    assert h.packets[..|f.packets|][i] == h.packets[i];
    hide Counts;
    hide Doubled;
    hide BackedOff;
    hide Running;
    hide Rto;
    hide LastSent;
  }

  /** The k-th of them is marked as a timeout that ran with k - 1 backoffs. */
  lemma {:induction false} TimeoutsInARow(e: Endpoint, at: nat, gs: seq<Segment>, k: nat)
    requires Fresh(e, at) && InARow(e, at, gs) && k < |gs| < 256
    ensures TimeoutAt(e, AddWirePackets(e, gs), at, gs, k)
  {
    hide *;
    var n := |gs| - 1;
    var f := AddWirePackets(e, gs[..n]);
    var since := LastSent(at, gs[..n]);
    RowParts(e, at, gs);
    TimeoutsCounted(e, at, gs[..n]);
    RowGoesOn(e, at, f, gs[n], since, n);
    if k < n {
      TimeoutsInARow(e, at, gs[..n], k);
      TimeoutKept(e, f, AddWirePacket(f, gs[n]), gs[n], since, at, gs, k);
    } else {
      LastTimeoutAt(e, f, AddWirePacket(f, gs[n]), at, gs);
    }
  }

  function Sends(gs: seq<Segment>): seq<Event> {
    if gs == [] then [] else Sends(gs[..|gs| - 1]) + [Send(gs[|gs| - 1])]
  }

  lemma WholePacket(e: Endpoint, g: Segment)
    requires e.seqs.ready && 0 < e.mss && g.len <= e.mss
    ensures Step(e, Send(g)) == AddWirePacket(e, g)
  {
    hide AddWirePacket;
    assert [g][..0] == [];
    assert AddWirePackets(e, [g]) == AddWirePacket(e, g);
  }

  /** Such a row is a run of captured packets, when none of them is larger than the segment size. */
  lemma {:induction false} RowIsRun(e: Endpoint, at: nat, gs: seq<Segment>)
    requires Fresh(e, at) && InARow(e, at, gs) && |gs| < 256
    requires e.seqs.ready && 0 < e.mss && forall k :: 0 <= k < |gs| ==> gs[k].len <= e.mss
    ensures Run(e, Sends(gs)) == AddWirePackets(e, gs)
  {
    if gs != [] {
      var n := |gs| - 1;
      RowParts(e, at, gs);
      RowIsRun(e, at, gs[..n]);
      TimeoutsCounted(e, at, gs[..n]);
      hide InARow;
      hide Follows;
      hide Fresh;
      hide Running;
      hide AddWirePacket;
      hide Step;
      WholePacket(AddWirePackets(e, gs[..n]), gs[n]);
      assert Sends(gs)[..|Sends(gs)| - 1] == Sends(gs[..n]);
    }
  }

  // ----- what starts a timer

  predicate NoneInFlight(ps: seq<Packet>, positions: seq<nat>) {
    forall x :: x in positions && x < |ps| ==> IsLost(ps, ps[x])
  }

  /** Exactly one of the listed packets is not lost. */
  ghost predicate OneInFlight(ps: seq<Packet>, positions: seq<nat>) {
    exists x :: x in positions && x < |ps| && !IsLost(ps, ps[x])
                && forall y :: y in positions && y < |ps| && !IsLost(ps, ps[y]) ==> y == x
  }

  lemma {:induction false} NoneInFlightExact(ps: seq<Packet>, positions: seq<nat>)
    requires Increasing(positions)
    ensures InFlight(ps, positions) == 0 <==> NoneInFlight(ps, positions)
  {
    if positions != [] {
      LastIsGreatest(positions);
      NoneInFlightExact(ps, positions[..|positions| - 1]);
      hide Increasing;
      hide IsLost;
    }
  }

  lemma {:induction false} OneInFlightExact(ps: seq<Packet>, positions: seq<nat>)
    requires Increasing(positions)
    ensures InFlight(ps, positions) == 1 <==> OneInFlight(ps, positions)
  {
    if positions == [] {
      assert !OneInFlight(ps, positions);
    } else {
      LastIsGreatest(positions);
      OneInFlightExact(ps, positions[..|positions| - 1]);
      OneInFlightStep(ps, positions);
      hide *;
    }
  }

  lemma OneInFlightStep(ps: seq<Packet>, positions: seq<nat>)
    requires positions != [] && Increasing(positions)
    requires var rest := positions[..|positions| - 1]; InFlight(ps, rest) == 1 <==> OneInFlight(ps, rest)
    ensures InFlight(ps, positions) == 1 <==> OneInFlight(ps, positions)
  {
    var n := |positions| - 1;
    var flying := positions[n] < |ps| && !IsLost(ps, ps[positions[n]]);
    assert OneInFlight(ps, positions) <==>
           if flying then NoneInFlight(ps, positions[..n]) else OneInFlight(ps, positions[..n]) by {
      LastIsGreatest(positions);
      OneInFlightSnoc(ps, positions, positions[..n], positions[n]);
    }
    assert NoneInFlight(ps, positions[..n]) <==> InFlight(ps, positions[..n]) == 0 by {
      LastIsGreatest(positions);
      NoneInFlightExact(ps, positions[..n]);
    }
    assert InFlight(ps, positions) == InFlight(ps, positions[..n]) + if flying then 1 else 0;
    hide *;
  }

  lemma OneInFlightSnoc(ps: seq<Packet>, positions: seq<nat>, rest: seq<nat>, last: nat)
    requires forall x :: x in positions <==> x in rest || x == last
    requires last !in rest
    ensures OneInFlight(ps, positions) <==>
            if last < |ps| && !IsLost(ps, ps[last]) then NoneInFlight(ps, rest) else OneInFlight(ps, rest)
  {
    hide IsLost;
  }

  lemma SendArms(e: Endpoint)
    requires e.timers.rto.armer.Nobody? && e.unacked == [] && e.current.links.rtx.None?
    ensures var f, armer := Outstanding(e), Own(|e.packets|, e.current.segment.ts);
            && f.timers.rto == TimerInfo(armer, Rto(e.estimate, e.timers.rtos), e.timers.rtos, e.timers.rto.delayedAck)
            && f.timers.tlp == TimerInfo(armer, Tlp(e.estimate, true), e.timers.tlp.backoffs, true)
            && f.timers == e.timers.(rto := f.timers.rto, tlp := f.timers.tlp)
  {
    hide Rto;
    hide Tlp;
    var ps, positions := All(e), [|e.packets|];
    assert positions[..0] == [] && InFlight(ps, positions[..0]) == 0;
    assert InFlight(ps, positions) == 1;
  }

  /** A retransmission while nothing is outstanding starts and stops no timer. */
  lemma IdleRtx(e: Endpoint)
    requires e.timers.rto.armer.Nobody? && e.timers.tlp.armer.Nobody? && e.unacked == []
    ensures var f := ProcessRtx(e);
            && f.timers == e.timers && f.unacked == [] && f.estimate == e.estimate && |f.packets| == |e.packets|
            && f.current.segment == e.current.segment && f.current.links.rtx == e.current.links.rtx
  {
    var e1 := e.(current := e.current.(flags := e.current.flags.(isRtx := true)));
    assert CheckLookalikesFrom(e, 0) == e;
    var e2 := FindRtxTrigger(e1);
    IdleFound(e1);
    LinkExact(e2);
    hide FindRtxTrigger;
    hide LinkToPreviousTx;
    hide CheckLookalikesFrom;
    hide InChain;
    hide CoversStart;
  }

  lemma IdleFound(e: Endpoint)
    requires e.timers.rto.armer.Nobody? && e.timers.tlp.armer.Nobody?
    ensures var f := FindRtxTrigger(e);
            && f == e.(current := f.current)
            && f.current == e.current.(flags := f.current.flags, trigger := f.current.trigger)
  {
    hide Elapsed;
  }

  /** The first packet after everything was acknowledged starts both timers, from its own timestamp and with the current
      timeout, and the probe allows for a delayed ACK because it is the only one; with packets outstanding, new data
      leaves the timers alone (rule 5.1 of RFC 6298). */
  lemma SendStartsTimers(e: Endpoint, g: Segment)
    requires Invariant(e) && RequiresAck(g)
    ensures var f, armer := AddWirePacket(e, g), Own(|e.packets|, g.ts);
            && (e.unacked == [] ==>
                  && f.timers.rto.armer == armer && f.timers.rto.delay == Rto(e.estimate, e.timers.rtos)
                  && f.timers.rto.backoffs == e.timers.rtos
                  && f.timers.tlp == TimerInfo(armer, Tlp(e.estimate, true), e.timers.tlp.backoffs, true)
                  && f.timers == e.timers.(rto := f.timers.rto, tlp := f.timers.tlp))
            && (e.unacked != [] && g.len != 0 && After(SeqEnd(g), e.seqs.next) ==> f.timers == e.timers)
  {
    assert TimersOk(e) && SequencesOk(e.seqs);
    hide Invariant;
    var e1 := Begin(e, g);
    AdvanceNextExact(e.seqs, SeqEnd(g));
    var e2 := e1.(seqs := AdvanceNext(e.seqs, SeqEnd(g)));
    if e.unacked == [] {
      IdleRtx(e2);
      hide ProcessRtx;
      SendArms(if g.len != 0 then SendData(e1) else SendSyn(e1));
      hide Outstanding;
      hide Rto;
      hide Tlp;
    } else {
      hide ProcessRtx;
    }
  }

  /** Losses look the same while an ACK is being recorded. */
  lemma AckedInFlight(e: Endpoint, ack: Ack, positions: seq<nat>)
    requires Invariant(e) && forall x :: x in positions ==> x < |e.packets|
    ensures var f := HandleAll(e, e.unacked, ack);
            OneInFlight(All(f), positions) <==> OneInFlight(e.packets, positions)
  {
    var f := HandleAll(e, e.unacked, ack);
    HandleAllExact(e, e.unacked, ack);
    HandleAllFrame(e, e.unacked, ack);
    assert Forest(e.packets);
    hide HandleAll;
    hide Invariant;
    hide CoversStart;
    hide AckedAt;
    forall x | x in positions
      ensures x < |All(f)| && IsLost(All(f), All(f)[x]) == IsLost(e.packets, e.packets[x])
    {
      assert LinkedAt(e.packets, x);
      assert All(f)[x].links == e.packets[x].links;
    }
    hide Forest;
    hide IsLost;
  }

  /** An ACK that acknowledges some but not all outstanding packets starts both timers from the ACK, and the probe
      allows for a delayed ACK when a single packet in flight is left. */
  lemma AckStartsTimers(e: Endpoint, ack: Ack)
    requires Invariant(e) && ProcessAck(e, ack).unacked != [] && ProcessAck(e, ack).unacked != e.unacked
    ensures var f := ProcessAck(e, ack);
            && f.timers.rto.armer == Peer(ack) && f.timers.rto.backoffs == e.timers.rtos
            && f.timers.rto.delay == Rto(f.estimate, e.timers.rtos)
            && f.timers.tlp.armer == Peer(ack) && f.timers.tlp.delay == Tlp(f.estimate, f.timers.tlp.delayedAck)
            && (f.timers.tlp.delayedAck <==> OneInFlight(e.packets, f.unacked))
  {
    var e1 := Advance(e, ack);
    AdvanceInvariant(e, ack);
    AdvanceShape(e, ack);
    ProcessAckStages(e, ack);
    hide ProcessAck;
    hide Advance;
    hide DSackPackets;
    hide Trimmed;
    hide AddAll;
    hide Rto;
    hide Tlp;
    AckPacketsArm(e1, ack);
    hide AckPackets;
    hide Invariant;
    hide OneInFlight;
  }

  lemma AckPacketsArm(e: Endpoint, ack: Ack)
    requires Invariant(e) && AckPackets(e, ack).unacked != [] && AckPackets(e, ack).unacked != e.unacked
    ensures var f := AckPackets(e, ack);
            && f.timers.rto.armer == Peer(ack) && f.timers.rto.backoffs == e.timers.rtos
            && f.timers.rto.delay == Rto(f.estimate, e.timers.rtos)
            && f.timers.tlp.armer == Peer(ack) && f.timers.tlp.delay == Tlp(f.estimate, f.timers.tlp.delayedAck)
            && (f.timers.tlp.delayedAck <==> OneInFlight(e.packets, f.unacked))
  {
    var kept := Kept(e, e.unacked, ack.sacks);
    assert Increasing(e.unacked) && forall x :: x in e.unacked ==> x < |e.packets|;
    KeptAll(e, e.unacked, ack.sacks);
    KeptExact(e, e.unacked, ack.sacks);
    HandleAllFrame(e, e.unacked, ack);
    AckedInFlight(e, ack, kept);
    OneInFlightExact(All(HandleAll(e, e.unacked, ack)), kept);
    hide Invariant;
    hide Increasing;
    hide AckedAt;
    hide HandleAll;
    hide Kept;
    hide InFlight;
    hide OneInFlight;
    hide Rto;
    hide Tlp;
  }
}
