/** Which packet an ACK was triggered by, and which trigger a retransmission takes from it. */
module Triggers {
  import opened SeqSpace
  import opened TcpSacks
  import opened TcpTimer
  import opened EndpointModel
  import opened Frames
  import opened Conservation
  import opened EndpointInvariants
  import opened Timeouts

  /** The most recent of the packets that are no longer outstanding. */
  predicate LastAcked(before: seq<nat>, after: seq<nat>, x: nat) {
    x in before && x !in after && forall y :: y in before && y > x ==> y in after
  }

  lemma {:induction false} LastAckedExists(before: seq<nat>, after: seq<nat>, y: nat)
    requires Increasing(before) && y in before && y !in after
    ensures exists x: nat :: LastAcked(before, after, x)
  {
    var n := |before| - 1;
    LastIsGreatest(before);
    if before[n] in after {
      LastAckedExists(before[..n], after, y);
      var x: nat :| LastAcked(before[..n], after, x);
      assert LastAcked(before, after, x);
    } else {
      assert LastAcked(before, after, before[n]);
    }
  }

  lemma NothingLeft(xs: seq<nat>)
    ensures forall x :: !LastAcked(xs, xs, x)
  {
  }

  lemma HandleAckedTrigger(e: Endpoint, pos: nat, ack: Ack)
    requires pos < |e.packets|
    ensures HandleAcked(e, pos, ack).acks.triggers == e.acks.triggers[ack.id := pos]
    ensures |HandleAcked(e, pos, ack).packets| == |e.packets|
  {
    hide Sampled;
  }

  lemma {:induction false} HandleAllOthers(e: Endpoint, positions: seq<nat>, ack: Ack, x: nat)
    requires forall y :: y in positions ==> y < |e.packets|
    ensures HandleAll(e, positions, ack).acks.triggers[ack.id := x] == e.acks.triggers[ack.id := x]
    ensures |HandleAll(e, positions, ack).packets| == |e.packets|
  {
    if positions != [] {
      hide AckedAt;
      var n := |positions| - 1;
      assert forall y :: y in positions[..n] ==> y in positions;
      assert positions[n] in positions;
      HandleAllOthers(e, positions[..n], ack, x);
      HandleAckedTrigger(HandleAll(e, positions[..n], ack), positions[n], ack);
      hide HandleAcked;
    }
  }

  lemma {:induction false} HandleAllNone(e: Endpoint, positions: seq<nat>, ack: Ack)
    requires forall y :: y in positions ==> !AckedAt(e, y, ack.sacks)
    ensures HandleAll(e, positions, ack) == e
  {
    if positions != [] {
      hide AckedAt;
      assert positions[|positions| - 1] in positions;
      HandleAllNone(e, positions[..|positions| - 1], ack);
    }
  }

  lemma {:induction false} HandleAllLast(e: Endpoint, positions: seq<nat>, ack: Ack, x: nat)
    requires Increasing(positions) && forall y :: y in positions ==> y < |e.packets|
    requires x in positions && AckedAt(e, x, ack.sacks)
    requires forall y :: y in positions && y > x ==> !AckedAt(e, y, ack.sacks)
    ensures HandleAll(e, positions, ack).acks.triggers == e.acks.triggers[ack.id := x]
  {
    hide AckedAt;
    var n := |positions| - 1;
    LastIsGreatest(positions);
    hide Increasing;
    if x == positions[n] {
      HandleAllOthers(e, positions[..n], ack, x);
      HandleAckedTrigger(HandleAll(e, positions[..n], ack), x, ack);
      hide HandleAcked;
    } else {
      HandleAllLast(e, positions[..n], ack, x);
    }
  }

  lemma AckPacketsTrigger(e: Endpoint, ack: Ack)
    requires Conserved(e.packets, e.unacked)
    ensures var f := AckPackets(e, ack);
            && f.acks == e.acks.(minRtt := f.acks.minRtt, triggers := f.acks.triggers,
                                 lastWithTrigger := if f.unacked == e.unacked then e.acks.lastWithTrigger
                                                    else Some(ack))
            && (f.unacked == e.unacked ==> f.acks.triggers == e.acks.triggers)
            && forall x :: LastAcked(e.unacked, f.unacked, x) ==> f.acks.triggers == e.acks.triggers[ack.id := x]
  {
    var f := AckPackets(e, ack);
    assert Increasing(e.unacked) && forall x :: x in e.unacked ==> x < |e.packets|;
    AckPacketsExact(e, ack);
    HandleAllFrame(e, e.unacked, ack);
    KeptAll(e, e.unacked, ack.sacks);
    assert f.unacked == Kept(e, e.unacked, ack.sacks) && f.acks.triggers == HandleAll(e, e.unacked, ack).acks.triggers;
    hide AckPackets;
    hide AckedAt;
    hide HandleAll;
    hide Conserved;
    hide Increasing;
    hide Acking;
    if f.unacked == e.unacked {
      HandleAllNone(e, e.unacked, ack);
    }
    forall x | LastAcked(e.unacked, f.unacked, x)
      ensures f.acks.triggers == e.acks.triggers[ack.id := x]
    {
      HandleAllLast(e, e.unacked, ack, x);
    }
  }

  lemma AdvanceAcks(e: Endpoint, ack: Ack)
    ensures var f := Advance(e, ack);
            && f.packets == e.packets && f.unacked == e.unacked
            && f.acks.triggers == e.acks.triggers && f.acks.lastWithTrigger == e.acks.lastWithTrigger
            && f.acks.last == Some(ack)
  {
  }

  /** A list that changes loses a position. */
  lemma {:induction false} KeptLoses(e: Endpoint, positions: seq<nat>, sacks: seq<Sack>)
    requires Kept(e, positions, sacks) != positions
    ensures exists y: nat :: y in positions && AckedAt(e, y, sacks)
  {
    hide AckedAt;
    var n := |positions| - 1;
    if AckedAt(e, positions[n], sacks) {
      assert positions[n] in positions;
    } else {
      assert positions == positions[..n] + [positions[n]];
      KeptLoses(e, positions[..n], sacks);
      assert forall y :: y in positions[..n] ==> y in positions;
    }
  }

  lemma AckPacketsLoses(e: Endpoint, ack: Ack)
    requires Conserved(e.packets, e.unacked) && AckPackets(e, ack).unacked != e.unacked
    ensures exists y: nat :: y in e.unacked && y !in AckPackets(e, ack).unacked
  {
    AckPacketsShape(e, ack);
    hide AckPackets;
    KeptLoses(e, e.unacked, ack.sacks);
    KeptExact(e, e.unacked, ack.sacks);
    hide AckedAt;
  }

  lemma ProcessedAcks(e: Endpoint, ack: Ack)
    ensures var f, e1 := ProcessAck(e, ack), Advance(e, ack);
            if Moves(e.seqs, ack) || HasSacks(ack) then
              f.acks == AckPackets(e1, ack).acks && f.unacked == AckPackets(e1, ack).unacked
            else f.acks == e1.acks && f.unacked == e1.unacked
  {
    ProcessAckStages(e, ack);
    hide ProcessAck;
    hide AckPackets;
    hide Advance;
    hide DSackPackets;
  }

  /** The trigger of an ACK is the most recent packet that it acknowledges, for a cumulative ACK of many packets as
      well; the triggers of all other ACKs stay. */
  lemma TriggerOfAck(e: Endpoint, ack: Ack)
    requires Invariant(e)
    ensures var f := ProcessAck(e, ack);
            && (f.unacked == e.unacked ==>
                  f.acks.triggers == e.acks.triggers && f.acks.lastWithTrigger == e.acks.lastWithTrigger)
            && (f.unacked != e.unacked ==>
                  && f.acks.lastWithTrigger == Some(ack)
                  && exists x: nat :: LastAcked(e.unacked, f.unacked, x))
            && forall x :: LastAcked(e.unacked, f.unacked, x) ==> f.acks.triggers == e.acks.triggers[ack.id := x]
  {
    var e1, f := Advance(e, ack), ProcessAck(e, ack);
    assert Conserved(e.packets, e.unacked);
    hide *;
    AdvanceAcks(e, ack);
    ProcessedAcks(e, ack);
    AckPacketsTrigger(e1, ack);
    if f.unacked == e.unacked {
      NothingLeft(e.unacked);
    } else {
      AckPacketsLoses(e1, ack);
      var y :| y in e.unacked && y !in f.unacked;
      LastAckedExists(e.unacked, f.unacked, y);
    }
  }

  // ----- retransmissions

  /** An ACK in the last two milliseconds. */
  predicate RecentAck(last: Option<Ack>, ts: nat) {
    last.Some? && 0 <= ts - last.value.ts <= 2_000
  }

  /** The retransmission is blamed on the ACK: it takes the trigger of the last ACK that has one, and is a slow-start
      retransmission while recovering from a timeout, a fast one otherwise. */
  predicate Blamed(e: Endpoint, p: Packet) {
    && p.trigger == (if e.acks.lastWithTrigger.Some? && e.acks.lastWithTrigger.value.id in e.acks.triggers
                     then Some(e.acks.triggers[e.acks.lastWithTrigger.value.id]) else None)
    && (p.flags.isSlowStart <==> e.seqs.rtoHigh != 0) && (p.flags.isFast <==> e.seqs.rtoHigh == 0)
    && !p.flags.isRto && !p.flags.isTlp
  }

  predicate Blank(p: Packet) {
    && p.trigger.None? && !p.flags.isSlowStart && !p.flags.isFast && !p.flags.isRto && !p.flags.isTlp
  }

  /** The timers and the recovery point are left alone. */
  predicate FoundAck(e: Endpoint, f: Endpoint) {
    && Blamed(e, f.current) && f.timers == e.timers && f.current.segment == e.current.segment
    && f.packets == e.packets && f.seqs == e.seqs
  }

  lemma FoundByAck(e: Endpoint)
    requires RecentAck(e.acks.last, e.current.segment.ts) && Blank(e.current)
    ensures FoundAck(e, FindRtxTrigger(e))
  {
    assert Elapsed(e.current.segment.ts, e.acks.last.value.ts) == e.current.segment.ts - e.acks.last.value.ts;
    hide CheckForTLP;
    hide CheckForRTO;
    hide ArmTimers;
    hide Elapsed;
  }

  lemma ProcessRtxByAck(e: Endpoint)
    requires RecentAck(e.acks.last, e.current.segment.ts) && Blank(e.current) && e.acks.lookalikes == []
    ensures Blamed(e, ProcessRtx(e).current) && ProcessRtx(e).timers == e.timers
  {
    var flags := e.current.flags.(isRtx := true);
    var e1 := e.(current := e.current.(flags := flags));
    assert CheckLookalikesFrom(e, 0) == e;
    FoundByAck(e1);
    var e2 := FindRtxTrigger(e1);
    var (e3, linked) := LinkToPreviousTx(e2);
    assert ProcessRtx(e) == MarkOutOfOrder(if linked then e3 else NoteUnmatched(e3));
    LinkedAndMarkedUntimed(e2);
    hide FindRtxTrigger;
    hide LinkToPreviousTx;
    hide MarkOutOfOrder;
    hide CheckLookalikesFrom;
    hide ProcessRtx;
  }

  /** A retransmission shortly after an ACK is blamed on it, and does not touch the timers. */
  lemma RtxAfterAck(e: Endpoint, g: Segment)
    requires Invariant(e) && Repeats(e, g) && RecentAck(e.acks.last, g.ts) && e.acks.lookalikes == []
    ensures var f := AddWirePacket(e, g);
            && |f.packets| == |e.packets| + 1 && Blamed(e, f.packets[|e.packets|])
            && (e.unacked != [] ==> f.timers == e.timers)
  {
    var e1 := Begin(e, g);
    assert SequencesOk(e.seqs) && TimersOk(e);
    AddWirePacketInvariant(e, g);
    hide Invariant;
    hide ProcessRtx;
    if g.len != 0 {
      AdvanceNextExact(e.seqs, SeqEnd(g));
      var e2 := e1.(seqs := AdvanceNext(e1.seqs, SeqEnd(g)));
      assert e2.seqs == e.seqs;
      ProcessRtxByAck(e2);
      BlamedOutstanding(e1, SendData(e1));
    } else {
      ProcessRtxByAck(e1);
      BlamedOutstanding(e1, SendSyn(e1));
    }
  }

  lemma BlamedOutstanding(e: Endpoint, f: Endpoint)
    requires Blamed(e, f.current) && f.timers == e.timers
    ensures var h := Push(Outstanding(f));
            && |h.packets| == |f.packets| + 1 && Blamed(e, h.packets[|f.packets|])
            && (RtoArmed(e) ==> h.timers == e.timers)
  {
    hide Blamed;
    hide InFlight;
    hide Rto;
    hide Tlp;
  }

  /** From the packet that arrived to the retransmission that it causes: an ACK of several packets passes on the most
      recent one. */
  lemma FastRtxTrigger(e: Endpoint, ack: Ack, g: Segment, x: nat)
    requires Invariant(e) && LastAcked(e.unacked, ProcessAck(e, ack).unacked, x)
    requires Repeats(ProcessAck(e, ack), g) && 0 <= g.ts - ack.ts <= 2_000 && ProcessAck(e, ack).acks.lookalikes == []
    ensures var f := AddWirePacket(ProcessAck(e, ack), g);
            |f.packets| > 0 && f.packets[|f.packets| - 1].trigger == Some(x)
  {
    var f := ProcessAck(e, ack);
    ProcessAckInvariant(e, ack);
    TriggerOfAck(e, ack);
    LastIsAck(e, ack);
    hide ProcessAck;
    hide Invariant;
    RtxAfterAck(f, g);
    hide AddWirePacket;
    hide Repeats;
  }

  lemma LastIsAck(e: Endpoint, ack: Ack)
    ensures ProcessAck(e, ack).acks.last == Some(ack)
  {
    AdvanceAcks(e, ack);
    ProcessedAcks(e, ack);
    AckPacketsShape(Advance(e, ack), ack);
    HandleAllFrame(Advance(e, ack), Advance(e, ack).unacked, ack);
    hide ProcessAck;
    hide Advance;
    hide HandleAll;
    hide Kept;
    hide InFlight;
    hide Rto;
    hide Tlp;
  }

  // ----- recovery

  /** Recovery from a timeout ends with the first ACK that reaches everything sent before it. */
  lemma RecoveryEnds(e: Endpoint, ack: Ack)
    requires Invariant(e)
    ensures var reached := Moves(e.seqs, ack) && !After(e.seqs.next, ack.number);
            ProcessAck(e, ack).seqs.rtoHigh == if reached then 0 else e.seqs.rtoHigh
  {
    assert SequencesOk(e.seqs);
    AdvanceInvariant(e, ack);
    AdvanceShape(e, ack);
    AbsorbInvariant(Advance(e, ack), ack);
    ProcessAckStages(e, ack);
    hide ProcessAck;
    hide Absorb;
    hide Advance;
    hide Invariant;
  }
}
