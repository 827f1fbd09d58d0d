/** Which packets the delay samples come from: those of the fit, and those of the timer. */
module Sampling {
  import opened Arithmetic
  import opened SeqSpace
  import opened TcpSacks
  import opened TcpTimer
  import opened EndpointModel
  import opened Conservation
  import opened EndpointInvariants
  import opened Lookalikes
  import opened Retransmissions
  import opened Frames

  // ----- samples for the fit

  /** The delay of the packet measures the path: every retransmission of it is known to be spurious, it was not
      overtaken, and it has a delay. */
  predicate Measures(all: seq<Packet>, p: Packet) {
    && (p.links.rtx.Some? ==> p.links.rtx.value < |all| && all[p.links.rtx.value].flags.isSpurious)
    && !p.flags.outOfOrder && p.acked.delay > 0
  }

  /** The samples are those of the packets at these positions, in order. */
  ghost predicate Picks(all: seq<Packet>, ps: seq<Packet>, samples: seq<(u32, u32)>, positions: seq<nat>) {
    && Increasing(positions) && |samples| == |positions|
    && (forall i: nat :: i in positions <==> i < |ps| && Measures(all, ps[i]))
    && forall k :: 0 <= k < |positions| && positions[k] < |ps| ==>
         && samples[k].0 == ps[positions[k]].snapshot.unackedBytes
         && samples[k].1 == ps[positions[k]].acked.delay
  }

  lemma PicksSnoc(all: seq<Packet>, ps: seq<Packet>, p: Packet, samples: seq<(u32, u32)>, positions: seq<nat>)
    requires Picks(all, ps, samples, positions)
    ensures if Measures(all, p) then
              Picks(all, ps + [p], samples + [(p.snapshot.unackedBytes, p.acked.delay)], positions + [|ps|])
            else Picks(all, ps + [p], samples, positions)
  {
    IncreasingSnoc(positions, |ps|);
    assert forall k :: 0 <= k < |positions| ==> positions[k] in positions;
    hide Increasing;
    hide Measures;
  }

  lemma NothingPicked(all: seq<Packet>)
    ensures Picks(all, [], Samples(all, []), [])
  {
  }

  lemma SamplesSnoc(all: seq<Packet>, ps: seq<Packet>, p: Packet)
    ensures Samples(all, ps + [p])
            == if Measures(all, p) then Samples(all, ps) + [(p.snapshot.unackedBytes, p.acked.delay)]
               else Samples(all, ps)
  {
    assert (ps + [p])[..|ps|] == ps;
    EligibleMeasures(all, p);
  }

  /** There is one sample, of the unacknowledged bytes and the delay, for exactly the packets that measure the path. */
  lemma {:induction false} SamplesExact(all: seq<Packet>, ps: seq<Packet>)
    ensures exists positions :: Picks(all, ps, Samples(all, ps), positions)
  {
    hide *;
    if ps == [] {
      NothingPicked(all);
    } else {
      var n := |ps| - 1;
      SamplesExact(all, ps[..n]);
      var positions :| Picks(all, ps[..n], Samples(all, ps[..n]), positions);
      PicksSnoc(all, ps[..n], ps[n], Samples(all, ps[..n]), positions);
      SamplesSnoc(all, ps[..n], ps[n]);
      assert ps == ps[..n] + [ps[n]];
    }
  }

  lemma EligibleMeasures(all: seq<Packet>, p: Packet)
    ensures IsEligible(all, p) <==> Measures(all, p)
  {
  }

  /** Around the target: first the latest samples up to and including it, then the earliest ones from it on. */
  lemma AroundExact(ps: seq<Packet>, target: nat, distance: nat, olderOnly: bool)
    requires target < |ps| && Samples(ps, ps[..target + 1]) != []
    ensures var r, older, newer := SamplesAround(ps, target, distance, olderOnly), Samples(ps, ps[..target + 1]),
                                   Samples(ps, ps[target..]);
            var m, n := Min(distance, |older|), if olderOnly then 0 else Min(distance, |newer|);
            && |r| == m + n
            && (forall k :: 0 <= k < m ==> r[k] == older[|older| - m + k])
            && (forall k :: 0 <= k < n ==> r[m + k] == newer[k])
  {
    hide Samples;
  }

  // ----- samples for the timer

  /** Never retransmitted, and no retransmission. */
  predicate SentOnce(p: Packet) {
    p.links.previous.None? && p.links.rtx.None?
  }

  /** The samples that an ACK adds are those of the packets at these positions, in order, each with what was
      acknowledged and sent when the ACK arrived. */
  predicate Timed(e: Endpoint, ack: Ack, added: seq<RttSample>, positions: seq<nat>) {
    |added| == |positions| && forall k :: 0 <= k < |added| && positions[k] < |e.packets| ==>
      && added[k].packet == positions[k]
      && added[k].rtt == Signed((ack.ts - e.packets[positions[k]].segment.ts) % 0x1_0000_0000)
      && added[k].seqAcked == e.seqs.acked && added[k].seqNext == e.seqs.next
  }

  /** Sent once and covered by the ACK. */
  predicate Counts(e: Endpoint, ack: Ack, x: nat) {
    x < |e.packets| && SentOnce(e.packets[x]) && AckedAt(e, x, ack.sacks)
  }

  ghost predicate Chosen(e: Endpoint, ack: Ack, listed: seq<nat>, positions: seq<nat>) {
    && Increasing(positions)
    && forall x: nat :: x in positions <==> x in listed && Counts(e, ack, x)
  }

  ghost predicate AddedFor(e: Endpoint, ack: Ack, listed: seq<nat>, samples: seq<RttSample>) {
    exists positions, added :: samples == e.samples + added && Timed(e, ack, added, positions)
                               && Chosen(e, ack, listed, positions)
  }

  lemma AddedSnoc(e: Endpoint, ack: Ack, listed: seq<nat>, x: nat, samples: seq<RttSample>, s: RttSample)
    requires AddedFor(e, ack, listed, samples) && forall y :: y in listed ==> y < x
    requires s.packet == x && s.seqAcked == e.seqs.acked && s.seqNext == e.seqs.next
    requires x < |e.packets| && s.rtt == Signed(AckDelay(e.packets[x], ack))
    ensures AddedFor(e, ack, listed + [x], if Counts(e, ack, x) then samples + [s] else samples)
  {
    var positions, added :| samples == e.samples + added && Timed(e, ack, added, positions)
                            && Chosen(e, ack, listed, positions);
    hide Counts;
    if Counts(e, ack, x) {
      assert samples + [s] == e.samples + (added + [s]);
      IncreasingSnoc(positions, x);
      hide Increasing;
      assert Timed(e, ack, added + [s], positions + [x]);
      assert Chosen(e, ack, listed + [x], positions + [x]);
    } else {
      assert Chosen(e, ack, listed + [x], positions);
    }
  }

  lemma HandledSample(e: Endpoint, pos: nat, ack: Ack)
    requires pos < |e.packets|
    ensures HandleAcked(e, pos, ack).samples
            == if SentOnce(e.packets[pos]) then
                 e.samples + [RttSample(pos, Signed(AckDelay(e.packets[pos], ack)), e.seqs.acked, e.seqs.next)]
               else e.samples
  {
    hide Sampled;
  }

  lemma SameWhenHandled(e: Endpoint, f: Endpoint, x: nat, ack: Ack)
    requires x < |e.packets| == |f.packets| && f.packets[x] == e.packets[x].(acked := f.packets[x].acked)
    ensures AckDelay(f.packets[x], ack) == AckDelay(e.packets[x], ack)
    ensures Counts(e, ack, x) <==> SentOnce(f.packets[x]) && AckedAt(e, x, ack.sacks)
  {
    hide IsAcked;
  }

  lemma {:induction false} HandleAllSamples(e: Endpoint, listed: seq<nat>, ack: Ack)
    requires Increasing(listed) && forall x :: x in listed ==> x < |e.packets|
    ensures AddedFor(e, ack, listed, HandleAll(e, listed, ack).samples)
  {
    if listed == [] {
      assert Timed(e, ack, [], []) && Chosen(e, ack, listed, []) && e.samples == e.samples + [];
    } else {
      var n := |listed| - 1;
      LastIsGreatest(listed);
      HandleAllSamples(e, listed[..n], ack);
      var f, x := HandleAll(e, listed[..n], ack), listed[n];
      HandleAllFrame(e, listed[..n], ack);
      HandleAllExact(e, listed[..n], ack);
      assert listed == listed[..n] + [x] && x in listed;
      HandledSample(f, x, ack);
      SameWhenHandled(e, f, x, ack);
      var s := RttSample(x, Signed(AckDelay(e.packets[x], ack)), e.seqs.acked, e.seqs.next);
      AddedSnoc(e, ack, listed[..n], x, f.samples, s);
      hide *;
    }
  }

  /** One sample for each packet at these positions, which are the ones that the step acknowledged and that were sent
      once. */
  ghost predicate SampledAt(e: Endpoint, f: Endpoint, ack: Ack, positions: seq<nat>, added: seq<RttSample>) {
    && Increasing(positions) && |added| == |positions|
    && (forall x: nat :: x in positions <==>
          x in e.unacked && x !in f.unacked && x < |e.packets| && SentOnce(e.packets[x]))
    && forall k :: 0 <= k < |added| && positions[k] < |e.packets| ==>
         && added[k].packet == positions[k]
         && added[k].rtt == Signed((ack.ts - e.packets[positions[k]].segment.ts) % 0x1_0000_0000)
         && added[k].seqAcked == f.seqs.acked && added[k].seqNext == f.seqs.next
  }

  ghost predicate SamplesAdded(e: Endpoint, f: Endpoint, ack: Ack) {
    exists positions, added :: f.samples == e.samples + added && SampledAt(e, f, ack, positions, added)
  }

  lemma FromAdded(e: Endpoint, f: Endpoint, ack: Ack)
    requires AddedFor(e, ack, e.unacked, f.samples) && f.seqs == e.seqs
    requires forall x :: x in f.unacked <==> x in e.unacked && !AckedAt(e, x, ack.sacks)
    ensures SamplesAdded(e, f, ack)
  {
    hide AckedAt;
    hide SentOnce;
    hide Increasing;
    var positions, added :| f.samples == e.samples + added && Timed(e, ack, added, positions)
                            && Chosen(e, ack, e.unacked, positions);
    assert SampledAt(e, f, ack, positions, added);
  }

  lemma AckPacketsSamples(e: Endpoint, ack: Ack)
    requires Invariant(e)
    ensures SamplesAdded(e, AckPackets(e, ack), ack)
  {
    assert Conserved(e.packets, e.unacked);
    assert Increasing(e.unacked) && forall x :: x in e.unacked ==> x < |e.packets|;
    AckPacketsExact(e, ack);
    AckPacketsShape(e, ack);
    HandledSamples(e, ack);
    hide *;
    HandleAllSamples(e, e.unacked, ack);
    FromAdded(e, AckPackets(e, ack), ack);
  }

  lemma HandledSamples(e: Endpoint, ack: Ack)
    ensures AckPackets(e, ack).samples == HandleAll(e, e.unacked, ack).samples
    ensures AckPackets(e, ack).seqs == e.seqs
  {
    HandleAllFrame(e, e.unacked, ack);
    hide HandleAll;
    hide Kept;
    hide InFlight;
    hide Rto;
    hide Tlp;
  }

  lemma SamplesFrame(e: Endpoint, e1: Endpoint, f1: Endpoint, f: Endpoint, ack: Ack)
    requires e1.packets == e.packets && e1.unacked == e.unacked && e1.samples == e.samples
    requires f.samples == f1.samples && f.unacked == f1.unacked && f.seqs == f1.seqs
    requires SamplesAdded(e1, f1, ack)
    ensures SamplesAdded(e, f, ack)
  {
    hide SentOnce;
    hide Increasing;
    var positions, added :| f1.samples == e1.samples + added && SampledAt(e1, f1, ack, positions, added);
    assert SampledAt(e, f, ack, positions, added);
  }

  lemma ProcessedRest(e: Endpoint, ack: Ack)
    requires Moves(e.seqs, ack) || HasSacks(ack)
    ensures var f1, f := AckPackets(Advance(e, ack), ack), ProcessAck(e, ack);
            f.samples == f1.samples && f.unacked == f1.unacked && f.seqs == f1.seqs
  {
    ProcessAckStages(e, ack);
    hide ProcessAck;
    hide AckPackets;
    hide Advance;
    hide DSackPackets;
    hide Trimmed;
    hide AddAll;
  }

  /** An ACK that is processed adds to the timer exactly one sample for each packet that it acknowledges and that was
      sent once, in order, all of them with the state of the connection after the ACK. */
  lemma SamplesOfAck(e: Endpoint, ack: Ack)
    requires Invariant(e) && (Moves(e.seqs, ack) || HasSacks(ack))
    ensures SamplesAdded(e, ProcessAck(e, ack), ack)
  {
    var e1 := Advance(e, ack);
    AdvanceInvariant(e, ack);
    AdvanceShape(e, ack);
    hide *;
    ProcessedRest(e, ack);
    AckPacketsSamples(e1, ack);
    SamplesFrame(e, e1, AckPackets(e1, ack), ProcessAck(e, ack), ack);
  }

  // ----- what a packet records when it is sent

  lemma ProcessRtxKeepsLast(e: Endpoint)
    ensures ProcessRtx(e).acks.last == e.acks.last
  {
    var e1 := CheckLookalikesFrom(e, 0);
    LookalikesKeepLast(e, 0);
    var e2 := e1.(current := e1.current.(flags := e1.current.flags.(isRtx := true)));
    FindRtxTriggerCosmetic(e2);
    var e3 := FindRtxTrigger(e2);
    LinkExact(e3);
    hide CheckLookalikesFrom;
    hide FindRtxTrigger;
    hide LinkToPreviousTx;
    hide InChain;
    hide CoversStart;
  }

  /** A data packet records the last ACK before it, and the three timeouts, without backoff, as they are when it has
      been processed. */
  lemma SnapshotExact(e: Endpoint, g: Segment)
    requires g.len != 0
    ensures var f := AddWirePacket(e, g);
            && f.packets != []
            && var s := f.packets[|f.packets| - 1].snapshot;
               && s.lastAck == e.acks.last
               && s.rto == Rto(f.estimate, 0)
               && s.tlp == Tlp(f.estimate, false) && s.tlpDelayed == Tlp(f.estimate, true)
  {
    var e1 := Begin(e, g);
    ProcessRtxKeepsLast(e1.(seqs := AdvanceNext(e1.seqs, SeqEnd(g))));
    hide ProcessRtx;
    hide Rto;
    hide Tlp;
    hide InFlight;
    hide UnackedBytes;
  }
}
