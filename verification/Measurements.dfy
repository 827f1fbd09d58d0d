/** The round-trip measurements taken from acknowledgments: the minimum and the samples fed to the estimator. */
module Measurements {
  import opened SeqSpace
  import opened TcpTimer
  import opened EndpointModel
  import opened Frames
  import opened Conservation

  /** An acknowledged original transmission. */
  predicate IsMeasured(p: Packet) {
    p.links.previous.None? && p.acked.packet.Some?
  }

  predicate PositiveDelays(ps: seq<Packet>) {
    forall i :: 0 <= i < |ps| && IsMeasured(ps[i]) ==> ps[i].acked.delay > 0
  }

  predicate Attained(ps: seq<Packet>, m: u32) {
    exists i :: 0 <= i < |ps| && IsMeasured(ps[i]) && ps[i].acked.delay == m
  }

  /** With positive delays, the minimum is the least delay of all acknowledged original transmissions, and zero
      while there is none. */
  predicate IsMinimum(ps: seq<Packet>, m: u32) {
    PositiveDelays(ps) ==>
      && (forall i :: 0 <= i < |ps| && IsMeasured(ps[i]) ==> 0 < m <= ps[i].acked.delay)
      && (m == 0 || Attained(ps, m))
  }

  predicate SampleOk(ps: seq<Packet>, s: RttSample) {
    s.packet < |ps| && IsMeasured(ps[s.packet]) && s.rtt == Signed(ps[s.packet].acked.delay)
  }

  /** The estimate is computed from the recorded samples, and each sample is the delay of an acknowledged
      original transmission. */
  predicate Ledger(e: Endpoint) {
    && IsMinimum(e.packets, e.acks.minRtt)
    && e.estimate == SampledAll(NO_ESTIMATE, e.samples)
    && forall k :: 0 <= k < |e.samples| ==> SampleOk(e.packets, e.samples[k])
  }

  predicate SameMeasures(ps: seq<Packet>, qs: seq<Packet>) {
    |qs| == |ps| && forall i :: 0 <= i < |ps| ==>
      qs[i].links.previous == ps[i].links.previous && qs[i].acked == ps[i].acked
  }

  /** Same acknowledgments, same measurements. */
  lemma LedgerFrame(e: Endpoint, f: Endpoint)
    requires Ledger(e) && (SameCores(e.packets, f.packets) || SameMeasures(e.packets, f.packets))
    requires f.acks.minRtt == e.acks.minRtt && f.estimate == e.estimate && f.samples == e.samples
    ensures Ledger(f)
  {
    assert SameMeasures(e.packets, f.packets) by {
      assert SameCores(e.packets, f.packets) ==>
               forall i :: 0 <= i < |e.packets| ==> CoreOf(f.packets[i]) == CoreOf(e.packets[i]);
    }
    MinimumFrame(e.packets, f.packets, e.acks.minRtt);
    forall k | 0 <= k < |f.samples|
      ensures SampleOk(f.packets, f.samples[k])
    {
      assert SampleOk(e.packets, e.samples[k]);
    }
  }

  lemma MinimumFrame(ps: seq<Packet>, qs: seq<Packet>, m: u32)
    requires IsMinimum(ps, m) && SameMeasures(ps, qs)
    ensures IsMinimum(qs, m)
  {
    assert forall i :: 0 <= i < |ps| ==> IsMeasured(qs[i]) == IsMeasured(ps[i]);
    if PositiveDelays(qs) && m != 0 {
      assert PositiveDelays(ps);
      var i :| 0 <= i < |ps| && IsMeasured(ps[i]) && ps[i].acked.delay == m;
      assert IsMeasured(qs[i]);
    }
  }

  lemma MinimumStep(ps: seq<Packet>, pos: nat, ack: Ack, m: u32)
    requires IsMinimum(ps, m) && pos < |ps| && ps[pos].acked.packet.None?
    ensures var delay := AckDelay(ps[pos], ack);
            IsMinimum(ps[pos := ps[pos].(acked := Acked(Some(ack), delay))],
                      if ps[pos].links.previous.None? && (delay < m || m == 0) then delay else m)
  {
    var delay := AckDelay(ps[pos], ack);
    var qs := ps[pos := ps[pos].(acked := Acked(Some(ack), delay))];
    hide AckDelay;
    if PositiveDelays(qs) {
      forall i | 0 <= i < |ps| && IsMeasured(ps[i])
        ensures i != pos && qs[i] == ps[i] && ps[i].acked.delay > 0
      {
        assert IsMeasured(qs[i]);
      }
      assert PositiveDelays(ps);
      assert IsMeasured(qs[pos]) <==> ps[pos].links.previous.None?;
      if Attained(ps, m) {
        var i :| 0 <= i < |ps| && IsMeasured(ps[i]) && ps[i].acked.delay == m;
        assert qs[i] == ps[i] && IsMeasured(qs[i]) && Attained(qs, m);
      }
      assert IsMeasured(qs[pos]) ==> Attained(qs, delay);
    }
  }

  lemma SamplesKept(e: Endpoint, pos: nat, ack: Ack, k: nat)
    requires pos < |e.packets| && e.packets[pos].acked.packet.None? && k < |e.samples|
    requires SampleOk(e.packets, e.samples[k])
    ensures SampleOk(HandleAcked(e, pos, ack).packets, e.samples[k])
  {
    hide AckDelay;
    hide Sampled;
  }

  lemma NewSample(e: Endpoint, pos: nat, ack: Ack)
    requires pos < |e.packets| && e.estimate == SampledAll(NO_ESTIMATE, e.samples)
    ensures var f := HandleAcked(e, pos, ack);
            && f.estimate == SampledAll(NO_ESTIMATE, f.samples)
            && (f.samples == e.samples
                || (f.samples[..|f.samples| - 1] == e.samples && SampleOk(f.packets, f.samples[|e.samples|])))
  {
    hide AckDelay;
    hide Sampled;
    var f := HandleAcked(e, pos, ack);
    assert f.samples != e.samples ==> f.samples[..|f.samples| - 1] == e.samples;
  }

  lemma HandleAckedLedger(e: Endpoint, pos: nat, ack: Ack)
    requires Ledger(e) && (pos < |e.packets| ==> e.packets[pos].acked.packet.None?)
    ensures Ledger(HandleAcked(e, pos, ack))
  {
    if pos < |e.packets| {
      MinimumStep(e.packets, pos, ack, e.acks.minRtt);
      NewSample(e, pos, ack);
      var f := HandleAcked(e, pos, ack);
      forall k | 0 <= k < |e.samples|
        ensures SampleOk(f.packets, e.samples[k])
      {
        SamplesKept(e, pos, ack, k);
      }
      hide IsMinimum;
      hide SampleOk;
      hide AckDelay;
      hide Sampled;
    }
  }

  lemma {:induction false} HandleAllLedger(e: Endpoint, positions: seq<nat>, ack: Ack)
    requires Ledger(e) && Increasing(positions)
    requires forall x :: x in positions && x < |e.packets| ==> e.packets[x].acked.packet.None?
    ensures Ledger(HandleAll(e, positions, ack))
  {
    if positions != [] {
      var n := |positions| - 1;
      LastIsGreatest(positions);
      HandleAllLedger(e, positions[..n], ack);
      HandleAllExact(e, positions[..n], ack);
      HandleAllFrame(e, positions[..n], ack);
      hide Ledger;
      hide HandleAcked;
      hide Increasing;
      var e1 := HandleAll(e, positions[..n], ack);
      assert positions[n] in positions;
      HandleAckedLedger(e1, positions[n], ack);
    }
  }

  lemma AckPacketsLedger(e: Endpoint, ack: Ack)
    requires Ledger(e) && Conserved(e.packets, e.unacked)
    ensures Ledger(AckPackets(e, ack))
  {
    HandleAllLedger(e, e.unacked, ack);
    HandleAllFrame(e, e.unacked, ack);
    var e1 := HandleAll(e, e.unacked, ack);
    hide HandleAll;
    hide Ledger;
    hide Kept;
    hide Rto;
    hide Tlp;
    LedgerFrame(e1, AckPackets(e, ack));
  }

  lemma TieToLedger(e: Endpoint, pos: nat, ack: Ack)
    requires Ledger(e) && pos < |e.packets| && e.packets[pos].acked.packet.None?
    ensures Ledger(TieTo(e, pos, ack))
  {
    var e1 := HandleAcked(e, pos, ack);
    HandleAckedLedger(e, pos, ack);
    ShiftUnackedSameCores(e1.packets, e.packets[pos].segment.len);
    assert |e1.packets| == |e.packets|;
    hide HandleAcked;
    hide Ledger;
    hide Rto;
    hide Tlp;
    hide InFlight;
    LedgerFrame(e1, TieTo(e, pos, ack));
  }

  lemma {:induction false} TieLedger(e: Endpoint, pos: nat)
    requires Ledger(e) && pos < |e.packets| && e.packets[pos].acked.packet.None?
    ensures Ledger(TiePacketToSackLookalike(e, pos).0)
    decreases |e.acks.lookalikes|
  {
    if e.acks.lookalikes != [] {
      var ack := e.acks.lookalikes[0];
      var e1 := e.(acks := e.acks.(lookalikes := e.acks.lookalikes[1..]));
      LedgerFrame(e, e1);
      hide Ledger;
      hide TieTo;
      if e.packets[pos].segment.ts + e.acks.minRtt < ack.ts {
        TieToLedger(e1, pos, ack);
      } else {
        TieLedger(e1, pos);
      }
    }
  }

  lemma {:induction false} CheckLookalikesLedger(e: Endpoint, i: nat)
    requires Ledger(e) && Conserved(e.packets, e.unacked) && (e.unacked != [] ==> RtoArmed(e))
    ensures Ledger(CheckLookalikesFrom(e, i))
    decreases |e.unacked| - i
  {
    hide IsLost;
    hide Ledger;
    if i < |e.unacked| && e.acks.lookalikes != [] && e.unacked[i] < |e.packets| {
      var p := e.packets[e.unacked[i]];
      if After(e.current.segment.seqNo, p.segment.seqNo) {
        if !IsLost(All(e), p) && p.links.previous.None? {
          assert e.unacked[i] in e.unacked;
          TieLedger(e, e.unacked[i]);
          TieConserves(e, i);
          hide Conserved;
          var (e1, tied) := TiePacketToSackLookalike(e, e.unacked[i]);
          if tied {
            var e2 := e1.(unacked := Without(e1.unacked, i));
            LedgerFrame(e1, e2);
            CheckLookalikesLedger(e2, i);
          }
        } else {
          CheckLookalikesLedger(e, i + 1);
        }
      }
    }
  }
}
