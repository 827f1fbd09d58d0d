/** What the steps of the endpoint leave alone: most of them touch only flags and timers. */
module Frames {
  import opened SeqSpace
  import TcpSacks
  import opened EndpointModel

  /** The part of a packet that the invariants speak about. */
  datatype Core = Core(segment: Segment, links: Links, acked: Acked, tally: Tally, ackedBytes: nat)

  function CoreOf(p: Packet): Core {
    Core(p.segment, p.links, p.acked, p.tally, p.snapshot.ackedBytes)
  }

  predicate SameCores(ps: seq<Packet>, qs: seq<Packet>) {
    |qs| == |ps| && forall i :: 0 <= i < |ps| ==> CoreOf(qs[i]) == CoreOf(ps[i])
  }

  predicate RtoArmed(e: Endpoint) {
    !e.timers.rto.armer.Nobody?
  }

  predicate TlpArmed(e: Endpoint) {
    !e.timers.tlp.armer.Nobody?
  }

  /** The retransmission timer stays armed, and the probe timer is armed only beside it. */
  predicate TimersKept(e: Endpoint, f: Endpoint) {
    && (RtoArmed(e) ==> RtoArmed(f))
    && ((TlpArmed(e) ==> RtoArmed(e)) ==> (TlpArmed(f) ==> RtoArmed(f)) && (RtoArmed(f) ==> RtoArmed(e)))
  }

  /** The recovery point is kept, dropped, or moved to the next sequence number. */
  predicate RtoHighKept(e: Endpoint, f: Endpoint) {
    && f.seqs == e.seqs.(rtoHigh := f.seqs.rtoHigh)
    && (f.seqs.rtoHigh == e.seqs.rtoHigh || f.seqs.rtoHigh == 0 || f.seqs.rtoHigh == e.seqs.next)
  }

  /** Everything but flags, timers and the recovery point is the same. */
  predicate Cosmetic(e: Endpoint, f: Endpoint) {
    && SameCores(e.packets, f.packets) && CoreOf(f.current) == CoreOf(e.current)
    && f.unacked == e.unacked && f.board == e.board && f.estimate == e.estimate && f.samples == e.samples
    && f.acks == e.acks && f.mss == e.mss
    && RtoHighKept(e, f)
    && TimersKept(e, f)
  }

  lemma CosmeticTransitive(e: Endpoint, f: Endpoint, g: Endpoint)
    requires Cosmetic(e, f) && Cosmetic(f, g)
    ensures Cosmetic(e, g)
  {
  }

  lemma WithFlagsSameCores(ps: seq<Packet>, a: Armer, f: Flags -> Flags)
    ensures SameCores(ps, WithFlags(ps, a, f))
  {
  }

  lemma RevokeRtoCosmetic(e: Endpoint)
    requires e.timers.rtos > 0 && RtoArmed(e)
    ensures Cosmetic(e, RevokeRto(e))
  {
    WithFlagsSameCores(e.packets, e.timers.rto.armer, (f: Flags) => f.(isRto := false));
  }

  lemma {:induction false} CheckForRTOCosmetic(e: Endpoint)
    ensures Cosmetic(e, CheckForRTO(e).0)
    ensures CheckForRTO(e).1 ==> RtoArmed(e)
    decreases e.timers.rtos
  {
    if RtoArmed(e) {
      if !OffSchedule(e.timers.rto, e.current.segment.ts) {
        WithFlagsSameCores(e.packets, e.timers.rto.armer, (f: Flags) => f.(isTlp := false));
      } else if e.timers.tlpEnabled && e.timers.rtos == 1 && ArmerIsTlp(e, e.timers.rto.armer) {
        RevokeRtoCosmetic(e);
        CheckForRTOCosmetic(RevokeRto(e));
        CosmeticTransitive(e, RevokeRto(e), CheckForRTO(RevokeRto(e)).0);
      }
    }
  }

  lemma FindRtxTriggerCosmetic(e: Endpoint)
    ensures Cosmetic(e, FindRtxTrigger(e))
  {
    var (e1, isTlp) := CheckForTLP(e);
    assert Cosmetic(e, e1);
    CheckForRTOCosmetic(e1);
    CosmeticTransitive(e, e1, CheckForRTO(e1).0);
  }

  lemma MarkOutOfOrderCosmetic(e: Endpoint)
    ensures Cosmetic(e, MarkOutOfOrder(e))
  {
  }

  lemma {:induction false} MarkSpuriousSameCores(ps: seq<Packet>, s: TcpSacks.Sack, n: nat)
    requires n <= |ps|
    ensures SameCores(ps, MarkSpurious(ps, s, n))
  {
    if n > 0 {
      MarkSpuriousSameCores(ps, s, n - 1);
    }
  }

  lemma {:induction false} DSackPacketsSameCores(ps: seq<Packet>, sacks: seq<TcpSacks.Sack>, number: u32)
    ensures SameCores(ps, DSackPackets(ps, sacks, number))
  {
    if sacks != [] {
      var r := DSackPackets(ps, sacks[..|sacks| - 1], number);
      DSackPacketsSameCores(ps, sacks[..|sacks| - 1], number);
      MarkSpuriousSameCores(r, sacks[|sacks| - 1], |r|);
    }
  }

  // ----- the retransmission flag

  lemma {:induction false} CheckForRTOFlag(e: Endpoint)
    ensures CheckForRTO(e).0.current.flags.isRtx == e.current.flags.isRtx
    decreases e.timers.rtos
  {
    if RtoArmed(e) && OffSchedule(e.timers.rto, e.current.segment.ts) && e.timers.tlpEnabled && e.timers.rtos == 1
       && ArmerIsTlp(e, e.timers.rto.armer) {
      CheckForRTOFlag(RevokeRto(e));
    }
  }

  lemma CheckForTLPFlag(e: Endpoint)
    ensures CheckForTLP(e).0.current.flags.isRtx == e.current.flags.isRtx
  {
  }

  lemma ArmedFlag(e: Endpoint, armer: Armer)
    ensures ArmTimers(e, armer).current == e.current
  {
  }

  lemma FindRtxTriggerFlag(e: Endpoint)
    ensures FindRtxTrigger(e).current.flags.isRtx == e.current.flags.isRtx
  {
    hide CheckForTLP;
    hide CheckForRTO;
    hide ArmTimers;
    hide Elapsed;
    var e2 := CheckForRTO(CheckForTLP(e).0).0;
    CheckForTLPFlag(e);
    CheckForRTOFlag(CheckForTLP(e).0);
    ArmedFlag(e2, Own(|e2.packets|, e2.current.segment.ts));
  }
}
