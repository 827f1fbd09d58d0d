/** Which packets a retransmission marks as overtaken. */
module Reordering {
  import opened SeqSpace
  import opened TcpTimer
  import opened EndpointModel
  import opened Retransmissions
  import opened EndpointInvariants
  import opened Timeouts

  predicate SameOrder(ps: seq<Packet>, qs: seq<Packet>) {
    |qs| == |ps| && forall i :: 0 <= i < |ps| ==>
      qs[i].segment == ps[i].segment && qs[i].flags.outOfOrder == ps[i].flags.outOfOrder
  }

  /** Neither the marks nor what was sent change. */
  predicate Unmarked(e: Endpoint, f: Endpoint) {
    && SameOrder(e.packets, f.packets)
    && f.current.segment == e.current.segment && f.current.links == e.current.links
  }

  lemma UnmarkedTransitive(e: Endpoint, f: Endpoint, g: Endpoint)
    requires Unmarked(e, f) && Unmarked(f, g)
    ensures Unmarked(e, g)
  {
  }

  lemma TieToUnmarked(e: Endpoint, pos: nat, ack: Ack)
    requires pos < |e.packets|
    ensures Unmarked(e, TieTo(e, pos, ack))
  {
    hide Sampled;
    hide InFlight;
  }

  lemma {:induction false} TieUnmarked(e: Endpoint, pos: nat)
    ensures Unmarked(e, TiePacketToSackLookalike(e, pos).0)
    decreases |e.acks.lookalikes|
  {
    if e.acks.lookalikes != [] && pos < |e.packets| {
      var ack := e.acks.lookalikes[0];
      var e1 := e.(acks := e.acks.(lookalikes := e.acks.lookalikes[1..]));
      TieToUnmarked(e1, pos, ack);
      hide TieTo;
      if !(e.packets[pos].segment.ts + e.acks.minRtt < ack.ts) {
        TieUnmarked(e1, pos);
      }
    }
  }

  lemma {:induction false} LookalikesUnmarked(e: Endpoint, i: nat)
    ensures Unmarked(e, CheckLookalikesFrom(e, i))
    decreases |e.unacked| - i
  {
    hide IsLost;
    if i < |e.unacked| && e.acks.lookalikes != [] && e.unacked[i] < |e.packets| {
      var p := e.packets[e.unacked[i]];
      if After(e.current.segment.seqNo, p.segment.seqNo) {
        if !IsLost(All(e), p) && p.links.previous.None? {
          TieUnmarked(e, e.unacked[i]);
          var (e1, tied) := TiePacketToSackLookalike(e, e.unacked[i]);
          hide TiePacketToSackLookalike;
          if tied {
            LookalikesUnmarked(e1.(unacked := e1.unacked[..i] + e1.unacked[i + 1..]), i);
          }
        } else {
          LookalikesUnmarked(e, i + 1);
        }
      }
    }
  }

  lemma {:induction false} CheckForRTOUnmarked(e: Endpoint)
    ensures Unmarked(e, CheckForRTO(e).0)
    decreases e.timers.rtos
  {
    if !e.timers.rto.armer.Nobody? && OffSchedule(e.timers.rto, e.current.segment.ts) && e.timers.tlpEnabled
       && e.timers.rtos == 1 && ArmerIsTlp(e, e.timers.rto.armer) {
      CheckForRTOUnmarked(RevokeRto(e));
    }
    hide OffSchedule;
    hide Elapsed;
    hide InFlight;
  }

  lemma FoundUnmarked(e: Endpoint)
    ensures Unmarked(e, FindRtxTrigger(e))
  {
    CheckForRTOUnmarked(CheckForTLP(e).0);
    hide CheckForRTO;
    hide OffSchedule;
    hide Elapsed;
    hide InFlight;
  }

  lemma LinkUnmarked(e: Endpoint)
    ensures SameOrder(e.packets, LinkToPreviousTx(e).0.packets)
  {
    LinkExact(e);
    hide LinkToPreviousTx;
    hide InChain;
    hide CoversStart;
  }

  /** No packet from position i on covers the start of the segment. */
  predicate NoneCovers(ps: seq<Packet>, g: Segment, i: nat) {
    forall j :: i <= j < |ps| ==> !CoversStart(ps[j].segment, g.seqNo)
  }

  /** Exactly the data packets sent after the last one that covers the start of g are marked, besides those that were
      already. */
  predicate MarkedAfter(ps: seq<Packet>, qs: seq<Packet>, g: Segment) {
    |qs| >= |ps| && forall i :: 0 <= i < |ps| ==>
      (qs[i].flags.outOfOrder <==> ps[i].flags.outOfOrder || (ps[i].segment.len != 0 && NoneCovers(ps, g, i)))
  }

  lemma LinkThenMark(e: Endpoint)
    requires e.current.links.previous.None?
    ensures var (f, linked) := LinkToPreviousTx(e);
            MarkedAfter(e.packets, MarkOutOfOrder(if linked then f else NoteUnmatched(f)).packets, e.current.segment)
  {
    var (f, linked) := LinkToPreviousTx(e);
    LinkExact(e);
    LinkUnmarked(e);
    hide LinkToPreviousTx;
    hide InChain;
    hide CoversStart;
    if linked {
      assert forall i :: 0 <= i < |e.packets| ==>
        (NoneCovers(e.packets, e.current.segment, i) <==> i > f.current.links.previous.value);
    }
  }

  lemma MarkedFrame(ps: seq<Packet>, qs: seq<Packet>, rs: seq<Packet>, g: Segment)
    requires SameOrder(ps, qs) && MarkedAfter(qs, rs, g)
    ensures MarkedAfter(ps, rs, g)
  {
    hide CoversStart;
    forall i | 0 <= i < |ps|
      ensures NoneCovers(ps, g, i) <==> NoneCovers(qs, g, i)
    {
      assert forall j :: i <= j < |ps| ==> ps[j].segment == qs[j].segment;
    }
    hide NoneCovers;
  }

  lemma ProcessRtxMarks(e: Endpoint)
    requires e.current.links.previous.None?
    ensures MarkedAfter(e.packets, ProcessRtx(e).packets, e.current.segment)
    ensures |ProcessRtx(e).packets| == |e.packets|
  {
    var e1 := CheckLookalikesFrom(e, 0);
    var e2 := e1.(current := e1.current.(flags := e1.current.flags.(isRtx := true)));
    var e3 := FindRtxTrigger(e2);
    var (f, linked) := LinkToPreviousTx(e3);
    var h := MarkOutOfOrder(if linked then f else NoteUnmatched(f));
    assert ProcessRtx(e) == h && Unmarked(e1, e2) && |h.packets| == |f.packets|;
    LinkUnmarked(e3);
    hide *;
    LookalikesUnmarked(e, 0);
    FoundUnmarked(e2);
    UnmarkedTransitive(e, e1, e2);
    UnmarkedTransitive(e, e2, e3);
    UnmarkedParts(e, e3);
    LinkThenMark(e3);
    MarkedFrame(e.packets, e3.packets, h.packets, e.current.segment);
    SameOrderSize(e3.packets, f.packets);
  }

  lemma UnmarkedParts(e: Endpoint, f: Endpoint)
    requires Unmarked(e, f)
    ensures SameOrder(e.packets, f.packets) && |f.packets| == |e.packets|
    ensures f.current.segment == e.current.segment && f.current.links == e.current.links
  {
  }

  lemma SameOrderSize(ps: seq<Packet>, qs: seq<Packet>)
    requires SameOrder(ps, qs)
    ensures |qs| == |ps|
  {
  }

  lemma MarkedGrows(ps: seq<Packet>, qs: seq<Packet>, p: Packet, g: Segment)
    requires MarkedAfter(ps, qs, g)
    ensures MarkedAfter(ps, qs + [p], g)
  {
    hide NoneCovers;
  }

  /** A packet that carries nothing new marks exactly the data packets sent after the last one that covers its start as
      overtaken; any other packet marks none. */
  lemma RtxMarks(e: Endpoint, g: Segment)
    requires Invariant(e) && RequiresAck(g)
    ensures var f := AddWirePacket(e, g);
            && |f.packets| == |e.packets| + 1
            && if Repeats(e, g) then
                 MarkedAfter(e.packets, f.packets, g)
               else f.packets[..|e.packets|] == e.packets
  {
    var e1 := Begin(e, g);
    assert SequencesOk(e.seqs);
    AdvanceNextExact(e.seqs, SeqEnd(g));
    var e2 := e1.(seqs := AdvanceNext(e.seqs, SeqEnd(g)));
    var f := if g.len != 0 then SendData(e1) else SendSyn(e1);
    ProcessRtxMarks(e1);
    ProcessRtxMarks(e2);
    hide ProcessRtx;
    hide Invariant;
    hide MarkedAfter;
    assert |f.packets| == |e.packets|;
    OutstandingPushes(f);
    hide Outstanding;
    if MarkedAfter(e.packets, f.packets, g) {
      MarkedGrows(e.packets, f.packets, f.current, g);
    }
  }

  lemma OutstandingPushes(e: Endpoint)
    ensures Push(Outstanding(e)).packets == e.packets + [e.current]
  {
  }
}
