/** Timestamps of a run: as long as they never go back and nothing is repeated at the same time, the delays recorded
    along the retransmission links are exact, also for packets split from one captured packet. */
module Timing {
  import opened SeqSpace
  import opened EndpointModel
  import opened Retransmissions
  import opened EndpointInvariants
  import opened Splitting
  import opened Refinement

  /** The segments start at different numbers, and neither reaches into the other. */
  predicate Apart(g: Segment, h: Segment) {
    g.seqNo != h.seqNo && Sub(h.seqNo, g.seqNo) >= g.len && Sub(g.seqNo, h.seqNo) >= h.len
  }

  /** Times never go back by sending h after g, they are less than 2^32 us apart, and what is sent at the same time does
      not repeat itself. */
  predicate InTime(g: Segment, h: Segment) {
    0 <= h.ts - g.ts < 0x1_0000_0000 && (h.ts == g.ts ==> Apart(g, h))
  }

  predicate Clocked(events: seq<Event>) {
    forall i, j :: 0 <= i < j < |events| && events[i].Send? && events[j].Send? ==>
      InTime(events[i].segment, events[j].segment)
  }

  predicate SentBefore(ps: seq<Packet>, g: Segment) {
    forall i :: 0 <= i < |ps| ==> InTime(ps[i].segment, g)
  }

  /** The segment itself, or a non-empty part of it. */
  predicate PieceOf(p: Segment, g: Segment) {
    p.ts == g.ts && (p == g || (0 < p.len && Sub(p.seqNo, g.seqNo) + p.len <= g.len))
  }

  lemma SubChain(x: u32, y: u32, z: u32)
    requires Sub(y, x) <= Sub(z, x)
    ensures Sub(z, y) == Sub(z, x) - Sub(y, x)
  {
  }

  lemma SubFlip(x: u32, y: u32)
    requires x != y
    ensures Sub(x, y) > 0 && Sub(x, y) + Sub(y, x) == MOD
  {
  }

  lemma PieceInTime(p: Segment, g: Segment, h: Segment)
    requires PieceOf(p, g) && InTime(g, h)
    ensures InTime(p, h)
  {
    if h.ts == g.ts && p != g {
      SubFlip(g.seqNo, h.seqNo);
      SubChain(g.seqNo, p.seqNo, h.seqNo);
      assert p.seqNo != h.seqNo;
      SubFlip(p.seqNo, h.seqNo);
    }
    hide Sub;
  }

  lemma CoveredOffset(p: Segment, seqNo: u32)
    requires CoversStart(p, seqNo)
    ensures seqNo == p.seqNo || Sub(seqNo, p.seqNo) < p.len
  {
  }

  /** A packet that lies apart from another covers no start of its pieces. */
  lemma ApartCoversNoPiece(g: Segment, h: Segment, p: Segment)
    requires Apart(g, h) && PieceOf(p, h)
    ensures !CoversStart(g, p.seqNo)
  {
    hide CoversStart;
    hide Sub;
    if CoversStart(g, p.seqNo) {
      CoveredOffset(g, p.seqNo);
      if p != h {
        SubFlip(g.seqNo, h.seqNo);
        SubChain(h.seqNo, p.seqNo, g.seqNo);
        SubSelf(g.seqNo);
        if p.seqNo != g.seqNo {
          SubFlip(p.seqNo, g.seqNo);
        }
      }
    }
  }

  lemma SubSelf(x: u32)
    ensures Sub(x, x) == 0
  {
  }

  // ----- pieces of one packet do not retransmit each other

  lemma PrefixStep(gs: seq<Segment>, k: nat)
    requires k < |gs|
    ensures TotalLen(gs[..k + 1]) == TotalLen(gs[..k]) + gs[k].len
  {
    assert gs[..k + 1][..k] == gs[..k];
  }

  lemma {:induction false} PrefixBelow(gs: seq<Segment>, k: nat, m: nat)
    requires k <= m <= |gs|
    ensures TotalLen(gs[..k]) <= TotalLen(gs[..m])
    decreases m
  {
    if k < m {
      PrefixBelow(gs, k, m - 1);
      PrefixStep(gs, m - 1);
      hide TotalLen;
    }
  }

  lemma AfterWithinHalf(x: int, d: int)
    requires 0 < d < MOD
    ensures Wrap(x + d) != Wrap(x)
    ensures After(Wrap(x + d), Wrap(x)) ==> d <= 0x8000_0000
  {
  }

  lemma WrapOnce(x: int)
    ensures Wrap(x + MOD) == Wrap(x)
  {
  }

  lemma NotBetween(a: int, b: int, c: int)
    requires a < b <= c < a + MOD
    ensures Wrap(c) != Wrap(a) && !Between(Wrap(c), Wrap(a), Wrap(b))
  {
    AfterWithinHalf(a, c - a);
    WrapOnce(b);
    if b < c {
      AfterWithinHalf(c, b + MOD - c);
    }
    hide Wrap;
  }

  /** Positions before, at the end of, and after piece j, from the start of the first piece. */
  lemma PiecePositions(gs: seq<Segment>, g: Segment, mss: u32, j: nat, i: nat)
    requires FullSized(gs, mss) && TotalLen(gs) == g.len && j < i < |gs|
    ensures var a, c := TotalLen(gs[..j]), TotalLen(gs[..i]);
            a < a + gs[j].len <= c < a + MOD
  {
    hide TotalLen;
    assert gs[..|gs|] == gs && gs[j].len > 0;
    hide FullSized;
    PrefixStep(gs, j);
    PrefixStep(gs, i);
    PrefixBelow(gs, j + 1, i);
    PrefixBelow(gs, i + 1, |gs|);
  }

  lemma PieceStart(gs: seq<Segment>, g: Segment, k: nat)
    requires BackToBack(gs, g, g.seqNo) && k < |gs|
    ensures gs[k].seqNo == Wrap(g.seqNo + TotalLen(gs[..k]))
  {
    hide TotalLen;
    hide Wrap;
  }

  lemma PieceEnd(p: Segment, a: int)
    requires p.seqNo == Wrap(a)
    ensures SeqEnd(p) == Wrap(a + p.len)
  {
    WrapAdd(a, p.len);
  }

  lemma CoversStartIs(p: Segment, seqNo: u32)
    ensures CoversStart(p, seqNo) <==> seqNo == p.seqNo || Between(seqNo, p.seqNo, SeqEnd(p))
  {
    hide Between;
    hide SeqEnd;
  }

  lemma PiecesApart(gs: seq<Segment>, g: Segment, mss: u32, j: nat, i: nat)
    requires BackToBack(gs, g, g.seqNo) && FullSized(gs, mss) && TotalLen(gs) == g.len && j < i < |gs|
    ensures !CoversStart(gs[j], gs[i].seqNo)
  {
    hide *;
    var a, c := g.seqNo + TotalLen(gs[..j]), g.seqNo + TotalLen(gs[..i]);
    PiecePositions(gs, g, mss, j, i);
    PieceStart(gs, g, j);
    PieceStart(gs, g, i);
    NotBetween(a, a + gs[j].len, c);
    PieceEnd(gs[j], a);
    CoversStartIs(gs[j], Wrap(c));
  }

  lemma WirePiecesApart(g: Segment, mss: u32, j: nat, i: nat)
    requires j < i < |WireSegments(g, mss)|
    ensures !CoversStart(WireSegments(g, mss)[j], WireSegments(g, mss)[i].seqNo)
  {
    WireSegmentsExact(g, mss);
    hide WireSegments;
    hide BackToBack;
    hide FullSized;
    PiecesApart(WireSegments(g, mss), g, mss, j, i);
  }

  // ----- one packet

  /** Packet i is a piece of g as long as it is not an earlier packet. */
  predicate IsPiece(ps: seq<Packet>, n: nat, gs: seq<Segment>, k: nat)
    requires n + k < |ps| && k < |gs|
  {
    ps[n + k].segment == gs[k]
  }

  predicate Appended(before: seq<Packet>, ps: seq<Packet>, gs: seq<Segment>, g: Segment) {
    && Forest(ps) && Later(before, ps) && |ps| == |before| + |gs|
    && forall k :: 0 <= k < |gs| ==> IsPiece(ps, |before|, gs, k) && PieceOf(gs[k], g)
  }

  lemma OffsetPiece(p: Segment, g: Segment, offset: nat)
    requires p == g.(seqNo := Wrap(g.seqNo + offset), len := p.len) && 0 < p.len && offset + p.len <= g.len
    ensures PieceOf(p, g)
  {
    SubExact(g.seqNo + offset, g.seqNo);
  }

  lemma SplitPieces(gs: seq<Segment>, g: Segment, mss: u32, k: nat)
    requires BackToBack(gs, g, g.seqNo) && FullSized(gs, mss) && TotalLen(gs) == g.len && k < |gs|
    ensures PieceOf(gs[k], g)
  {
    hide *;
    PieceShape(gs, g, k);
    PieceInside(gs, g, mss, k);
    OffsetPiece(gs[k], g, TotalLen(gs[..k]));
  }

  lemma PieceShape(gs: seq<Segment>, g: Segment, k: nat)
    requires BackToBack(gs, g, g.seqNo) && k < |gs|
    ensures gs[k] == g.(seqNo := Wrap(g.seqNo + TotalLen(gs[..k])), len := gs[k].len)
  {
    hide TotalLen;
    hide Wrap;
  }

  lemma PieceInside(gs: seq<Segment>, g: Segment, mss: u32, k: nat)
    requires FullSized(gs, mss) && TotalLen(gs) == g.len && k < |gs|
    ensures 0 < gs[k].len && TotalLen(gs[..k]) + gs[k].len <= g.len
  {
    hide TotalLen;
    assert gs[..|gs|] == gs && gs[k].len > 0;
    hide FullSized;
    PrefixStep(gs, k);
    PrefixBelow(gs, k + 1, |gs|);
  }

  lemma WireSegmentsPieces(g: Segment, mss: u32)
    ensures forall k :: 0 <= k < |WireSegments(g, mss)| ==> PieceOf(WireSegments(g, mss)[k], g)
  {
    var gs := WireSegments(g, mss);
    WireSegmentsExact(g, mss);
    hide WireSegments;
    hide BackToBack;
    hide FullSized;
    hide TotalLen;
    if 0 < mss < g.len {
      forall k | 0 <= k < |gs|
        ensures PieceOf(gs[k], g)
      {
        SplitPieces(gs, g, mss, k);
      }
    }
  }

  /** The list grows by the wire packets of g. */
  lemma AddPacketAppends(e: Endpoint, g: Segment)
    requires Invariant(e)
    ensures Appended(e.packets, AddPacket(e, g).packets, WireSegments(g, Prepared(e, g).mss), g)
  {
    hide *;
    var e1 := Prepared(e, g);
    var gs := WireSegments(g, e1.mss);
    PreparedInvariant(e, g);
    AddWirePacketsInvariant(e1, gs);
    AddPacketIsWire(e, g);
    WireSegmentsPieces(g, e1.mss);
    forall k | 0 <= k < |gs|
      ensures AddWirePackets(e1, gs).packets[|e.packets| + k].segment == gs[k]
    {
      AddWirePacketsAppend(e1, gs, k);
    }
    AppendedFrom(e, AddWirePackets(e1, gs), gs, g);
  }

  lemma AddPacketIsWire(e: Endpoint, g: Segment)
    ensures AddPacket(e, g) == AddWirePackets(Prepared(e, g), WireSegments(g, Prepared(e, g).mss))
  {
    hide AddWirePackets;
    hide Prepared;
    hide WireSegments;
  }

  lemma AppendedFrom(e: Endpoint, f: Endpoint, gs: seq<Segment>, g: Segment)
    requires Invariant(f) && Later(e.packets, f.packets) && |f.packets| == |e.packets| + |gs|
    requires forall k :: 0 <= k < |gs| ==> f.packets[|e.packets| + k].segment == gs[k] && PieceOf(gs[k], g)
    ensures Appended(e.packets, f.packets, gs, g)
  {
    hide Forest;
    hide Tallied;
    hide Delayed;
    hide SnapshotsOk;
    hide Later;
  }

  lemma LinkGoesBackInTime(before: seq<Packet>, ps: seq<Packet>, g: Segment, mss: u32, i: nat)
    requires Ordered(before) && SentBefore(before, g) && i < |ps|
    requires Appended(before, ps, WireSegments(g, mss), g)
    ensures var l := ps[i].links.previous;
            l.Some? && l.value < i ==> ps[l.value].segment.ts < ps[i].segment.ts
  {
    var l, n := ps[i].links.previous, |before|;
    hide WireSegments;
    hide CoversStart;
    if l.Some? && l.value < i {
      assert LinkedAt(ps, i);
      hide Forest;
      if n <= l.value {
        assert IsPiece(ps, n, WireSegments(g, mss), l.value - n) && IsPiece(ps, n, WireSegments(g, mss), i - n);
        WirePiecesApart(g, mss, l.value - n, i - n);
      } else if n <= i {
        assert IsPiece(ps, n, WireSegments(g, mss), i - n);
        PieceAfterEarlier(before[l.value].segment, g, ps[i].segment);
      }
    }
  }

  /** A piece that starts inside an earlier packet was sent after it. */
  lemma PieceAfterEarlier(s: Segment, g: Segment, p: Segment)
    requires InTime(s, g) && PieceOf(p, g)
    ensures CoversStart(s, p.seqNo) ==> s.ts < p.ts
  {
    if s.ts == g.ts {
      ApartCoversNoPiece(s, g, p);
    }
    hide CoversStart;
    hide Apart;
  }

  lemma AppendedOrdered(before: seq<Packet>, ps: seq<Packet>, g: Segment, mss: u32)
    requires Ordered(before) && SentBefore(before, g)
    requires Appended(before, ps, WireSegments(g, mss), g)
    ensures Ordered(ps) && forall i :: |before| <= i < |ps| ==> PieceOf(ps[i].segment, g)
  {
    forall i | 0 <= i < |ps|
      ensures var l := ps[i].links.previous;
              l.Some? && l.value < i ==> ps[l.value].segment.ts < ps[i].segment.ts
    {
      LinkGoesBackInTime(before, ps, g, mss, i);
    }
    hide WireSegments;
    hide Forest;
    forall i | |before| <= i < |ps|
      ensures PieceOf(ps[i].segment, g)
    {
      assert IsPiece(ps, |before|, WireSegments(g, mss), i - |before|);
    }
  }

  // ----- whole runs

  predicate SentAt(events: seq<Event>, k: nat, p: Segment) {
    k < |events| && events[k].Send? && PieceOf(p, events[k].segment)
  }

  ghost predicate Occurs(events: seq<Event>, p: Segment) {
    exists k: nat :: SentAt(events, k, p)
  }

  ghost predicate SentIn(ps: seq<Packet>, events: seq<Event>) {
    forall i :: 0 <= i < |ps| ==> Occurs(events, ps[i].segment)
  }

  lemma SentInGrows(ps: seq<Packet>, qs: seq<Packet>, events: seq<Event>, v: Event)
    requires SentIn(ps, events) && Later(ps, qs)
    requires |ps| < |qs| ==> v.Send?
    requires forall i :: |ps| <= i < |qs| ==> PieceOf(qs[i].segment, v.segment)
    ensures SentIn(qs, events + [v])
  {
    forall i | 0 <= i < |qs|
      ensures Occurs(events + [v], qs[i].segment)
    {
      if i < |ps| {
        assert Occurs(events, ps[i].segment);
        var k: nat :| SentAt(events, k, ps[i].segment);
        assert SentAt(events + [v], k, qs[i].segment);
      } else {
        assert SentAt(events + [v], |events|, qs[i].segment);
      }
    }
  }

  lemma ClockedPrefix(events: seq<Event>, n: nat)
    requires Clocked(events) && n <= |events|
    ensures Clocked(events[..n])
  {
  }

  lemma ClockedLast(ps: seq<Packet>, events: seq<Event>)
    requires events != [] && Clocked(events) && events[|events| - 1].Send? && SentIn(ps, events[..|events| - 1])
    ensures SentBefore(ps, events[|events| - 1].segment)
  {
    var n := |events| - 1;
    forall i | 0 <= i < |ps|
      ensures InTime(ps[i].segment, events[n].segment)
    {
      assert Occurs(events[..n], ps[i].segment);
      var k: nat :| SentAt(events[..n], k, ps[i].segment);
      PieceInTime(ps[i].segment, events[k].segment, events[n].segment);
    }
  }

  lemma OrderedFrame(ps: seq<Packet>, qs: seq<Packet>)
    requires Ordered(ps) && Later(ps, qs) && |qs| == |ps|
    ensures Ordered(qs)
  {
  }

  lemma StepOrdered(e: Endpoint, events: seq<Event>, v: Event)
    requires Invariant(e) && Ordered(e.packets) && SentIn(e.packets, events) && Clocked(events + [v])
    ensures Ordered(Step(e, v).packets) && SentIn(Step(e, v).packets, events + [v])
  {
    StepInvariant(e, v);
    hide *;
    match v
    case Send(g) =>
      assert (events + [v])[..|events + [v]| - 1] == events;
      ClockedLast(e.packets, events + [v]);
      AddPacketAppends(e, g);
      StepIsSend(e, v);
      AppendedOrdered(e.packets, Step(e, v).packets, g, Prepared(e, g).mss);
      StepLater(e, v);
      SentInGrows(e.packets, Step(e, v).packets, events, v);
    case _ =>
      StepKeepsList(e, v);
      OrderedFrame(e.packets, Step(e, v).packets);
      SentInGrows(e.packets, Step(e, v).packets, events, v);
  }

  lemma StepIsSend(e: Endpoint, v: Event)
    requires v.Send?
    ensures Step(e, v) == AddPacket(e, v.segment)
  {
    hide AddPacket;
  }

  lemma StepLater(e: Endpoint, v: Event)
    requires Invariant(e)
    ensures Later(e.packets, Step(e, v).packets)
  {
    StepInvariant(e, v);
    hide Step;
    hide Invariant;
    hide Later;
  }

  lemma StepKeepsList(e: Endpoint, v: Event)
    requires Invariant(e) && !v.Send?
    ensures |Step(e, v).packets| == |e.packets| && Later(e.packets, Step(e, v).packets)
  {
    StepLater(e, v);
    hide Later;
    hide Invariant;
    if v.Receive? {
      ProcessAckShape(e, v.ack);
      hide ProcessAck;
    }
  }

  lemma RunLast(e: Endpoint, events: seq<Event>)
    requires events != []
    ensures Run(e, events) == Step(Run(e, events[..|events| - 1]), events[|events| - 1])
  {
    hide Step;
  }

  /** On every run whose timestamps never go back, and that repeats nothing at the same time, timestamps stay ordered,
      whatever is split. */
  lemma {:induction false} RunOrdered(g: Segment, events: seq<Event>)
    requires g.seqNo != 0 && Clocked(events)
    ensures var e := Run(NewEndpoint(g), events);
            Invariant(e) && Ordered(e.packets) && SentIn(e.packets, events)
  {
    hide Invariant;
    hide Step;
    hide Run;
    hide Ordered;
    hide SentIn;
    hide NewEndpoint;
    hide Forward;
    if events == [] {
      StartOrdered(g);
    } else {
      var n := |events| - 1;
      RunLast(NewEndpoint(g), events);
      ClockedPrefix(events, n);
      RunOrdered(g, events[..n]);
      assert events[..n] + [events[n]] == events;
      hide Clocked;
      StepOrdered(Run(NewEndpoint(g), events[..n]), events[..n], events[n]);
      StepInvariant(Run(NewEndpoint(g), events[..n]), events[n]);
    }
  }

  lemma StartOrdered(g: Segment)
    requires g.seqNo != 0
    ensures var e := Run(NewEndpoint(g), []);
            Invariant(e) && Ordered(e.packets) && SentIn(e.packets, [])
  {
    NewEndpointInvariant(g);
    hide Invariant;
    hide Step;
  }

  /** On every such run the recorded delay of a retransmitted packet is the one to its earliest descendant. */
  lemma RunDelaysExact(g: Segment, events: seq<Event>, p: nat, d: nat)
    requires g.seqNo != 0 && Clocked(events)
    requires var ps := Run(NewEndpoint(g), events).packets;
             p < d < |ps| && InChain(ps, d, p)
    ensures var ps := Run(NewEndpoint(g), events).packets;
            var c := FirstChild(ps, p, |ps|);
            && c.Some? && p < c.value <= d && InChain(ps, c.value, p)
            && ps[p].tally.rtxDelay == ps[c.value].segment.ts - ps[p].segment.ts
            && ps[p].tally.rtxDelay <= ps[d].segment.ts - ps[p].segment.ts
  {
    RunOrdered(g, events);
    hide Run;
    hide Ordered;
    hide FirstChild;
    hide InChain;
    EarliestDescendant(Run(NewEndpoint(g), events).packets, p, d);
  }
}
