/** The 32-bit reconstruction refines the unbounded sender, on every run whose numbers fit the window. */
module Refinement {
  import opened Arithmetic
  import opened SeqSpace
  import opened Intervals
  import opened TcpSacks
  import opened TcpTimer
  import opened SackCoverage
  import opened EndpointModel
  import opened Frames
  import opened Conservation
  import opened Retransmissions
  import opened EndpointInvariants
  import opened Splitting
  import Ref = SenderReference

  // ----- sending leaves the scoreboard alone

  predicate Quiet(e: Endpoint, f: Endpoint) {
    f.board == e.board && f.unacked == e.unacked && f.acks == e.acks && |f.packets| == |e.packets| && f.mss == e.mss
  }

  lemma ProcessRtxQuiet(e: Endpoint)
    requires e.acks.lookalikes == []
    ensures Quiet(e, ProcessRtx(e))
  {
    var e2 := e.(current := e.current.(flags := e.current.flags.(isRtx := true)));
    FindRtxTriggerCosmetic(e2);
    assert CheckLookalikesFrom(e, 0) == e;
    LinkExact(FindRtxTrigger(e2));
    hide FindRtxTrigger;
    hide LinkToPreviousTx;
    hide InChain;
    hide MarkedFrom;
  }

  lemma SendQuiet(e: Endpoint)
    requires e.acks.lookalikes == []
    ensures Quiet(e, SendData(e)) && Quiet(e, SendSyn(e))
  {
    ProcessRtxQuiet(e);
    ProcessRtxQuiet(e.(seqs := AdvanceNext(e.seqs, SeqEnd(e.current.segment))));
    hide ProcessRtx;
    hide AdvanceNext;
    hide Rto;
    hide Tlp;
    hide UnackedBytes;
  }

  lemma OutstandingQuiet(e: Endpoint)
    ensures Outstanding(e) == e.(unacked := e.unacked + [|e.packets|], timers := Outstanding(e).timers)
  {
    hide InFlight;
    hide Rto;
    hide Tlp;
  }

  lemma AddWirePacketQuiet(e: Endpoint, g: Segment)
    requires e.acks.lookalikes == []
    ensures var f := AddWirePacket(e, g);
            && f.board == e.board && f.acks == e.acks && f.mss == e.mss
            && f.unacked == e.unacked + if RequiresAck(g) then [|e.packets|] else []
  {
    hide SendData;
    hide SendSyn;
    SendQuiet(Begin(e, g));
    OutstandingQuiet(SendData(Begin(e, g)));
    OutstandingQuiet(SendSyn(Begin(e, g)));
    hide Outstanding;
    hide InFlight;
    hide Rto;
    hide Tlp;
  }

  // ----- the abstraction

  /** The lowest position that the window below the highest one reaches. */
  function Low(r: Ref.Sender): int {
    r.next - WINDOW
  }

  /** Packet `s` of the sender is what was captured as `g`. */
  predicate Captured(g: Segment, s: Ref.Sent) {
    s.lo <= s.hi && g.seqNo == Wrap(s.lo) && SeqEnd(g) == Wrap(s.hi)
  }

  predicate PacketsMatch(ps: seq<Packet>, sent: seq<Ref.Sent>) {
    |ps| == |sent| && forall i :: 0 <= i < |ps| ==> Captured(ps[i].segment, sent[i])
  }

  /** The window hypothesis: everything outstanding lies within the window below the highest position. */
  predicate Fits(r: Ref.Sender) {
    && Low(r) <= r.acked <= r.next
    && forall x :: x in r.outstanding ==> x < |r.sent| && Low(r) <= r.sent[x].lo && r.sent[x].hi <= r.next
  }

  predicate SequencesMatch(q: Sequences, r: Ref.Sender) {
    && q.init == Wrap(r.init) && q.acked == Wrap(r.acked) && q.next == Wrap(r.next)
    && r.init + q.ackedBytes == r.acked
  }

  /** The scoreboard holds exactly the reported bytes from the cumulative ACK on, and counts them. */
  ghost predicate BoardMatches(b: Board, r: Ref.Sender) {
    && Good(Low(r), b.list) && b.numBytes == |Covered(Low(r), b.list)|
    && Covered(Low(r), b.list) == (set p | p in r.sacked && r.acked <= p)
    && (forall p :: p in r.sacked ==> p < r.next)
  }

  ghost predicate Refines(e: Endpoint, r: Ref.Sender) {
    && Invariant(e) && e.acks.lookalikes == []
    && SequencesMatch(e.seqs, r) && BoardMatches(e.board, r)
    && PacketsMatch(e.packets, r.sent) && e.unacked == r.outstanding
    && Fits(r)
  }

  lemma CardOfDifference(a: set<int>, b: set<int>)
    ensures |a - b| == |a| - |a * b| && |a * b| <= |a|
  {
  }

  lemma WindowPart(sacked: set<int>, lo: int, hi: int)
    requires forall p :: p in sacked ==> p < hi
    ensures Range(lo, hi) * sacked == set p | p in sacked && lo <= p
  {
  }

  /** GetUnackedBytes is exactly the number of bytes sent and neither acknowledged nor reported in a SACK block, and
      its guard against underflow never fires. */
  lemma UnackedBytesExact(e: Endpoint, r: Ref.Sender)
    requires Refines(e, r)
    ensures UnackedBytes(e) == |Ref.Missing(r)|
    ensures e.board.numBytes <= Sub(e.seqs.next, e.seqs.acked)
  {
    hide Invariant;
    hide PacketsMatch;
    hide Good;
    hide Covered;
    SubExact(r.next, r.acked);
    CardOfDifference(Range(r.acked, r.next), r.sacked);
    WindowPart(r.sacked, r.acked, r.next);
    assert |Range(r.acked, r.next)| == r.next - r.acked;
    hide Range;
    hide Wrap;
    SubSmall(r.next - r.acked, e.board.numBytes);
  }

  lemma SubSmall(a: int, b: int)
    requires 0 <= b <= a < MOD
    ensures Sub(a, b) == a - b
  {
  }

  // ----- one packet sent

  /** A board read in a higher window, as long as its blocks are above the new base. */
  lemma Rebase(b: Board, r: Ref.Sender, t: Ref.Sender)
    requires BoardMatches(b, r) && Low(t) <= r.acked && r.next <= t.next
    requires t.acked == r.acked && t.sacked == r.sacked
    ensures BoardMatches(b, t)
  {
    var low := Low(r);
    forall i | 0 <= i < |b.list|
      ensures Low(t) <= Lift(low, b.list[i].start) && Lift(low, b.list[i].end) <= Low(t) + WINDOW
    {
      BlockBounds(low, b.list, i);
    }
    hide Good;
    hide Covered;
    hide Lift;
    SlideWindow(low, Low(t), b.list);
  }

  /** The first and the last byte of a block are covered. */
  lemma BlockBounds(base: int, ss: seq<Sack>, i: nat)
    requires Good(base, ss) && i < |ss|
    ensures Lift(base, ss[i].start) in Covered(base, ss) && Lift(base, ss[i].end) - 1 in Covered(base, ss)
  {
    BlockInCover(Blocks(base, ss), i, Lift(base, ss[i].start));
    BlockInCover(Blocks(base, ss), i, Lift(base, ss[i].end) - 1);
  }

  /** Sending one packet: the reconstruction takes the same step as the sender. */
  lemma SendRefines(e: Endpoint, r: Ref.Sender, g: Segment, s: Ref.Sent)
    requires Refines(e, r) && Captured(g, s) && g.len == s.hi - s.lo && s.tracked == RequiresAck(g)
    requires Fits(Ref.Transmitted(r, s))
    ensures Refines(AddWirePacket(e, g), Ref.Transmitted(r, s))
    ensures g.len != 0 ==>
              (AddWirePacket(e, g).packets[|e.packets|].flags.isRtx <==> s.hi <= r.next)
    ensures g.len != 0 ==>
              AddWirePacket(e, g).packets[|e.packets|].snapshot.unackedBytes == |Ref.Missing(Ref.Transmitted(r, s))|
  {
    var f, t := AddWirePacket(e, g), Ref.Transmitted(r, s);
    AddWirePacketInvariant(e, g);
    AddWirePacketQuiet(e, g);
    hide AddWirePacket;
    hide Invariant;
    if g.len != 0 {
      AfterExact(s.hi, r.next);
    }
    Rebase(e.board, r, t);
    hide BoardMatches;
    assert PacketsMatch(f.packets, t.sent);
    hide PacketsMatch;
    if g.len != 0 {
      SnapshotIsCount(e, g);
      UnackedBytesExact(f, t);
    }
  }

  /** A data packet records the count that holds once it is sent. */
  lemma SnapshotIsCount(e: Endpoint, g: Segment)
    requires g.len != 0
    ensures var f := AddWirePacket(e, g);
            |f.packets| > 0 && f.packets[|f.packets| - 1].snapshot.unackedBytes == UnackedBytes(f)
  {
    OutstandingQuiet(SendData(Begin(e, g)));
    hide ProcessRtx;
    hide AdvanceNext;
    hide Outstanding;
    hide Rto;
    hide Tlp;
  }

  function Lens(gs: seq<Segment>): (cuts: seq<nat>)
    ensures |cuts| == |gs| && forall k :: 0 <= k < |gs| ==> cuts[k] == gs[k].len
  {
    seq(|gs|, k requires 0 <= k < |gs| => gs[k].len)
  }

  lemma {:induction false} SumOfLens(gs: seq<Segment>)
    ensures Ref.Sum(Lens(gs)) == TotalLen(gs)
  {
    if gs != [] {
      SumOfLens(gs[..|gs| - 1]);
      assert Lens(gs)[..|gs| - 1] == Lens(gs[..|gs| - 1]);
    }
  }

  /** The window hypothesis for packets sent back to back: it holds after each of them. */
  predicate FitsThroughout(r: Ref.Sender, lo: int, cuts: seq<nat>, syn: bool) {
    Fits(Ref.TransmittedAll(r, lo, cuts, syn)) && (cuts == [] || FitsThroughout(r, lo, cuts[..|cuts| - 1], syn))
  }

  /** It is enough that the numbers fit below the highest position reached in the end. */
  lemma {:induction false} FitsToTheEnd(r: Ref.Sender, lo: int, cuts: seq<nat>, syn: bool)
    requires Fits(r) && Ref.TransmissionFits(r, lo, cuts, syn, WINDOW)
    ensures FitsThroughout(r, lo, cuts, syn)
    decreases |cuts|
  {
    var low := Max(r.next, lo + Ref.Sum(cuts)) - WINDOW;
    Ref.TransmittedAllFrom(r, lo, cuts, syn, low);
    Ref.TransmittedAllExact(r, lo, cuts, syn);
    if cuts != [] {
      assert Ref.Sum(cuts[..|cuts| - 1]) <= Ref.Sum(cuts);
      FitsToTheEnd(r, lo, cuts[..|cuts| - 1], syn);
    }
    hide Ref.TransmittedAll;
  }

  lemma LastSegmentCaptured(gs: seq<Segment>, g: Segment, lo: int)
    requires gs != [] && g.seqNo == Wrap(lo) && BackToBack(gs, g, g.seqNo)
    ensures var last, s := gs[|gs| - 1], Ref.LastPiece(lo, Lens(gs), g.syn);
            && Captured(last, s) && last.len == s.hi - s.lo && s.tracked == RequiresAck(last)
  {
    var n := |gs| - 1;
    SumOfLens(gs);
    SumOfLens(gs[..n]);
    assert Lens(gs)[..n] == Lens(gs[..n]);
    assert Ref.Sum(Lens(gs)) == TotalLen(gs[..n]) + gs[n].len;
    hide Ref.Sum;
    assert gs[n] == g.(seqNo := Wrap(g.seqNo + TotalLen(gs[..n])), len := gs[n].len);
    WrapAdd(lo, TotalLen(gs[..n]));
    WrapAdd(lo + TotalLen(gs[..n]), gs[n].len);
    hide TotalLen;
    hide BackToBack;
    hide Wrap;
  }

  lemma BackToBackPrefix(gs: seq<Segment>, g: Segment, start: int)
    requires BackToBack(gs, g, start) && gs != []
    ensures BackToBack(gs[..|gs| - 1], g, start)
  {
    forall k | 0 <= k < |gs| - 1
      ensures gs[..|gs| - 1][..k] == gs[..k]
    {
    }
  }

  lemma {:induction false} SendAllRefines(e: Endpoint, r: Ref.Sender, g: Segment, lo: int, gs: seq<Segment>)
    requires Refines(e, r) && g.seqNo == Wrap(lo) && BackToBack(gs, g, g.seqNo)
    requires FitsThroughout(r, lo, Lens(gs), g.syn)
    ensures Refines(AddWirePackets(e, gs), Ref.TransmittedAll(r, lo, Lens(gs), g.syn))
  {
    if gs != [] {
      var n := |gs| - 1;
      var cuts := Lens(gs);
      assert cuts[..n] == Lens(gs[..n]);
      BackToBackPrefix(gs, g, g.seqNo);
      LastSegmentCaptured(gs, g, lo);
      hide Refines;
      hide AddWirePacket;
      hide Fits;
      hide BackToBack;
      hide Captured;
      SendAllRefines(e, r, g, lo, gs[..n]);
      SendRefines(AddWirePackets(e, gs[..n]), Ref.TransmittedAll(r, lo, cuts[..n], g.syn), gs[n],
                  Ref.LastPiece(lo, cuts, g.syn));
    }
  }

  lemma PreparedRefines(e: Endpoint, r: Ref.Sender, g: Segment)
    requires Refines(e, r)
    ensures Refines(Prepared(e, g), r)
  {
    PreparedInvariant(e, g);
    hide Invariant;
    hide BoardMatches;
    hide PacketsMatch;
    hide Fits;
    hide DerivedMss;
  }

  /** Sending a coalesced packet: its wire packets are those of the sender, one after the other. */
  lemma AddPacketRefines(e: Endpoint, r: Ref.Sender, g: Segment, lo: int, cuts: seq<nat>)
    requires Refines(e, r) && g.seqNo == Wrap(lo) && cuts == Lens(WireSegments(g, Prepared(e, g).mss))
    requires Ref.TransmissionFits(r, lo, cuts, g.syn, WINDOW)
    ensures Refines(AddPacket(e, g), Ref.TransmittedAll(r, lo, cuts, g.syn))
  {
    var e1 := Prepared(e, g);
    PreparedRefines(e, r, g);
    FitsToTheEnd(r, lo, cuts, g.syn);
    WireSegmentsExact(g, e1.mss);
    SendAllRefines(e1, r, g, lo, WireSegments(g, e1.mss));
    hide Refines;
    hide AddWirePackets;
    hide Prepared;
  }

  lemma UnsplitNext(e: Endpoint, next: int, g: Segment, lo: int)
    requires Invariant(e) && e.seqs.next == Wrap(next) && g.seqNo == Wrap(lo)
    requires -WINDOW <= lo + g.len - next <= WINDOW
    ensures AddWirePacket(e, g).seqs.next == Wrap(if g.len > 0 then Max(next, lo + g.len) else next)
  {
    hide Invariant;
    hide Later;
    hide AddWirePacket;
    AddWirePacketInvariant(e, g);
    WrapAdd(lo, g.len);
    assert SeqEnd(g) == Wrap(lo + g.len);
    hide SeqEnd;
    AfterExact(lo + g.len, next);
    hide Wrap;
    hide After;
  }

  lemma RefinedNext(e: Endpoint, r: Ref.Sender, lo: int, cuts: seq<nat>, syn: bool)
    requires Refines(e, Ref.TransmittedAll(r, lo, cuts, syn))
    ensures e.seqs.next == Wrap(if Ref.Sum(cuts) > 0 then Max(r.next, lo + Ref.Sum(cuts)) else r.next)
  {
    Ref.TransmittedAllExact(r, lo, cuts, syn);
    hide Invariant;
    hide BoardMatches;
    hide PacketsMatch;
    hide Ref.TransmittedAll;
    hide Wrap;
  }

  lemma NextInWindow(e: Endpoint, r: Ref.Sender, lo: int, cuts: seq<nat>, syn: bool)
    requires Refines(e, r) && Ref.TransmissionFits(r, lo, cuts, syn, WINDOW)
    ensures Invariant(e) && e.seqs.next == Wrap(r.next) && -WINDOW <= lo + Ref.Sum(cuts) - r.next <= WINDOW
  {
    hide Invariant;
    hide BoardMatches;
    hide PacketsMatch;
    hide Ref.Sum;
    hide Wrap;
  }

  lemma CutsAddUp(g: Segment, mss: u32)
    ensures Ref.Sum(Lens(WireSegments(g, mss))) == g.len
  {
    WireSegmentsExact(g, mss);
    SumOfLens(WireSegments(g, mss));
  }

  /** Splitting does not matter for the window: the next sequence number ends up where the unsplit packet would have
      put it. */
  lemma SplitKeepsNext(e: Endpoint, r: Ref.Sender, g: Segment, lo: int, cuts: seq<nat>)
    requires Refines(e, r) && g.seqNo == Wrap(lo) && cuts == Lens(WireSegments(g, Prepared(e, g).mss))
    requires Ref.TransmissionFits(r, lo, cuts, g.syn, WINDOW)
    ensures AddPacket(e, g).seqs.next == AddWirePacket(Prepared(e, g), g).seqs.next
  {
    hide *;
    AddPacketRefines(e, r, g, lo, cuts);
    RefinedNext(AddPacket(e, g), r, lo, cuts, g.syn);
    PreparedRefines(e, r, g);
    NextInWindow(Prepared(e, g), r, lo, cuts, g.syn);
    CutsAddUp(g, Prepared(e, g).mss);
    UnsplitNext(Prepared(e, g), r.next, g, lo);
  }

  // ----- one ACK received

  lemma AdvanceRefines(e: Endpoint, r: Ref.Sender, ack: Ack, number: int)
    requires Refines(e, r) && ack.number == Wrap(number) && Low(r) <= number <= r.next
    requires number == r.acked ==> ack.unknownOptions < 10
    ensures var f := Advance(e, ack);
            && f.acks.lookalikes == [] && f.board == e.board && f.packets == e.packets && f.unacked == e.unacked
            && (Moves(e.seqs, ack) <==> number > r.acked)
            && SequencesMatch(f.seqs, r.(acked := Max(r.acked, number)))
  {
    AfterExact(number, r.acked);
    if number > r.acked {
      SubExact(number, r.acked);
    }
    hide Invariant;
    hide BoardMatches;
    hide PacketsMatch;
  }

  lemma DoneExact(g: Segment, s: Ref.Sent, acked: int, low: int, sacks: seq<Sack>)
    requires Captured(g, s) && low <= s.lo && s.hi <= low + WINDOW && low <= acked <= low + WINDOW
    requires Good(low, sacks)
    ensures IsAcked(g, Wrap(acked), sacks) <==> Ref.Done(s, acked, Covered(low, sacks))
  {
    AfterExact(s.hi, acked);
    IncludedSomewhere(low, sacks, s.lo, s.hi);
    hide Covered;
    hide Good;
    hide RangeCovered;
    assert forall i :: 0 <= i < |sacks| ==>
             (IncludedAt(sacks, i, s.lo, s.hi) <==> RangeIncluded(g.seqNo, SeqEnd(g), sacks[i].start, sacks[i].end));
  }

  lemma {:induction false} KeptRefines(e: Endpoint, r: Ref.Sender, positions: seq<nat>, sacks: seq<Sack>, acked: int,
                                       reported: set<int>)
    requires PacketsMatch(e.packets, r.sent) && e.seqs.acked == Wrap(acked) && Low(r) <= acked <= r.next
    requires forall x :: x in positions ==> x < |r.sent| && Low(r) <= r.sent[x].lo && r.sent[x].hi <= r.next
    requires Good(Low(r), sacks) && Covered(Low(r), sacks) == reported
    ensures Kept(e, positions, sacks) == Ref.StillOut(r, positions, acked, reported)
  {
    if positions != [] {
      var n := |positions| - 1;
      assert positions[n] in positions;
      assert forall x :: x in positions[..n] ==> x in positions;
      DoneExact(e.packets[positions[n]].segment, r.sent[positions[n]], acked, Low(r), sacks);
      hide Good;
      hide Covered;
      hide IsAcked;
      KeptRefines(e, r, positions[..n], sacks, acked, reported);
    }
  }

  lemma TrimmedSet(all: set<int>, rest: set<int>, sacked: set<int>, reported: set<int>, from: int, acked: int)
    requires all == (set p | p in sacked && from <= p) + reported && from <= acked
    requires forall p :: p in rest <==> p in all && acked <= p
    ensures rest == set p | p in sacked + reported && acked <= p
  {
    var goal := set p | p in sacked + reported && acked <= p;
    forall p
      ensures p in rest <==> p in goal
    {
    }
  }

  /** Adding the reported blocks and trimming below the cumulative ACK leaves exactly the reported bytes above it. */
  lemma BoardRefines(b: Board, r: Ref.Sender, blocks: seq<Block>, acked: int)
    requires BoardMatches(b, r) && BlocksWithin(blocks, Low(r), r.next) && Low(r) <= r.acked <= acked <= r.next
    ensures BoardMatches(Recounted(Trimmed(AddAll(b, ParsedList(WireBlocks(blocks))).list, Wrap(acked))),
                         r.(acked := acked, sacked := r.sacked + Cover(blocks)))
  {
    var low, sacks := Low(r), ParsedList(WireBlocks(blocks));
    var list := AddAll(b, sacks).list;
    ReportedExact(low, blocks);
    AddAllExact(low, b, sacks);
    LiftWrap(low, acked);
    TrimExact(low, list, Wrap(acked));
    CounterExact(low, Trimmed(list, Wrap(acked)));
    AllBelow(blocks, r.next);
    hide Good;
    hide Covered;
    hide Trimmed;
    hide AddAll;
    hide ParsedList;
    hide Wrap;
    hide Bytes;
    TrimmedSet(Covered(low, list), Covered(low, Trimmed(list, Wrap(acked))), r.sacked, Cover(blocks), r.acked, acked);
  }

  lemma AbsorbShape(e: Endpoint, ack: Ack)
    ensures var f := Absorb(e, ack);
            && f.unacked == Kept(e, e.unacked, ack.sacks)
            && f.board == Recounted(Trimmed(AddAll(e.board, ack.sacks).list, e.seqs.acked))
            && f.acks.lookalikes == e.acks.lookalikes && f.seqs == e.seqs && |f.packets| == |e.packets|
  {
    AckPacketsShape(e, ack);
    HandleAllFrame(e, e.unacked, ack);
    hide AckPackets;
    hide Kept;
    hide Trimmed;
    hide AddAll;
    hide HandleAll;
  }

  lemma LaterMatches(ps: seq<Packet>, qs: seq<Packet>, sent: seq<Ref.Sent>)
    requires PacketsMatch(ps, sent) && Later(ps, qs) && |qs| == |ps|
    ensures PacketsMatch(qs, sent)
  {
  }

  /** What an ACK reports, in the sender's terms. A duplicate ACK has no room for blocks that were not captured. */
  ghost predicate Reports(ack: Ack, r: Ref.Sender, number: int, blocks: seq<Block>, declared: bool) {
    && ack.number == Wrap(number) && ack.sacks == ParsedList(WireBlocks(blocks))
    && declared == HasSacks(ack) && (blocks != [] ==> declared)
    && (number == r.acked ==> ack.unknownOptions < 10)
    && Low(r) <= number <= r.next && BlocksWithin(blocks, Low(r), r.next)
  }

  /** The endpoint after the acknowledging part of an ACK, without its packets' flags. */
  lemma AbsorbRefines(e: Endpoint, r: Ref.Sender, ack: Ack, number: int, blocks: seq<Block>, declared: bool)
    requires Refines(e, r) && Reports(ack, r, number, blocks, declared)
    requires number > r.acked || declared
    ensures var f, t := Absorb(Advance(e, ack), ack), Ref.Acknowledged(r, number, blocks, declared);
            && f.unacked == t.outstanding && BoardMatches(f.board, t) && SequencesMatch(f.seqs, t)
            && f.acks.lookalikes == [] && |f.packets| == |e.packets|
  {
    var acked := Max(r.acked, number);
    var e1 := Advance(e, ack);
    AdvanceRefines(e, r, ack, number);
    AbsorbShape(e1, ack);
    BoardRefines(e.board, r, blocks, acked);
    ReportedExact(Low(r), blocks);
    KeptRefines(e1, r, r.outstanding, ack.sacks, acked, Cover(blocks));
    hide Advance;
    hide Absorb;
    hide Invariant;
    hide BoardMatches;
    hide PacketsMatch;
    hide Kept;
    hide Trimmed;
    hide AddAll;
    hide Good;
    hide Covered;
    hide ParsedList;
    BoardIgnoresList(e.board, r, acked, blocks, Ref.Acknowledged(r, number, blocks, declared));
  }

  lemma BoardIgnoresList(b: Board, r: Ref.Sender, acked: int, blocks: seq<Block>, t: Ref.Sender)
    requires t.next == r.next && t.acked == acked && t.sacked == r.sacked + Cover(blocks)
    ensures forall c :: BoardMatches(c, r.(acked := acked, sacked := r.sacked + Cover(blocks))) ==> BoardMatches(c, t)
  {
    hide Good;
    hide Covered;
  }

  lemma ProcessAckShape(e: Endpoint, ack: Ack)
    requires Invariant(e)
    ensures var e1 := Advance(e, ack);
            var e2 := if Moves(e.seqs, ack) || HasSacks(ack) then Absorb(e1, ack) else e1;
            var f := ProcessAck(e, ack);
            && f == e2.(packets := f.packets) && |f.packets| == |e.packets|
            && Invariant(f) && Later(e.packets, f.packets)
  {
    ProcessAckInvariant(e, ack);
    ProcessAckStages(e, ack);
    AbsorbShape(Advance(e, ack), ack);
    AdvanceShape(e, ack);
    hide Invariant;
    hide ProcessAck;
    hide Absorb;
    hide Advance;
    hide Later;
    hide DSackPackets;
  }

  lemma AcknowledgedFits(r: Ref.Sender, number: int, blocks: seq<Block>, declared: bool)
    requires Fits(r) && Low(r) <= number <= r.next
    ensures Fits(Ref.Acknowledged(r, number, blocks, declared))
  {
    var acked := Max(r.acked, number);
    Ref.StillOutExact(r, r.outstanding, acked, Cover(blocks));
    hide Ref.StillOut;
  }

  /** An ACK that neither moves nor reports anything changes nothing the sender would notice. */
  lemma IdleRefines(e: Endpoint, r: Ref.Sender, number: int, blocks: seq<Block>, declared: bool)
    requires BoardMatches(e.board, r) && number <= r.acked && blocks == [] && !declared
    ensures Ref.Acknowledged(r, number, blocks, declared) == r
  {
    assert r.sacked + Cover(blocks) == r.sacked;
  }

  /** Receiving an ACK: the reconstruction takes the same step as the sender. */
  lemma ProcessAckRefines(e: Endpoint, r: Ref.Sender, ack: Ack, number: int, blocks: seq<Block>, declared: bool)
    requires Refines(e, r) && Reports(ack, r, number, blocks, declared)
    ensures Refines(ProcessAck(e, ack), Ref.Acknowledged(r, number, blocks, declared))
  {
    var f, t := ProcessAck(e, ack), Ref.Acknowledged(r, number, blocks, declared);
    AdvanceRefines(e, r, ack, number);
    ProcessAckShape(e, ack);
    AcknowledgedFits(r, number, blocks, declared);
    if number > r.acked || declared {
      AbsorbRefines(e, r, ack, number, blocks, declared);
    } else {
      IdleRefines(e, r, number, blocks, declared);
    }
    hide ProcessAck;
    hide Advance;
    hide Absorb;
    hide Invariant;
    hide BoardMatches;
    hide PacketsMatch;
    hide Fits;
    hide Later;
    LaterMatches(e.packets, f.packets, r.sent);
  }

  // ----- whole runs

  /** The event is the wire image of the action, and its numbers fit the window. */
  ghost predicate Observes(e: Endpoint, r: Ref.Sender, v: Event, a: Ref.Action) {
    match (v, a)
    case (Send(g), Transmit(lo, cuts, syn)) =>
      && g.seqNo == Wrap(lo) && g.syn == syn && cuts == Lens(WireSegments(g, Prepared(e, g).mss))
      && Ref.TransmissionFits(r, lo, cuts, syn, WINDOW)
    case (Receive(ack), Acknowledge(number, blocks, declared)) =>
      Reports(ack, r, number, blocks, declared)
    case (Announce(_), Negotiate) => true
    case _ => false
  }

  ghost predicate Faithful(e: Endpoint, r: Ref.Sender, events: seq<Event>, actions: seq<Ref.Action>) {
    && |events| == |actions|
    && (events == [] ||
        (var n := |events| - 1;
         && Faithful(e, r, events[..n], actions[..n])
         && Observes(Run(e, events[..n]), Ref.History(r, actions[..n]), events[n], actions[n])))
  }

  lemma WithMssRefines(e: Endpoint, r: Ref.Sender, mss: u32)
    requires Refines(e, r)
    ensures Refines(WithMss(e, mss), r)
  {
    WithMssInvariant(e, mss);
    hide Invariant;
    hide BoardMatches;
    hide PacketsMatch;
    hide Fits;
  }

  lemma StepRefines(e: Endpoint, r: Ref.Sender, v: Event, a: Ref.Action)
    requires Refines(e, r) && Observes(e, r, v, a)
    ensures Refines(Step(e, v), Ref.Next(r, a))
  {
    match (v, a)
    case (Send(g), Transmit(lo, cuts, syn)) =>
      AddPacketRefines(e, r, g, lo, cuts);
    case (Receive(ack), Acknowledge(number, blocks, declared)) =>
      ProcessAckRefines(e, r, ack, number, blocks, declared);
    case (Announce(mss), Negotiate) =>
      WithMssRefines(e, r, mss);
    case _ =>
  }

  /** Along every faithful run the reconstruction and the sender stay in step. */
  lemma {:induction false} RunRefines(e: Endpoint, r: Ref.Sender, events: seq<Event>, actions: seq<Ref.Action>)
    requires Refines(e, r) && Faithful(e, r, events, actions)
    ensures Refines(Run(e, events), Ref.History(r, actions))
    decreases |events|
  {
    if events != [] {
      var n := |events| - 1;
      hide Refines;
      hide Observes;
      hide Step;
      RunRefines(e, r, events[..n], actions[..n]);
      StepRefines(Run(e, events[..n]), Ref.History(r, actions[..n]), events[n], actions[n]);
    } else {
      hide *;
      assert actions == [];
    }
  }

  function NewSender(init: int): Ref.Sender {
    Ref.Sender(init, init, init + 1, {}, [], [])
  }

  lemma NewEndpointRefines(g: Segment, init: int)
    requires g.seqNo == Wrap(init) && g.seqNo != 0
    ensures Refines(NewEndpoint(g), NewSender(init))
  {
    NewEndpointInvariant(g);
    hide Invariant;
  }

  /** The endpoint knows what the sender knows: how much is acknowledged, what is sent next, which packets are
      outstanding, and how many bytes are missing. */
  predicate Knows(e: Endpoint, r: Ref.Sender) {
    && UnackedBytes(e) == |Ref.Missing(r)|
    && e.seqs.ackedBytes == r.acked - r.init && e.seqs.acked == Wrap(r.acked) && e.seqs.next == Wrap(r.next)
    && e.unacked == r.outstanding
  }

  /** On every run whose numbers fit the window, across any number of wraparounds, the 32-bit endpoint knows exactly
      what the sender knows. */
  lemma ReconstructionExact(g: Segment, init: int, events: seq<Event>, actions: seq<Ref.Action>)
    requires g.seqNo == Wrap(init) && g.seqNo != 0
    requires Faithful(NewEndpoint(g), NewSender(init), events, actions)
    ensures var e, r := Run(NewEndpoint(g), events), Ref.History(NewSender(init), actions);
            Knows(e, r) && r.init == init
  {
    NewEndpointRefines(g, init);
    RunRefines(NewEndpoint(g), NewSender(init), events, actions);
    HistoryKeepsInit(NewSender(init), actions);
    UnackedBytesExact(Run(NewEndpoint(g), events), Ref.History(NewSender(init), actions));
    hide Run;
    hide Ref.History;
    hide UnackedBytes;
    hide Invariant;
    hide BoardMatches;
  }

  lemma {:induction false} TransmittedAllKeepsInit(r: Ref.Sender, lo: int, cuts: seq<nat>, syn: bool)
    ensures Ref.TransmittedAll(r, lo, cuts, syn).init == r.init
  {
    if cuts != [] {
      TransmittedAllKeepsInit(r, lo, cuts[..|cuts| - 1], syn);
    }
  }

  lemma {:induction false} HistoryKeepsInit(r: Ref.Sender, actions: seq<Ref.Action>)
    ensures Ref.History(r, actions).init == r.init
  {
    if actions != [] {
      var n := |actions| - 1;
      HistoryKeepsInit(r, actions[..n]);
      match actions[n]
      case Transmit(lo, cuts, syn) => TransmittedAllKeepsInit(Ref.History(r, actions[..n]), lo, cuts, syn);
      case Acknowledge(_, _, _) =>
      case Negotiate =>
    }
  }

  /** A packet listed as unacknowledged carries byte p. */
  predicate ListsCarrier(e: Endpoint, r: Ref.Sender, p: int) {
    exists x :: x in e.unacked && x < |r.sent| && x < |e.packets| && Captured(e.packets[x].segment, r.sent[x])
                && Ref.Carries(r.sent[x], p)
  }

  lemma CarrierListed(e: Endpoint, r: Ref.Sender, p: int)
    requires Refines(e, r) && Ref.CarriedOut(r, p)
    ensures ListsCarrier(e, r, p)
  {
    hide Invariant;
    hide BoardMatches;
    hide Captured;
    var k :| 0 <= k < |r.outstanding| && r.outstanding[k] < |r.sent| && Ref.Carries(r.sent[r.outstanding[k]], p);
    assert r.outstanding[k] in e.unacked;
  }

  /** On every faithful run without capture gaps, each missing byte after the initial sequence number is carried by a
      packet that the endpoint still lists as unacknowledged. */
  lemma MissingIsOutstanding(g: Segment, init: int, events: seq<Event>, actions: seq<Ref.Action>, p: int)
    requires g.seqNo == Wrap(init) && g.seqNo != 0
    requires Faithful(NewEndpoint(g), NewSender(init), events, actions) && Ref.Unbroken(NewSender(init), actions)
    requires p in Ref.Missing(Ref.History(NewSender(init), actions)) && p > init
    ensures ListsCarrier(Run(NewEndpoint(g), events), Ref.History(NewSender(init), actions), p)
  {
    NewSenderForgetsNothing(init);
    hide Refines;
    hide Faithful;
    hide Run;
    hide Ref.History;
    hide Ref.Missing;
    hide Ref.Unbroken;
    hide Ref.CarriedOut;
    hide ListsCarrier;
    NewEndpointRefines(g, init);
    RunRefines(NewEndpoint(g), NewSender(init), events, actions);
    HistoryKeepsInit(NewSender(init), actions);
    Ref.HistoryForgetsNothing(NewSender(init), actions);
    CarrierListed(Run(NewEndpoint(g), events), Ref.History(NewSender(init), actions), p);
  }

  lemma NewSenderForgetsNothing(init: int)
    ensures Ref.NothingForgotten(NewSender(init))
  {
  }
}
