/** When a run is given up as bogus: exactly after too many retransmissions of data that was never seen, or after an ACK
    for data that was never sent. */
module Verdict {
  import opened SeqSpace
  import opened TcpSacks
  import opened TcpTimer
  import opened EndpointModel
  import opened Frames
  import opened Retransmissions
  import opened EndpointInvariants
  import opened SackCoverage
  import opened Refinement
  import Ref = SenderReference

  predicate SameVerdict(e: Endpoint, f: Endpoint) {
    f.bogus == e.bogus && f.unmatched == e.unmatched
  }

  // ----- what never decides

  lemma {:induction false} CheckForRTOVerdict(e: Endpoint)
    ensures SameVerdict(e, CheckForRTO(e).0)
    decreases e.timers.rtos
  {
    hide InFlight;
    hide WithFlags;
    if RtoArmed(e) && OffSchedule(e.timers.rto, e.current.segment.ts) && e.timers.tlpEnabled && e.timers.rtos == 1
       && ArmerIsTlp(e, e.timers.rto.armer) {
      RevokeVerdict(e);
      CheckForRTOVerdict(RevokeRto(e));
    }
  }

  lemma ArmVerdict(e: Endpoint, armer: Armer)
    ensures SameVerdict(e, ArmTimers(e, armer))
  {
  }

  lemma RevokeVerdict(e: Endpoint)
    requires e.timers.rtos > 0
    ensures SameVerdict(e, RevokeRto(e))
  {
    hide InFlight;
    hide WithFlags;
  }

  lemma FindRtxTriggerVerdict(e: Endpoint)
    ensures SameVerdict(e, FindRtxTrigger(e))
  {
    var e2 := CheckForRTO(CheckForTLP(e).0).0;
    CheckForRTOVerdict(CheckForTLP(e).0);
    assert SameVerdict(e, CheckForTLP(e).0);
    ArmVerdict(e2, Own(|e2.packets|, e2.current.segment.ts));
    hide CheckForTLP;
    hide CheckForRTO;
    hide ArmTimers;
    hide Elapsed;
  }

  lemma TieToVerdict(e: Endpoint, pos: nat, ack: Ack)
    requires pos < |e.packets|
    ensures SameVerdict(e, TieTo(e, pos, ack))
  {
    hide InFlight;
    hide AddOne;
    hide ShiftUnacked;
  }

  lemma {:induction false} TieVerdict(e: Endpoint, pos: nat)
    ensures SameVerdict(e, TiePacketToSackLookalike(e, pos).0)
    decreases |e.acks.lookalikes|
  {
    if e.acks.lookalikes != [] && pos < |e.packets| {
      var e1 := e.(acks := e.acks.(lookalikes := e.acks.lookalikes[1..]));
      hide TieTo;
      TieToVerdict(e1, pos, e.acks.lookalikes[0]);
      TieVerdict(e1, pos);
    }
  }

  lemma {:induction false} CheckLookalikesVerdict(e: Endpoint, i: nat)
    ensures SameVerdict(e, CheckLookalikesFrom(e, i))
    decreases |e.unacked| - i
  {
    hide TiePacketToSackLookalike;
    hide IsLost;
    if i < |e.unacked| && e.unacked[i] < |e.packets| {
      TieVerdict(e, e.unacked[i]);
      var (e1, tied) := TiePacketToSackLookalike(e, e.unacked[i]);
      CheckLookalikesVerdict(e, i + 1);
      CheckLookalikesVerdict(e1.(unacked := e1.unacked[..i] + e1.unacked[i + 1..]), i);
    }
  }

  lemma {:induction false} HandleAllVerdict(e: Endpoint, positions: seq<nat>, ack: Ack)
    ensures SameVerdict(e, HandleAll(e, positions, ack))
  {
    if positions != [] {
      HandleAllVerdict(e, positions[..|positions| - 1], ack);
    }
  }

  // ----- a retransmission without an earlier transmission

  predicate Uncovered(ps: seq<Packet>, seqNo: u32) {
    forall i :: 0 <= i < |ps| ==> !CoversStart(ps[i].segment, seqNo)
  }

  /** What one packet does to the verdict; `alone` says that it repeats data that was never seen. */
  predicate Judged(e: Endpoint, f: Endpoint, alone: bool) {
    && f.unmatched == e.unmatched + (if alone then 1 else 0)
    && (f.bogus <==> e.bogus || (alone && f.unmatched > 100))
  }

  lemma UncoveredFrame(ps: seq<Packet>, qs: seq<Packet>, seqNo: u32)
    requires Later(ps, qs) && |qs| == |ps|
    ensures Uncovered(ps, seqNo) == Uncovered(qs, seqNo)
  {
    hide CoversStart;
    assert forall i :: 0 <= i < |ps| ==> qs[i].segment == ps[i].segment;
  }

  lemma LinkJudged(e: Endpoint)
    ensures var (f, linked) := LinkToPreviousTx(e);
            Judged(e, MarkOutOfOrder(if linked then f else NoteUnmatched(f)),
                   Uncovered(e.packets, e.current.segment.seqNo))
  {
    LinkExact(e);
    LinkVerdict(e);
    hide LinkToPreviousTx;
    hide LinkedTo;
    hide CoversStart;
    hide MarkedFrom;
  }

  lemma LinkVerdict(e: Endpoint)
    ensures SameVerdict(e, LinkToPreviousTx(e).0)
  {
  }

  /** The packet after the lookalikes, and flagged as a retransmission. */
  function Flagged(e: Endpoint): Endpoint {
    var e1 := CheckLookalikesFrom(e, 0);
    e1.(current := e1.current.(flags := e1.current.flags.(isRtx := true)))
  }

  lemma FlaggedStage(e: Endpoint)
    requires Midway(e) && Unlinked(e)
    ensures Stage(e, Flagged(e)) && SameVerdict(e, Flagged(e))
  {
    var e1 := CheckLookalikesFrom(e, 0);
    CheckLookalikesVerdict(e, 0);
    LookalikesStage(e);
    assert Cosmetic(e1, Flagged(e));
    assert SameVerdict(e1, Flagged(e));
    hide *;
    CosmeticOfStage(e, e1, Flagged(e));
    SameVerdictTransitive(e, e1, Flagged(e));
  }

  lemma CosmeticOfStage(e: Endpoint, f: Endpoint, g: Endpoint)
    requires Stage(e, f) && Cosmetic(f, g)
    ensures Stage(e, g)
  {
    assert Midway(f);
    hide Midway;
    hide Cosmetic;
    hide Later;
    CosmeticStage(f, g);
    StageTransitive(e, f, g);
  }

  lemma SameVerdictTransitive(e: Endpoint, f: Endpoint, g: Endpoint)
    requires SameVerdict(e, f) && SameVerdict(f, g)
    ensures SameVerdict(e, g)
  {
  }

  /** The packet has passed the lookalikes and the search for its trigger. */
  lemma TriggeredStage(e: Endpoint)
    requires Midway(e) && Unlinked(e)
    ensures Stage(e, FindRtxTrigger(Flagged(e))) && SameVerdict(e, FindRtxTrigger(Flagged(e)))
  {
    hide *;
    FlaggedStage(e);
    FindRtxTriggerVerdict(Flagged(e));
    FindRtxTriggerCosmetic(Flagged(e));
    CosmeticOfStage(e, Flagged(e), FindRtxTrigger(Flagged(e)));
    SameVerdictTransitive(e, Flagged(e), FindRtxTrigger(Flagged(e)));
  }

  lemma JudgedAfter(e: Endpoint, f: Endpoint, g: Endpoint, seqNo: u32)
    requires Stage(e, f) && SameVerdict(e, f) && Judged(f, g, Uncovered(f.packets, seqNo))
    ensures Judged(e, g, Uncovered(e.packets, seqNo))
  {
    UncoveredFrame(e.packets, f.packets, seqNo);
    hide Uncovered;
    hide Midway;
    hide Later;
  }

  lemma ProcessRtxIs(e: Endpoint)
    ensures var (f, linked) := LinkToPreviousTx(FindRtxTrigger(Flagged(e)));
            ProcessRtx(e) == MarkOutOfOrder(if linked then f else NoteUnmatched(f))
  {
    hide CheckLookalikesFrom;
    hide FindRtxTrigger;
    hide LinkToPreviousTx;
    hide MarkOutOfOrder;
    hide NoteUnmatched;
  }

  lemma StageSegment(e: Endpoint, f: Endpoint)
    requires Stage(e, f)
    ensures f.current.segment == e.current.segment
  {
    hide Midway;
    hide Later;
  }

  lemma ProcessRtxJudged(e: Endpoint)
    requires Midway(e) && Unlinked(e)
    ensures Judged(e, ProcessRtx(e), Uncovered(e.packets, e.current.segment.seqNo))
  {
    hide *;
    var e3 := FindRtxTrigger(Flagged(e));
    TriggeredStage(e);
    LinkJudged(e3);
    ProcessRtxIs(e);
    StageSegment(e, e3);
    JudgedAfter(e, e3, ProcessRtx(e), e.current.segment.seqNo);
  }

  lemma SnapshotVerdict(e: Endpoint)
    ensures SameVerdict(e, WithSnapshot(e)) && WithSnapshot(e).current.flags == e.current.flags
  {
    hide Rto;
    hide Tlp;
    hide UnackedBytes;
  }

  lemma SendDataJudged(e: Endpoint)
    requires Midway(e) && Unlinked(e) && !e.current.flags.isRtx
    ensures Judged(e, SendData(e), SendData(e).current.flags.isRtx && Uncovered(e.packets, e.current.segment.seqNo))
  {
    var e1 := e.(seqs := AdvanceNext(e.seqs, SeqEnd(e.current.segment)));
    MoveNextMidway(e, SeqEnd(e.current.segment));
    assert Unlinked(e1);
    hide Midway;
    hide Unlinked;
    hide AdvanceNext;
    hide Uncovered;
    hide ProcessRtx;
    hide Stage;
    hide WithSnapshot;
    ProcessRtxJudged(e1);
    ProcessRtxStage(e1);
    SnapshotVerdict(e1);
    SnapshotVerdict(ProcessRtx(e1));
  }

  lemma SendJudged(e: Endpoint)
    requires Midway(e) && Unlinked(e) && !e.current.flags.isRtx
    ensures var f := if e.current.segment.len != 0 then SendData(e) else SendSyn(e);
            Judged(e, f, f.current.flags.isRtx && Uncovered(e.packets, e.current.segment.seqNo))
  {
    hide Midway;
    hide Unlinked;
    hide Uncovered;
    hide ProcessRtx;
    hide Stage;
    hide SendData;
    SendDataJudged(e);
    ProcessRtxJudged(e);
    ProcessRtxStage(e);
  }

  lemma PushJudged(e: Endpoint)
    ensures SameVerdict(e, Push(e)) && SameVerdict(e, Push(Outstanding(e)))
    ensures Push(e).packets == e.packets + [e.current] && Push(Outstanding(e)).packets == e.packets + [e.current]
  {
    hide InFlight;
    hide Rto;
    hide Tlp;
  }

  /** One packet on the wire: the count of unmatched retransmissions grows exactly when the packet is processed as a
      retransmission and no earlier packet covers its start; past a hundred of them the run is bogus. */
  lemma AddWirePacketJudged(e: Endpoint, g: Segment)
    requires Invariant(e)
    ensures var f := AddWirePacket(e, g);
            |f.packets| == |e.packets| + 1 &&
            Judged(e, f, f.packets[|e.packets|].flags.isRtx && Uncovered(e.packets, g.seqNo))
  {
    hide Invariant;
    hide Midway;
    hide Unlinked;
    hide Uncovered;
    hide SendData;
    hide SendSyn;
    hide Outstanding;
    hide Push;
    var e1 := Begin(e, g);
    var e2 := if g.len != 0 then SendData(e1) else SendSyn(e1);
    BeginMidway(e, g);
    PushJudged(e1);
    PushJudged(e2);
    SendJudged(e1);
    SameLength(e1);
  }

  lemma SameLength(e: Endpoint)
    requires Midway(e) && Unlinked(e) && !e.current.flags.isRtx
    ensures |SendData(e).packets| == |e.packets| && |SendSyn(e).packets| == |e.packets|
  {
    SendDataSending(e);
    SendSynSending(e);
    hide SendData;
    hide SendSyn;
    hide Midway;
    hide Later;
  }

  // ----- whole runs

  /** The ACK is for data after everything sent. */
  predicate Overshoots(q: Sequences, v: Event) {
    v.Receive? && After(v.ack.number, q.acked) && After(v.ack.number, q.next)
  }

  /** Some ACK of the run does. */
  predicate Overshot(e: Endpoint, events: seq<Event>) {
    events != [] &&
    (var n := |events| - 1;
     Overshot(e, events[..n]) || Overshoots(Run(e, events[..n]).seqs, events[n]))
  }

  /** The verdict agrees with the count. */
  predicate Settled(e: Endpoint) {
    e.unmatched > 100 ==> e.bogus
  }

  predicate Decided(e: Endpoint, f: Endpoint, overshoots: bool) {
    Settled(f) && e.unmatched <= f.unmatched && (f.bogus <==> e.bogus || f.unmatched > 100 || overshoots)
  }

  lemma {:induction false} AddWirePacketsDecided(e: Endpoint, gs: seq<Segment>)
    requires Invariant(e) && Settled(e)
    ensures Decided(e, AddWirePackets(e, gs), false)
  {
    if gs != [] {
      hide Invariant;
      hide AddWirePacket;
      hide Uncovered;
      var f := AddWirePackets(e, gs[..|gs| - 1]);
      AddWirePacketsDecided(e, gs[..|gs| - 1]);
      AddWirePacketsInvariant(e, gs[..|gs| - 1]);
      AddWirePacketJudged(f, gs[|gs| - 1]);
    }
  }

  lemma SendDecided(e: Endpoint, g: Segment)
    requires Invariant(e) && Settled(e)
    ensures Decided(e, AddPacket(e, g), false)
  {
    PreparedInvariant(e, g);
    PreparedVerdict(e, g);
    hide Prepared;
    hide Invariant;
    AddWirePacketsDecided(Prepared(e, g), WireSegments(g, Prepared(e, g).mss));
    hide AddWirePackets;
    hide WireSegments;
  }

  lemma PreparedVerdict(e: Endpoint, g: Segment)
    ensures SameVerdict(e, Prepared(e, g))
  {
    hide DerivedMss;
  }

  lemma AckDecided(e: Endpoint, ack: Ack)
    requires Settled(e)
    ensures Decided(e, ProcessAck(e, ack), Overshoots(e.seqs, Receive(ack)))
  {
    var e1 := Advance(e, ack);
    HandleAllVerdict(e1, e1.unacked, ack);
    AckPacketsVerdict(e1, ack);
    AdvanceVerdict(e, ack);
    hide Advance;
    hide AckPackets;
    hide DSackPackets;
    hide Trimmed;
    hide AddAll;
  }

  lemma AdvanceVerdict(e: Endpoint, ack: Ack)
    ensures var f := Advance(e, ack);
            f.unmatched == e.unmatched && (f.bogus <==> e.bogus || Overshoots(e.seqs, Receive(ack)))
  {
    hide AdvanceAcked;
  }

  lemma AckPacketsVerdict(e: Endpoint, ack: Ack)
    ensures SameVerdict(e, AckPackets(e, ack))
  {
    HandleAllVerdict(e, e.unacked, ack);
    hide HandleAll;
    hide Kept;
    hide InFlight;
    hide Rto;
    hide Tlp;
  }

  lemma StepDecided(e: Endpoint, v: Event)
    requires Invariant(e) && Settled(e)
    ensures Decided(e, Step(e, v), Overshoots(e.seqs, v))
  {
    hide Invariant;
    hide AddPacket;
    hide ProcessAck;
    match v
    case Send(g) => SendDecided(e, g);
    case Receive(ack) => AckDecided(e, ack);
    case Announce(_) =>
  }

  /** A run is bogus exactly when it had more than a hundred unmatched retransmissions, or an ACK for data after
      everything sent. */
  lemma {:induction false} RunDecided(e: Endpoint, events: seq<Event>)
    requires Invariant(e) && Settled(e)
    ensures Decided(e, Run(e, events), Overshot(e, events))
  {
    if events != [] {
      var n := |events| - 1;
      hide Invariant;
      hide Step;
      hide Overshoots;
      RunDecided(e, events[..n]);
      RunInvariant(e, events[..n]);
      StepDecided(Run(e, events[..n]), events[n]);
    }
  }

  // ----- an ACK for more than was sent

  /** Above everything reported, trimming leaves nothing. */
  lemma TrimmedAway(b: Board, r: Ref.Sender, number: int)
    requires BoardMatches(b, r) && Low(r) <= r.acked && r.next < number <= r.acked + WINDOW
    ensures Recounted(Trimmed(b.list, Wrap(number))).numBytes == 0
  {
    var base := number - WINDOW;
    forall i | 0 <= i < |b.list|
      ensures base <= Lift(Low(r), b.list[i].start) && Lift(Low(r), b.list[i].end) <= base + WINDOW
    {
      BlockBounds(Low(r), b.list, i);
    }
    hide Good;
    hide Covered;
    hide Trimmed;
    SlideWindow(Low(r), base, b.list);
    LiftWrap(base, number);
    TrimExact(base, b.list, Wrap(number));
    CounterExact(base, Trimmed(b.list, Wrap(number)));
    hide Wrap;
    hide Lift;
    var left := Covered(base, Trimmed(b.list, Wrap(number)));
    assert forall p :: p in left ==> p in r.sacked && number <= p;
    assert forall p :: p !in left;
  }

  lemma SubBehind(next: int, number: int)
    requires next < number < next + MOD
    ensures Sub(Wrap(next), Wrap(number)) == MOD - (number - next)
  {
  }

  lemma NoneMissing(r: Ref.Sender, number: int, declared: bool)
    requires r.next < number
    ensures Ref.Missing(Ref.Acknowledged(r, number, [], declared)) == {}
  {
    hide Ref.StillOut;
  }

  lemma AckBeyondCount(e: Endpoint, r: Ref.Sender, ack: Ack, number: int)
    requires Refines(e, r) && ack.number == Wrap(number) && ack.sacks == []
    requires r.next < number <= r.acked + WINDOW
    ensures UnackedBytes(ProcessAck(e, ack)) == MOD - (number - r.next)
  {
    hide Invariant;
    hide BoardMatches;
    hide PacketsMatch;
    hide ProcessAck;
    hide Recounted;
    hide Trimmed;
    hide Wrap;
    AfterExact(number, r.acked);
    MovingAckShape(e, ack);
    TrimmedAway(e.board, r, number);
    SubBehind(r.next, number);
  }

  lemma MovingAckShape(e: Endpoint, ack: Ack)
    requires Invariant(e) && Moves(e.seqs, ack) && ack.sacks == []
    ensures var f := ProcessAck(e, ack);
            && f.board == Recounted(Trimmed(e.board.list, ack.number))
            && f.seqs.acked == ack.number && f.seqs.next == e.seqs.next
  {
    hide Invariant;
    hide ProcessAck;
    hide Absorb;
    hide Advance;
    hide Trimmed;
    hide Recounted;
    hide Later;
    ProcessAckShape(e, ack);
    AbsorbShape(Advance(e, ack), ack);
    AdvanceInvariant(e, ack);
    AdvanceShape(e, ack);
    assert AddAll(e.board, []) == e.board;
  }

  lemma NothingReported()
    ensures ParsedList(WireBlocks([])) == []
  {
  }

  /** The limit of the count: on an ACK without SACK blocks, the recomputed number of unacknowledged bytes is right
      exactly when the ACK is for no more than was sent, and otherwise the run becomes bogus. The ACK of a FIN without
      data is one more than was sent, because the FIN does not count. */
  lemma AckBeyondIff(e: Endpoint, r: Ref.Sender, ack: Ack, number: int)
    requires Refines(e, r) && ack.number == Wrap(number) && ack.sacks == []
    requires r.acked < number <= r.acked + WINDOW
    ensures var count := |Ref.Missing(Ref.Acknowledged(r, number, [], HasSacks(ack)))|;
            UnackedBytes(ProcessAck(e, ack)) == count <==> number <= r.next
    ensures ProcessAck(e, ack).bogus <==> e.bogus || number > r.next
  {
    AfterExact(number, r.acked);
    AfterExact(number, r.next);
    AdvanceVerdict(e, ack);
    AckBogus(e, ack);
    hide ProcessAck;
    hide Advance;
    if number <= r.next {
      NothingReported();
      ProcessAckRefines(e, r, ack, number, [], HasSacks(ack));
      hide Refines;
      UnackedBytesExact(ProcessAck(e, ack), Ref.Acknowledged(r, number, [], HasSacks(ack)));
    } else {
      AckBeyondCount(e, r, ack, number);
      NoneMissing(r, number, HasSacks(ack));
    }
    hide *;
  }

  lemma AckBogus(e: Endpoint, ack: Ack)
    ensures ProcessAck(e, ack).bogus <==> Advance(e, ack).bogus
  {
    AckPacketsVerdict(Advance(e, ack), ack);
    hide Advance;
    hide AckPackets;
    hide DSackPackets;
    hide Trimmed;
    hide AddAll;
  }

  lemma ReportStaysBehind(e: Endpoint, r: Ref.Sender, v: Event, a: Ref.Action)
    requires Refines(e, r) && Observes(e, r, v, a)
    ensures !Overshoots(e.seqs, v)
  {
    hide Invariant;
    hide BoardMatches;
    hide PacketsMatch;
    match (v, a)
    case (Receive(ack), Acknowledge(number, _, _)) => AfterExact(number, r.next);
    case _ =>
  }

  lemma {:induction false} FaithfulStaysBehind(e: Endpoint, r: Ref.Sender, events: seq<Event>,
                                               actions: seq<Ref.Action>)
    requires Refines(e, r) && Faithful(e, r, events, actions)
    ensures !Overshot(e, events)
    decreases |events|
  {
    if events != [] {
      var n := |events| - 1;
      hide Refines;
      hide Observes;
      hide Run;
      hide Overshoots;
      FaithfulStaysBehind(e, r, events[..n], actions[..n]);
      RunRefines(e, r, events[..n], actions[..n]);
      ReportStaysBehind(Run(e, events[..n]), Ref.History(r, actions[..n]), events[n], actions[n]);
    }
  }

  /** A run that fits the window is given up exactly after more than a hundred unmatched retransmissions. */
  lemma FaithfulBogusIff(g: Segment, init: int, events: seq<Event>, actions: seq<Ref.Action>)
    requires g.seqNo == Wrap(init) && g.seqNo != 0
    requires Faithful(NewEndpoint(g), NewSender(init), events, actions)
    ensures Run(NewEndpoint(g), events).bogus <==> Run(NewEndpoint(g), events).unmatched > 100
  {
    NewEndpointRefines(g, init);
    hide Run;
    hide Faithful;
    RunDecided(NewEndpoint(g), events);
    FaithfulStaysBehind(NewEndpoint(g), NewSender(init), events, actions);
    hide Refines;
    hide Overshot;
  }
}
