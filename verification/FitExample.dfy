/** A run without losses on which removing the queueing delay of the line that the analysis chooses lengthens the
    retransmission timeout. */
module FitExample {
  import opened SeqSpace
  import opened TcpSacks
  import opened TcpTimer
  import opened EndpointModel
  import opened EndpointInvariants
  import opened Refinement
  import opened LinearFit
  import opened DelayModel
  import opened TimerProofs
  import opened QueueFreeTimer

  // ----- steps without losses, seen without timers

  /** What the analysis reads of a packet that was neither lost nor overtaken. */
  datatype Seen = Seen(segment: Segment, unackedBytes: u32, acked: Acked)

  datatype View = View(packets: seq<Seen>, unacked: seq<nat>, acked: u32, next: u32, estimate: Estimate,
                       samples: seq<RttSample>, minRtt: u32)

  predicate LooksAt(p: Packet, pos: nat, s: Seen) {
    && p.segment == s.segment && p.links == Links(None, None, pos) && p.acked == s.acked
    && p.snapshot.unackedBytes == s.unackedBytes && !p.flags.outOfOrder
  }

  predicate Looks(e: Endpoint, v: View) {
    && |e.packets| == |v.packets| && (forall i :: 0 <= i < |v.packets| ==> LooksAt(e.packets[i], i, v.packets[i]))
    && e.unacked == v.unacked && e.seqs.acked == v.acked && e.seqs.next == v.next
    && e.seqs.ready && e.seqs.rtoHigh == 0 && e.mss == 0 && e.board == Board([], 0)
    && e.estimate == v.estimate && e.samples == v.samples && e.acks.minRtt == v.minRtt
  }

  function Sending(v: View, g: Segment): View {
    v.(packets := v.packets + [Seen(g, Sub(SeqEnd(g), v.acked), Acked(None, 0))],
       unacked := v.unacked + [|v.packets|], next := SeqEnd(g))
  }

  lemma SmallSegment(e: Endpoint, g: Segment)
    requires e.seqs.ready && e.mss == 0 && g.len < MIN_MSS
    ensures Step(e, Send(g)) == AddWirePacket(e, g)
  {
    hide AddWirePacket;
    assert Prepared(e, g) == e;
    assert WireSegments(g, 0) == [g] && [g][..0] == [];
    assert AddWirePackets(e, []) == e;
  }

  lemma SentData(e: Endpoint, g: Segment)
    requires 0 < g.len && After(SeqEnd(g), e.seqs.next) && e.seqs.rtoHigh == 0
    ensures var f, p := AddWirePacket(e, g), AddWirePacket(e, g).current;
            && f == e.(packets := e.packets + [p], current := p, unacked := e.unacked + [|e.packets|],
                       seqs := e.seqs.(next := SeqEnd(g)), timers := f.timers)
            && p == NewPacket(g, |e.packets|, e.seqs.ackedBytes).(snapshot := p.snapshot)
            && p.snapshot.unackedBytes == UnackedBytes(f)
  {
    var e1 := Begin(e, g);
    hide After;
    hide SeqEnd;
    hide Outstanding;
    hide Rto;
    hide Tlp;
    OutstandingQuiet(SendData(e1));
    assert AdvanceNext(e.seqs, SeqEnd(g)) == e.seqs.(next := SeqEnd(g));
    hide AdvanceNext;
    hide ProcessRtx;
  }

  lemma CountOnEmptyBoard(e: Endpoint)
    requires e.board == Board([], 0)
    ensures UnackedBytes(e) == Sub(e.seqs.next, e.seqs.acked)
  {
  }

  lemma SendLooks(e: Endpoint, v: View, g: Segment)
    requires Looks(e, v) && 0 < g.len < MIN_MSS && After(SeqEnd(g), v.next)
    ensures Looks(Step(e, Send(g)), Sending(v, g))
  {
    hide Step;
    hide AddWirePacket;
    hide After;
    hide SeqEnd;
    hide Sub;
    hide UnackedBytes;
    SmallSegment(e, g);
    SentData(e, g);
    var f := AddWirePacket(e, g);
    CountOnEmptyBoard(f);
    forall i | 0 <= i <= |v.packets|
      ensures LooksAt(f.packets[i], i, Sending(v, g).packets[i])
    {
      assert i < |v.packets| ==> LooksAt(e.packets[i], i, v.packets[i]);
    }
    hide LooksAt;
  }

  /** The first outstanding packet is acknowledged, and no other. */
  predicate AcksFirst(v: View, ack: Ack) {
    && ack.sacks == [] && ack.numSacks == 0 && After(ack.number, v.acked)
    && v.unacked != [] && v.unacked[0] < |v.packets|
    && !After(SeqEnd(v.packets[v.unacked[0]].segment), ack.number)
    && forall k :: 1 <= k < |v.unacked| ==>
         v.unacked[k] < |v.packets| && After(SeqEnd(v.packets[v.unacked[k]].segment), ack.number)
  }

  function Receiving(v: View, ack: Ack): View
    requires AcksFirst(v, ack)
  {
    var x := v.unacked[0];
    var delay := Wrap(ack.ts - v.packets[x].segment.ts);
    var s := RttSample(x, Signed(delay), ack.number, v.next);
    View(v.packets[x := v.packets[x].(acked := Acked(Some(ack), delay))], v.unacked[1..], ack.number, v.next,
         Sampled(v.estimate, s), v.samples + [s], if delay < v.minRtt || v.minRtt == 0 then delay else v.minRtt)
  }

  lemma AdvanceLooks(e: Endpoint, v: View, ack: Ack)
    requires Looks(e, v) && AcksFirst(v, ack)
    ensures Moves(e.seqs, ack)
    ensures Looks(Advance(e, ack), v.(acked := ack.number))
  {
    hide After;
    hide SeqEnd;
    hide LooksAt;
    hide Sub;
  }

  lemma {:induction false} KeptRest(e: Endpoint, v: View, ack: Ack, n: nat)
    requires Looks(e, v.(acked := ack.number)) && AcksFirst(v, ack) && 1 <= n <= |v.unacked|
    ensures Kept(e, v.unacked[..n], []) == v.unacked[1..n]
    ensures HandleAll(e, v.unacked[..n], ack) == HandleAcked(e, v.unacked[0], ack)
  {
    hide HandleAcked;
    hide After;
    hide SeqEnd;
    var all, x := v.unacked[..n], v.unacked[n - 1];
    assert all[..n - 1] == v.unacked[..n - 1] && all[n - 1] == x;
    assert LooksAt(e.packets[x], x, v.packets[x]);
    assert AckedAt(e, x, []) <==> n == 1;
    hide AckedAt;
    if n == 1 {
      assert v.unacked[..0] == [];
    } else {
      KeptRest(e, v, ack, n - 1);
    }
  }

  lemma HandledLooks(e: Endpoint, v: View, ack: Ack)
    requires AcksFirst(v, ack) && Looks(e, v.(acked := ack.number))
    ensures var f := HandleAcked(e, v.unacked[0], ack).(unacked := v.unacked[1..]);
            Looks(f, Receiving(v, ack))
  {
    hide After;
    hide SeqEnd;
    hide Sampled;
    var x := v.unacked[0];
    var f := HandleAcked(e, x, ack);
    assert LooksAt(e.packets[x], x, v.packets[x]);
    forall i | 0 <= i < |v.packets|
      ensures LooksAt(f.packets[i], i, Receiving(v, ack).packets[i])
    {
      assert LooksAt(e.packets[i], i, v.packets[i]);
    }
    hide LooksAt;
  }

  /** The rest of AckPackets touches timers and the last ACK with a trigger only. */
  lemma AckedShape(e: Endpoint, ack: Ack)
    ensures var f, h := AckPackets(e, ack), HandleAll(e, e.unacked, ack);
            f == h.(unacked := Kept(e, e.unacked, ack.sacks), timers := f.timers,
                    acks := h.acks.(lastWithTrigger := f.acks.lastWithTrigger))
  {
    hide HandleAll;
    hide Kept;
    hide InFlight;
    hide Rto;
    hide Tlp;
  }

  lemma ProcessedShape(e: Endpoint, ack: Ack)
    requires Moves(e.seqs, ack) && ack.sacks == [] && ack.numSacks == 0
    ensures var f, h := ProcessAck(e, ack), AckPackets(Advance(e, ack), ack);
            f == h.(board := Recounted(Trimmed(h.board.list, h.seqs.acked)), timers := h.timers.(rtos := 0))
  {
    hide Advance;
    hide AckPackets;
    hide Trimmed;
    hide Recounted;
    assert AddAll(AckPackets(Advance(e, ack), ack).board, []) == AckPackets(Advance(e, ack), ack).board;
  }

  lemma SameLooks(e: Endpoint, f: Endpoint, v: View)
    requires Looks(e, v) && f == e.(board := f.board, timers := f.timers, acks := f.acks)
    requires f.board == Board([], 0) && f.acks.minRtt == e.acks.minRtt
    ensures Looks(f, v)
  {
  }

  lemma AckLooks(e: Endpoint, v: View, ack: Ack)
    requires Looks(e, v) && AcksFirst(v, ack)
    ensures Looks(Step(e, Receive(ack)), Receiving(v, ack))
  {
    hide Advance;
    hide AckPackets;
    hide ProcessAck;
    hide HandleAll;
    hide HandleAcked;
    hide Kept;
    hide Receiving;
    hide LooksAt;
    hide After;
    hide SeqEnd;
    var e1 := Advance(e, ack);
    AdvanceLooks(e, v, ack);
    assert v.unacked[..|v.unacked|] == v.unacked && e1.unacked == v.unacked;
    KeptRest(e1, v, ack, |v.unacked|);
    AckedShape(e1, ack);
    ProcessedShape(e, ack);
    var h := HandleAcked(e1, v.unacked[0], ack).(unacked := v.unacked[1..]);
    HandledLooks(e1, v, ack);
    assert h.board == Board([], 0) && Recounted([]) == Board([], 0) && Trimmed([], ack.number) == [];
    hide Recounted;
    hide Trimmed;
    SameLooks(h, ProcessAck(e, ack), Receiving(v, ack));
  }

  // ----- the run

  // Three packets back to back, the second delayed, and a fourth one after all of them are acknowledged.
  const G0 := Segment(1_000, 500, false, true, 501, 0)
  const G1 := Segment(1_500, 500, false, true, 501, 1_000)
  const G2 := Segment(2_000, 500, false, true, 501, 190_000)
  const G3 := Segment(2_500, 500, false, true, 501, 400_000)
  const A0 := Ack(0, 200_000, 1_500, [], 0, 0, false)
  const A1 := Ack(1, 361_000, 2_000, [], 0, 0, false)
  const A2 := Ack(2, 390_000, 2_500, [], 0, 0, false)
  const A3 := Ack(3, 760_000, 3_000, [], 0, 0, false)

  const EVENTS := [Send(G0), Send(G1), Send(G2), Receive(A0), Receive(A1), Receive(A2), Send(G3), Receive(A3)]

  const S0 := RttSample(0, 200_000, 1_500, 2_500)
  const S1 := RttSample(1, 360_000, 2_000, 2_500)
  const S2 := RttSample(2, 200_000, 2_500, 2_500)
  const S3 := RttSample(3, 360_000, 3_000, 3_000)

  function Waiting(g: Segment, unackedBytes: u32): Seen {
    Seen(g, unackedBytes, Acked(None, 0))
  }

  function Timed(g: Segment, unackedBytes: u32, ack: Ack, delay: u32): Seen {
    Seen(g, unackedBytes, Acked(Some(ack), delay))
  }

  function Opened(): View {
    View([], [], 1_000, 1_001, NO_ESTIMATE, [], 0)
  }

  function AllSent(): View {
    View([Waiting(G0, 500), Waiting(G1, 1_000), Waiting(G2, 1_500)], [0, 1, 2], 1_000, 2_500, NO_ESTIMATE, [], 0)
  }

  function AllAcked(): View {
    View([Timed(G0, 500, A0, 200_000), Timed(G1, 1_000, A1, 360_000), Timed(G2, 1_500, A2, 200_000)], [], 2_500, 2_500,
         Sampled(Sampled(Sampled(NO_ESTIMATE, S0), S1), S2), [S0, S1, S2], 200_000)
  }

  function Finished(): View {
    View(AllAcked().packets + [Timed(G3, 500, A3, 360_000)], [], 3_000, 3_000, Sampled(AllAcked().estimate, S3),
         [S0, S1, S2, S3], 200_000)
  }

  lemma ThreeSent()
    ensures Sending(Sending(Sending(Opened(), G0), G1), G2) == AllSent()
  {
  }

  lemma ThreeAcked()
    ensures var v0 := AllSent();
            && AcksFirst(v0, A0) && AcksFirst(Receiving(v0, A0), A1)
            && AcksFirst(Receiving(Receiving(v0, A0), A1), A2)
            && Receiving(Receiving(Receiving(v0, A0), A1), A2) == AllAcked()
  {
    hide Sampled;
  }

  lemma FourthAcked()
    ensures AcksFirst(Sending(AllAcked(), G3), A3) && Receiving(Sending(AllAcked(), G3), A3) == Finished()
  {
    hide Sampled;
  }

  lemma RunLooks()
    ensures Looks(Run(NewEndpoint(G0), EVENTS), Finished())
  {
    hide *;
    var e0 := NewEndpoint(G0);
    StartLooks();
    RunEvents(e0);
    RunSends(e0);
    RunAcks(Step(Step(Step(e0, Send(G0)), Send(G1)), Send(G2)));
  }

  lemma StartLooks()
    ensures Looks(NewEndpoint(G0), Opened())
  {
  }

  lemma RunSends(e0: Endpoint)
    requires Looks(e0, Opened())
    ensures Looks(Step(Step(Step(e0, Send(G0)), Send(G1)), Send(G2)), AllSent())
  {
    hide Looks;
    hide Step;
    hide Sending;
    hide After;
    hide SeqEnd;
    ThreeSent();
    SendsFit();
    var e1 := Step(e0, Send(G0));
    var e2 := Step(e1, Send(G1));
    SendLooks(e0, Opened(), G0);
    SendLooks(e1, Sending(Opened(), G0), G1);
    SendLooks(e2, Sending(Sending(Opened(), G0), G1), G2);
  }

  lemma SendsFit()
    ensures After(SeqEnd(G0), Opened().next) && After(SeqEnd(G1), Sending(Opened(), G0).next)
    ensures After(SeqEnd(G2), Sending(Sending(Opened(), G0), G1).next) && After(SeqEnd(G3), AllAcked().next)
    ensures G0.len == 500 && G1.len == 500 && G2.len == 500 && G3.len == 500
  {
  }

  lemma RunAcks(e3: Endpoint)
    requires Looks(e3, AllSent())
    ensures Looks(Step(Step(Step(Step(Step(e3, Receive(A0)), Receive(A1)), Receive(A2)), Send(G3)), Receive(A3)),
                  Finished())
  {
    ThreeAcked();
    FourthAcked();
    SendsFit();
    hide Looks;
    hide Step;
    hide Sending;
    hide Receiving;
    hide AcksFirst;
    hide After;
    hide SeqEnd;
    var e4 := Step(e3, Receive(A0));
    var e5 := Step(e4, Receive(A1));
    var e6 := Step(e5, Receive(A2));
    AckLooks(e3, AllSent(), A0);
    AckLooks(e4, Receiving(AllSent(), A0), A1);
    AckLooks(e5, Receiving(Receiving(AllSent(), A0), A1), A2);
    SendLooks(e6, AllAcked(), G3);
    AckLooks(Step(e6, Send(G3)), Sending(AllAcked(), G3), A3);
  }

  lemma RunEvents(e: Endpoint)
    ensures var e3 := Step(Step(Step(e, Send(G0)), Send(G1)), Send(G2));
            Run(e, EVENTS)
            == Step(Step(Step(Step(Step(e3, Receive(A0)), Receive(A1)), Receive(A2)), Send(G3)), Receive(A3))
  {
    hide Step;
    assert EVENTS[..7][..6] == EVENTS[..6] && EVENTS[..6][..5] == EVENTS[..5] && EVENTS[..5][..4] == EVENTS[..4];
    assert EVENTS[..4][..3] == EVENTS[..3] && EVENTS[..3][..2] == EVENTS[..2] && EVENTS[..2][..1] == EVENTS[..1];
    assert EVENTS[..1][..0] == [];
    assert Run(e, EVENTS[..1]) == Step(e, Send(G0));
    assert Run(e, EVENTS[..2]) == Step(Step(e, Send(G0)), Send(G1));
    assert Run(e, EVENTS[..4]) == Step(Step(Run(e, EVENTS[..2]), Send(G2)), Receive(A0));
    assert Run(e, EVENTS[..6]) == Step(Step(Run(e, EVENTS[..4]), Receive(A1)), Receive(A2));
    assert Run(e, EVENTS) == Step(Step(Run(e, EVENTS[..6]), Send(G3)), Receive(A3));
  }

  // ----- the line

  const ALL: seq<(u32, u32)> := [(500, 200_000), (1_000, 360_000), (1_500, 200_000), (500, 360_000)]

  function SampleOf(p: Packet): (u32, u32) {
    (p.snapshot.unackedBytes, p.acked.delay)
  }

  lemma SampleAt(e: Endpoint, i: nat)
    requires Looks(e, Finished()) && i < 4
    ensures |e.packets| == 4 && IsEligible(e.packets, e.packets[i]) && SampleOf(e.packets[i]) == ALL[i]
  {
    assert LooksAt(e.packets[i], i, Finished().packets[i]);
  }

  lemma SamplesSnoc(all: seq<Packet>, ps: seq<Packet>, p: Packet)
    requires IsEligible(all, p)
    ensures Samples(all, ps + [p]) == Samples(all, ps) + [SampleOf(p)]
  {
    hide IsEligible;
    assert (ps + [p])[..|ps|] == ps;
  }

  lemma TwoSamples(all: seq<Packet>, p: Packet, q: Packet)
    requires IsEligible(all, p) && IsEligible(all, q)
    ensures Samples(all, [p, q]) == [SampleOf(p), SampleOf(q)]
  {
    assert Samples(all, []) == [];
    hide *;
    SamplesSnoc(all, [], p);
    assert [] + [p] == [p];
    SamplesSnoc(all, [p], q);
    assert [p] + [q] == [p, q];
  }

  lemma ThreeSamples(all: seq<Packet>, p: Packet, q: Packet, r: Packet)
    requires IsEligible(all, p) && IsEligible(all, q) && IsEligible(all, r)
    ensures Samples(all, [p, q, r]) == [SampleOf(p), SampleOf(q), SampleOf(r)]
  {
    hide *;
    TwoSamples(all, p, q);
    SamplesSnoc(all, [p, q], r);
    assert [p, q] + [r] == [p, q, r];
  }

  lemma FourSamples(all: seq<Packet>, p: Packet, q: Packet, r: Packet, t: Packet)
    requires IsEligible(all, p) && IsEligible(all, q) && IsEligible(all, r) && IsEligible(all, t)
    ensures Samples(all, [p, q, r, t]) == [SampleOf(p), SampleOf(q), SampleOf(r), SampleOf(t)]
  {
    hide *;
    ThreeSamples(all, p, q, r);
    SamplesSnoc(all, [p, q, r], t);
    assert [p, q, r] + [t] == [p, q, r, t];
  }

  lemma SetsOfRun(e: Endpoint)
    requires Looks(e, Finished())
    ensures SampleSets(e.packets, 1) == [ALL, ALL[..2] + ALL[1..], ALL[..2]]
  {
    var ps := e.packets;
    hide *;
    SampleAt(e, 0);
    SampleAt(e, 1);
    SampleAt(e, 2);
    SampleAt(e, 3);
    TwoSamples(ps, ps[0], ps[1]);
    ThreeSamples(ps, ps[1], ps[2], ps[3]);
    FourSamples(ps, ps[0], ps[1], ps[2], ps[3]);
    Spelled(ps);
    SpelledAll();
    AroundTheSecond(ps);
    SetsAre(ps);
  }

  lemma Spelled(ps: seq<Packet>)
    requires |ps| == 4
    ensures ps == [ps[0], ps[1], ps[2], ps[3]] && ps[..2] == [ps[0], ps[1]] && ps[1..] == [ps[1], ps[2], ps[3]]
  {
  }

  lemma SpelledAll()
    ensures |ALL| == 4 && ALL == [ALL[0], ALL[1], ALL[2], ALL[3]] && ALL[..2] == [ALL[0], ALL[1]]
    ensures ALL[1..] == [ALL[1], ALL[2], ALL[3]]
  {
  }

  lemma SetsAre(ps: seq<Packet>)
    requires Samples(ps, ps) == ALL && SamplesAround(ps, 1, 30, false) == ALL[..2] + ALL[1..]
    requires SamplesAround(ps, 1, 60, true) == ALL[..2]
    ensures SampleSets(ps, 1) == [ALL, ALL[..2] + ALL[1..], ALL[..2]]
  {
    hide Samples;
    hide SamplesAround;
  }

  lemma AroundTheSecond(ps: seq<Packet>)
    requires |ps| == 4 && Samples(ps, ps[..2]) == ALL[..2] && Samples(ps, ps[1..]) == ALL[1..]
    ensures SamplesAround(ps, 1, 30, false) == ALL[..2] + ALL[1..]
    ensures SamplesAround(ps, 1, 60, true) == ALL[..2]
  {
    hide Samples;
    var before, after := ALL[..2], ALL[1..];
    assert |before| == 2 && |after| == 3;
    assert LastOf(before, 30) == before && LastOf(before, 60) == before && FirstOf(after, 30) == after;
  }

  lemma MomentsOfSets()
    ensures MomentsOf(ALL) == Moments(4, 3_500, 1_120_000, 3_750_000, 940_000_000, 339_200_000_000)
    ensures MomentsOf(ALL[..2] + ALL[1..]) == Moments(5, 4_500, 1_480_000, 4_750_000, 1_300_000_000, 468_800_000_000)
    ensures MomentsOf(ALL[..2]) == Moments(2, 1_500, 560_000, 1_250_000, 460_000_000, 169_600_000_000)
  {
    var twice := ALL[..2] + ALL[1..];
    assert ALL[..3][..2] == ALL[..2] && ALL[..2][..1] == ALL[..1] && ALL[..1][..0] == [];
    assert MomentsOf(ALL[..1]) == Moments(1, 500, 200_000, 250_000, 100_000_000, 40_000_000_000);
    assert twice[..4][..3] == twice[..3] && twice[..3][..2] == ALL[..2];
    assert MomentsOf(twice[..3]) == Moments(3, 2_500, 920_000, 2_250_000, 820_000_000, 299_200_000_000);
    assert MomentsOf(twice[..4]) == Moments(4, 4_000, 1_120_000, 4_500_000, 1_120_000_000, 339_200_000_000);
  }

  /** The line goes through the first two packets: the other two sets have no positive slope. */
  lemma LineOfRun(e: Endpoint)
    requires Looks(e, Finished())
    ensures ChosenFit(e.packets, 1) == Some(Fit(40_000.0, 320.0))
  {
    hide *;
    SetsOfRun(e);
    BestOfSets();
    LineOfTwo();
    ChosenIs(e.packets);
  }

  lemma BestOfSets()
    ensures var best := Best([ALL, ALL[..2] + ALL[1..], ALL[..2]]);
            best == Some(MomentsOf(ALL[..2])) && Usable(best.value) && Correlated(best.value)
  {
    MomentsOfSets();
    hide MomentsOf;
    var sets: seq<seq<(u32, u32)>> := [ALL, ALL[..2] + ALL[1..], ALL[..2]];
    assert sets[..2][..1] == sets[..1] && |sets[..1]| == 1;
    assert Best(sets[..1]) == None;
    assert Best(sets[..2]) == None;
    var m := MomentsOf(ALL[..2]);
    assert Covariance(m) == 80_000_000 && VarianceX(m) == 250_000 && VarianceY(m) == 25_600_000_000;
  }

  lemma LineOfTwo()
    ensures Usable(MomentsOf(ALL[..2])) && LineOf(MomentsOf(ALL[..2])) == Fit(40_000.0, 320.0)
  {
    MomentsOfSets();
    hide MomentsOf;
    var m := MomentsOf(ALL[..2]);
    assert Covariance(m) == 80_000_000 && VarianceX(m) == 250_000;
    assert Slope(m) == 320.0;
  }

  lemma ChosenIs(ps: seq<Packet>)
    requires SampleSets(ps, 1) == [ALL, ALL[..2] + ALL[1..], ALL[..2]]
    requires var best := Best([ALL, ALL[..2] + ALL[1..], ALL[..2]]);
             best == Some(MomentsOf(ALL[..2])) && Usable(best.value) && Correlated(best.value)
    ensures ChosenFit(ps, 1) == Some(LineOf(MomentsOf(ALL[..2])))
  {
    hide Best;
    hide SampleSets;
    hide MomentsOf;
    hide Usable;
    hide Correlated;
    hide LineOf;
  }

  // ----- the timer without queueing

  /** The queueing delays that the line gives the packets of the run. */
  function Queueing(ps: seq<Packet>): nat -> u32 {
    pos => PacketQueueing(ps, pos, Fit(40_000.0, 320.0), 200_000)
  }

  lemma DelayOf(unacked: u32)
    requires 500 <= unacked <= 1_500
    ensures QueueingDelay(unacked, 500, Fit(40_000.0, 320.0), 200_000)
         == if unacked <= 1_000 then 0 else 320 * (unacked - 1_000)
  {
    var f := Fit(40_000.0, 320.0);
    assert ExpectedRtt(f, unacked - 500) == (40_000 + 320 * (unacked - 500)) as real;
  }

  lemma QueueingOfRun(e: Endpoint)
    requires Looks(e, Finished())
    ensures var q := Queueing(e.packets);
            q(0) == 0 && q(1) == 0 && q(2) == 160_000 && q(3) == 0
  {
    hide Looks;
    hide QueueingDelay;
    PacketOfRun(e, 0);
    PacketOfRun(e, 1);
    PacketOfRun(e, 2);
    PacketOfRun(e, 3);
    DelayOf(500);
    DelayOf(1_000);
    DelayOf(1_500);
  }

  lemma PacketOfRun(e: Endpoint, i: nat)
    requires Looks(e, Finished()) && i < 4
    ensures |e.packets| == 4 && e.packets[i].segment.len == 500
    ensures (e.packets[i].snapshot.unackedBytes, e.packets[i].acked.delay) == ALL[i]
  {
    assert LooksAt(e.packets[i], i, Finished().packets[i]);
  }

  const T2 := S2.(rtt := 40_000)

  lemma QueueFreeOfRun(queueing: nat -> u32)
    requires queueing(0) == 0 && queueing(1) == 0 && queueing(2) == 160_000 && queueing(3) == 0
    ensures QueueFree([S0, S1, S2, S3], queueing) == [S0, S1, T2, S3]
    ensures Filtered([S0, S1, S2, S3], queueing, 360_000, 360_000)
  {
    var o := [S0, S1, S2, S3];
    assert o[..3] == [S0, S1, S2] && o[..3][..2] == [S0, S1] && [S0, S1][..1] == [S0] && [S0][..0] == [];
    assert QueueFree([S0], queueing) == [S0];
    assert QueueFree([S0, S1], queueing) == [S0, S1];
    assert QueueFree([S0, S1, S2], queueing) == [S0, S1, T2];
  }

  lemma SampledFour(a: RttSample, b: RttSample, c: RttSample, d: RttSample)
    requires a.rtt > 0
    ensures SampledAll(NO_ESTIMATE, [a, b, c, d]) == Sampled(Sampled(Sampled(FirstEstimate(a), b), c), d)
  {
    hide FirstEstimate;
    SampledThrice(a, b, c);
    assert [a, b, c, d][..3] == [a, b, c];
    hide Sampled;
  }

  lemma FirstTwo()
    ensures Sampled(FirstEstimate(S0), S1) == Estimate(1_760_000, 460_000, 460_000, 460_000, 2_500)
  {
  }

  lemma ObservedSteps()
    ensures Sampled(Estimate(1_760_000, 460_000, 460_000, 460_000, 2_500), S2)
         == Estimate(1_740_000, 460_000, 365_000, 460_000, 2_500)
    ensures Sampled(Estimate(1_740_000, 460_000, 365_000, 460_000, 2_500), S3)
         == Estimate(1_882_500, 460_000, 416_250, 200_000, 3_000)
  {
  }

  lemma ObservedEstimate()
    ensures SampledAll(NO_ESTIMATE, [S0, S1, S2, S3]) == Estimate(1_882_500, 460_000, 416_250, 200_000, 3_000)
  {
    hide SampledAll;
    hide Sampled;
    hide FirstEstimate;
    SampledFour(S0, S1, S2, S3);
    FirstTwo();
    ObservedSteps();
  }

  lemma QueueFreeSteps()
    ensures Sampled(Estimate(1_760_000, 460_000, 460_000, 460_000, 2_500), T2)
         == Estimate(1_580_000, 468_125, 468_125, 468_125, 2_500)
    ensures Sampled(Estimate(1_580_000, 468_125, 468_125, 468_125, 2_500), S3)
         == Estimate(1_742_500, 513_594, 513_594, 200_000, 3_000)
  {
  }

  lemma QueueFreeEstimate()
    ensures SampledAll(NO_ESTIMATE, [S0, S1, T2, S3]) == Estimate(1_742_500, 513_594, 513_594, 200_000, 3_000)
  {
    hide SampledAll;
    hide Sampled;
    hide FirstEstimate;
    SampledFour(S0, S1, T2, S3);
    FirstTwo();
    QueueFreeSteps();
  }

  /** Past the bound on the samples, taking off the queueing delay of the line that the analysis chooses can lengthen
      the timeout although no sample is dropped: what remains varies more. */
  lemma QueueFreeRtoCanGrow()
    ensures var e := Run(NewEndpoint(G0), EVENTS);
            && Invariant(e) && |e.packets| == 4 && IsWorst(e.packets, 4, 1)
            && ChosenFit(e.packets, 1) == Some(Fit(40_000.0, 320.0)) && e.acks.minRtt == 200_000
            && Filtered(e.samples, Queueing(e.packets), 360_000, 360_000)
            && |QueueFree(e.samples, Queueing(e.packets))| == |e.samples|
            && Rto(e.estimate, 0) == 695_312
            && Rto(SampledAll(NO_ESTIMATE, QueueFree(e.samples, Queueing(e.packets))), 0) == 731_406
  {
    hide *;
    var e := Run(NewEndpoint(G0), EVENTS);
    StartsNonZero();
    NewEndpointInvariant(G0);
    RunInvariant(NewEndpoint(G0), EVENTS);
    RunLooks();
    LineOfRun(e);
    WorstOfRun(e);
    TimeoutsOfRun(e);
  }

  lemma StartsNonZero()
    ensures G0.seqNo != 0
  {
  }

  lemma TimeoutsOfRun(e: Endpoint)
    requires Looks(e, Finished())
    ensures Filtered(e.samples, Queueing(e.packets), 360_000, 360_000)
    ensures |QueueFree(e.samples, Queueing(e.packets))| == |e.samples|
    ensures Rto(e.estimate, 0) == 695_312
    ensures Rto(SampledAll(NO_ESTIMATE, QueueFree(e.samples, Queueing(e.packets))), 0) == 731_406
  {
    hide Looks;
    hide Queueing;
    hide QueueFree;
    hide Filtered;
    hide SampledAll;
    QueueingOfRun(e);
    QueueFreeOfRun(Queueing(e.packets));
    EstimateOfRun(e);
    ObservedEstimate();
    QueueFreeEstimate();
  }

  lemma WorstOfRun(e: Endpoint)
    requires Looks(e, Finished())
    ensures |e.packets| == 4 && IsWorst(e.packets, 4, 1) && e.acks.minRtt == 200_000
  {
    assert e.acks.minRtt == 200_000;
    hide Looks;
    PacketOfRun(e, 0);
    PacketOfRun(e, 1);
    PacketOfRun(e, 2);
    PacketOfRun(e, 3);
  }

  lemma EstimateOfRun(e: Endpoint)
    requires Looks(e, Finished())
    ensures e.samples == [S0, S1, S2, S3] && e.estimate == SampledAll(NO_ESTIMATE, e.samples)
  {
    SampledFour(S0, S1, S2, S3);
    assert Sampled(NO_ESTIMATE, S0) == FirstEstimate(S0);
    hide Sampled;
    hide SampledAll;
    hide FirstEstimate;
  }
}
