/** A run whose worst packet was acknowledged too soon after its retransmission for its causes to add up. */
module LossExample {
  import opened SeqSpace
  import opened TcpSacks
  import opened TcpTimer
  import opened EndpointModel
  import opened EndpointInvariants
  import opened Retransmissions
  import opened LinearFit
  import opened DelayModel

  // Two packets of 100 bytes; the second is reported in a SACK block after 40 us, the first is sent again 1 us later,
  // and everything is acknowledged 9 us after that.
  const FIRST := Segment(1_000, 100, false, true, 1, 0)
  const SECOND := Segment(1_100, 100, false, true, 1, 10)
  const AGAIN := Segment(1_000, 100, false, true, 1, 51)
  const REPORT := Ack(0, 50, 1_000, [Sack(1_100, 1_200)], 1, 0, false)
  const FINAL := Ack(1, 60, 1_200, [], 0, 0, false)

  const EVENTS := [Send(FIRST), Send(SECOND), Receive(REPORT), Send(AGAIN), Receive(FINAL)]

  const PLAIN := Flags(false, false, false, false, false, false, false)
  const NOT_ACKED := Acked(None, 0)
  const NO_TALLY := Tally(0, 0, 0)

  // ----- the states of the run

  function Original(g: Segment, pos: nat, unacked: u32): Packet {
    Packet(g, Links(None, None, pos), NOT_ACKED, NO_TALLY, PLAIN, Snapshot(0, unacked, None, 200_000, 0, 200_000), None,
           CLEARED, CLEARED)
  }

  function Start(): Endpoint {
    NewEndpoint(FIRST)
  }

  function Waiting(ps: seq<Packet>, unacked: seq<nat>, next: u32): Endpoint
    requires ps != []
  {
    var armed := TimerInfo(Own(0, 0), 200_000, 0, false);
    Endpoint(ps, ps[|ps| - 1], unacked, Sequences(1_000, 1_000, next, 0, 0, 0, false), Board([], 0), NO_ESTIMATE, [],
             Timers(armed, armed.(delayedAck := true), 0, true), Acks(None, None, [], map[], 0), 0, 0, false)
  }

  function AfterFirst(): Endpoint {
    Waiting([Original(FIRST, 0, 100)], [0], 1_100)
  }

  function AfterSecond(): Endpoint {
    Waiting([Original(FIRST, 0, 100), Original(SECOND, 1, 200)], [0, 1], 1_200)
  }

  function Reported(): Packet {
    Original(SECOND, 1, 200).(acked := Acked(Some(REPORT), 40))
  }

  function AfterReport(): Endpoint {
    var armed := TimerInfo(Peer(REPORT), 200_040, 0, false);
    Endpoint([Original(FIRST, 0, 100), Reported()], Original(SECOND, 1, 200), [0],
             Sequences(1_000, 1_000, 1_200, 0, 0, 0, false), Board([Sack(1_100, 1_200)], 100),
             Estimate(320, 200_000, 80, 200_000, 1_200), [RttSample(1, 40, 1_000, 1_200)],
             Timers(armed, armed.(delayedAck := true), 0, true),
             Acks(Some(REPORT), Some(REPORT), [], map[0 := 1], 40), 0, 0, false)
  }

  function Repeat(): Packet {
    Packet(AGAIN, Links(Some(0), None, 0), NOT_ACKED, NO_TALLY, PLAIN.(isRtx := true, isFast := true),
           Snapshot(0, 100, Some(REPORT), 200_040, 80, 200_040), Some(1), CLEARED, CLEARED)
  }

  function Lost(): Packet {
    Original(FIRST, 0, 100).(links := Links(None, Some(2), 0), tally := Tally(51, 51, 1))
  }

  function AfterRepeat(): Endpoint {
    AfterReport().(packets := [Lost(), Reported().(flags := PLAIN.(outOfOrder := true)), Repeat()],
                   current := Repeat(), unacked := [0, 2])
  }

  // ----- the steps

  predicate Plain(e: Endpoint) {
    e.seqs.init == 1_000 && e.seqs.ackInit == 0 && !e.seqs.ready && e.mss == 0
  }

  lemma DerivedMssOf100()
    ensures DerivedMss(100) == 0
  {
  }

  lemma OnePacket(e: Endpoint, g: Segment)
    requires Plain(e) && g.len == 100 && g.ack == 1
    ensures Step(e, Send(g)) == AddWirePacket(e, g)
  {
    hide AddWirePacket;
    hide DerivedMss;
    assert DerivedMss(100) == 0 by {
      DerivedMssOf100();
    }
    assert AddWirePackets(e, []) == e;
    assert SetInitial(e.seqs, g) == e.seqs;
    assert Prepared(e, g) == e && WireSegments(g, 0) == [g] && [g][..0] == [];
  }

  lemma SentAsNew(e: Endpoint, g: Segment, unacked: u32)
    requires g.len == 100 && After(SeqEnd(g), e.seqs.next) && e.seqs.rtoHigh == 0 && e.estimate == NO_ESTIMATE
    requires e.acks.last == None && e.seqs.ackedBytes == 0
    requires unacked == UnackedBytes(e.(seqs := e.seqs.(next := SeqEnd(g))))
    ensures AddWirePacket(e, g)
         == Push(Outstanding(e.(seqs := e.seqs.(next := SeqEnd(g)), current := Original(g, |e.packets|, unacked))))
  {
    hide Outstanding;
    hide After;
    assert AdvanceNext(e.seqs, SeqEnd(g)) == e.seqs.(next := SeqEnd(g));
    assert Rto(NO_ESTIMATE, 0) == 200_000 && Tlp(NO_ESTIMATE, false) == 0 && Tlp(NO_ESTIMATE, true) == 200_000;
    hide Rto;
    hide Tlp;
    hide SeqEnd;
  }

  lemma FirstOutstanding()
    ensures Push(Outstanding(Start().(seqs := Start().seqs.(next := 1_100), current := Original(FIRST, 0, 100))))
         == AfterFirst()
  {
    var e := Start().(seqs := Start().seqs.(next := 1_100), current := Original(FIRST, 0, 100));
    assert [0][..0] == [] && InFlight(All(e), [0]) == 1;
    assert Rto(NO_ESTIMATE, 0) == 200_000 && Tlp(NO_ESTIMATE, true) == 200_000;
    hide InFlight;
    hide Rto;
    hide Tlp;
  }

  lemma StartFacts()
    ensures SeqEnd(FIRST) == 1_100 && After(1_100, Start().seqs.next) && Plain(Start())
    ensures UnackedBytes(Start().(seqs := Start().seqs.(next := 1_100))) == 100
    ensures Start().estimate == NO_ESTIMATE && Start().acks.last == None && Start().packets == []
    ensures Start().seqs.ackedBytes == 0 && Start().seqs.rtoHigh == 0 && FIRST.len == 100 && FIRST.ack == 1
  {
  }

  lemma StepFirst()
    ensures Step(Start(), Send(FIRST)) == AfterFirst()
  {
    hide *;
    StartFacts();
    OnePacket(Start(), FIRST);
    SentAsNew(Start(), FIRST, 100);
    FirstOutstanding();
  }

  lemma StepSecond()
    ensures Step(AfterFirst(), Send(SECOND)) == AfterSecond()
  {
    hide Step;
    hide AddWirePacket;
    OnePacket(AfterFirst(), SECOND);
    SentAsNew(AfterFirst(), SECOND, 200);
  }

  // the SACK block

  lemma ReportAcks()
    ensures var e := AfterSecond().(acks := AfterSecond().acks.(last := Some(REPORT)));
            && Kept(e, [0, 1], REPORT.sacks) == [0]
            && HandleAll(e, [0, 1], REPORT) == HandleAcked(e, 1, REPORT)
  {
    var e := AfterSecond().(acks := AfterSecond().acks.(last := Some(REPORT)));
    assert [0, 1][..1] == [0] && [0][..0] == [];
    assert !AckedAt(e, 0, REPORT.sacks);
    assert REPORT.sacks[0] == Sack(1_100, 1_200) && AckedAt(e, 1, REPORT.sacks);
    hide AckedAt;
    hide HandleAcked;
    assert Kept(e, [0], REPORT.sacks) == [0] && HandleAll(e, [0], REPORT) == e;
  }

  lemma ReportSettled()
    ensures Recounted(Trimmed(AddAll(Board([], 0), REPORT.sacks).list, 1_000)) == Board([Sack(1_100, 1_200)], 100)
  {
  }

  function Heard(): Endpoint {
    AfterSecond().(acks := AfterSecond().acks.(last := Some(REPORT)))
  }

  lemma ReportAdvances()
    ensures Advance(AfterSecond(), REPORT) == Heard() && !Moves(AfterSecond().seqs, REPORT)
  {
  }

  /** The state after the reported packet is acknowledged, before the timers restart. */
  function Handled(): Endpoint {
    AfterReport().(board := Board([], 0), timers := AfterSecond().timers,
                   acks := AfterReport().acks.(lastWithTrigger := None))
  }

  lemma ReportHandled()
    ensures HandleAcked(Heard(), 1, REPORT).(unacked := [0]) == Handled()
  {
  }

  lemma ReportArmed()
    ensures ArmTimers(Handled(), Peer(REPORT)) == Handled().(timers := AfterReport().timers)
  {
    assert [0][..0] == [] && InFlight(All(Handled()), [0]) == 1;
    assert Rto(Handled().estimate, 0) == 200_040 && Tlp(Handled().estimate, true) == 200_040;
    hide InFlight;
    hide Rto;
    hide Tlp;
  }

  lemma ReportAcked()
    ensures AckPackets(Heard(), REPORT) == AfterReport().(board := Board([], 0))
  {
    hide Kept;
    hide HandleAll;
    hide HandleAcked;
    hide ArmTimers;
    ReportAcks();
    ReportHandled();
    ReportArmed();
  }

  lemma ReportIsNoDSack()
    ensures DSackPackets(AfterReport().packets, REPORT.sacks, 1_000) == AfterReport().packets
  {
    assert REPORT.sacks[..0] == [];
    assert !IsDSack(REPORT.sacks[0], 1_000);
    hide IsDSack;
  }

  lemma StepReport()
    ensures Step(AfterSecond(), Receive(REPORT)) == AfterReport()
  {
    hide Advance;
    hide AckPackets;
    hide DSackPackets;
    hide AddAll;
    hide Trimmed;
    hide Recounted;
    ReportAdvances();
    ReportAcked();
    ReportSettled();
    ReportIsNoDSack();
  }

  // the repeated packet

  function Repeating(): Endpoint {
    AfterReport().(current := Repeat().(links := Links(None, None, 2), snapshot := Snapshot(0, 0, None, 0, 0, 0)))
  }

  lemma RepeatTriggered()
    ensures var e := Begin(AfterReport(), AGAIN);
            FindRtxTrigger(e.(current := e.current.(flags := e.current.flags.(isRtx := true)))) == Repeating()
  {
  }

  lemma RepeatLinked()
    ensures var (e, linked) := LinkToPreviousTx(Repeating());
            linked && e == AfterRepeat().(packets := [Lost(), Reported()], unacked := [0],
                                          current := Repeat().(snapshot := Snapshot(0, 0, None, 0, 0, 0)))
  {
  }

  lemma RepeatProcessed()
    ensures ProcessRtx(Begin(AfterReport(), AGAIN))
         == AfterRepeat().(packets := AfterRepeat().packets[..2], unacked := [0],
                           current := Repeat().(snapshot := Snapshot(0, 0, None, 0, 0, 0)))
  {
    RepeatTriggered();
    RepeatLinked();
    hide FindRtxTrigger;
    hide LinkToPreviousTx;
  }

  lemma RepeatSent()
    ensures SendData(Begin(AfterReport(), AGAIN))
         == AfterRepeat().(packets := AfterRepeat().packets[..2], unacked := [0])
  {
    RepeatProcessed();
    hide ProcessRtx;
    var e := Begin(AfterReport(), AGAIN);
    assert SeqEnd(AGAIN) == 1_100 && !After(1_100, 1_200) && AdvanceNext(e.seqs, 1_100) == e.seqs;
    assert e.(seqs := e.seqs) == e;
    hide AdvanceNext;
    assert Rto(AfterReport().estimate, 0) == 200_040;
    assert Tlp(AfterReport().estimate, false) == 80 && Tlp(AfterReport().estimate, true) == 200_040;
    hide Rto;
    hide Tlp;
  }

  lemma StepRepeat()
    ensures Step(AfterReport(), Send(AGAIN)) == AfterRepeat()
  {
    OnePacket(AfterReport(), AGAIN);
    RepeatSent();
    hide Step;
    hide SendData;
    assert AfterRepeat().packets[..2] + [Repeat()] == AfterRepeat().packets;
  }

  function Final(): seq<Packet> {
    [Lost().(acked := Acked(Some(FINAL), 60)), Reported().(flags := PLAIN.(outOfOrder := true)),
     Repeat().(acked := Acked(Some(FINAL), 9))]
  }

  function Advanced(): Endpoint {
    var e := AfterRepeat();
    e.(seqs := e.seqs.(acked := 1_200, ackedBytes := 200), acks := e.acks.(last := Some(FINAL)))
  }

  lemma FinalAdvances()
    ensures Advance(AfterRepeat(), FINAL) == Advanced() && Moves(AfterRepeat().seqs, FINAL)
  {
  }

  lemma FinalAcks()
    ensures var e := HandleAll(Advanced(), [0, 2], FINAL);
            e.packets == Final() && e.acks.minRtt == 40
  {
    var e := Advanced();
    assert [0, 2][..1] == [0] && [0][..0] == [];
    assert AckedAt(e, 0, []) && AckedAt(e, 2, []);
    hide AckedAt;
    assert HandleAll(e, [0], FINAL) == HandleAcked(e, 0, FINAL);
    assert HandleAll(e, [0, 2], FINAL) == HandleAcked(HandleAcked(e, 0, FINAL), 2, FINAL);
    hide HandleAll;
  }

  lemma StepFinal()
    ensures Step(AfterRepeat(), Receive(FINAL)).packets == Final()
    ensures Step(AfterRepeat(), Receive(FINAL)).acks.minRtt == 40
  {
    hide HandleAll;
    hide Kept;
    hide ArmTimers;
    hide Advance;
    hide Trimmed;
    hide AddAll;
    FinalAdvances();
    FinalAcks();
    ArmedKeeps(HandleAll(Advanced(), [0, 2], FINAL).(unacked := Kept(Advanced(), [0, 2], [])), Peer(FINAL));
  }

  lemma ArmedKeeps(e: Endpoint, armer: Armer)
    ensures ArmTimers(e, armer).packets == e.packets && ArmTimers(e, armer).acks == e.acks
  {
    hide InFlight;
    hide Rto;
    hide Tlp;
  }

  lemma RunIs()
    ensures Run(Start(), EVENTS) == Step(AfterRepeat(), Receive(FINAL))
  {
    StepFirst();
    StepSecond();
    StepReport();
    StepRepeat();
    hide Step;
    assert EVENTS[..4][..3] == EVENTS[..3] && EVENTS[..3][..2] == EVENTS[..2] && EVENTS[..2][..1] == EVENTS[..1];
    assert EVENTS[..1][..0] == [];
    assert Run(Start(), EVENTS[..1]) == AfterFirst();
    assert Run(Start(), EVENTS[..2]) == AfterSecond();
    assert Run(Start(), EVENTS[..3]) == AfterReport();
    assert Run(Start(), EVENTS[..4]) == AfterRepeat();
  }

  lemma NoMoments()
    ensures !Usable(MomentsOf([(100, 9)])) && !Usable(MomentsOf([]))
  {
    assert [(100, 9)][..0] == [];
    assert MomentsOf([]) == Moments(0, 0, 0, 0, 0, 0);
    assert MomentsOf([(100, 9)]) == Moments(1, 100, 9, 10_000, 900, 81);
  }

  /** No line goes through sets without usable ones. */
  lemma {:induction false} NothingBest(sets: seq<seq<(u32, u32)>>)
    requires forall i :: 0 <= i < |sets| ==> !Usable(MomentsOf(sets[i]))
    ensures Best(sets).None?
  {
    hide Usable;
    hide MomentsOf;
    if sets != [] {
      NothingBest(sets[..|sets| - 1]);
    }
  }

  /** One sample is left, and one sample has no line. */
  lemma NoLine()
    ensures Samples(Final(), Final()) == [(100, 9)]
    ensures SamplesAround(Final(), 0, 30, false) == [] && SamplesAround(Final(), 0, 60, true) == []
    ensures ChosenFit(Final(), 0).None?
  {
    FinalSamples();
    hide Samples;
    NoMoments();
    hide Usable;
    hide MomentsOf;
    NothingBest(SampleSets(Final(), 0));
    hide Best;
  }

  lemma FinalSamples()
    ensures Samples(Final(), Final()) == [(100, 9)] && Samples(Final(), Final()[..1]) == []
  {
    var ps := Final();
    assert ps[..2][..1] == ps[..1] && ps[..1][..0] == [];
    assert !IsEligible(ps, ps[0]) && !IsEligible(ps, ps[1]) && IsEligible(ps, ps[2]);
    hide IsEligible;
    assert Samples(ps, ps[..1]) == [];
    assert Samples(ps, ps[..2]) == [];
  }

  /** A retransmission sent less than the minimum round-trip time before the ACK breaks conservation: the first packet
      is the worst, the minimum round-trip time of 40 us and its loss of 51 us exceed its delay of 60 us, and the
      remainder is reported as zero. */
  lemma LossCanExceedWhole(look: Lookups)
    ensures var e := Run(NewEndpoint(FIRST), EVENTS);
            && Invariant(e) && IsWorst(e.packets, |e.packets|, 0) && IsLost(e.packets, e.packets[0])
            && ChosenFit(e.packets, 0).None?
            && var d := Analyzed(e.packets, e.acks, 0, look);
               d.overall == 60 && d.propagation == 40 && d.loss == 51 && SumOfCauses(d) == 91
  {
    var e := Run(Start(), EVENTS);
    RunFacts();
    NoLine();
    MeasuredIs();
    hide *;
    AnalyzedWithoutLine(e.packets, e.acks, 0, look);
  }

  lemma RunFacts()
    ensures var e := Run(Start(), EVENTS);
            && Start() == NewEndpoint(FIRST) && Invariant(e) && Forest(e.packets)
            && e.packets == Final() && |e.packets| == 3 && e.acks.minRtt == 40
            && e.packets[0].segment.len != 0
  {
    NewEndpointInvariant(FIRST);
    hide Run;
    hide Step;
    RunInvariant(Start(), EVENTS);
    RunIs();
    StepFinal();
  }

  lemma MeasuredIs()
    ensures IsWorst(Final(), 3, 0) && IsLost(Final(), Final()[0])
    ensures var d := Attributed(Measured(Final(), 0, 40, 0, NO_TRIGGER_DELAYS));
            d.overall == 60 && d.propagation == 40 && d.loss == 51 && SumOfCauses(d) == 91
  {
  }
}
