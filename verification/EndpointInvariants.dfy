/** What holds of the reconstructed sender after every step of every run. */
module EndpointInvariants {
  import opened SeqSpace
  import opened TcpSacks
  import opened TcpTimer
  import opened EndpointModel
  import opened Frames
  import opened Conservation
  import opened Retransmissions
  import opened Measurements
  import TimerProofs

  /** The cumulative acknowledgment is the initial sequence number plus the bytes counted so far, and the recovery
      point, when set, is the next sequence number. */
  predicate SequencesOk(q: Sequences) {
    && q.init != 0
    && q.acked == Wrap(q.init + q.ackedBytes)
    && (q.rtoHigh == 0 || q.rtoHigh == q.next)
  }

  predicate SnapshotsOk(ps: seq<Packet>, ackedBytes: nat) {
    && (forall i :: 0 <= i < |ps| ==> ps[i].snapshot.ackedBytes <= ackedBytes)
    && (forall i, j :: 0 <= i < j < |ps| ==> ps[i].snapshot.ackedBytes <= ps[j].snapshot.ackedBytes)
  }

  predicate Trees(ps: seq<Packet>) {
    Forest(ps) && Tallied(ps) && Delayed(ps)
  }

  /** A timer runs exactly while something is outstanding; the probe timer only beside the retransmission timer. */
  predicate TimersOk(e: Endpoint) {
    (RtoArmed(e) <==> e.unacked != []) && (TlpArmed(e) ==> RtoArmed(e))
  }

  predicate Invariant(e: Endpoint) {
    && SequencesOk(e.seqs) && SnapshotsOk(e.packets, e.seqs.ackedBytes)
    && Trees(e.packets)
    && Conserved(e.packets, e.unacked)
    && TimersOk(e)
    && Ledger(e)
  }

  /** The same while a packet is being processed: the trees include it, the outstanding list does not. */
  predicate Midway(e: Endpoint) {
    && SequencesOk(e.seqs) && SnapshotsOk(All(e), e.seqs.ackedBytes)
    && Trees(All(e))
    && Conserved(e.packets, e.unacked)
    && (e.unacked != [] ==> RtoArmed(e)) && (TlpArmed(e) ==> RtoArmed(e))
    && Ledger(e)
    && e.current.acked.packet.None?
  }

  predicate Unlinked(e: Endpoint) {
    e.current.links == Links(None, None, |e.packets|) && e.current.tally == Tally(0, 0, 0)
  }

  // ----- frames

  lemma TreesFrame(ps: seq<Packet>, qs: seq<Packet>)
    requires Trees(ps) && SameLinks(ps, qs) && SameTallies(ps, qs)
    ensures Trees(qs)
  {
    ForestFrame(ps, qs);
    TalliedFrame(ps, qs);
    DelayedFrame(ps, qs);
  }

  predicate SameBooks(ps: seq<Packet>, qs: seq<Packet>) {
    |qs| == |ps| && forall i :: 0 <= i < |ps| ==> qs[i].segment == ps[i].segment && qs[i].acked == ps[i].acked
  }

  lemma ConservedFrame(ps: seq<Packet>, qs: seq<Packet>, unacked: seq<nat>)
    requires Conserved(ps, unacked) && (SameCores(ps, qs) || SameBooks(ps, qs))
    ensures Conserved(qs, unacked)
  {
    assert SameBooks(ps, qs) by {
      assert SameCores(ps, qs) ==> forall i :: 0 <= i < |ps| ==> CoreOf(qs[i]) == CoreOf(ps[i]);
    }
  }

  lemma AllFrame(e: Endpoint, f: Endpoint)
    requires SameCores(e.packets, f.packets) && CoreOf(f.current) == CoreOf(e.current)
    ensures SameCores(All(e), All(f)) && SameLinks(All(e), All(f)) && SameTallies(All(e), All(f))
  {
    forall i | 0 <= i <= |e.packets|
      ensures CoreOf(All(f)[i]) == CoreOf(All(e)[i])
    {
    }
    assert forall i :: 0 <= i <= |e.packets| ==> CoreOf(All(f)[i]) == CoreOf(All(e)[i]);
  }

  lemma SnapshotsFrame(ps: seq<Packet>, qs: seq<Packet>, n: nat)
    requires SnapshotsOk(ps, n) && SameCores(ps, qs)
    ensures SnapshotsOk(qs, n)
  {
    forall i | 0 <= i < |ps|
      ensures qs[i].snapshot.ackedBytes == ps[i].snapshot.ackedBytes
    {
      assert CoreOf(qs[i]) == CoreOf(ps[i]);
    }
  }

  lemma CosmeticMidway(e: Endpoint, f: Endpoint)
    requires Midway(e) && Cosmetic(e, f)
    ensures Midway(f) && (Unlinked(e) ==> Unlinked(f))
  {
    AllFrame(e, f);
    TreesFrame(All(e), All(f));
    SnapshotsFrame(All(e), All(f), e.seqs.ackedBytes);
    ConservedFrame(e.packets, f.packets, e.unacked);
    LedgerFrame(e, f);
    hide Trees;
    hide SnapshotsOk;
    hide Conserved;
    hide Ledger;
    hide SameCores;
    hide All;
  }

  lemma AcknowledgedFrame(ps: seq<Packet>, qs: seq<Packet>)
    requires |qs| == |ps| && forall i :: 0 <= i < |ps| ==> Acknowledged(ps[i], qs[i])
    ensures SameLinks(ps, qs) && SameTallies(ps, qs) && Later(ps, qs)
    ensures forall n :: SnapshotsOk(ps, n) ==> SnapshotsOk(qs, n)
  {
    forall i | 0 <= i < |ps|
      ensures qs[i].links == ps[i].links && qs[i].segment == ps[i].segment && qs[i].tally == ps[i].tally
      ensures qs[i].snapshot.ackedBytes == ps[i].snapshot.ackedBytes
      ensures ps[i].acked.packet.Some? ==> qs[i].acked == ps[i].acked
    {
      assert Acknowledged(ps[i], qs[i]);
    }
  }

  lemma AckingFrame(e: Endpoint, f: Endpoint)
    requires Acking(e, f)
    ensures SameLinks(All(e), All(f)) && SameTallies(All(e), All(f))
    ensures forall n :: SnapshotsOk(All(e), n) ==> SnapshotsOk(All(f), n)
  {
    forall i | 0 <= i <= |e.packets|
      ensures Acknowledged(All(e)[i], All(f)[i])
    {
      if i < |e.packets| {
        assert Acknowledged(e.packets[i], f.packets[i]);
      }
    }
    AcknowledgedFrame(All(e), All(f));
  }

  // ----- one packet sent

  lemma BeginMidway(e: Endpoint, g: Segment)
    requires Invariant(e)
    ensures Midway(Begin(e, g)) && Unlinked(Begin(e, g))
  {
    var f := Begin(e, g);
    ForestGrows(e.packets, f.current);
    TalliedGrows(e.packets, f.current);
    DelayedGrows(e.packets, f.current);
    LedgerFrame(e, f);
    hide Forest;
    hide Tallied;
    hide Delayed;
    hide Conserved;
    hide Ledger;
  }

  lemma LookalikesMidway(e: Endpoint)
    requires Midway(e) && Unlinked(e)
    ensures var f := CheckLookalikesFrom(e, 0);
            Midway(f) && Unlinked(f) && f.seqs == e.seqs && Acking(e, f) && (RtoArmed(e) ==> RtoArmed(f))
  {
    CheckLookalikesConserves(e, 0);
    CheckLookalikesLedger(e, 0);
    var f := CheckLookalikesFrom(e, 0);
    hide CheckLookalikesFrom;
    hide Conserved;
    hide Ledger;
    AckingFrame(e, f);
    TreesFrame(All(e), All(f));
    hide Trees;
    hide SnapshotsOk;
    assert CoreOf(f.current) == CoreOf(e.current);
  }

  lemma LinkMidway(e: Endpoint)
    requires Midway(e) && Unlinked(e)
    ensures Midway(LinkToPreviousTx(e).0) && LinkToPreviousTx(e).0.seqs == e.seqs
    ensures RtoArmed(e) ==> RtoArmed(LinkToPreviousTx(e).0)
  {
    LinkExact(e);
    var (f, linked) := LinkToPreviousTx(e);
    hide LinkToPreviousTx;
    if linked {
      var j := f.current.links.previous.value;
      LinkKeepsForest(e, f, j);
      LinkKeepsTallies(e, f, j);
      LinkKeepsDelays(e, f, j);
      LinkLeavesAcks(e, f, j);
      hide Forest;
      hide Tallied;
      hide Delayed;
      hide SnapshotsOk;
      hide Conserved;
      hide Ledger;
      assert f == e.(packets := f.packets, current := f.current);
      assert f.current.acked == e.current.acked;
    }
  }

  lemma LinkedSame(e: Endpoint, f: Endpoint, j: nat)
    requires LinkedTo(e, f, j)
    ensures SameBooks(e.packets, f.packets) && SameMeasures(e.packets, f.packets)
    ensures forall i :: 0 <= i < |e.packets| ==> f.packets[i].snapshot == e.packets[i].snapshot
    ensures f == e.(packets := f.packets, current := f.current) && f.current.snapshot == e.current.snapshot
  {
    hide InChain;
  }

  lemma SnapshotsSame(ps: seq<Packet>, qs: seq<Packet>, n: nat)
    requires SnapshotsOk(ps, n) && |qs| == |ps| && forall i :: 0 <= i < |ps| ==> qs[i].snapshot == ps[i].snapshot
    ensures SnapshotsOk(qs, n)
  {
  }

  lemma LinkLeavesAcks(e: Endpoint, f: Endpoint, j: nat)
    requires LinkedTo(e, f, j) && Midway(e)
    ensures Conserved(f.packets, e.unacked) && SnapshotsOk(All(f), e.seqs.ackedBytes)
    ensures Ledger(f)
  {
    LinkedSame(e, f, j);
    hide LinkedTo;
    hide Ledger;
    hide Conserved;
    hide Trees;
    hide SnapshotsOk;
    ConservedFrame(e.packets, f.packets, e.unacked);
    LedgerFrame(e, f);
    SnapshotsSame(All(e), All(f), e.seqs.ackedBytes);
  }

  /** History is not rewritten: what was sent, its place in the tree, and an acknowledgment once recorded. */
  predicate Later(ps: seq<Packet>, qs: seq<Packet>) {
    && |ps| <= |qs|
    && forall i :: 0 <= i < |ps| ==>
         && qs[i].segment == ps[i].segment
         && qs[i].links.previous == ps[i].links.previous && qs[i].links.first == ps[i].links.first
         && qs[i].snapshot.ackedBytes == ps[i].snapshot.ackedBytes
         && (ps[i].acked.packet.Some? ==> qs[i].acked == ps[i].acked)
  }

  lemma LaterTransitive(ps: seq<Packet>, qs: seq<Packet>, rs: seq<Packet>)
    requires Later(ps, qs) && Later(qs, rs)
    ensures Later(ps, rs)
  {
  }

  lemma SameCoresLater(ps: seq<Packet>, qs: seq<Packet>)
    requires SameCores(ps, qs)
    ensures Later(ps, qs)
  {
    forall i | 0 <= i < |ps|
      ensures CoreOf(qs[i]) == CoreOf(ps[i])
    {
    }
  }

  lemma AckingLater(e: Endpoint, f: Endpoint)
    requires Acking(e, f)
    ensures Later(e.packets, f.packets)
  {
    forall i | 0 <= i < |e.packets|
      ensures Acknowledged(e.packets[i], f.packets[i])
    {
    }
  }

  /** One stage of processing a packet: the invariant, the history and the running timer survive. */
  predicate Stage(e: Endpoint, f: Endpoint) {
    && Midway(f) && Later(e.packets, f.packets) && |f.packets| == |e.packets|
    && (RtoArmed(e) ==> RtoArmed(f))
    && f.seqs == e.seqs.(rtoHigh := f.seqs.rtoHigh)
    && f.current.segment == e.current.segment
  }

  lemma StageTransitive(e: Endpoint, f: Endpoint, g: Endpoint)
    requires Stage(e, f) && Stage(f, g)
    ensures Stage(e, g)
  {
    LaterTransitive(e.packets, f.packets, g.packets);
    hide Later;
    hide Midway;
  }

  lemma CosmeticStage(e: Endpoint, f: Endpoint)
    requires Midway(e) && Cosmetic(e, f)
    ensures Stage(e, f) && (Unlinked(e) ==> Unlinked(f))
  {
    CosmeticMidway(e, f);
    SameCoresLater(e.packets, f.packets);
    hide Midway;
    hide Later;
    assert CoreOf(f.current) == CoreOf(e.current);
  }

  lemma LookalikesStage(e: Endpoint)
    requires Midway(e) && Unlinked(e)
    ensures Stage(e, CheckLookalikesFrom(e, 0)) && Unlinked(CheckLookalikesFrom(e, 0))
  {
    LookalikesMidway(e);
    AckingLater(e, CheckLookalikesFrom(e, 0));
    hide CheckLookalikesFrom;
    hide Midway;
    hide Later;
    assert CoreOf(CheckLookalikesFrom(e, 0).current) == CoreOf(e.current);
  }

  lemma LinkedLater(e: Endpoint, f: Endpoint, j: nat)
    requires LinkedTo(e, f, j)
    ensures Later(e.packets, f.packets)
  {
    hide InChain;
  }

  lemma LinkStage(e: Endpoint)
    requires Midway(e) && Unlinked(e)
    ensures Stage(e, LinkToPreviousTx(e).0)
    ensures LinkToPreviousTx(e).0.current.flags == e.current.flags
  {
    LinkMidway(e);
    LinkExact(e);
    var (f, linked) := LinkToPreviousTx(e);
    hide LinkToPreviousTx;
    hide Midway;
    if linked {
      LinkedLater(e, f, f.current.links.previous.value);
    }
  }

  lemma NoteUnmatchedCosmetic(e: Endpoint)
    ensures Cosmetic(e, NoteUnmatched(e))
  {
  }

  lemma ProcessRtxStage(e: Endpoint)
    requires Midway(e) && Unlinked(e)
    ensures Stage(e, ProcessRtx(e)) && ProcessRtx(e).current.flags.isRtx
  {
    var e1 := CheckLookalikesFrom(e, 0);
    LookalikesStage(e);
    var e2 := e1.(current := e1.current.(flags := e1.current.flags.(isRtx := true)));
    assert Cosmetic(e1, e2);
    var e3 := FindRtxTrigger(e2);
    FindRtxTriggerCosmetic(e2);
    FindRtxTriggerFlag(e2);
    var (e4, linked) := LinkToPreviousTx(e3);
    var e5 := if linked then e4 else NoteUnmatched(e4);
    NoteUnmatchedCosmetic(e4);
    MarkOutOfOrderCosmetic(e5);
    hide *;
    ProcessRtxChain(e, e1, e2, e3, e4, e5);
  }

  lemma ProcessRtxChain(e: Endpoint, e1: Endpoint, e2: Endpoint, e3: Endpoint, e4: Endpoint, e5: Endpoint)
    requires Midway(e) && Unlinked(e) && Stage(e, e1) && Unlinked(e1) && Cosmetic(e1, e2) && Cosmetic(e2, e3)
    requires e4 == LinkToPreviousTx(e3).0 && (e5 == e4 || (e5 == NoteUnmatched(e4) && Cosmetic(e4, e5)))
    requires Cosmetic(e5, MarkOutOfOrder(e5))
    ensures Stage(e, MarkOutOfOrder(e5))
  {
    CosmeticStage(e1, e2);
    CosmeticStage(e2, e3);
    LinkStage(e3);
    StageTransitive(e, e1, e2);
    StageTransitive(e, e2, e3);
    StageTransitive(e, e3, e4);
    hide Midway;
    hide LinkToPreviousTx;
    if e5 != e4 {
      CosmeticStage(e4, e5);
      StageTransitive(e, e4, e5);
    }
    CosmeticStage(e5, MarkOutOfOrder(e5));
    StageTransitive(e, e5, MarkOutOfOrder(e5));
  }

  /** The recovery point never outlives new data: after the update it is zero, or nothing moved. */
  lemma AdvanceNextExact(q: Sequences, end: u32)
    requires q.rtoHigh == 0 || q.rtoHigh == q.next
    ensures var r := AdvanceNext(q, end);
            && r == q.(next := r.next, rtoHigh := r.rtoHigh)
            && r.next == (if After(end, q.next) then end else q.next)
            && (r.rtoHigh == 0 || r.rtoHigh == r.next)
            && (After(end, q.next) ==> r.rtoHigh == 0)
  {
  }

  lemma MoveNextMidway(e: Endpoint, end: u32)
    requires Midway(e)
    ensures Midway(e.(seqs := AdvanceNext(e.seqs, end)))
  {
    var f := e.(seqs := AdvanceNext(e.seqs, end));
    AdvanceNextExact(e.seqs, end);
    LedgerFrame(e, f);
    hide Trees;
    hide SnapshotsOk;
    hide Conserved;
    hide Ledger;
    hide AdvanceNext;
  }

  /** Sending a segment: everything sent before stays, and the next sequence number advances. */
  predicate Sending(e: Endpoint, f: Endpoint, next: u32) {
    && Midway(f) && Later(e.packets, f.packets) && |f.packets| == |e.packets|
    && f.seqs == e.seqs.(next := next, rtoHigh := f.seqs.rtoHigh)
    && f.current.segment == e.current.segment
  }

  lemma SnapshotCosmetic(e: Endpoint, s: Snapshot)
    requires s.ackedBytes == e.current.snapshot.ackedBytes
    ensures Cosmetic(e, e.(current := e.current.(snapshot := s)))
  {
  }

  /** A data packet is processed as a retransmission exactly when its end does not exceed everything sent before;
      the recovery point never decides. */
  lemma SendDataSending(e: Endpoint)
    requires Midway(e) && Unlinked(e) && !e.current.flags.isRtx
    ensures var end := SeqEnd(e.current.segment);
            && Sending(e, SendData(e), if After(end, e.seqs.next) then end else e.seqs.next)
            && (SendData(e).current.flags.isRtx <==> !After(end, e.seqs.next))
  {
    var end := SeqEnd(e.current.segment);
    var e1 := e.(seqs := AdvanceNext(e.seqs, end));
    AdvanceNextExact(e.seqs, end);
    MoveNextMidway(e, end);
    assert Unlinked(e1);
    var e2 := if !After(end, e.seqs.next) || e1.seqs.rtoHigh != 0 then ProcessRtx(e1) else e1;
    if !After(end, e.seqs.next) {
      ProcessRtxStage(e1);
    }
    SameCoresLater(e.packets, e.packets);
    assert Sending(e, e2, if After(end, e.seqs.next) then end else e.seqs.next) by {
      hide Midway;
      hide ProcessRtx;
      hide Later;
    }
    var e3 := SendData(e);
    var s := e3.current.snapshot;
    assert e3 == e2.(current := e2.current.(snapshot := s));
    SnapshotCosmetic(e2, s);
    hide *;
    SnapshotSending(e, e2, s, if After(end, e.seqs.next) then end else e.seqs.next);
  }

  lemma SnapshotSending(e: Endpoint, f: Endpoint, s: Snapshot, next: u32)
    requires Sending(e, f, next) && Cosmetic(f, f.(current := f.current.(snapshot := s)))
    ensures Sending(e, f.(current := f.current.(snapshot := s)), next)
  {
    CosmeticMidway(f, f.(current := f.current.(snapshot := s)));
    hide Midway;
    hide Later;
  }

  lemma SendSynSending(e: Endpoint)
    requires Midway(e) && Unlinked(e)
    ensures Sending(e, SendSyn(e), e.seqs.next)
    ensures e.unacked != [] ==> SendSyn(e).current.flags.isRtx
  {
    SameCoresLater(e.packets, e.packets);
    if e.unacked != [] {
      ProcessRtxStage(e);
    }
    hide Midway;
    hide Later;
    hide ProcessRtx;
  }

  lemma PushConserved(e: Endpoint, unacked: seq<nat>)
    requires Conserved(e.packets, e.unacked) && e.current.acked.packet.None?
    requires unacked == if RequiresAck(e.current.segment) then e.unacked + [|e.packets|] else e.unacked
    ensures Conserved(All(e), unacked)
  {
    IncreasingSnoc(e.unacked, |e.packets|);
  }

  /** Appending the processed packet restores the invariant. */
  lemma PushInvariant(e: Endpoint, f: Endpoint)
    requires Midway(e) && f == e.(packets := All(e), unacked := f.unacked, timers := f.timers)
    requires f.unacked == if RequiresAck(e.current.segment) then e.unacked + [|e.packets|] else e.unacked
    requires TimersOk(f)
    ensures Invariant(f)
  {
    PushConserved(e, f.unacked);
    hide Trees;
    hide SnapshotsOk;
    hide Conserved;
    assert SameMeasures(e.packets, All(e)[..|e.packets|]) && All(e)[..|e.packets|] == e.packets;
    LedgerGrows(e, f);
  }

  lemma LedgerGrows(e: Endpoint, f: Endpoint)
    requires Ledger(e) && e.current.acked.packet.None?
    requires f == e.(packets := All(e), unacked := f.unacked, timers := f.timers)
    ensures Ledger(f)
  {
    var ps, qs := e.packets, f.packets;
    assert forall i :: 0 <= i < |ps| ==> qs[i] == ps[i];
    if PositiveDelays(qs) {
      forall i | 0 <= i < |ps| && IsMeasured(ps[i])
        ensures ps[i].acked.delay > 0
      {
        assert IsMeasured(qs[i]);
      }
      if Attained(ps, e.acks.minRtt) {
        var i :| 0 <= i < |ps| && IsMeasured(ps[i]) && ps[i].acked.delay == e.acks.minRtt;
        assert IsMeasured(qs[i]);
      }
    }
    forall k | 0 <= k < |f.samples|
      ensures SampleOk(qs, f.samples[k])
    {
      assert SampleOk(ps, e.samples[k]);
    }
  }

  lemma OutstandingExact(e: Endpoint)
    requires Midway(e)
    ensures var f := Outstanding(e);
            && f == e.(unacked := e.unacked + [|e.packets|], timers := f.timers)
            && RtoArmed(f) && (RtoArmed(e) ==> f.timers == e.timers)
  {
    hide Midway;
    hide InFlight;
    hide Rto;
    hide Tlp;
  }

  lemma NotProcessedInvariant(e: Endpoint, g: Segment)
    requires Invariant(e) && !RequiresAck(g)
    ensures Invariant(AddWirePacket(e, g))
  {
    BeginMidway(e, g);
    PushInvariant(Begin(e, g), AddWirePacket(e, g));
  }

  lemma PushOutstanding(e: Endpoint)
    requires Midway(e) && RequiresAck(e.current.segment)
    ensures Invariant(Push(Outstanding(e)))
  {
    OutstandingExact(e);
    hide Outstanding;
    hide Trees;
    hide SnapshotsOk;
    hide Conserved;
    hide Ledger;
    PushInvariant(e, Push(Outstanding(e)));
  }

  /** What one packet on the wire does to the list and the sequence numbers. */
  predicate Sent(e: Endpoint, f: Endpoint, g: Segment, next: u32) {
    && Invariant(f) && Later(e.packets, f.packets)
    && |f.packets| == |e.packets| + 1 && f.packets[|e.packets|].segment == g
    && f.seqs == e.seqs.(next := next, rtoHigh := f.seqs.rtoHigh)
  }

  lemma PushSent(e: Endpoint, e1: Endpoint, e2: Endpoint, next: u32)
    requires e1.packets == e.packets && e1.seqs == e.seqs && Sending(e1, e2, next)
    requires RequiresAck(e1.current.segment)
    ensures Sent(e, Push(Outstanding(e2)), e1.current.segment, next)
    ensures Push(Outstanding(e2)).packets[|e.packets|].flags == e2.current.flags
  {
    PushOutstanding(e2);
    OutstandingExact(e2);
    LaterSnoc(e.packets, e2.packets, e2.current);
    hide Outstanding;
    hide Midway;
    hide Invariant;
    hide Later;
  }

  lemma LaterSnoc(ps: seq<Packet>, qs: seq<Packet>, p: Packet)
    requires Later(ps, qs)
    ensures Later(ps, qs + [p])
  {
  }

  /** One packet on the wire: the invariant is kept, history is not rewritten, and the packet is flagged a
      retransmission exactly when it carries no new data. */
  lemma AddWirePacketInvariant(e: Endpoint, g: Segment)
    requires Invariant(e)
    ensures var f := AddWirePacket(e, g);
            && Sent(e, f, g, if g.len != 0 && After(SeqEnd(g), e.seqs.next) then SeqEnd(g) else e.seqs.next)
            && (g.len != 0 ==> (f.packets[|e.packets|].flags.isRtx <==> !After(SeqEnd(g), e.seqs.next)))
  {
    var e1 := Begin(e, g);
    BeginMidway(e, g);
    if !RequiresAck(g) {
      NotProcessedInvariant(e, g);
      assert Later(e.packets, AddWirePacket(e, g).packets);
    } else if g.len != 0 {
      var end := SeqEnd(g);
      SendDataSending(e1);
      PushSent(e, e1, SendData(e1), if After(end, e.seqs.next) then end else e.seqs.next);
    } else {
      SendSynSending(e1);
      PushSent(e, e1, SendSyn(e1), e.seqs.next);
    }
    hide SendData;
    hide SendSyn;
    hide Invariant;
    hide Midway;
    hide Outstanding;
    hide Later;
  }

  lemma {:induction false} AddWirePacketsInvariant(e: Endpoint, gs: seq<Segment>)
    requires Invariant(e)
    ensures var f := AddWirePackets(e, gs);
            && Invariant(f) && Later(e.packets, f.packets) && |f.packets| == |e.packets| + |gs|
            && f.seqs == e.seqs.(next := f.seqs.next, rtoHigh := f.seqs.rtoHigh)
  {
    SameCoresLater(e.packets, e.packets);
    if gs != [] {
      hide Invariant;
      hide AddWirePacket;
      var f := AddWirePackets(e, gs[..|gs| - 1]);
      AddWirePacketsInvariant(e, gs[..|gs| - 1]);
      AddWirePacketInvariant(f, gs[|gs| - 1]);
      LaterTransitive(e.packets, f.packets, AddWirePacket(f, gs[|gs| - 1]).packets);
      hide Later;
    }
  }

  /** The packets are appended in order. */
  lemma {:induction false} AddWirePacketsAppend(e: Endpoint, gs: seq<Segment>, k: nat)
    requires Invariant(e) && k < |gs|
    ensures var ps := AddWirePackets(e, gs).packets;
            |ps| == |e.packets| + |gs| && ps[|e.packets| + k].segment == gs[k]
  {
    hide Invariant;
    hide AddWirePacket;
    var n := |gs| - 1;
    var f := AddWirePackets(e, gs[..n]);
    AddWirePacketsInvariant(e, gs[..n]);
    AddWirePacketInvariant(f, gs[n]);
    if k < n {
      AddWirePacketsAppend(e, gs[..n], k);
    }
  }

  lemma PreparedShape(e: Endpoint, g: Segment)
    requires e.seqs.init != 0
    ensures var f := Prepared(e, g);
            && f == e.(seqs := f.seqs, mss := f.mss)
            && f.seqs == e.seqs.(ackInit := f.seqs.ackInit, ready := f.seqs.ready)
  {
    hide DerivedMss;
  }

  lemma PreparedInvariant(e: Endpoint, g: Segment)
    requires Invariant(e)
    ensures Invariant(Prepared(e, g)) && Prepared(e, g).packets == e.packets && Prepared(e, g).seqs.init == e.seqs.init
    ensures Prepared(e, g).seqs.ackedBytes == e.seqs.ackedBytes
  {
    hide DerivedMss;
    PreparedShape(e, g);
    hide Prepared;
    LedgerFrame(e, Prepared(e, g));
    hide Trees;
    hide SnapshotsOk;
    hide Conserved;
    hide Ledger;
  }

  /** The state only moves forward. */
  predicate Forward(e: Endpoint, f: Endpoint) {
    && Later(e.packets, f.packets)
    && f.seqs.init == e.seqs.init && e.seqs.ackedBytes <= f.seqs.ackedBytes
  }

  lemma AddPacketInvariant(e: Endpoint, g: Segment)
    requires Invariant(e)
    ensures Invariant(AddPacket(e, g)) && Forward(e, AddPacket(e, g))
  {
    PreparedInvariant(e, g);
    AddWirePacketsInvariant(Prepared(e, g), WireSegments(g, Prepared(e, g).mss));
    hide Invariant;
    hide Prepared;
    hide AddWirePackets;
    hide Later;
  }

  // ----- one ACK received

  lemma AdvanceAckedOk(q: Sequences, number: u32)
    requires SequencesOk(q) && After(number, q.acked)
    ensures SequencesOk(AdvanceAcked(q, number)) && q.ackedBytes < AdvanceAcked(q, number).ackedBytes
    ensures AdvanceAcked(q, number).init == q.init && AdvanceAcked(q, number).acked == number
    ensures AdvanceAcked(q, number).next == q.next
  {
  }

  lemma AdvanceShape(e: Endpoint, ack: Ack)
    ensures var f := Advance(e, ack);
            && f == e.(seqs := f.seqs, acks := f.acks, bogus := f.bogus) && f.acks.minRtt == e.acks.minRtt
            && f.seqs == if Moves(e.seqs, ack) then AdvanceAcked(e.seqs, ack.number) else e.seqs
  {
    hide AdvanceAcked;
  }

  lemma AdvanceInvariant(e: Endpoint, ack: Ack)
    requires Invariant(e)
    ensures var f := Advance(e, ack);
            && Invariant(f) && f.packets == e.packets && f.unacked == e.unacked && f.seqs.init == e.seqs.init
            && e.seqs.ackedBytes <= f.seqs.ackedBytes && f.seqs.next == e.seqs.next
            && f.seqs.acked == if Moves(e.seqs, ack) then ack.number else e.seqs.acked
  {
    AdvanceShape(e, ack);
    if Moves(e.seqs, ack) {
      AdvanceAckedOk(e.seqs, ack.number);
    }
    hide Advance;
    LedgerFrame(e, Advance(e, ack));
    AdvanceSnapshots(e.packets, e.seqs.ackedBytes, Advance(e, ack).seqs.ackedBytes);
    hide Trees;
    hide Conserved;
    hide Ledger;
    hide SnapshotsOk;
    hide SequencesOk;
    hide AdvanceAcked;
  }

  lemma AdvanceSnapshots(ps: seq<Packet>, n: nat, m: nat)
    requires SnapshotsOk(ps, n)
    ensures n <= m ==> SnapshotsOk(ps, m)
  {
  }

  lemma AckPacketsTimers(e: Endpoint, ack: Ack)
    requires TimersOk(e)
    ensures TimersOk(AckPackets(e, ack))
    ensures AckPackets(e, ack).unacked == [] ==>
              AckPackets(e, ack).timers.rto == CLEARED && AckPackets(e, ack).timers.tlp == CLEARED
    ensures AckPackets(e, ack).unacked != [] && AckPackets(e, ack).unacked != e.unacked ==>
              && AckPackets(e, ack).timers.rto.armer == Peer(ack) && AckPackets(e, ack).timers.tlp.armer == Peer(ack)
              && AckPackets(e, ack).timers.rto.delay == Rto(AckPackets(e, ack).estimate, e.timers.rtos)
    ensures AckPackets(e, ack).unacked == e.unacked && e.unacked != [] ==> AckPackets(e, ack).timers == e.timers
  {
    HandleAllFrame(e, e.unacked, ack);
    KeptAll(e, e.unacked, ack.sacks);
    hide HandleAll;
    hide Kept;
    hide InFlight;
    hide Rto;
    hide Tlp;
  }

  lemma AckPacketsInvariant(e: Endpoint, ack: Ack)
    requires Invariant(e)
    ensures Invariant(AckPackets(e, ack)) && Later(e.packets, AckPackets(e, ack).packets)
    ensures AckPackets(e, ack).seqs == e.seqs
  {
    var f := AckPackets(e, ack);
    AckPacketsExact(e, ack);
    AckPacketsTimers(e, ack);
    AckPacketsLedger(e, ack);
    hide AckPackets;
    AcknowledgedFrame(e.packets, f.packets);
    TreesFrame(e.packets, f.packets);
    hide Trees;
    hide SnapshotsOk;
    hide Conserved;
    hide Ledger;
    hide Later;
    hide TimersOk;
  }

  lemma DSackInvariant(e: Endpoint, sacks: seq<Sack>, number: u32)
    requires Invariant(e)
    ensures var f := e.(packets := DSackPackets(e.packets, sacks, number));
            Invariant(f) && Later(e.packets, f.packets)
  {
    var f := e.(packets := DSackPackets(e.packets, sacks, number));
    DSackPacketsSameCores(e.packets, sacks, number);
    hide DSackPackets;
    SameCoresLater(e.packets, f.packets);
    SnapshotsFrame(e.packets, f.packets, e.seqs.ackedBytes);
    ConservedFrame(e.packets, f.packets, e.unacked);
    LedgerFrame(e, f);
    assert SameLinks(e.packets, f.packets) && SameTallies(e.packets, f.packets) by {
      assert forall i :: 0 <= i < |e.packets| ==> CoreOf(f.packets[i]) == CoreOf(e.packets[i]);
    }
    TreesFrame(e.packets, f.packets);
    hide Trees;
    hide SnapshotsOk;
    hide Conserved;
    hide Ledger;
    hide Later;
    hide SameCores;
  }

  lemma SettledInvariant(e: Endpoint, board: Board)
    requires Invariant(e)
    ensures Invariant(e.(board := board, timers := e.timers.(rtos := 0)))
  {
    LedgerFrame(e, e.(board := board, timers := e.timers.(rtos := 0)));
    hide Trees;
    hide SnapshotsOk;
    hide Conserved;
    hide Ledger;
  }

  /** The part of an ACK that acknowledges packets. */
  function Absorb(e: Endpoint, ack: Ack): Endpoint {
    var acked := AckPackets(e, ack);
    acked.(board := Recounted(Trimmed(AddAll(acked.board, ack.sacks).list, acked.seqs.acked)),
           timers := acked.timers.(rtos := 0))
  }

  lemma ProcessAckStages(e: Endpoint, ack: Ack)
    ensures var e1 := Advance(e, ack);
            var e2 := if Moves(e.seqs, ack) || HasSacks(ack) then Absorb(e1, ack) else e1;
            var e3 := if HasSacks(ack) then e2.(packets := DSackPackets(e2.packets, ack.sacks, ack.number)) else e2;
            ProcessAck(e, ack) == e3
  {
    hide AckPackets;
    hide Advance;
    hide DSackPackets;
  }

  lemma AbsorbInvariant(e: Endpoint, ack: Ack)
    requires Invariant(e)
    ensures Invariant(Absorb(e, ack)) && Later(e.packets, Absorb(e, ack).packets)
    ensures Absorb(e, ack).seqs == e.seqs
  {
    AckPacketsInvariant(e, ack);
    var acked := AckPackets(e, ack);
    SettledInvariant(acked, Recounted(Trimmed(AddAll(acked.board, ack.sacks).list, acked.seqs.acked)));
    hide AckPackets;
    hide Invariant;
    hide Later;
    hide Trimmed;
    hide AddAll;
  }

  lemma ProcessAckInvariant(e: Endpoint, ack: Ack)
    requires Invariant(e)
    ensures Invariant(ProcessAck(e, ack)) && Forward(e, ProcessAck(e, ack))
  {
    var e1 := Advance(e, ack);
    AdvanceInvariant(e, ack);
    SameCoresLater(e.packets, e.packets);
    ProcessAckStages(e, ack);
    AbsorbInvariant(e1, ack);
    var e2 := if Moves(e.seqs, ack) || HasSacks(ack) then Absorb(e1, ack) else e1;
    hide ProcessAck;
    hide Advance;
    hide Absorb;
    DSackInvariant(e2, ack.sacks, ack.number);
    hide Invariant;
    LaterTransitive(e.packets, e2.packets, DSackPackets(e2.packets, ack.sacks, ack.number));
    hide Later;
    hide DSackPackets;
  }

  // ----- whole runs

  lemma NewEndpointInvariant(g: Segment)
    requires g.seqNo != 0
    ensures Invariant(NewEndpoint(g)) && NewEndpoint(g).seqs.init == g.seqNo
    ensures NewEndpoint(g).seqs.next == Wrap(g.seqNo + 1) && NewEndpoint(g).seqs.ackedBytes == 0
    ensures NewEndpoint(g).timers.tlpEnabled && NewEndpoint(g).timers.rtos == 0
  {
  }

  lemma WithMssInvariant(e: Endpoint, mss: u32)
    requires Invariant(e)
    ensures Invariant(WithMss(e, mss)) && Forward(e, WithMss(e, mss))
    ensures WithMss(e, mss) == e.(mss := if mss == 0 then e.mss else mss)
  {
    LedgerFrame(e, WithMss(e, mss));
    SameCoresLater(e.packets, e.packets);
    hide Trees;
    hide SnapshotsOk;
    hide Conserved;
    hide Ledger;
    hide Later;
  }

  lemma StepInvariant(e: Endpoint, v: Event)
    requires Invariant(e)
    ensures Invariant(Step(e, v)) && Forward(e, Step(e, v))
  {
    match v
    case Send(g) => AddPacketInvariant(e, g);
    case Receive(ack) => ProcessAckInvariant(e, ack);
    case Announce(mss) => WithMssInvariant(e, mss);
  }

  /** Every state of every run satisfies the invariant. */
  lemma {:induction false} RunInvariant(e: Endpoint, events: seq<Event>)
    requires Invariant(e)
    ensures Invariant(Run(e, events)) && Forward(e, Run(e, events))
  {
    SameCoresLater(e.packets, e.packets);
    if events != [] {
      var f := Run(e, events[..|events| - 1]);
      RunInvariant(e, events[..|events| - 1]);
      StepInvariant(f, events[|events| - 1]);
      hide Invariant;
      hide Step;
      LaterTransitive(e.packets, f.packets, Step(f, events[|events| - 1]).packets);
      hide Later;
    }
  }

  // ----- consequences

  /** Timer discipline of an ACK that is processed: nothing outstanding stops both timers; acknowledged packets
      restart the retransmission timer from this ACK, still with the backoff of before the ACK; otherwise it is left
      alone. The backoff itself is forgotten. */
  lemma AckTimers(e: Endpoint, ack: Ack)
    requires Invariant(e) && (Moves(e.seqs, ack) || HasSacks(ack))
    ensures var f := ProcessAck(e, ack);
            && f.timers.rtos == 0
            && (f.unacked == [] ==> f.timers.rto == CLEARED && f.timers.tlp == CLEARED)
            && (f.unacked != [] && f.unacked != e.unacked ==>
                  && f.timers.rto.armer == Peer(ack) && f.timers.tlp.armer == Peer(ack)
                  && f.timers.rto.delay == Rto(f.estimate, e.timers.rtos))
            && (f.unacked != [] && f.unacked == e.unacked ==>
                  f.timers.rto == e.timers.rto && f.timers.tlp == e.timers.tlp)
  {
    ProcessAckStages(e, ack);
    AdvanceInvariant(e, ack);
    AdvanceShape(e, ack);
    AckPacketsTimers(Advance(e, ack), ack);
    hide ProcessAck;
    hide Advance;
    hide AckPackets;
    hide Invariant;
    hide DSackPackets;
    hide Trimmed;
    hide AddAll;
    hide Rto;
  }

  lemma BackoffVisibleIff(e: Estimate, n: nat, low: int, high: int)
    requires 1 <= low <= high <= TimerProofs.MAX_RTT_US && TimerProofs.Bounded(e, low, high)
    ensures Rto(e, n) == Rto(e, 0) <==> n == 0 || Rto(e, 0) == MAX_RTO_US
  {
    if n > 0 {
      TimerProofs.BackoffExact(e, low, high, n);
      TimerProofs.RtoExact(e, low, high);
      TimerProofs.GrowsBy(Rto(e, 0), n);
      hide Rto;
      hide TimerProofs.Bounded;
    }
  }

  /** When some but not all outstanding packets are acknowledged, the restarted timer is the plain timeout exactly when
      there was no backoff, or the timeout is the maximum. */
  lemma RestartIsPlainIff(e: Endpoint, ack: Ack, low: int, high: int)
    requires Invariant(e) && (Moves(e.seqs, ack) || HasSacks(ack))
    requires 1 <= low <= high <= TimerProofs.MAX_RTT_US
    requires TimerProofs.Bounded(ProcessAck(e, ack).estimate, low, high)
    requires ProcessAck(e, ack).unacked != [] && ProcessAck(e, ack).unacked != e.unacked
    ensures var f := ProcessAck(e, ack);
            f.timers.rto.delay == Rto(f.estimate, 0) <==> e.timers.rtos == 0 || Rto(f.estimate, 0) == MAX_RTO_US
  {
    AckTimers(e, ack);
    BackoffVisibleIff(ProcessAck(e, ack).estimate, e.timers.rtos, low, high);
    hide *;
  }

  /** The outstanding packets split into those the ACK leaves and those that now carry it. */
  predicate Partitioned(e: Endpoint, f: Endpoint, ack: Ack) {
    && |f.packets| == |e.packets|
    && (forall x :: x in f.unacked ==> x in e.unacked)
    && forall x :: x in e.unacked && x < |e.packets| ==>
         && (x in f.unacked <==> !IsAcked(e.packets[x].segment, f.seqs.acked, ack.sacks))
         && (x !in f.unacked ==> f.packets[x].acked == Acked(Some(ack), AckDelay(e.packets[x], ack)))
  }

  lemma AckPacketsPartition(e: Endpoint, ack: Ack)
    requires Invariant(e)
    ensures Partitioned(e, AckPackets(e, ack), ack)
  {
    hide AckPackets;
    hide IsAcked;
    hide AckDelay;
    hide Trees;
    hide SnapshotsOk;
    hide SequencesOk;
    hide Conserved;
    hide Ledger;
    hide Later;
    AckPacketsInvariant(e, ack);
    AckPacketsExact(e, ack);
    hide Invariant;
    hide Acknowledged;
  }

  lemma PartitionedLater(e: Endpoint, e1: Endpoint, e2: Endpoint, f: Endpoint, ack: Ack)
    requires Partitioned(e1, e2, ack) && e1.packets == e.packets && e1.unacked == e.unacked
    requires f.unacked == e2.unacked && f.seqs == e2.seqs && SameCores(e2.packets, f.packets)
    ensures Partitioned(e, f, ack)
  {
    hide IsAcked;
    hide AckDelay;
    forall x | x in e.unacked && x < |e.packets|
      ensures f.packets[x].acked == e2.packets[x].acked
    {
      assert CoreOf(f.packets[x]) == CoreOf(e2.packets[x]);
    }
  }

  /** After an ACK that is processed, every packet still outstanding ends after the cumulative ACK and is not covered
      by the ACK's blocks, and every other one carries this ACK. */
  lemma AckPartition(e: Endpoint, ack: Ack)
    requires Invariant(e) && (Moves(e.seqs, ack) || HasSacks(ack))
    ensures Partitioned(e, ProcessAck(e, ack), ack)
  {
    var e1 := Advance(e, ack);
    ProcessAckStages(e, ack);
    AdvanceInvariant(e, ack);
    AckPacketsPartition(e1, ack);
    var e2 := Absorb(e1, ack);
    DSackPacketsSameCores(e2.packets, ack.sacks, ack.number);
    hide ProcessAck;
    hide Advance;
    hide AckPackets;
    hide DSackPackets;
    hide Invariant;
    hide Trimmed;
    hide AddAll;
    hide Partitioned;
    PartitionedLater(e, e1, AckPackets(e1, ack), ProcessAck(e, ack), ack);
  }

  /** The timeouts of a reachable endpoint are computed from its measured delays, and bounded by them. */
  lemma EstimatesBounded(e: Endpoint, low: int, high: int)
    requires Invariant(e) && e.samples != [] && 1 <= low <= high
    requires forall i :: 0 <= i < |e.packets| && IsMeasured(e.packets[i]) ==>
               low <= Signed(e.packets[i].acked.delay) <= high
    ensures TimerProofs.Bounded(e.estimate, low, high)
  {
    forall k | 0 <= k < |e.samples|
      ensures low <= e.samples[k].rtt <= high
    {
      assert SampleOk(e.packets, e.samples[k]);
    }
    TimerProofs.EstimateBounds(e.samples, low, high);
  }

  // ----- the sentinel

  /** Initialising again leaves the sequence numbers alone exactly when the initial one is not the sentinel zero, or
      the new packet happens to repeat it. */
  lemma SetInitialKeepsIff(q: Sequences, g: Segment)
    ensures SetInitial(q, g).acked == q.acked && SetInitial(q, g).next == q.next <==>
            q.init != 0 || (g.seqNo == q.acked && Wrap(g.seqNo + 1) == q.next)
  {
  }

  /** With initial sequence number zero, the packet after the SYN is taken for another initial one, and a first data
      packet of one byte no longer counts as new. */
  lemma ZeroInitialSequence()
    ensures var syn, ackOnly := Segment(0, 0, true, false, 0, 0), Segment(1, 0, false, true, 500, 1);
            var q := SetInitial(NewEndpoint(syn).seqs, ackOnly);
            NewEndpoint(syn).seqs.next == 1 && q.next == 2 && !After(Wrap(1 + 1), q.next)
  {
  }
}
