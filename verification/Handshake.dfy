/** The initial sequence numbers of a connection, as the packets of one endpoint reveal them. */
module Handshake {
  import opened EndpointModel
  import opened EndpointInvariants

  function SentIn(events: seq<Event>): seq<Segment> {
    if events == [] then []
    else
      var v := events[|events| - 1];
      SentIn(events[..|events| - 1]) + if v.Send? then [v.segment] else []
  }

  /** The packet at this position is the first that carries an acknowledgment other than of sequence number zero. */
  predicate FirstAckAt(gs: seq<Segment>, k: nat) {
    && k < |gs| && gs[k].ackFlag && gs[k].ack != 1
    && forall j :: 0 <= j < k ==> !(gs[j].ackFlag && gs[j].ack != 1)
  }

  predicate NoneAcks(gs: seq<Segment>) {
    forall j :: 0 <= j < |gs| ==> !(gs[j].ackFlag && gs[j].ack != 1)
  }

  /** The peer's initial number is one less than the first acknowledgment; initialisation is over once it is known. */
  predicate PeerKnown(q: Sequences, gs: seq<Segment>) {
    && (q.ready <==> q.ackInit != 0)
    && (NoneAcks(gs) ==> q.ackInit == 0)
    && forall k :: 0 <= k < |gs| && FirstAckAt(gs, k) ==> q.ackInit == (gs[k].ack - 1) % 0x1_0000_0000
  }

  predicate KnowsPeer(q: Sequences, gs: seq<Segment>) {
    PeerKnown(q, gs) && (NoneAcks(gs) || exists k :: 0 <= k < |gs| && FirstAckAt(gs, k))
  }

  lemma InitialStep(q: Sequences, gs: seq<Segment>, g: Segment)
    requires q.init != 0 && KnowsPeer(q, gs)
    ensures var r := if q.ready then q else SetInitial(q, g);
            KnowsPeer(r, gs + [g])
  {
    var all := gs + [g];
    assert forall j :: 0 <= j < |gs| ==> all[j] == gs[j];
    if NoneAcks(gs) {
      assert g.ackFlag && g.ack != 1 ==> FirstAckAt(all, |gs|);
      forall k: nat | FirstAckAt(all, k)
        ensures k == |gs|
      {
      }
      assert NoneAcks(all) <==> !(g.ackFlag && g.ack != 1);
    } else {
      var k :| 0 <= k < |gs| && FirstAckAt(gs, k);
      assert q.ackInit != 0;
      assert FirstAckAt(all, k);
      forall j: nat | FirstAckAt(all, j)
        ensures j == k
      {
      }
    }
  }

  lemma PeerFrame(q: Sequences, r: Sequences, gs: seq<Segment>)
    requires KnowsPeer(q, gs) && r.ackInit == q.ackInit && r.ready == q.ready
    ensures KnowsPeer(r, gs)
  {
  }

  lemma SendPeer(e: Endpoint, g: Segment)
    requires Invariant(e)
    ensures var q, r := Step(e, Send(g)).seqs, if e.seqs.ready then e.seqs else SetInitial(e.seqs, g);
            q.ackInit == r.ackInit && q.ready == r.ready
  {
    PreparedInvariant(e, g);
    var e1 := Prepared(e, g);
    AddWirePacketsInvariant(e1, WireSegments(g, e1.mss));
    assert e1.seqs == (if e.seqs.ready then e.seqs else SetInitial(e.seqs, g)) by {
      hide SetInitial;
      hide DerivedMss;
    }
    hide Prepared;
    hide SetInitial;
    hide AddWirePackets;
    hide WireSegments;
    hide Invariant;
    hide Later;
  }

  lemma ReceiveKeeps(e: Endpoint, ack: Ack)
    requires Invariant(e)
    ensures ProcessAck(e, ack).seqs.ackInit == e.seqs.ackInit && ProcessAck(e, ack).seqs.ready == e.seqs.ready
  {
    AdvanceInvariant(e, ack);
    AdvanceShape(e, ack);
    AbsorbInvariant(Advance(e, ack), ack);
    ProcessAckStages(e, ack);
    hide ProcessAck;
    hide Absorb;
    hide Advance;
    hide Invariant;
  }

  lemma SentSnoc(events: seq<Event>)
    requires events != []
    ensures var v := events[|events| - 1];
            SentIn(events) == SentIn(events[..|events| - 1]) + if v.Send? then [v.segment] else []
  {
  }

  lemma PeerStep(e: Endpoint, v: Event, gs: seq<Segment>)
    requires Invariant(e) && KnowsPeer(e.seqs, gs)
    ensures KnowsPeer(Step(e, v).seqs, if v.Send? then gs + [v.segment] else gs)
  {
    assert SequencesOk(e.seqs);
    hide Invariant;
    hide KnowsPeer;
    hide SetInitial;
    hide ProcessAck;
    hide AddPacket;
    match v {
      case Send(g) =>
        SendPeer(e, g);
        InitialStep(e.seqs, gs, g);
        PeerFrame(if e.seqs.ready then e.seqs else SetInitial(e.seqs, g), Step(e, v).seqs, gs + [g]);
      case Receive(ack) =>
        ReceiveKeeps(e, ack);
        PeerFrame(e.seqs, Step(e, v).seqs, gs);
      case Announce(mss) =>
    }
  }

  lemma RunSnoc(e: Endpoint, events: seq<Event>)
    requires events != []
    ensures Run(e, events) == Step(Run(e, events[..|events| - 1]), events[|events| - 1])
  {
    hide Step;
  }

  lemma FirstKnowsPeer(g: Segment, events: seq<Event>)
    requires events == [] && g.seqNo != 0
    ensures KnowsPeer(Run(NewEndpoint(g), events).seqs, [g] + SentIn(events))
  {
    InitialStep(NO_SEQUENCES.(init := g.seqNo), [], g);
    assert [] + [g] == [g] + SentIn(events);
  }

  /** After every run, the initial number of the peer is the one that the first acknowledgment sent reveals, and the
      numbers are ready from then on. */
  lemma {:induction false} RunKnowsPeer(g: Segment, events: seq<Event>)
    requires g.seqNo != 0
    ensures KnowsPeer(Run(NewEndpoint(g), events).seqs, [g] + SentIn(events))
  {
    hide *;
    if events == [] {
      FirstKnowsPeer(g, events);
    } else {
      NewEndpointInvariant(g);
      var n := |events| - 1;
      var e, v := Run(NewEndpoint(g), events[..n]), events[n];
      RunKnowsPeer(g, events[..n]);
      RunInvariant(NewEndpoint(g), events[..n]);
      SentSnoc(events);
      RunSnoc(NewEndpoint(g), events);
      PeerStep(e, v, [g] + SentIn(events[..n]));
      if v.Send? {
        assert [g] + SentIn(events[..n]) + [v.segment] == [g] + (SentIn(events[..n]) + [v.segment]);
      } else {
        assert SentIn(events[..n]) + [] == SentIn(events[..n]);
      }
    }
  }
}
