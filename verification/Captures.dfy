/** Whole captures: what the flow does to its two endpoints is what two separate runs do, so that the results about runs
    are results about captures. */
module Captures {
  import opened SeqSpace
  import opened EndpointModel
  import opened EndpointInvariants
  import opened Refinement
  import opened TcpFlow
  import Ref = SenderReference

  /** The endpoint of the first packet, and its peer. */
  datatype Side = SideA | SideB

  predicate Owns(p: FlowPacket, a: Address, side: Side) {
    (p.source == a) == side.SideA?
  }

  // ----- reading a capture from one side

  /** The packet that opens the endpoint: the first one that it sends. */
  function Opening(ps: seq<FlowPacket>, a: Address, side: Side): Option<Segment> {
    if ps == [] then None
    else
      var n := |ps| - 1;
      var before := Opening(ps[..n], a, side);
      if before.Some? then before else if Owns(ps[n], a, side) then Some(ps[n].segment) else None
  }

  /** The bytes that a packet of the announced size carries: twelve less when timestamps take their part. */
  function Payload(p: FlowPacket): u32 {
    if p.timestampOk && p.mssOption < 12 then 0x1_0000_0000 + p.mssOption - 12
    else if p.timestampOk then p.mssOption - 12
    else p.mssOption
  }

  lemma UsableMssExact(p: FlowPacket)
    ensures UsableMss(p) == Payload(p)
    ensures UsableMss(p) + (if p.timestampOk then 12 else 0) == p.mssOption <==> p.timestampOk ==> p.mssOption >= 12
  {
  }

  /** The segment size that one side announced last. */
  function Announced(ps: seq<FlowPacket>, a: Address, side: Side): u32 {
    if ps == [] then 0
    else
      var p := ps[|ps| - 1];
      if p.segment.syn && p.mssOption != 0 && Owns(p, a, side) then Payload(p)
      else Announced(ps[..|ps| - 1], a, side)
  }

  function Peer(side: Side): Side {
    if side.SideA? then SideB else SideA
  }

  /** What packet p, captured after ps, lets one side see. The first packet of the peer makes the announced sizes
      known to both. */
  function Seen(ps: seq<FlowPacket>, a: Address, p: FlowPacket, side: Side): seq<Event> {
    var open := Opening(ps, a, SideB).Some?;
    (if p.source != a && !open then [Announce(Announced(ps + [p], a, Peer(side)))] else [])
    + if Owns(p, a, side) then [Send(p.segment)]
      else if p.segment.ackFlag && (open || side.SideA?) then [Receive(p.ack)]
      else []
  }

  function EventsOf(ps: seq<FlowPacket>, a: Address, side: Side): seq<Event> {
    if ps == [] then [] else EventsOf(ps[..|ps| - 1], a, side) + Seen(ps[..|ps| - 1], a, ps[|ps| - 1], side)
  }

  /** The run of one side by itself. */
  function Replayed(ps: seq<FlowPacket>, a: Address, side: Side): Option<Endpoint> {
    var g := Opening(ps, a, side);
    if g.None? then None else Some(Run(NewEndpoint(g.value), EventsOf(ps, a, side)))
  }

  function BothReplayed(ps: seq<FlowPacket>, a: Address): FlowState {
    FlowState(Replayed(ps, a, SideA), Replayed(ps, a, SideB), a, Announced(ps, a, SideB), Announced(ps, a, SideA))
  }

  function EndpointOf(f: FlowState, side: Side): Option<Endpoint> {
    if side.SideA? then f.a else f.b
  }

  // ----- a capture is two runs

  lemma RunSnoc(e: Endpoint, events: seq<Event>, v: Event)
    ensures Run(e, events + [v]) == Step(Run(e, events), v)
  {
    hide Step;
    assert (events + [v])[..|events|] == events;
  }

  lemma {:induction false} SilentBeforeOpening(ps: seq<FlowPacket>, a: Address)
    requires Opening(ps, a, SideB).None?
    ensures EventsOf(ps, a, SideB) == []
  {
    if ps != [] {
      SilentBeforeOpening(ps[..|ps| - 1], a);
    }
  }

  lemma {:induction false} FirstOpens(ps: seq<FlowPacket>)
    requires ps != []
    ensures Opening(ps, ps[0].source, SideA) == Some(ps[0].segment)
  {
    if |ps| > 1 {
      FirstOpens(ps[..|ps| - 1]);
    }
  }

  lemma Snoc(ps: seq<FlowPacket>, a: Address, p: FlowPacket, side: Side)
    ensures var all, before := ps + [p], Opening(ps, a, side);
            && Opening(all, a, side) == (if before.Some? then before
                                         else if Owns(p, a, side) then Some(p.segment) else None)
            && EventsOf(all, a, side) == EventsOf(ps, a, side) + Seen(ps, a, p, side)
            && Announced(all, a, side) == if p.segment.syn && p.mssOption != 0 && Owns(p, a, side) then Payload(p)
                                          else Announced(ps, a, side)
  {
    hide Seen;
    assert (ps + [p])[..|ps|] == ps;
  }

  lemma MssSnoc(ps: seq<FlowPacket>, a: Address, p: FlowPacket)
    ensures var f := CheckForMss(BothReplayed(ps, a), p);
            f == BothReplayed(ps, a).(mssA := Announced(ps + [p], a, SideB), mssB := Announced(ps + [p], a, SideA))
  {
    Snoc(ps, a, p, SideA);
    Snoc(ps, a, p, SideB);
    UsableMssExact(p);
    hide Replayed;
    hide Announced;
    hide UsableMss;
    hide Payload;
  }

  /** The run of a side after one more captured packet. */
  function Moved(ps: seq<FlowPacket>, a: Address, p: FlowPacket, side: Side): Option<Endpoint> {
    var before := Replayed(ps, a, side);
    var opens := p.source != a && Opening(ps, a, SideB).None?;
    var start := if before.None? && Owns(p, a, side) then Some(NewEndpoint(p.segment)) else before;
    if start.None? then None
    else
      var e := if opens then WithMss(start.value, Announced(ps + [p], a, Peer(side))) else start.value;
      if Owns(p, a, side) then Some(AddPacket(e, p.segment))
      else if p.segment.ackFlag then Some(ProcessAck(e, p.ack))
      else Some(e)
  }

  lemma RunTwo(e: Endpoint, events: seq<Event>, v: Event, w: Event)
    ensures Run(e, events + [v] + [w]) == Step(Step(Run(e, events), v), w)
    ensures events + ([v] + [w]) == events + [v] + [w]
  {
    RunSnoc(e, events, v);
    RunSnoc(e, events + [v], w);
    hide Run;
    hide Step;
  }

  lemma SeenIs(ps: seq<FlowPacket>, a: Address, p: FlowPacket, side: Side)
    ensures var open := Opening(ps, a, SideB).Some?;
            var mss := Announce(Announced(ps + [p], a, Peer(side)));
            var own := Owns(p, a, side);
            var hears := p.segment.ackFlag && (open || side.SideA?);
            var seen := Seen(ps, a, p, side);
            && (p.source != a && !open && own ==> seen == [mss] + [Send(p.segment)])
            && (p.source != a && !open && !own && hears ==> seen == [mss] + [Receive(p.ack)])
            && (p.source != a && !open && !own && !hears ==> seen == [mss])
            && (!(p.source != a && !open) && own ==> seen == [Send(p.segment)])
            && (!(p.source != a && !open) && !own && hears ==> seen == [Receive(p.ack)])
            && (!(p.source != a && !open) && !own && !hears ==> seen == [])
  {
    hide Opening;
    hide Announced;
  }

  lemma RunSeen(e: Endpoint, ps: seq<FlowPacket>, a: Address, p: FlowPacket, side: Side, events: seq<Event>)
    requires side.SideB? && p.source == a ==> Opening(ps, a, SideB).Some?
    ensures var mss := Announced(ps + [p], a, Peer(side));
            var e1 := Run(e, events);
            var e2 := if p.source != a && Opening(ps, a, SideB).None? then WithMss(e1, mss) else e1;
            Run(e, events + Seen(ps, a, p, side))
            == if Owns(p, a, side) then AddPacket(e2, p.segment)
               else if p.segment.ackFlag then ProcessAck(e2, p.ack)
               else e2
  {
    hide Run;
    hide Step;
    hide Opening;
    hide Announced;
    hide Seen;
    hide WithMss;
    hide AddPacket;
    hide ProcessAck;
    SeenIs(ps, a, p, side);
    StepCases();
    var mss := Announce(Announced(ps + [p], a, Peer(side)));
    RunTwo(e, events, mss, Send(p.segment));
    RunTwo(e, events, mss, Receive(p.ack));
    RunSnoc(e, events, mss);
    RunSnoc(e, events, Send(p.segment));
    RunSnoc(e, events, Receive(p.ack));
    assert events + [] == events;
  }

  lemma StepCases()
    ensures forall f, g :: Step(f, Send(g)) == AddPacket(f, g)
    ensures forall f, ack :: Step(f, Receive(ack)) == ProcessAck(f, ack)
    ensures forall f, mss :: Step(f, Announce(mss)) == WithMss(f, mss)
  {
    hide AddPacket;
    hide ProcessAck;
    hide WithMss;
  }

  lemma EmptyRun(e: Endpoint)
    ensures Run(e, []) == e
  {
    hide Step;
  }

  lemma {:induction false} SilentSide(ps: seq<FlowPacket>, a: Address, side: Side)
    requires Opening(ps, a, side).None? && (ps == [] || ps[0].source == a)
    ensures EventsOf(ps, a, side) == []
  {
    if side.SideB? {
      SilentBeforeOpening(ps, a);
    } else if ps != [] {
      FirstOpens(ps);
    }
  }

  lemma ReplayedMoves(ps: seq<FlowPacket>, a: Address, p: FlowPacket, side: Side)
    requires (ps + [p])[0].source == a
    ensures Replayed(ps + [p], a, side) == Moved(ps, a, p, side)
  {
    Snoc(ps, a, p, side);
    var g := Opening(ps + [p], a, side);
    hide Run;
    hide AddPacket;
    hide ProcessAck;
    hide WithMss;
    hide NewEndpoint;
    hide Opening;
    hide Announced;
    hide Seen;
    hide EventsOf;
    if g.Some? {
      if Opening(ps, a, side).None? {
        SilentSide(ps, a, side);
        EmptyRun(NewEndpoint(g.value));
      }
      if ps == [] {
        assert Owns(p, a, SideA);
      }
      RunSeen(NewEndpoint(g.value), ps, a, p, side, EventsOf(ps, a, side));
    }
  }

  lemma DeliverMoves(ps: seq<FlowPacket>, a: Address, p: FlowPacket)
    requires (ps + [p])[0].source == a
    ensures var f := Deliver(BothReplayed(ps, a), p);
            && f.a == Moved(ps, a, p, SideA) && f.b == Moved(ps, a, p, SideB) && f.addressA == a
            && f.mssA == Announced(ps + [p], a, SideB) && f.mssB == Announced(ps + [p], a, SideA)
  {
    MssSnoc(ps, a, p);
    if ps != [] {
      FirstOpens(ps);
    }
    hide Run;
    hide AddPacket;
    hide ProcessAck;
    hide WithMss;
    hide NewEndpoint;
    hide Opening;
    hide Announced;
    hide EventsOf;
    hide UsableMss;
  }

  lemma DeliverFirst(p: FlowPacket)
    ensures Deliver(EMPTY, p) == Deliver(BothReplayed([], p.source), p)
  {
    hide NewEndpoint;
    hide AddPacket;
    hide ProcessAck;
  }

  /** A capture moves each endpoint exactly as that side's own run does. */
  lemma {:induction false} CaptureIsTwoRuns(ps: seq<FlowPacket>)
    requires ps != []
    ensures DeliverAll(EMPTY, ps) == BothReplayed(ps, ps[0].source)
  {
    var n, a := |ps| - 1, ps[0].source;
    assert ps[..n] + [ps[n]] == ps;
    if n > 0 {
      CaptureIsTwoRuns(ps[..n]);
    } else {
      DeliverFirst(ps[0]);
    }
    hide Deliver;
    hide Replayed;
    hide Announced;
    hide Moved;
    DeliverMoves(ps[..n], a, ps[n]);
    ReplayedMoves(ps[..n], a, ps[n], SideA);
    ReplayedMoves(ps[..n], a, ps[n], SideB);
  }

  // ----- what holds of every capture

  /** No side opens with the sequence number that marks "not set". */
  predicate OpensNonZero(ps: seq<FlowPacket>, a: Address, side: Side) {
    Opening(ps, a, side).Some? ==> Opening(ps, a, side).value.seqNo != 0
  }

  /** Every state of every capture satisfies the invariant of both endpoints. */
  lemma CaptureInvariant(ps: seq<FlowPacket>)
    requires ps != [] ==> OpensNonZero(ps, ps[0].source, SideA) && OpensNonZero(ps, ps[0].source, SideB)
    ensures FlowInvariant(DeliverAll(EMPTY, ps))
  {
    if ps != [] {
      var a := ps[0].source;
      CaptureIsTwoRuns(ps);
      FirstOpens(ps);
      ReplayedInvariant(ps, a, SideA);
      ReplayedInvariant(ps, a, SideB);
      hide DeliverAll;
      hide Invariant;
    }
  }

  lemma ReplayedInvariant(ps: seq<FlowPacket>, a: Address, side: Side)
    requires OpensNonZero(ps, a, side)
    ensures Replayed(ps, a, side).Some? ==> Invariant(Replayed(ps, a, side).value)
    ensures Replayed(ps, a, side).Some? <==> Opening(ps, a, side).Some?
  {
    hide Invariant;
    hide Run;
    hide Opening;
    hide EventsOf;
    if Opening(ps, a, side).Some? {
      var g := Opening(ps, a, side).value;
      NewEndpointInvariant(g);
      RunInvariant(NewEndpoint(g), EventsOf(ps, a, side));
    }
  }

  /** What one side of the capture saw is what really happened to a sender that started at `init`. */
  ghost predicate Witnessed(ps: seq<FlowPacket>, side: Side, init: int, actions: seq<Ref.Action>) {
    && ps != []
    && (var g := Opening(ps, ps[0].source, side);
        && g.Some? && g.value.seqNo == Wrap(init) && g.value.seqNo != 0
        && Faithful(NewEndpoint(g.value), NewSender(init), EventsOf(ps, ps[0].source, side), actions))
  }

  /** The main result: for either endpoint of every capture whose numbers fit the window, with or without announced
      segment sizes and across any number of wraparounds, the reconstruction refines the sender and knows what it
      knows. */
  lemma CaptureExact(ps: seq<FlowPacket>, side: Side, init: int, actions: seq<Ref.Action>)
    requires Witnessed(ps, side, init, actions)
    ensures var e, r := EndpointOf(DeliverAll(EMPTY, ps), side), Ref.History(NewSender(init), actions);
            e.Some? && Refines(e.value, r) && Knows(e.value, r) && r.init == init
  {
    hide *;
    var g := OpeningOf(ps, side, init, actions);
    var events := EventsOf(ps, ps[0].source, side);
    CaptureIsTwoRuns(ps);
    SideReplayed(ps, side, g);
    NewEndpointRefines(g, init);
    RunRefines(NewEndpoint(g), NewSender(init), events, actions);
    ReconstructionExact(g, init, events, actions);
  }

  lemma OpeningOf(ps: seq<FlowPacket>, side: Side, init: int, actions: seq<Ref.Action>) returns (g: Segment)
    requires Witnessed(ps, side, init, actions)
    ensures ps != [] && Opening(ps, ps[0].source, side) == Some(g) && g.seqNo == Wrap(init) && g.seqNo != 0
    ensures Faithful(NewEndpoint(g), NewSender(init), EventsOf(ps, ps[0].source, side), actions)
  {
    hide Faithful;
    g := Opening(ps, ps[0].source, side).value;
  }

  lemma SideReplayed(ps: seq<FlowPacket>, side: Side, g: Segment)
    requires ps != [] && Opening(ps, ps[0].source, side) == Some(g)
    ensures EndpointOf(BothReplayed(ps, ps[0].source), side)
         == Some(Run(NewEndpoint(g), EventsOf(ps, ps[0].source, side)))
  {
    hide Run;
    hide Opening;
    hide EventsOf;
  }

  /** On every such capture without gaps, each missing byte after the initial sequence number is carried by a packet
      that the endpoint still lists as unacknowledged. */
  lemma CaptureForgetsNothing(ps: seq<FlowPacket>, side: Side, init: int, actions: seq<Ref.Action>, p: int)
    requires Witnessed(ps, side, init, actions) && Ref.Unbroken(NewSender(init), actions)
    requires p in Ref.Missing(Ref.History(NewSender(init), actions)) && p > init
    ensures var e, r := EndpointOf(DeliverAll(EMPTY, ps), side), Ref.History(NewSender(init), actions);
            e.Some? && ListsCarrier(e.value, r, p)
  {
    hide *;
    var g := OpeningOf(ps, side, init, actions);
    CaptureIsTwoRuns(ps);
    SideReplayed(ps, side, g);
    MissingIsOutstanding(g, init, EventsOf(ps, ps[0].source, side), actions, p);
  }
}
