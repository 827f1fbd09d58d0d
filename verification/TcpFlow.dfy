/** A flow routes every captured packet to its sender and, when it carries an ACK, to the other endpoint. */
module TcpFlow {
  import opened SeqSpace
  import opened EndpointModel
  import opened EndpointInvariants
  import TcpEndpoint

  datatype Address = Address(host: u32, port: u32)

  /** A packet of the capture: as a segment of its sender and as an ACK for the peer, with its MSS option. */
  datatype FlowPacket = FlowPacket(source: Address, segment: Segment, ack: Ack, mssOption: u32, timestampOk: bool)

  datatype FlowState = FlowState(a: Option<Endpoint>, b: Option<Endpoint>, addressA: Address, mssA: u32, mssB: u32)

  function UsableMss(p: FlowPacket): u32 {
    if p.timestampOk then Wrap(p.mssOption - 12) else p.mssOption
  }

  /** The MSS announced by one side limits the other. */
  function CheckForMss(f: FlowState, p: FlowPacket): FlowState {
    if !p.segment.syn || p.mssOption == 0 then f
    else if p.source == f.addressA then f.(mssB := UsableMss(p))
    else f.(mssA := UsableMss(p))
  }

  function OpenA(f: FlowState, p: FlowPacket): FlowState {
    if f.a.None? then f.(a := Some(NewEndpoint(p.segment)), addressA := p.source) else f
  }

  function OpenB(f: FlowState, p: FlowPacket): FlowState
    requires f.a.Some?
  {
    if f.b.Some? then f
    else f.(b := Some(WithMss(NewEndpoint(p.segment), f.mssB)), a := Some(WithMss(f.a.value, f.mssA)))
  }

  function Delivered(e: Option<Endpoint>, p: FlowPacket): Option<Endpoint> {
    if p.segment.ackFlag && e.Some? then Some(ProcessAck(e.value, p.ack)) else e
  }

  function FromA(f: FlowState, p: FlowPacket): FlowState
    requires f.a.Some?
  {
    f.(a := Some(AddPacket(f.a.value, p.segment)), b := Delivered(f.b, p))
  }

  function FromB(f: FlowState, p: FlowPacket): FlowState
    requires f.b.Some?
  {
    f.(b := Some(AddPacket(f.b.value, p.segment)), a := Delivered(f.a, p))
  }

  /** One captured packet. */
  function Deliver(f: FlowState, p: FlowPacket): FlowState {
    var f1 := CheckForMss(OpenA(f, p), p);
    if p.source == f1.addressA then FromA(f1, p) else FromB(OpenB(f1, p), p)
  }

  const EMPTY := FlowState(None, None, Address(0, 0), 0, 0)

  function DeliverAll(f: FlowState, ps: seq<FlowPacket>): FlowState {
    if ps == [] then f else Deliver(DeliverAll(f, ps[..|ps| - 1]), ps[|ps| - 1])
  }

  // ----- every state of every capture

  predicate FlowInvariant(f: FlowState) {
    && (f.a.Some? ==> Invariant(f.a.value))
    && (f.b.Some? ==> Invariant(f.b.value) && f.a.Some?)
  }

  lemma DeliveredInvariant(e: Option<Endpoint>, p: FlowPacket)
    requires e.Some? ==> Invariant(e.value)
    ensures Delivered(e, p).Some? <==> e.Some?
    ensures e.Some? ==> Invariant(Delivered(e, p).value)
  {
    if e.Some? {
      StepInvariant(e.value, Receive(p.ack));
    }
    hide Invariant;
    hide ProcessAck;
  }

  lemma RouteInvariant(f: FlowState, p: FlowPacket)
    requires FlowInvariant(f)
    ensures f.a.Some? ==> FlowInvariant(FromA(f, p))
    ensures f.b.Some? ==> FlowInvariant(FromB(f, p))
  {
    DeliveredInvariant(f.a, p);
    DeliveredInvariant(f.b, p);
    if f.a.Some? {
      StepInvariant(f.a.value, Send(p.segment));
    }
    if f.b.Some? {
      StepInvariant(f.b.value, Send(p.segment));
    }
    hide Invariant;
    hide AddPacket;
    hide Delivered;
  }

  /** The packet opens an endpoint. */
  predicate Opens(f: FlowState, p: FlowPacket) {
    f.a.None? || (p.source != f.addressA && f.b.None?)
  }

  lemma OpenAInvariant(f: FlowState, p: FlowPacket)
    requires FlowInvariant(f) && (f.a.None? ==> p.segment.seqNo != 0)
    ensures FlowInvariant(OpenA(f, p)) && OpenA(f, p).a.Some?
  {
    hide Invariant;
    hide NewEndpoint;
    if f.a.None? {
      NewEndpointInvariant(p.segment);
    }
  }

  lemma OpenBInvariant(f: FlowState, p: FlowPacket)
    requires FlowInvariant(f) && f.a.Some? && (f.b.None? ==> p.segment.seqNo != 0)
    ensures FlowInvariant(OpenB(f, p)) && OpenB(f, p).b.Some?
  {
    hide Invariant;
    hide Forward;
    hide NewEndpoint;
    hide WithMss;
    if f.b.None? {
      NewEndpointInvariant(p.segment);
      WithMssInvariant(NewEndpoint(p.segment), f.mssB);
      WithMssInvariant(f.a.value, f.mssA);
    }
  }

  /** One captured packet keeps the invariant of both endpoints, as long as no endpoint opens with the sequence number
      that marks "not set". */
  lemma DeliverInvariant(f: FlowState, p: FlowPacket)
    requires FlowInvariant(f) && (Opens(f, p) ==> p.segment.seqNo != 0)
    ensures FlowInvariant(Deliver(f, p))
  {
    OpenAInvariant(f, p);
    var f1 := CheckForMss(OpenA(f, p), p);
    assert f1.a == OpenA(f, p).a && f1.b == OpenA(f, p).b;
    assert FlowInvariant(f1) by { hide Invariant; }
    hide FlowInvariant;
    hide FromA;
    hide FromB;
    if p.source == f1.addressA {
      RouteInvariant(f1, p);
    } else {
      OpenBInvariant(f1, p);
      RouteInvariant(OpenB(f1, p), p);
    }
  }

  // ----- the class

  class Flow {
    var endpointA: TcpEndpoint.Connection?
    var endpointB: TcpEndpoint.Connection?
    var addressA: Address
    var mssA: u32
    var mssB: u32

    ghost function Repr(): set<object>
      reads this
    {
      (if endpointA == null then {} else {endpointA, endpointA.sacks, endpointA.timer})
      + (if endpointB == null then {} else {endpointB, endpointB.sacks, endpointB.timer})
    }

    /** The endpoints share nothing. */
    ghost predicate Valid()
      reads this
    {
      && (endpointB != null ==> endpointA != null)
      && (endpointB != null ==>
            endpointA != endpointB && endpointA.sacks != endpointB.sacks && endpointA.timer != endpointB.timer)
    }

    ghost function State(): FlowState
      reads this, Repr()
    {
      FlowState(if endpointA == null then None else Some(endpointA.State()),
                if endpointB == null then None else Some(endpointB.State()), addressA, mssA, mssB)
    }

    constructor ()
      ensures Valid() && State() == EMPTY
    {
      endpointA, endpointB, addressA, mssA, mssB := null, null, Address(0, 0), 0, 0;
    }

    method AddPacket(p: FlowPacket) returns (ok: bool)
      requires Valid()
      modifies this, Repr()
      ensures Valid() && fresh(Repr() - old(Repr()))
      ensures State() == Deliver(old(State()), p)
    {
      hide OpenA;
      hide OpenB;
      hide FromA;
      hide FromB;
      hide UsableMss;
      hide TcpEndpoint.Connection.State;
      OpenFirst(p);
      ReadMss(p);
      if p.source == addressA {
        ok := RouteFromA(p);
      } else {
        OpenSecond(p);
        ok := RouteFromB(p);
      }
    }

    method RouteFromA(p: FlowPacket) returns (ok: bool)
      requires Valid() && endpointA != null
      modifies Repr()
      ensures Valid() && Repr() == old(Repr())
      ensures State() == FromA(old(State()), p)
    {
      hide EndpointModel.AddPacket;
      hide ProcessAck;
      ok := Route(endpointA, endpointB, p);
    }

    method RouteFromB(p: FlowPacket) returns (ok: bool)
      requires Valid() && endpointB != null
      modifies Repr()
      ensures Valid() && Repr() == old(Repr())
      ensures State() == FromB(old(State()), p)
    {
      hide EndpointModel.AddPacket;
      hide ProcessAck;
      ok := Route(endpointB, endpointA, p);
    }

    method OpenFirst(p: FlowPacket)
      requires Valid()
      modifies this`endpointA, this`addressA
      ensures Valid() && fresh(Repr() - old(Repr())) && endpointA != null
      ensures State() == OpenA(old(State()), p)
    {
      if endpointA == null {
        endpointA := new TcpEndpoint.Connection(p.segment);
        addressA := p.source;
      }
    }

    method ReadMss(p: FlowPacket)
      requires Valid()
      modifies this`mssA, this`mssB
      ensures State() == CheckForMss(old(State()), p)
    {
      if !p.segment.syn || p.mssOption == 0 {
        return;
      }
      if p.source == addressA {
        mssB := UsableMss(p);
      } else {
        mssA := UsableMss(p);
      }
    }

    method OpenSecond(p: FlowPacket)
      requires Valid() && endpointA != null
      modifies this`endpointB, endpointA`mss
      ensures Valid() && fresh(Repr() - old(Repr())) && endpointB != null
      ensures State() == OpenB(old(State()), p)
    {
      hide NewEndpoint;
      if endpointB == null {
        endpointB := new TcpEndpoint.Connection(p.segment);
        if mssA != 0 {
          endpointA.mss := mssA;
        }
        if mssB != 0 {
          endpointB.mss := mssB;
        }
      }
    }

    /** Handing the packet to its sender and its ACK to the receiver, if there is one. */
    static method Route(sender: TcpEndpoint.Connection, receiver: TcpEndpoint.Connection?, p: FlowPacket)
      returns (ok: bool)
      requires receiver != null ==>
                 sender != receiver && sender.sacks != receiver.sacks && sender.timer != receiver.timer
      modifies sender, sender.sacks, sender.timer
      modifies if receiver == null then {} else {receiver, receiver.sacks, receiver.timer}
      ensures sender.State() == EndpointModel.AddPacket(old(sender.State()), p.segment)
      ensures receiver != null ==>
                Some(receiver.State()) == Delivered(Some(old(receiver.State())), p)
      ensures ok == !sender.State().bogus
    {
      hide EndpointModel.AddPacket;
      hide ProcessAck;
      var wire := sender.AddPacket(p.segment);
      if p.segment.ackFlag && receiver != null {
        receiver.ProcessAck(p.ack);
      }
      ok := !sender.isBogus;
    }
  }
}
