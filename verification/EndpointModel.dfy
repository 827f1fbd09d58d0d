/** The reconstructed sender: what one captured packet or one incoming ACK does to the state of an endpoint.
    Packets are values in the list of their sender; links between them are positions in that list. */
module EndpointModel {
  import opened Arithmetic
  import opened SeqSpace
  import opened TcpSacks
  import opened TcpTimer

  datatype Option<+T> = None | Some(value: T)

  // ----- what the capture delivers

  datatype Segment = Segment(seqNo: u32, len: u32, syn: bool, ackFlag: bool, ack: u32, ts: nat)

  /** A packet of the peer, seen as an acknowledgment. `sacks` is the parsed list of its SACK option, `numSacks`
      the declared number of blocks, `unknownOptions` the size of the options that were not captured. */
  datatype Ack = Ack(id: nat, ts: nat, number: u32, sacks: seq<Sack>, numSacks: nat, unknownOptions: nat, isTlp: bool)

  function SeqEnd(g: Segment): u32 {
    Wrap(g.seqNo + g.len)
  }

  predicate RequiresAck(g: Segment) {
    g.len != 0 || g.syn
  }

  // ----- per-packet annotations

  /** The packet that armed a timer. */
  datatype Armer = Nobody | Own(pos: nat, ts: nat) | Peer(ack: Ack)

  datatype TimerInfo = TimerInfo(armer: Armer, delay: nat, backoffs: nat, delayedAck: bool)

  const CLEARED := TimerInfo(Nobody, 0, 0, false)

  datatype Links = Links(previous: Option<nat>, rtx: Option<nat>, first: nat)

  datatype Acked = Acked(packet: Option<Ack>, delay: u32)

  datatype Tally = Tally(rtxDelay: u32, finalDelay: u32, attempts: nat)

  datatype Flags = Flags(isRtx: bool, isFast: bool, isRto: bool, isSlowStart: bool, isTlp: bool, isSpurious: bool,
                         outOfOrder: bool)

  datatype Snapshot = Snapshot(ackedBytes: nat, unackedBytes: u32, lastAck: Option<Ack>, rto: u32, tlp: u32,
                               tlpDelayed: u32)

  datatype Packet = Packet(segment: Segment, links: Links, acked: Acked, tally: Tally, flags: Flags,
                           snapshot: Snapshot, trigger: Option<nat>, rtoInfo: TimerInfo, tlpInfo: TimerInfo)

  function NewPacket(g: Segment, pos: nat, ackedBytes: nat): Packet {
    Packet(g, Links(None, None, pos), Acked(None, 0), Tally(0, 0, 0),
           Flags(false, false, false, false, false, false, false),
           Snapshot(ackedBytes, 0, None, 0, 0, 0), None, CLEARED, CLEARED)
  }

  // ----- the endpoint

  datatype Sequences = Sequences(init: u32, acked: u32, next: u32, rtoHigh: u32, ackedBytes: nat, ackInit: u32,
                                 ready: bool)

  datatype Timers = Timers(rto: TimerInfo, tlp: TimerInfo, rtos: nat, tlpEnabled: bool)

  /** `triggers` holds the trigger packet set on each ACK. */
  datatype Acks = Acks(last: Option<Ack>, lastWithTrigger: Option<Ack>, lookalikes: seq<Ack>, triggers: map<nat, nat>,
                       minRtt: u32)

  datatype Endpoint = Endpoint(packets: seq<Packet>, current: Packet, unacked: seq<nat>, seqs: Sequences,
                               board: Board, estimate: Estimate, samples: seq<RttSample>, timers: Timers, acks: Acks,
                               mss: u32, unmatched: nat, bogus: bool)

  /** The list with the packet being processed, which is appended last. */
  function All(e: Endpoint): seq<Packet> {
    e.packets + [e.current]
  }

  predicate SpuriousAt(ps: seq<Packet>, i: nat) {
    i < |ps| && ps[i].flags.isSpurious
  }

  predicate IsLost(ps: seq<Packet>, p: Packet) {
    p.links.rtx.Some? && !SpuriousAt(ps, p.links.rtx.value)
  }

  function UnackedBytes(e: Endpoint): u32 {
    if e.board.numBytes > Sub(e.seqs.next, e.seqs.acked) then 0
    else Sub(Sub(e.seqs.next, e.seqs.acked), e.board.numBytes)
  }

  function SetInitial(q: Sequences, g: Segment): Sequences {
    var q1 := if q.init == 0 then q.(init := g.seqNo, acked := g.seqNo, next := Wrap(g.seqNo + 1)) else q;
    var q2 := if q1.ackInit == 0 && g.ackFlag then q1.(ackInit := Wrap(g.ack - 1)) else q1;
    if q2.init != 0 && q2.ackInit != 0 then q2.(ready := true) else q2
  }

  const NO_SEQUENCES := Sequences(0, 0, 0, 0, 0, 0, false)

  function NewEndpoint(g: Segment): Endpoint {
    Endpoint([], NewPacket(g, 0, 0), [], SetInitial(NO_SEQUENCES, g), Board([], 0), NO_ESTIMATE, [],
             Timers(CLEARED, CLEARED, 0, true), Acks(None, None, [], map[], 0), 0, 0, false)
  }

  // ----- timers

  function InFlight(ps: seq<Packet>, positions: seq<nat>): nat {
    if positions == [] then 0
    else
      var n := |positions| - 1;
      InFlight(ps, positions[..n]) + if positions[n] < |ps| && !IsLost(ps, ps[positions[n]]) then 1 else 0
  }

  function ArmTimers(e: Endpoint, armer: Armer): Endpoint {
    var delayedAck := InFlight(All(e), e.unacked) == 1;
    e.(timers := e.timers.(
       rto := TimerInfo(armer, Rto(e.estimate, e.timers.rtos), e.timers.rtos, e.timers.rto.delayedAck),
       tlp := TimerInfo(armer, Tlp(e.estimate, delayedAck), e.timers.tlp.backoffs, delayedAck)))
  }

  function ArmerTs(a: Armer): nat {
    match a
    case Nobody => 0
    case Own(_, ts) => ts
    case Peer(ack) => ack.ts
  }

  function FireUs(t: TimerInfo): nat {
    if t.armer.Nobody? then 0 else ArmerTs(t.armer) + t.delay
  }

  function Elapsed(ts: nat, since: nat): nat {
    (ts - since) % 0x1_0000_0000_0000_0000
  }

  function Distance(a: nat, b: nat): nat {
    if a < b then b - a else a - b
  }

  /** More than a fifth of the timeout away from the expected expiry. */
  predicate OffSchedule(t: TimerInfo, ts: nat) {
    5 * Distance(FireUs(t), ts) > t.delay
  }

  predicate ArmerIsTlp(e: Endpoint, a: Armer) {
    match a
    case Nobody => false
    case Own(pos, _) => pos < |e.packets| && e.packets[pos].flags.isTlp
    case Peer(ack) => ack.isTlp
  }

  function WithFlags(ps: seq<Packet>, a: Armer, f: Flags -> Flags): seq<Packet> {
    if a.Own? && a.pos < |ps| then ps[a.pos := ps[a.pos].(flags := f(ps[a.pos].flags))] else ps
  }

  function CheckForTLP(e: Endpoint): (r: (Endpoint, bool)) {
    var t := e.timers.tlp;
    if t.armer.Nobody? || !e.timers.tlpEnabled then (e, false)
    else if SeqEnd(e.current.segment) != e.seqs.next then (e, false)
    else if OffSchedule(t, e.current.segment.ts) then (e, false)
    else
      var t1 := t.(delay := Elapsed(e.current.segment.ts, ArmerTs(t.armer)));
      (e.(timers := e.timers.(tlp := t1),
          current := e.current.(flags := e.current.flags.(isTlp := true), tlpInfo := t1)), true)
  }

  function NextRtos(n: nat): nat {
    (n + 1) % 256
  }

  /** The packet is a timeout retransmission; a first one that is no probe means that probes are off. */
  function StampRto(e: Endpoint): Endpoint {
    var t := e.timers.rto.(delay := Elapsed(e.current.segment.ts, ArmerTs(e.timers.rto.armer)));
    var rtos := NextRtos(e.timers.rtos);
    e.(current := e.current.(flags := e.current.flags.(isRto := true), rtoInfo := t),
       timers := e.timers.(rto := t, rtos := rtos,
                           tlpEnabled := e.timers.tlpEnabled && !(rtos == 1 && !e.current.flags.isTlp)),
       seqs := e.seqs.(rtoHigh := e.seqs.next))
  }

  /** A second timeout whose armer was taken for a probe shows that it was none. */
  function TakeRto(e: Endpoint): Endpoint {
    var s := StampRto(e);
    if s.timers.rtos == 2 && ArmerIsTlp(s, s.timers.rto.armer) then
      s.(timers := s.timers.(tlpEnabled := false),
         packets := WithFlags(s.packets, s.timers.rto.armer, (f: Flags) => f.(isTlp := false)))
    else s
  }

  /** Undo an expiry that turned out to have been a tail loss probe. */
  function RevokeRto(e: Endpoint): Endpoint
    requires e.timers.rtos > 0
  {
    var armer := e.timers.rto.armer;
    ArmTimers(e.(timers := e.timers.(rtos := e.timers.rtos - 1),
                 seqs := e.seqs.(rtoHigh := 0),
                 packets := WithFlags(e.packets, armer, (f: Flags) => f.(isRto := false))), armer)
  }

  function CheckForRTO(e: Endpoint): (r: (Endpoint, bool))
    decreases e.timers.rtos
  {
    if e.timers.rto.armer.Nobody? then (e, false)
    else if OffSchedule(e.timers.rto, e.current.segment.ts) then
      if e.timers.tlpEnabled && e.timers.rtos == 1 && ArmerIsTlp(e, e.timers.rto.armer) then
        CheckForRTO(RevokeRto(e))
      else (e, false)
    else (TakeRto(e), true)
  }

  const MAX_TRIGGER_DELAY_US: nat := 2_000

  function TriggerOf(acks: Acks): Option<nat> {
    if acks.lastWithTrigger.Some? && acks.lastWithTrigger.value.id in acks.triggers then
      Some(acks.triggers[acks.lastWithTrigger.value.id])
    else None
  }

  function FindRtxTrigger(e: Endpoint): Endpoint {
    if e.acks.last.Some? && Elapsed(e.current.segment.ts, e.acks.last.value.ts) <= MAX_TRIGGER_DELAY_US then
      var f := e.current.flags;
      e.(current := e.current.(
         trigger := if e.acks.lastWithTrigger.Some? then TriggerOf(e.acks) else e.current.trigger,
         flags := if e.seqs.rtoHigh != 0 then f.(isSlowStart := true) else f.(isFast := true)))
    else
      var (e1, isTlp) := CheckForTLP(e);
      var (e2, isRto) := CheckForRTO(e1);
      if isTlp || isRto then
        var e3 := ArmTimers(e2, Own(|e2.packets|, e2.current.segment.ts));
        e3.(timers := e3.timers.(tlp := CLEARED))
      else e2
  }

  // ----- acknowledging a packet

  function AckDelay(p: Packet, ack: Ack): u32 {
    Wrap(ack.ts - p.segment.ts)
  }

  function HandleAcked(e: Endpoint, pos: nat, ack: Ack): Endpoint {
    if pos >= |e.packets| then e
    else
      var p := e.packets[pos];
      var delay := AckDelay(p, ack);
      var sample := RttSample(pos, Signed(delay), e.seqs.acked, e.seqs.next);
      var timed := p.links.previous.None? && p.links.rtx.None?;
      e.(packets := e.packets[pos := p.(acked := Acked(Some(ack), delay))],
         acks := e.acks.(
           minRtt := if p.links.previous.None? && (delay < e.acks.minRtt || e.acks.minRtt == 0) then delay
                     else e.acks.minRtt,
           triggers := e.acks.triggers[ack.id := pos]),
         estimate := if timed then Sampled(e.estimate, sample) else e.estimate,
         samples := if timed then e.samples + [sample] else e.samples)
  }

  predicate IsSacked(g: Segment, sacks: seq<Sack>) {
    exists i :: 0 <= i < |sacks| && RangeIncluded(g.seqNo, SeqEnd(g), sacks[i].start, sacks[i].end)
  }

  predicate IsAcked(g: Segment, acked: u32, sacks: seq<Sack>) {
    !After(SeqEnd(g), acked) || IsSacked(g, sacks)
  }

  predicate AckedAt(e: Endpoint, pos: nat, sacks: seq<Sack>) {
    pos < |e.packets| && IsAcked(e.packets[pos].segment, e.seqs.acked, sacks)
  }

  /** The outstanding positions that the ACK leaves outstanding, in order. */
  function Kept(e: Endpoint, positions: seq<nat>, sacks: seq<Sack>): seq<nat> {
    if positions == [] then []
    else
      var n := |positions| - 1;
      Kept(e, positions[..n], sacks) + if AckedAt(e, positions[n], sacks) then [] else [positions[n]]
  }

  /** Acknowledging, one after the other, the listed packets that the ACK covers. */
  function HandleAll(e: Endpoint, positions: seq<nat>, ack: Ack): Endpoint {
    if positions == [] then e
    else
      var n := |positions| - 1;
      var e1 := HandleAll(e, positions[..n], ack);
      if AckedAt(e, positions[n], ack.sacks) then HandleAcked(e1, positions[n], ack) else e1
  }

  function AckPackets(e: Endpoint, ack: Ack): Endpoint {
    var kept := Kept(e, e.unacked, ack.sacks);
    var e1 := HandleAll(e, e.unacked, ack).(unacked := kept);
    var e2 := if |kept| < |e.unacked| then
                var armed := ArmTimers(e1, Peer(ack));
                armed.(acks := armed.acks.(lastWithTrigger := Some(ack)))
              else e1;
    if kept == [] then e2.(timers := e2.timers.(rto := CLEARED, tlp := CLEARED)) else e2
  }

  // ----- SACK lookalikes

  function ShiftUnacked(ps: seq<Packet>, offset: u32): (r: seq<Packet>)
    ensures |r| == |ps|
    ensures forall i :: 0 <= i < |ps| ==>
              r[i] == ps[i].(snapshot := ps[i].snapshot.(unackedBytes := Wrap(ps[i].snapshot.unackedBytes + offset)))
  {
    seq(|ps|, i requires 0 <= i < |ps| =>
      ps[i].(snapshot := ps[i].snapshot.(unackedBytes := Wrap(ps[i].snapshot.unackedBytes + offset))))
  }

  /** A lookalike later than the last ACK with a trigger takes its place, and earlier counts are corrected. */
  function AfterTie(e: Endpoint, ack: Ack, len: u32): Endpoint {
    if e.acks.lastWithTrigger.None? || ack.ts > e.acks.lastWithTrigger.value.ts then
      var armed := ArmTimers(e.(acks := e.acks.(lastWithTrigger := Some(ack))), Peer(ack));
      armed.(packets := ShiftUnacked(armed.packets, len))
    else e
  }

  function TieTo(e: Endpoint, pos: nat, ack: Ack): Endpoint
    requires pos < |e.packets|
  {
    var g := e.packets[pos].segment;
    var e1 := HandleAcked(e, pos, ack);
    AfterTie(e1.(board := AddOne(e1.board, Sack(g.seqNo, SeqEnd(g)))), ack, g.len)
  }

  function TiePacketToSackLookalike(e: Endpoint, pos: nat): (r: (Endpoint, bool))
    ensures |r.0.packets| == |e.packets| && r.0.unacked == e.unacked
    decreases |e.acks.lookalikes|
  {
    if e.acks.lookalikes == [] || pos >= |e.packets| then (e, false)
    else
      var ack := e.acks.lookalikes[0];
      var e1 := e.(acks := e.acks.(lookalikes := e.acks.lookalikes[1..]));
      if e.packets[pos].segment.ts + e.acks.minRtt < ack.ts then (TieTo(e1, pos, ack), true)
      else TiePacketToSackLookalike(e1, pos)
  }

  function CheckLookalikesFrom(e: Endpoint, i: nat): Endpoint
    decreases |e.unacked| - i
  {
    if i >= |e.unacked| || e.acks.lookalikes == [] || e.unacked[i] >= |e.packets| then e
    else
      var p := e.packets[e.unacked[i]];
      if !After(e.current.segment.seqNo, p.segment.seqNo) then e
      else if !IsLost(All(e), p) && p.links.previous.None? then
        var (e1, tied) := TiePacketToSackLookalike(e, e.unacked[i]);
        if !tied then e1 else CheckLookalikesFrom(e1.(unacked := e1.unacked[..i] + e1.unacked[i + 1..]), i)
      else CheckLookalikesFrom(e, i + 1)
  }

  // ----- retransmissions

  predicate CoversStart(p: Segment, seqNo: u32) {
    seqNo == p.seqNo || Between(seqNo, p.seqNo, SeqEnd(p))
  }

  /** One past the most recent packet among the first n that covers the sequence number, or 0. */
  function PreviousTx(ps: seq<Packet>, seqNo: u32, n: nat): (r: nat)
    requires n <= |ps|
    ensures r <= n
    ensures r > 0 ==> CoversStart(ps[r - 1].segment, seqNo)
    ensures forall i :: r <= i < n ==> !CoversStart(ps[i].segment, seqNo)
  {
    if n == 0 || CoversStart(ps[n - 1].segment, seqNo) then n else PreviousTx(ps, seqNo, n - 1)
  }

  function Credited(p: Packet, ts: nat): Packet {
    var delay := Wrap(ts - p.segment.ts);
    var t := if p.tally.rtxDelay == 0 then p.tally.(rtxDelay := delay) else p.tally;
    p.(tally := if p.links.previous.None? then t.(finalDelay := delay, attempts := (t.attempts + 1) % 65536) else t)
  }

  /** Crediting a retransmission sent at `ts` to packet i and to its earlier transmissions. */
  function CreditChain(ps: seq<Packet>, i: nat, ts: nat): (r: seq<Packet>)
    requires i < |ps|
    ensures |r| == |ps|
    decreases i
  {
    var r := ps[i := Credited(ps[i], ts)];
    var before := ps[i].links.previous;
    if before.Some? && before.value < i then CreditChain(r, before.value, ts) else r
  }

  function LinkToPreviousTx(e: Endpoint): (r: (Endpoint, bool)) {
    var n := |e.packets|;
    var k := PreviousTx(e.packets, e.current.segment.seqNo, n);
    if k == 0 then (e, false)
    else
      var p := e.packets[k - 1];
      var linked := e.packets[k - 1 := p.(links := p.links.(rtx := Some(n)))];
      (e.(packets := CreditChain(linked, k - 1, e.current.segment.ts),
          current := e.current.(links := e.current.links.(previous := Some(k - 1), first := p.links.first))), true)
  }

  function MarkOutOfOrder(e: Endpoint): Endpoint {
    var from := if e.current.links.previous.Some? then e.current.links.previous.value + 1 else 0;
    e.(packets := MarkedFrom(e.packets, from))
  }

  function MarkedFrom(ps: seq<Packet>, from: nat): (r: seq<Packet>)
    ensures |r| == |ps|
    ensures forall i :: 0 <= i < |ps| ==>
              r[i] == if from <= i && ps[i].segment.len != 0 then ps[i].(flags := ps[i].flags.(outOfOrder := true))
                      else ps[i]
  {
    seq(|ps|, i requires 0 <= i < |ps| =>
      if from <= i && ps[i].segment.len != 0 then ps[i].(flags := ps[i].flags.(outOfOrder := true)) else ps[i])
  }

  function NoteUnmatched(e: Endpoint): Endpoint {
    e.(unmatched := e.unmatched + 1, bogus := e.bogus || e.unmatched + 1 > 100)
  }

  function ProcessRtx(e: Endpoint): Endpoint {
    var e1 := CheckLookalikesFrom(e, 0);
    var e2 := FindRtxTrigger(e1.(current := e1.current.(flags := e1.current.flags.(isRtx := true))));
    var (e3, linked) := LinkToPreviousTx(e2);
    MarkOutOfOrder(if linked then e3 else NoteUnmatched(e3))
  }

  // ----- sending

  function AdvanceNext(q: Sequences, end: u32): Sequences {
    var q1 := if After(end, q.next) then q.(next := end) else q;
    if q1.rtoHigh != 0 && After(q1.next, q1.rtoHigh) then q1.(rtoHigh := 0) else q1
  }

  /** The counts and estimates that a data packet records when it is sent. */
  function WithSnapshot(e: Endpoint): Endpoint {
    e.(current := e.current.(snapshot :=
       Snapshot(e.current.snapshot.ackedBytes, UnackedBytes(e), e.acks.last, Rto(e.estimate, 0),
                Tlp(e.estimate, false), Tlp(e.estimate, true))))
  }

  function SendData(e: Endpoint): Endpoint {
    var end := SeqEnd(e.current.segment);
    var moved := After(end, e.seqs.next);
    var e1 := e.(seqs := AdvanceNext(e.seqs, end));
    var e2 := if !moved || e1.seqs.rtoHigh != 0 then ProcessRtx(e1) else e1;
    WithSnapshot(e2)
  }

  function SendSyn(e: Endpoint): Endpoint {
    if e.unacked != [] then ProcessRtx(e) else e
  }

  function Outstanding(e: Endpoint): Endpoint {
    var e1 := e.(unacked := e.unacked + [|e.packets|]);
    if e1.timers.rto.armer.Nobody? then ArmTimers(e1, Own(|e1.packets|, e1.current.segment.ts)) else e1
  }

  function Begin(e: Endpoint, g: Segment): Endpoint {
    e.(current := NewPacket(g, |e.packets|, e.seqs.ackedBytes))
  }

  function Push(e: Endpoint): Endpoint {
    e.(packets := e.packets + [e.current])
  }

  /** One packet as it was on the wire. */
  function AddWirePacket(e: Endpoint, g: Segment): Endpoint {
    var e1 := Begin(e, g);
    Push(if !RequiresAck(g) then e1 else Outstanding(if g.len != 0 then SendData(e1) else SendSyn(e1)))
  }

  function AddWirePackets(e: Endpoint, gs: seq<Segment>): Endpoint {
    if gs == [] then e else AddWirePacket(AddWirePackets(e, gs[..|gs| - 1]), gs[|gs| - 1])
  }

  // ----- coalesced packets

  const MIN_MSS: u32 := 536
  const MAX_MSS: u32 := 1460

  /** The first divisor from `mult` to 10 that leaves packets of at most MAX_MSS bytes, or 0. */
  function Divisor(len: u32, mult: nat): (d: nat)
    requires 2 <= mult <= 11
    ensures d == 0 || (mult <= d <= 10 && len % d == 0 && len / d <= MAX_MSS)
    ensures forall m :: mult <= m <= 10 && (d == 0 || m < d) ==> !(len % m == 0 && len / m <= MAX_MSS)
    decreases 11 - mult
  {
    if mult == 11 then 0
    else if len % mult == 0 && len / mult <= MAX_MSS then mult
    else Divisor(len, mult + 1)
  }

  function DerivedMss(len: u32): u32 {
    if len < MIN_MSS then 0
    else if len <= MAX_MSS then len
    else if Divisor(len, 2) == 0 then 0
    else len / Divisor(len, 2)
  }

  /** The part of a segment from `offset` on, `len` bytes long. */
  function Cut(g: Segment, offset: u32, len: u32): Segment {
    g.(seqNo := Wrap(g.seqNo + offset), len := len)
  }

  function SplitFrom(g: Segment, mss: u32, offset: u32): seq<Segment>
    requires 0 < mss && offset <= g.len
    decreases g.len - offset
  {
    if offset == g.len then []
    else
      var len := Min(mss, g.len - offset);
      [Cut(g, offset, len)] + SplitFrom(g, mss, offset + len)
  }

  function WireSegments(g: Segment, mss: u32): seq<Segment> {
    if mss == 0 || g.len <= mss then [g] else SplitFrom(g, mss, 0)
  }

  function Prepared(e: Endpoint, g: Segment): Endpoint {
    var e1 := if e.seqs.ready then e else e.(seqs := SetInitial(e.seqs, g));
    if e1.mss == 0 then e1.(mss := DerivedMss(g.len)) else e1
  }

  function AddPacket(e: Endpoint, g: Segment): Endpoint {
    var e1 := Prepared(e, g);
    AddWirePackets(e1, WireSegments(g, e1.mss))
  }

  // ----- receiving an ACK

  predicate IsSpuriousCandidate(p: Packet, s: Sack) {
    p.flags.isRtx && !p.flags.isSpurious && RangeIncluded(s.start, s.end, p.segment.seqNo, SeqEnd(p.segment))
  }

  /** Marks the most recent candidate among the first n packets. */
  function MarkSpurious(ps: seq<Packet>, s: Sack, n: nat): (r: seq<Packet>)
    requires n <= |ps|
    ensures |r| == |ps|
  {
    if n == 0 then ps
    else if IsSpuriousCandidate(ps[n - 1], s) then
      ps[n - 1 := ps[n - 1].(flags := ps[n - 1].flags.(isSpurious := true))]
    else MarkSpurious(ps, s, n - 1)
  }

  predicate IsDSack(s: Sack, number: u32) {
    Before(s.start, number) && !After(s.end, number)
  }

  function DSackPackets(ps: seq<Packet>, sacks: seq<Sack>, number: u32): (r: seq<Packet>)
    ensures |r| == |ps|
  {
    if sacks == [] then ps
    else
      var n := |sacks| - 1;
      var r := DSackPackets(ps, sacks[..n], number);
      if IsDSack(sacks[n], number) then MarkSpurious(r, sacks[n], |r|) else r
  }

  predicate Moves(q: Sequences, ack: Ack) {
    After(ack.number, q.acked)
  }

  predicate HasSacks(ack: Ack) {
    ack.numSacks != 0
  }

  function AdvanceAcked(q: Sequences, number: u32): Sequences {
    var q1 := q.(ackedBytes := q.ackedBytes + Sub(number, q.acked), acked := number);
    if q1.rtoHigh != 0 && !Before(q1.acked, q1.rtoHigh) then q1.(rtoHigh := 0) else q1
  }

  /** The cumulative part of an ACK. */
  function Advance(e: Endpoint, ack: Ack): Endpoint {
    var e1 := e.(acks := e.acks.(last := Some(ack)));
    if Moves(e.seqs, ack) then
      e1.(seqs := AdvanceAcked(e.seqs, ack.number), bogus := e.bogus || After(ack.number, e.seqs.next))
    else if ack.number == e.seqs.acked && ack.unknownOptions >= 10 then
      e1.(acks := e1.acks.(lookalikes := e1.acks.lookalikes + [ack]))
    else e1
  }

  function ProcessAck(e: Endpoint, ack: Ack): Endpoint {
    var e1 := Advance(e, ack);
    var e2 := if Moves(e.seqs, ack) || HasSacks(ack) then
                var acked := AckPackets(e1, ack);
                acked.(board := Recounted(Trimmed(AddAll(acked.board, ack.sacks).list, acked.seqs.acked)),
                       timers := acked.timers.(rtos := 0))
              else e1;
    if HasSacks(ack) then e2.(packets := DSackPackets(e2.packets, ack.sacks, ack.number)) else e2
  }

  // ----- samples for the delay fit

  /** A packet whose delay measures the path: not lost, not overtaken, and with a delay. */
  predicate IsEligible(ps: seq<Packet>, p: Packet) {
    !IsLost(ps, p) && !p.flags.outOfOrder && p.acked.delay != 0
  }

  /** The unacknowledged bytes and delays of the eligible packets among the listed ones, in order; losses are judged
      in the whole list. */
  function Samples(all: seq<Packet>, ps: seq<Packet>): seq<(u32, u32)> {
    if ps == [] then []
    else
      var n := |ps| - 1;
      Samples(all, ps[..n])
      + if IsEligible(all, ps[n]) then [(ps[n].snapshot.unackedBytes, ps[n].acked.delay)] else []
  }

  function LastOf<T>(xs: seq<T>, n: nat): seq<T> {
    if |xs| <= n then xs else xs[|xs| - n..]
  }

  function FirstOf<T>(xs: seq<T>, n: nat): seq<T> {
    if |xs| <= n then xs else xs[..n]
  }

  /** The last `distance` samples up to and including the target and, unless only older ones are wanted, the first
      `distance` samples from the target on. An eligible target is in both parts. */
  function SamplesAround(ps: seq<Packet>, target: nat, distance: nat, olderOnly: bool): seq<(u32, u32)> {
    if target >= |ps| || Samples(ps, ps[..target + 1]) == [] then []
    else
      LastOf(Samples(ps, ps[..target + 1]), distance)
      + if olderOnly then [] else FirstOf(Samples(ps, ps[target..]), distance)
  }

  // ----- whole runs

  /** The segment size that the peer announced; zero means that it announced none. */
  function WithMss(e: Endpoint, mss: u32): Endpoint {
    if mss != 0 then e.(mss := mss) else e
  }

  /** What an endpoint sees: a packet of its own, a packet of the peer that carries an acknowledgment, or the segment
      size that the flow writes when the other endpoint opens. */
  datatype Event = Send(segment: Segment) | Receive(ack: Ack) | Announce(mss: u32)

  function Step(e: Endpoint, v: Event): Endpoint {
    match v
    case Send(g) => AddPacket(e, g)
    case Receive(ack) => ProcessAck(e, ack)
    case Announce(mss) => WithMss(e, mss)
  }

  function Run(e: Endpoint, events: seq<Event>): Endpoint {
    if events == [] then e else Step(Run(e, events[..|events| - 1]), events[|events| - 1])
  }
}
