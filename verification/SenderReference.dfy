/** The sender as it really is: unbounded sequence positions, plain sets of bytes, no wraparound. */
module SenderReference {
  import opened Arithmetic
  import opened Intervals
  import opened SackCoverage

  /** One packet: its half-open range, whether it asks for an ACK, and whether it repeats data. */
  datatype Sent = Sent(lo: int, hi: int, tracked: bool)

  datatype Sender = Sender(init: int, acked: int, next: int, sacked: set<int>, sent: seq<Sent>, outstanding: seq<nat>)

  /** What really happens: packets of the given lengths back to back from `lo` on, or an ACK of everything below
      `number` that also reports the given blocks, where `declared` says whether its option announces any block; or
      the peer's segment size becoming known. */
  datatype Action =
    | Transmit(lo: int, cuts: seq<nat>, syn: bool)
    | Acknowledge(number: int, blocks: seq<Block>, declared: bool)
    | Negotiate

  function Transmitted(r: Sender, s: Sent): Sender {
    r.(next := if s.lo < s.hi then Max(r.next, s.hi) else r.next,
       sent := r.sent + [s],
       outstanding := if s.tracked then r.outstanding + [|r.sent|] else r.outstanding)
  }

  function Sum(cuts: seq<nat>): nat {
    if cuts == [] then 0 else Sum(cuts[..|cuts| - 1]) + cuts[|cuts| - 1]
  }

  function LastPiece(lo: int, cuts: seq<nat>, syn: bool): Sent
    requires cuts != []
  {
    Sent(lo + Sum(cuts[..|cuts| - 1]), lo + Sum(cuts), cuts[|cuts| - 1] != 0 || syn)
  }

  function TransmittedAll(r: Sender, lo: int, cuts: seq<nat>, syn: bool): Sender {
    if cuts == [] then r
    else Transmitted(TransmittedAll(r, lo, cuts[..|cuts| - 1], syn), LastPiece(lo, cuts, syn))
  }

  /** The packet is below the cumulative ACK, or this ACK reports all its bytes. */
  predicate Done(s: Sent, acked: int, reported: set<int>) {
    s.hi <= acked || RangeCovered(s.lo, s.hi, reported)
  }

  predicate DoneAt(r: Sender, x: nat, acked: int, reported: set<int>) {
    x < |r.sent| && Done(r.sent[x], acked, reported)
  }

  function StillOut(r: Sender, positions: seq<nat>, acked: int, reported: set<int>): seq<nat> {
    if positions == [] then []
    else
      var n := |positions| - 1;
      StillOut(r, positions[..n], acked, reported)
      + if DoneAt(r, positions[n], acked, reported) then [] else [positions[n]]
  }

  function Acknowledged(r: Sender, number: int, blocks: seq<Block>, declared: bool): Sender {
    var acked := Max(r.acked, number);
    r.(acked := acked,
       sacked := r.sacked + Cover(blocks),
       outstanding := if number > r.acked || declared then StillOut(r, r.outstanding, acked, Cover(blocks))
                      else r.outstanding)
  }

  function Next(r: Sender, a: Action): Sender {
    match a
    case Transmit(lo, cuts, syn) => TransmittedAll(r, lo, cuts, syn)
    case Acknowledge(number, blocks, declared) => Acknowledged(r, number, blocks, declared)
    case Negotiate => r
  }

  function History(r: Sender, actions: seq<Action>): Sender {
    if actions == [] then r else Next(History(r, actions[..|actions| - 1]), actions[|actions| - 1])
  }

  /** The bytes sent and not yet acknowledged in any way. */
  function Missing(r: Sender): set<int> {
    Range(r.acked, r.next) - r.sacked
  }

  /** Packets back to back move the sender like one packet of their total length. */
  lemma {:induction false} TransmittedAllExact(r: Sender, lo: int, cuts: seq<nat>, syn: bool)
    ensures var t := TransmittedAll(r, lo, cuts, syn);
            && t.next == (if Sum(cuts) > 0 then Max(r.next, lo + Sum(cuts)) else r.next)
            && t.init == r.init && t.acked == r.acked && t.sacked == r.sacked
            && |t.sent| == |r.sent| + |cuts| && t.sent[..|r.sent|] == r.sent
    decreases |cuts|
  {
    if cuts != [] {
      TransmittedAllExact(r, lo, cuts[..|cuts| - 1], syn);
    }
  }

  // ----- the window

  /** The numbers of a transmission fit: everything outstanding, the cumulative ACK and the new packets lie within
      `width` below the highest position sent. */
  predicate TransmissionFits(r: Sender, lo: int, cuts: seq<nat>, syn: bool, width: nat) {
    var low := Max(r.next, lo + Sum(cuts)) - width;
    && low <= r.acked && low <= lo && (syn ==> lo <= r.next)
    && forall x :: x in r.outstanding ==> x < |r.sent| && low <= r.sent[x].lo
  }

  /** Everything outstanding lies between `low` and the highest position sent. */
  predicate OutstandingFrom(r: Sender, low: int) {
    forall x :: x in r.outstanding ==> x < |r.sent| && low <= r.sent[x].lo && r.sent[x].hi <= r.next
  }

  lemma {:induction false} TransmittedAllFrom(r: Sender, lo: int, cuts: seq<nat>, syn: bool, low: int)
    requires OutstandingFrom(r, low) && low <= lo && (syn ==> lo <= r.next)
    ensures OutstandingFrom(TransmittedAll(r, lo, cuts, syn), low)
    decreases |cuts|
  {
    if cuts != [] {
      var n := |cuts| - 1;
      TransmittedAllFrom(r, lo, cuts[..n], syn, low);
      TransmittedAllExact(r, lo, cuts[..n], syn);
      var before, piece := TransmittedAll(r, lo, cuts[..n], syn), LastPiece(lo, cuts, syn);
      hide TransmittedAll;
      forall x | x in Transmitted(before, piece).outstanding
        ensures x < |before.sent| + 1
        ensures low <= Transmitted(before, piece).sent[x].lo
        ensures Transmitted(before, piece).sent[x].hi <= Transmitted(before, piece).next
      {
      }
    }
  }

  // ----- no byte is forgotten

  predicate Carries(s: Sent, p: int) {
    s.lo <= p < s.hi
  }

  predicate CarriedOut(r: Sender, p: int) {
    exists k :: 0 <= k < |r.outstanding| && r.outstanding[k] < |r.sent| && Carries(r.sent[r.outstanding[k]], p)
  }

  /** Every missing byte after the initial sequence number is carried by an outstanding packet. */
  predicate NothingForgotten(r: Sender) {
    forall p :: p in Missing(r) && r.init < p ==> CarriedOut(r, p)
  }

  lemma TransmitForgetsNothing(r: Sender, s: Sent)
    requires NothingForgotten(r) && (s.lo < s.hi ==> s.lo <= r.next && s.tracked)
    requires r.acked <= r.next
    ensures NothingForgotten(Transmitted(r, s))
  {
    var t := Transmitted(r, s);
    forall p | p in Missing(t) && t.init < p
      ensures CarriedOut(t, p)
    {
      if p in Missing(r) {
        var k :| 0 <= k < |r.outstanding| && r.outstanding[k] < |r.sent| && Carries(r.sent[r.outstanding[k]], p);
        assert t.outstanding[k] == r.outstanding[k] && t.sent[r.outstanding[k]] == r.sent[r.outstanding[k]];
      } else {
        assert t.outstanding[|r.outstanding|] == |r.sent| && Carries(t.sent[|r.sent|], p);
      }
    }
  }

  lemma {:induction false} StillOutExact(r: Sender, positions: seq<nat>, acked: int, reported: set<int>)
    ensures forall x :: x in StillOut(r, positions, acked, reported)
                  <==> x in positions && !DoneAt(r, x, acked, reported)
  {
    if positions != [] {
      hide DoneAt;
      var n := |positions| - 1;
      StillOutExact(r, positions[..n], acked, reported);
      assert positions == positions[..n] + [positions[n]];
    }
  }

  /** An ACK only lets go of packets whose bytes it accounts for. */
  lemma AcknowledgeForgetsNothing(r: Sender, number: int, blocks: seq<Block>, declared: bool)
    requires NothingForgotten(r) && (blocks != [] ==> declared)
    ensures NothingForgotten(Acknowledged(r, number, blocks, declared))
  {
    var t := Acknowledged(r, number, blocks, declared);
    StillOutExact(r, r.outstanding, t.acked, Cover(blocks));
    forall p | p in Missing(t) && t.init < p
      ensures CarriedOut(t, p)
    {
      assert p in Missing(r);
      var k :| 0 <= k < |r.outstanding| && r.outstanding[k] < |r.sent| && Carries(r.sent[r.outstanding[k]], p);
      var x := r.outstanding[k];
      assert x in t.outstanding;
      var k' :| 0 <= k' < |t.outstanding| && t.outstanding[k'] == x;
      assert Carries(t.sent[t.outstanding[k']], p);
    }
  }

  lemma {:induction false} TransmitAllForgetsNothing(r: Sender, lo: int, cuts: seq<nat>, syn: bool)
    requires NothingForgotten(r) && r.acked <= r.next && lo <= r.next
    ensures var t := TransmittedAll(r, lo, cuts, syn);
            NothingForgotten(t) && t.acked == r.acked && lo + Sum(cuts) <= t.next && r.next <= t.next
    decreases |cuts|
  {
    if cuts != [] {
      TransmitAllForgetsNothing(r, lo, cuts[..|cuts| - 1], syn);
      TransmitForgetsNothing(TransmittedAll(r, lo, cuts[..|cuts| - 1], syn), LastPiece(lo, cuts, syn));
    }
  }

  /** A capture without gaps: packets start no later than where the data sent so far ends. */
  predicate NoGap(r: Sender, a: Action) {
    match a
    case Transmit(lo, _, _) => lo <= r.next
    case Acknowledge(number, blocks, declared) => number <= r.next && (blocks != [] ==> declared)
    case Negotiate => true
  }

  predicate Unbroken(r: Sender, actions: seq<Action>) {
    actions == [] ||
    (var n := |actions| - 1;
     Unbroken(r, actions[..n]) && NoGap(History(r, actions[..n]), actions[n]))
  }

  /** On every unbroken run, every byte that is missing is carried by an outstanding packet. */
  lemma {:induction false} HistoryForgetsNothing(r: Sender, actions: seq<Action>)
    requires NothingForgotten(r) && r.acked <= r.next && Unbroken(r, actions)
    ensures NothingForgotten(History(r, actions)) && History(r, actions).acked <= History(r, actions).next
    decreases |actions|
  {
    if actions != [] {
      hide NothingForgotten;
      hide StillOut;
      var n := |actions| - 1;
      var before := History(r, actions[..n]);
      HistoryForgetsNothing(r, actions[..n]);
      match actions[n]
      case Transmit(lo, cuts, syn) => TransmitAllForgetsNothing(before, lo, cuts, syn);
      case Acknowledge(number, blocks, declared) => AcknowledgeForgetsNothing(before, number, blocks, declared);
      case Negotiate =>
    }
  }
}
