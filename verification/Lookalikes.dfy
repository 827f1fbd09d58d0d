/** ACKs whose SACK blocks were not captured: which of them a packet is tied to later, and what that changes. */
module Lookalikes {
  import opened SeqSpace
  import opened TcpSacks
  import opened TcpTimer
  import opened EndpointModel
  import opened Conservation
  import opened Triggers

  /** The first lookalike that arrived more than the minimum round-trip time after the packet was sent. */
  predicate FirstLater(lookalikes: seq<Ack>, bound: nat, k: nat) {
    && k < |lookalikes| && bound < lookalikes[k].ts
    && forall j :: 0 <= j < k ==> lookalikes[j].ts <= bound
  }

  /** The packet counts as acknowledged by the lookalike, which becomes its ACK with it as trigger; its bytes go to the
      scoreboard. If no ACK with a trigger is later, the timers start from the lookalike and all counts of
      unacknowledged bytes grow by the packet. */
  predicate Tied(e: Endpoint, f: Endpoint, pos: nat, ack: Ack, rest: seq<Ack>)
    requires pos < |e.packets|
  {
    var g := e.packets[pos].segment;
    var last := e.acks.lastWithTrigger;
    var latest := last.None? || ack.ts > last.value.ts;
    && |f.packets| == |e.packets|
    && f.packets[pos].acked == Acked(Some(ack), Wrap(ack.ts - g.ts))
    && f.board == AddOne(e.board, Sack(g.seqNo, SeqEnd(g)))
    && f.acks.lookalikes == rest && f.acks.triggers == e.acks.triggers[ack.id := pos] && f.acks.last == e.acks.last
    && f.acks.lastWithTrigger == (if latest then Some(ack) else last)
    && f.timers.rtos == e.timers.rtos
    && (if latest then
          && f.timers.rto.armer == Peer(ack) && f.timers.rto.delay == Rto(f.estimate, e.timers.rtos)
          && f.timers.tlp.armer == Peer(ack)
        else f.timers == e.timers)
    && forall i :: 0 <= i < |e.packets| ==>
         f.packets[i].snapshot.unackedBytes
         == (e.packets[i].snapshot.unackedBytes + if latest then g.len else 0) % 0x1_0000_0000
  }

  lemma TieToTies(e: Endpoint, pos: nat, ack: Ack)
    requires pos < |e.packets|
    ensures Tied(e, TieTo(e, pos, ack), pos, ack, e.acks.lookalikes)
  {
    hide AddOne;
    hide Sampled;
    hide Rto;
    hide Tlp;
    hide InFlight;
    hide Signed;
  }

  lemma TiedLater(e: Endpoint, f: Endpoint, pos: nat, ack: Ack, lookalikes: seq<Ack>, rest: seq<Ack>)
    requires pos < |e.packets| && Tied(e.(acks := e.acks.(lookalikes := lookalikes)), f, pos, ack, rest)
    ensures Tied(e, f, pos, ack, rest)
  {
    hide Rto;
    hide AddOne;
  }

  /** A packet for which no lookalike is late enough uses them all up, and nothing else changes. */
  lemma {:induction false} TieFindsNone(e: Endpoint, pos: nat)
    requires pos < |e.packets|
    requires forall j :: 0 <= j < |e.acks.lookalikes| ==>
               e.acks.lookalikes[j].ts <= e.packets[pos].segment.ts + e.acks.minRtt
    ensures TiePacketToSackLookalike(e, pos) == (e.(acks := e.acks.(lookalikes := [])), false)
    decreases |e.acks.lookalikes|
  {
    if e.acks.lookalikes != [] {
      hide TieTo;
      TieFindsNone(e.(acks := e.acks.(lookalikes := e.acks.lookalikes[1..])), pos);
    }
  }

  lemma FirstLaterTail(all: seq<Ack>, bound: nat, k: nat)
    requires FirstLater(all, bound, k) && k > 0
    ensures FirstLater(all[1..], bound, k - 1) && all[1..][k - 1] == all[k] && all[1..][k..] == all[k + 1..]
    ensures all[0].ts <= bound
  {
  }

  /** A packet is tied to the first lookalike that is late enough for it, which uses up that one and all before it. */
  lemma {:induction false} TieFindsFirst(e: Endpoint, pos: nat, k: nat)
    requires pos < |e.packets|
    requires FirstLater(e.acks.lookalikes, e.packets[pos].segment.ts + e.acks.minRtt, k)
    ensures var (f, tied) := TiePacketToSackLookalike(e, pos);
            tied && Tied(e, f, pos, e.acks.lookalikes[k], e.acks.lookalikes[k + 1..])
    decreases k
  {
    var all := e.acks.lookalikes;
    var e1 := e.(acks := e.acks.(lookalikes := all[1..]));
    hide TieTo;
    hide Tied;
    var f := TiePacketToSackLookalike(e, pos).0;
    if k == 0 {
      TieToTies(e1, pos, all[0]);
    } else {
      FirstLaterTail(all, e.packets[pos].segment.ts + e.acks.minRtt, k);
      hide FirstLater;
      TieFindsFirst(e1, pos, k - 1);
    }
    TiedLater(e, f, pos, all[k], all[1..], all[k + 1..]);
  }

  // ----- which ACKs are kept for later

  /** An ACK is kept as a lookalike exactly when it repeats the cumulative ACK and at least one SACK block would fit
      into its options that were not captured; they are used oldest first. */
  lemma LookalikesKept(e: Endpoint, ack: Ack)
    ensures var f := ProcessAck(e, ack);
            && f.acks.last == Some(ack)
            && f.acks.lookalikes == e.acks.lookalikes
                 + if ack.number == e.seqs.acked && ack.unknownOptions >= 2 + 8 then [ack] else []
  {
    assert ack.number == e.seqs.acked ==> !Moves(e.seqs, ack);
    LastIsAck(e, ack);
    ProcessedAcks(e, ack);
    AckPacketsShape(Advance(e, ack), ack);
    hide ProcessAck;
    hide AckPackets;
    hide AdvanceAcked;
  }

  // ----- the last ACK stays

  lemma {:induction false} TieKeepsLast(e: Endpoint, pos: nat)
    ensures TiePacketToSackLookalike(e, pos).0.acks.last == e.acks.last
    decreases |e.acks.lookalikes|
  {
    if e.acks.lookalikes != [] && pos < |e.packets| {
      var e1 := e.(acks := e.acks.(lookalikes := e.acks.lookalikes[1..]));
      TieToTies(e1, pos, e.acks.lookalikes[0]);
      hide TieTo;
      if !(e.packets[pos].segment.ts + e.acks.minRtt < e.acks.lookalikes[0].ts) {
        TieKeepsLast(e1, pos);
      }
    }
  }

  lemma {:induction false} LookalikesKeepLast(e: Endpoint, i: nat)
    ensures CheckLookalikesFrom(e, i).acks.last == e.acks.last
    decreases |e.unacked| - i
  {
    hide IsLost;
    if i < |e.unacked| && e.acks.lookalikes != [] && e.unacked[i] < |e.packets| {
      var p := e.packets[e.unacked[i]];
      if After(e.current.segment.seqNo, p.segment.seqNo) {
        if !IsLost(All(e), p) && p.links.previous.None? {
          TieKeepsLast(e, e.unacked[i]);
          var (e1, tied) := TiePacketToSackLookalike(e, e.unacked[i]);
          hide TiePacketToSackLookalike;
          if tied {
            LookalikesKeepLast(e1.(unacked := e1.unacked[..i] + e1.unacked[i + 1..]), i);
          }
        } else {
          LookalikesKeepLast(e, i + 1);
        }
      }
    }
  }
}
