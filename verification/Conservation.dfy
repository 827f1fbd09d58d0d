/** Acknowledgment conservation: a packet that requires an ACK is outstanding or acknowledged, never both, and is
    acknowledged at most once. */
module Conservation {
  import opened SeqSpace
  import opened TcpSacks
  import opened TcpTimer
  import opened EndpointModel
  import opened Frames

  predicate Increasing(xs: seq<nat>) {
    forall i, j :: 0 <= i < j < |xs| ==> xs[i] < xs[j]
  }

  /** The recorded delay is the one to the recorded ACK. */
  predicate Recorded(p: Packet) {
    p.acked.packet.Some? ==> p.acked.delay == AckDelay(p, p.acked.packet.value)
  }

  predicate Conserved(ps: seq<Packet>, unacked: seq<nat>) {
    && Increasing(unacked)
    && (forall x :: x in unacked ==> x < |ps|)
    && (forall i :: 0 <= i < |ps| ==> Recorded(ps[i]))
    && forall i :: 0 <= i < |ps| ==>
         (i in unacked <==> RequiresAck(ps[i].segment) && ps[i].acked.packet.None?)
  }

  /** The same packet, except that an acknowledgment may have been recorded where there was none. */
  predicate Acknowledged(p: Packet, q: Packet) {
    && CoreOf(q) == CoreOf(p).(acked := q.acked)
    && (p.acked.packet.Some? ==> q.acked == p.acked)
    && (Recorded(p) ==> Recorded(q))
  }

  /** A step that only records acknowledgments. */
  predicate Acking(e: Endpoint, f: Endpoint) {
    && |f.packets| == |e.packets| && (forall i :: 0 <= i < |e.packets| ==> Acknowledged(e.packets[i], f.packets[i]))
    && CoreOf(f.current) == CoreOf(e.current) && f.seqs == e.seqs && f.mss == e.mss
  }

  lemma AckingTransitive(e: Endpoint, f: Endpoint, g: Endpoint)
    requires Acking(e, f) && Acking(f, g)
    ensures Acking(e, g)
  {
    forall i | 0 <= i < |e.packets|
      ensures Acknowledged(e.packets[i], g.packets[i])
    {
      assert Acknowledged(e.packets[i], f.packets[i]) && Acknowledged(f.packets[i], g.packets[i]);
    }
  }

  // ----- AckPackets

  lemma IncreasingSnoc(xs: seq<nat>, x: nat)
    requires Increasing(xs) && forall y :: y in xs ==> y < x
    ensures Increasing(xs + [x])
  {
    assert forall i :: 0 <= i < |xs| ==> xs[i] in xs;
  }

  lemma LastIsGreatest(xs: seq<nat>)
    requires Increasing(xs) && xs != []
    ensures var rest, last := xs[..|xs| - 1], xs[|xs| - 1];
            Increasing(rest) && (forall x :: x in rest ==> x < last) && forall x :: x in xs <==> x in rest || x == last
  {
    assert xs == xs[..|xs| - 1] + [xs[|xs| - 1]];
  }

  lemma {:induction false} KeptExact(e: Endpoint, positions: seq<nat>, sacks: seq<Sack>)
    requires Increasing(positions)
    ensures Increasing(Kept(e, positions, sacks))
    ensures forall x :: x in Kept(e, positions, sacks) <==> x in positions && !AckedAt(e, x, sacks)
  {
    if positions != [] {
      hide AckedAt;
      var n := |positions| - 1;
      KeptExact(e, positions[..n], sacks);
      LastIsGreatest(positions);
      hide Increasing;
      IncreasingSnoc(Kept(e, positions[..n], sacks), positions[n]);
    }
  }

  lemma {:induction false} KeptAll(e: Endpoint, positions: seq<nat>, sacks: seq<Sack>)
    ensures |Kept(e, positions, sacks)| <= |positions|
    ensures |Kept(e, positions, sacks)| == |positions| <==> Kept(e, positions, sacks) == positions
  {
    if positions != [] {
      hide AckedAt;
      var n := |positions| - 1;
      KeptAll(e, positions[..n], sacks);
      assert positions == positions[..n] + [positions[n]];
    }
  }

  lemma {:induction false} HandleAllFrame(e: Endpoint, positions: seq<nat>, ack: Ack)
    ensures var f := HandleAll(e, positions, ack);
            && |f.packets| == |e.packets|
            && f == e.(packets := f.packets, acks := f.acks, estimate := f.estimate, samples := f.samples)
            && f.acks == e.acks.(minRtt := f.acks.minRtt, triggers := f.acks.triggers)
  {
    if positions != [] {
      hide AckedAt;
      HandleAllFrame(e, positions[..|positions| - 1], ack);
    }
  }

  /** What the loop of AckPackets does: exactly the covered positions get the ACK, each once. */
  lemma {:induction false} HandleAllExact(e: Endpoint, positions: seq<nat>, ack: Ack)
    requires Increasing(positions)
    ensures var f := HandleAll(e, positions, ack);
            && |f.packets| == |e.packets|
            && forall i :: 0 <= i < |e.packets| ==>
                 f.packets[i] == if i in positions && AckedAt(e, i, ack.sacks)
                                 then e.packets[i].(acked := Acked(Some(ack), AckDelay(e.packets[i], ack)))
                                 else e.packets[i]
  {
    if positions != [] {
      hide AckedAt;
      var n := |positions| - 1;
      LastIsGreatest(positions);
      HandleAllExact(e, positions[..n], ack);
    }
  }

  /** Recording an acknowledgment for exactly the positions that leave the list keeps the books. */
  lemma PartitionConserved(ps: seq<Packet>, qs: seq<Packet>, unacked: seq<nat>, kept: seq<nat>)
    requires Conserved(ps, unacked) && Increasing(kept) && |qs| == |ps|
    requires forall i :: 0 <= i < |ps| ==> Acknowledged(ps[i], qs[i])
    requires forall x :: x in kept ==> x in unacked
    requires forall i :: 0 <= i < |ps| ==>
               if i in unacked && i !in kept then qs[i].acked.packet.Some? else qs[i].acked == ps[i].acked
    ensures Conserved(qs, kept)
  {
    forall i | 0 <= i < |ps|
      ensures i in kept <==> RequiresAck(qs[i].segment) && qs[i].acked.packet.None?
    {
      assert Acknowledged(ps[i], qs[i]);
    }
  }

  lemma AckPacketsShape(e: Endpoint, ack: Ack)
    ensures var f := AckPackets(e, ack);
            && f.packets == HandleAll(e, e.unacked, ack).packets
            && f.unacked == Kept(e, e.unacked, ack.sacks)
            && f == e.(packets := f.packets, unacked := f.unacked, acks := f.acks, timers := f.timers,
                       estimate := f.estimate, samples := f.samples)
            && f.acks.lookalikes == e.acks.lookalikes
  {
    HandleAllFrame(e, e.unacked, ack);
    hide HandleAll;
    hide Kept;
    hide InFlight;
    hide Rto;
    hide Tlp;
  }

  lemma AckingOne(p: Packet, ack: Ack)
    ensures Acknowledged(p, p)
    ensures p.acked.packet.None? ==> Acknowledged(p, p.(acked := Acked(Some(ack), AckDelay(p, ack))))
  {
  }

  /** AckPackets partitions the outstanding packets, in order, into those it acknowledges and those it keeps. */
  lemma AckPacketsExact(e: Endpoint, ack: Ack)
    requires Conserved(e.packets, e.unacked)
    ensures var f := AckPackets(e, ack);
            && Acking(e, f) && Conserved(f.packets, f.unacked)
            && (forall x :: x in f.unacked <==> x in e.unacked && !AckedAt(e, x, ack.sacks))
            && (forall x :: x in e.unacked && x !in f.unacked ==>
                  f.packets[x].acked == Acked(Some(ack), AckDelay(e.packets[x], ack)))
  {
    assert Increasing(e.unacked) && forall x :: x in e.unacked ==> x < |e.packets|;
    assert forall x :: x in e.unacked ==> e.packets[x].acked.packet.None?;
    hide Conserved;
    hide Increasing;
    hide AckPackets;
    hide AckedAt;
    hide Kept;
    hide HandleAll;
    hide AckDelay;
    AckPacketsShape(e, ack);
    KeptExact(e, e.unacked, ack.sacks);
    HandleAllExact(e, e.unacked, ack);
    var f := AckPackets(e, ack);
    forall i | 0 <= i < |e.packets|
      ensures Acknowledged(e.packets[i], f.packets[i])
    {
      AckingOne(e.packets[i], ack);
    }
    hide Acknowledged;
    PartitionConserved(e.packets, f.packets, e.unacked, f.unacked);
  }

  // ----- SACK lookalikes

  lemma ShiftUnackedSameCores(ps: seq<Packet>, offset: u32)
    ensures SameCores(ps, ShiftUnacked(ps, offset))
  {
  }

  lemma TieToExact(e: Endpoint, pos: nat, ack: Ack)
    requires pos < |e.packets|
    ensures var f := TieTo(e, pos, ack);
            && |f.packets| == |e.packets| && f.unacked == e.unacked && f.seqs == e.seqs && f.mss == e.mss
            && f.current == e.current && (RtoArmed(e) ==> TimersKept(e, f))
            && CoreOf(f.packets[pos])
               == CoreOf(e.packets[pos]).(acked := Acked(Some(ack), AckDelay(e.packets[pos], ack)))
            && (forall i :: 0 <= i < |e.packets| && i != pos ==> CoreOf(f.packets[i]) == CoreOf(e.packets[i]))
  {
    var e1 := HandleAcked(e, pos, ack);
    ShiftUnackedSameCores(e1.packets, e.packets[pos].segment.len);
    hide InFlight;
  }

  /** Either the packet got a lookalike as its ACK, or nothing was recorded. */
  lemma {:induction false} TieExact(e: Endpoint, pos: nat)
    requires pos < |e.packets| && RtoArmed(e)
    ensures var (f, tied) := TiePacketToSackLookalike(e, pos);
            && f.seqs == e.seqs && f.mss == e.mss && f.current == e.current && TimersKept(e, f)
            && (forall i :: 0 <= i < |e.packets| && !(tied && i == pos)
                  ==> CoreOf(f.packets[i]) == CoreOf(e.packets[i]))
            && (tied ==>
                  && f.packets[pos].acked.packet.Some? && Recorded(f.packets[pos])
                  && CoreOf(f.packets[pos]) == CoreOf(e.packets[pos]).(acked := f.packets[pos].acked))
    decreases |e.acks.lookalikes|
  {
    if e.acks.lookalikes != [] {
      var ack := e.acks.lookalikes[0];
      var e1 := e.(acks := e.acks.(lookalikes := e.acks.lookalikes[1..]));
      if e.packets[pos].segment.ts + e.acks.minRtt < ack.ts {
        TieToExact(e1, pos, ack);
      } else {
        TieExact(e1, pos);
      }
    }
  }

  function Without(xs: seq<nat>, i: nat): seq<nat>
    requires i < |xs|
  {
    xs[..i] + xs[i + 1..]
  }

  lemma WithoutExact(xs: seq<nat>, i: nat)
    requires Increasing(xs) && i < |xs|
    ensures Increasing(Without(xs, i)) && forall x :: x in Without(xs, i) <==> x in xs && x != xs[i]
  {
    var r := Without(xs, i);
    assert forall k :: 0 <= k < |r| ==> r[k] == xs[if k < i then k else k + 1];
    forall x
      ensures x in r <==> x in xs && x != xs[i]
    {
      assert xs == xs[..i] + [xs[i]] + xs[i + 1..];
    }
  }

  lemma TieAcknowledges(e: Endpoint, pos: nat)
    requires pos < |e.packets| && RtoArmed(e) && e.packets[pos].acked.packet.None?
    ensures var (f, tied) := TiePacketToSackLookalike(e, pos);
            && Acking(e, f) && TimersKept(e, f)
            && forall j :: 0 <= j < |e.packets| ==>
                 if tied && j == pos then f.packets[j].acked.packet.Some? else f.packets[j].acked == e.packets[j].acked
  {
    TieExact(e, pos);
    hide TiePacketToSackLookalike;
    hide TimersKept;
    hide AckDelay;
    var (f, tied) := TiePacketToSackLookalike(e, pos);
    forall j | 0 <= j < |e.packets|
      ensures Acknowledged(e.packets[j], f.packets[j])
      ensures !(tied && j == pos) ==> f.packets[j].acked == e.packets[j].acked
    {
      assert !(tied && j == pos) ==> CoreOf(f.packets[j]) == CoreOf(e.packets[j]);
    }
  }

  lemma TieConserves(e: Endpoint, i: nat)
    requires Conserved(e.packets, e.unacked) && i < |e.unacked| && RtoArmed(e)
    ensures var (f, tied) := TiePacketToSackLookalike(e, e.unacked[i]);
            && Acking(e, f) && TimersKept(e, f)
            && Conserved(f.packets, if tied then Without(e.unacked, i) else e.unacked)
  {
    var pos := e.unacked[i];
    assert pos in e.unacked;
    assert Increasing(e.unacked) && pos < |e.packets| && e.packets[pos].acked.packet.None?;
    hide Conserved;
    hide Increasing;
    hide Without;
    hide TiePacketToSackLookalike;
    hide TimersKept;
    hide Acknowledged;
    TieAcknowledges(e, pos);
    WithoutExact(e.unacked, i);
    var (f, tied) := TiePacketToSackLookalike(e, pos);
    PartitionConserved(e.packets, f.packets, e.unacked, if tied then Without(e.unacked, i) else e.unacked);
  }

  /** Tying outstanding packets to lookalikes keeps the books and the timers. */
  lemma {:induction false} CheckLookalikesConserves(e: Endpoint, i: nat)
    requires Conserved(e.packets, e.unacked) && (e.unacked != [] ==> RtoArmed(e))
    ensures var f := CheckLookalikesFrom(e, i);
            Acking(e, f) && Conserved(f.packets, f.unacked) && (RtoArmed(e) || f == e) && TimersKept(e, f)
    decreases |e.unacked| - i
  {
    hide Conserved;
    hide IsLost;
    if i < |e.unacked| && e.acks.lookalikes != [] && e.unacked[i] < |e.packets| {
      var p := e.packets[e.unacked[i]];
      if After(e.current.segment.seqNo, p.segment.seqNo) {
        if !IsLost(All(e), p) && p.links.previous.None? {
          TieConserves(e, i);
          var (e1, tied) := TiePacketToSackLookalike(e, e.unacked[i]);
          if tied {
            var e2 := e1.(unacked := Without(e1.unacked, i));
            CheckLookalikesConserves(e2, i);
            AckingTransitive(e, e2, CheckLookalikesFrom(e2, i));
          }
        } else {
          CheckLookalikesConserves(e, i + 1);
        }
      }
    }
  }
}
