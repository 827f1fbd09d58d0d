/** Spurious retransmissions: which packets a sequence of D-SACK blocks for one range marks. */
module Spurious {
  import opened SeqSpace
  import opened TcpSacks
  import opened EndpointModel
  import opened Conservation
  import opened Retransmissions
  import opened EndpointInvariants

  function Marked(p: Packet): Packet {
    p.(flags := p.flags.(isSpurious := true))
  }

  /** The number of candidates among the packets from position `from` on. */
  function CandidatesFrom(ps: seq<Packet>, s: Sack, from: nat): (n: nat)
    requires from <= |ps|
    decreases |ps| - from
  {
    if from == |ps| then 0
    else CandidatesFrom(ps, s, from + 1) + if IsSpuriousCandidate(ps[from], s) then 1 else 0
  }

  /** Marking the block n times in a row. */
  function MarkTimes(ps: seq<Packet>, s: Sack, n: nat): (r: seq<Packet>)
    ensures |r| == |ps|
  {
    if n == 0 then ps
    else
      var before := MarkTimes(ps, s, n - 1);
      MarkSpurious(before, s, |before|)
  }

  /** The n most recent candidates are marked, or all if there are fewer, and nothing else changed. */
  predicate MostRecentMarked(ps: seq<Packet>, qs: seq<Packet>, s: Sack, n: nat) {
    && |qs| == |ps|
    && forall i :: 0 <= i < |ps| ==>
         qs[i] == if IsSpuriousCandidate(ps[i], s) && CandidatesFrom(ps, s, i + 1) < n then Marked(ps[i]) else ps[i]
  }

  lemma {:induction false} CandidatesGrow(ps: seq<Packet>, s: Sack, i: nat, j: nat)
    requires i <= j <= |ps|
    ensures CandidatesFrom(ps, s, j) <= CandidatesFrom(ps, s, i)
    decreases j - i
  {
    if i < j {
      CandidatesGrow(ps, s, i + 1, j);
      hide IsSpuriousCandidate;
    }
  }

  /** Of two candidates the earlier one has more after it. */
  lemma EarlierHasMore(ps: seq<Packet>, s: Sack, i: nat, j: nat)
    requires i < j < |ps| && IsSpuriousCandidate(ps[j], s)
    ensures CandidatesFrom(ps, s, j + 1) < CandidatesFrom(ps, s, i + 1)
  {
    CandidatesGrow(ps, s, i + 1, j);
    hide IsSpuriousCandidate;
  }

  /** Every rank below the number of candidates is taken. */
  lemma {:induction false} RankTaken(ps: seq<Packet>, s: Sack, from: nat, n: nat) returns (i: nat)
    requires from <= |ps| && n < CandidatesFrom(ps, s, from)
    ensures from <= i < |ps| && IsSpuriousCandidate(ps[i], s) && CandidatesFrom(ps, s, i + 1) == n
    decreases |ps| - from
  {
    hide IsSpuriousCandidate;
    if n < CandidatesFrom(ps, s, from + 1) {
      i := RankTaken(ps, s, from + 1, n);
    } else {
      i := from;
    }
  }

  /** A marked candidate is none any more. */
  lemma MarkedNoCandidate(p: Packet, s: Sack)
    ensures !IsSpuriousCandidate(Marked(p), s)
  {
  }

  lemma MarkOneMore(ps: seq<Packet>, qs: seq<Packet>, s: Sack, n: nat, k: nat)
    requires MostRecentMarked(ps, qs, s, n) && k < |ps|
    requires IsSpuriousCandidate(ps[k], s) && CandidatesFrom(ps, s, k + 1) == n && qs[k] == ps[k]
    ensures MostRecentMarked(ps, qs[k := Marked(qs[k])], s, n + 1)
  {
    forall i | 0 <= i < |ps| && i != k && IsSpuriousCandidate(ps[i], s)
      ensures CandidatesFrom(ps, s, i + 1) != n
    {
      if i < k {
        EarlierHasMore(ps, s, i, k);
      } else {
        EarlierHasMore(ps, s, k, i);
      }
    }
    hide IsSpuriousCandidate;
    hide CandidatesFrom;
  }

  /** The search from the back finds the candidate with exactly n others after it. */
  lemma {:induction false} SearchMarksNext(ps: seq<Packet>, qs: seq<Packet>, s: Sack, n: nat, k: nat)
    requires MostRecentMarked(ps, qs, s, n) && k <= |ps|
    requires forall i :: k <= i < |ps| && IsSpuriousCandidate(ps[i], s) ==> CandidatesFrom(ps, s, i + 1) != n
    ensures MostRecentMarked(ps, MarkSpurious(qs, s, k), s, n + 1)
    decreases k
  {
    if k > 0 {
      MarkedNoCandidate(ps[k - 1], s);
      hide IsSpuriousCandidate;
      hide Marked;
      if IsSpuriousCandidate(qs[k - 1], s) {
        assert qs[k - 1] == ps[k - 1];
        if n < CandidatesFrom(ps, s, k) {
          var i := RankTaken(ps, s, k, n);
          assert false;
        }
        MarkOneMore(ps, qs, s, n, k - 1);
        assert MarkSpurious(qs, s, k) == qs[k - 1 := Marked(qs[k - 1])] by {
          MarkedIs(qs[k - 1]);
        }
      } else {
        hide CandidatesFrom;
        SearchMarksNext(ps, qs, s, n, k - 1);
      }
    }
  }

  lemma MarkedIs(p: Packet)
    ensures Marked(p) == p.(flags := p.flags.(isSpurious := true))
  {
  }

  /** n blocks for a range mark the n most recent retransmissions that cover it, or all of them if there are fewer. */
  lemma {:induction false} MarkTimesExact(ps: seq<Packet>, s: Sack, n: nat)
    ensures MostRecentMarked(ps, MarkTimes(ps, s, n), s, n)
  {
    if n > 0 {
      MarkTimesExact(ps, s, n - 1);
      hide MostRecentMarked;
      SearchMarksNext(ps, MarkTimes(ps, s, n - 1), s, n - 1, |ps|);
    }
  }

  /** The D-SACK blocks of an ACK. */
  function DSackCount(sacks: seq<Sack>, number: u32): nat {
    if sacks == [] then 0
    else DSackCount(sacks[..|sacks| - 1], number) + if IsDSack(sacks[|sacks| - 1], number) then 1 else 0
  }

  /** An ACK whose D-SACK blocks are all for one range marks as many of the most recent covering retransmissions. */
  lemma {:induction false} DSacksMarkMostRecent(ps: seq<Packet>, sacks: seq<Sack>, number: u32, s: Sack)
    requires forall k :: 0 <= k < |sacks| && IsDSack(sacks[k], number) ==> sacks[k] == s
    ensures DSackPackets(ps, sacks, number) == MarkTimes(ps, s, DSackCount(sacks, number))
    ensures MostRecentMarked(ps, DSackPackets(ps, sacks, number), s, DSackCount(sacks, number))
  {
    hide MostRecentMarked;
    hide IsDSack;
    MarkTimesExact(ps, s, DSackCount(sacks, number));
    if sacks != [] {
      DSacksMarkMostRecent(ps, sacks[..|sacks| - 1], number, s);
    }
  }

  // ----- what the blocks mean

  predicate Near(x: int, y: int) {
    -WINDOW <= x - y <= WINDOW
  }

  /** In terms of positions: a candidate is a retransmission, not yet marked, that contains the block. */
  lemma CandidateExact(p: Packet, x: int, a: int, b: int)
    requires p.segment.seqNo == Wrap(x) && a < b
    requires Near(a, x) && Near(b, x) && Near(a, x + p.segment.len) && Near(b, x + p.segment.len)
    ensures IsSpuriousCandidate(p, Sack(Wrap(a), Wrap(b))) <==>
            p.flags.isRtx && !p.flags.isSpurious && x <= a && b <= x + p.segment.len
  {
    assert SeqEnd(p.segment) == Wrap(x + p.segment.len);
    hide *;
    IncludedExact(a, b, x, x + p.segment.len);
    CandidateIs(p, Sack(Wrap(a), Wrap(b)));
  }

  lemma CandidateIs(p: Packet, s: Sack)
    ensures IsSpuriousCandidate(p, s) <==>
            p.flags.isRtx && !p.flags.isSpurious
            && RangeIncluded(s.start, s.end, p.segment.seqNo, SeqEnd(p.segment))
  {
  }

  lemma IncludedExact(a: int, b: int, x: int, y: int)
    requires a < b && Near(a, x) && Near(b, x) && Near(a, y) && Near(b, y)
    ensures RangeIncluded(Wrap(a), Wrap(b), Wrap(x), Wrap(y)) <==> x <= a && b <= y
  {
    hide Wrap;
    hide After;
    AfterExact(a, x);
    AfterExact(b, x);
    AfterExact(y, a);
    AfterExact(y, b);
  }

  /** A D-SACK block begins below the cumulative ACK and does not reach beyond it. */
  lemma DSackExact(a: int, b: int, number: int)
    requires Near(a, number) && Near(b, number)
    ensures IsDSack(Sack(Wrap(a), Wrap(b)), Wrap(number)) <==> a < number && b <= number
  {
    AfterExact(number, a);
    AfterExact(b, number);
    hide Wrap;
    hide After;
  }

  /** The same transmissions, with the same flags. */
  predicate SameFlags(ps: seq<Packet>, qs: seq<Packet>) {
    |qs| == |ps| && forall i :: 0 <= i < |ps| ==>
      qs[i].segment == ps[i].segment && qs[i].links == ps[i].links && qs[i].flags == ps[i].flags
  }

  lemma {:induction false} CandidatesSame(ps: seq<Packet>, qs: seq<Packet>, s: Sack, from: nat)
    requires SameFlags(ps, qs) && from <= |ps|
    ensures CandidatesFrom(ps, s, from) == CandidatesFrom(qs, s, from)
    decreases |ps| - from
  {
    if from < |ps| {
      CandidatesSame(ps, qs, s, from + 1);
    }
  }

  lemma AcksKeepFlags(e: Endpoint, ack: Ack)
    requires Invariant(e) && HasSacks(ack)
    ensures var packets := AckPackets(Advance(e, ack), ack).packets;
            SameFlags(e.packets, packets) && ProcessAck(e, ack).packets == DSackPackets(packets, ack.sacks, ack.number)
  {
    var e1 := Advance(e, ack);
    ProcessAckStages(e, ack);
    AdvanceInvariant(e, ack);
    AckPacketsShape(e1, ack);
    assert Increasing(e1.unacked);
    HandleAllExact(e1, e1.unacked, ack);
    hide Invariant;
    hide ProcessAck;
    hide Advance;
    hide AckPackets;
    hide HandleAll;
    hide AckedAt;
    hide Kept;
    hide Increasing;
  }

  /** The retransmission that followed packet i is one of the n most recent candidates. */
  predicate TakenBack(ps: seq<Packet>, i: nat, s: Sack, n: nat)
    requires i < |ps|
  {
    var k := ps[i].links.rtx;
    k.Some? && k.value < |ps| && IsSpuriousCandidate(ps[k.value], s) && CandidatesFrom(ps, s, k.value + 1) < n
  }

  lemma MarkedLosses(ps: seq<Packet>, qs: seq<Packet>, rs: seq<Packet>, s: Sack, n: nat, i: nat)
    requires SameFlags(ps, qs) && MostRecentMarked(qs, rs, s, n) && i < |ps| && Forest(ps)
    ensures IsLost(rs, rs[i]) <==>
            ps[i].links.rtx.Some? && !SpuriousAt(ps, ps[i].links.rtx.value) && !TakenBack(ps, i, s, n)
  {
    hide CandidatesFrom;
    assert LinkedAt(ps, i);
    var k := ps[i].links.rtx;
    if k.Some? {
      CandidatesSame(ps, qs, s, k.value + 1);
      assert IsSpuriousCandidate(ps[k.value], s) == IsSpuriousCandidate(qs[k.value], s);
    }
  }

  /** An ACK whose D-SACK blocks are all for one range takes back exactly the losses whose retransmission is one of that
      many most recent ones covering the range: a packet is lost when it was retransmitted and the retransmission is
      not known to be spurious. */
  lemma LossesTakenBack(e: Endpoint, ack: Ack, s: Sack, i: nat)
    requires Invariant(e) && HasSacks(ack) && i < |e.packets|
    requires forall k :: 0 <= k < |ack.sacks| && IsDSack(ack.sacks[k], ack.number) ==> ack.sacks[k] == s
    ensures var f, ps := ProcessAck(e, ack), e.packets;
            && |f.packets| == |ps|
            && (IsLost(f.packets, f.packets[i]) <==>
                && ps[i].links.rtx.Some? && !SpuriousAt(ps, ps[i].links.rtx.value)
                && !TakenBack(ps, i, s, DSackCount(ack.sacks, ack.number)))
  {
    AcksKeepFlags(e, ack);
    assert Forest(e.packets);
    var qs := AckPackets(Advance(e, ack), ack).packets;
    hide *;
    assert |qs| == |e.packets| by { SameSize(e.packets, qs); }
    DSacksMarkMostRecent(qs, ack.sacks, ack.number, s);
    MarkedLosses(e.packets, qs, ProcessAck(e, ack).packets, s, DSackCount(ack.sacks, ack.number), i);
  }

  lemma SameSize(ps: seq<Packet>, qs: seq<Packet>)
    requires SameFlags(ps, qs)
    ensures |qs| == |ps|
  {
  }
}
