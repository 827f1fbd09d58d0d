/** One side of a connection. The fields are updated in place; `State` is the value that the model speaks about, and
    every method is proved to do to it what the corresponding function of EndpointModel says. */
module TcpEndpoint {
  import opened Arithmetic
  import opened SeqSpace
  import opened TcpSacks
  import opened TcpTimer
  import opened EndpointModel

  class Connection {
    var mss: u32
    var packets: seq<Packet>
    var unackedPackets: seq<nat>
    var unusedSackLookalikes: seq<Ack>
    var lastAck: Option<Ack>
    var lastAckWithTrigger: Option<Ack>
    var triggers: map<nat, nat>
    var current: Packet
    const sacks: Scoreboard
    const timer: RttTimer
    var rto: TimerInfo
    var tlp: TimerInfo
    var numRtos: nat
    var rtoHighSeq: u32
    var seqAcked: u32
    var seqNext: u32
    var seqInit: u32
    var ackInit: u32
    var ackedBytes: nat
    var seqInitialized: bool
    var minRttUs: u32
    var unmatchedRtx: nat
    var isBogus: bool
    var isTlpEnabled: bool

    function SequenceFields(): Sequences
      reads this
    {
      Sequences(seqInit, seqAcked, seqNext, rtoHighSeq, ackedBytes, ackInit, seqInitialized)
    }

    ghost function State(): Endpoint
      reads this, sacks, timer
    {
      Endpoint(packets, current, unackedPackets, SequenceFields(), sacks.State(), timer.State(), timer.samples,
               Timers(rto, tlp, numRtos, isTlpEnabled),
               Acks(lastAck, lastAckWithTrigger, unusedSackLookalikes, triggers, minRttUs),
               mss, unmatchedRtx, isBogus)
    }

    constructor (first: Segment)
      ensures State() == NewEndpoint(first) && fresh(sacks) && fresh(timer)
    {
      mss, packets, unackedPackets, unusedSackLookalikes := 0, [], [], [];
      lastAck, lastAckWithTrigger, triggers := None, None, map[];
      current := NewPacket(first, 0, 0);
      rto, tlp, numRtos, rtoHighSeq := CLEARED, CLEARED, 0, 0;
      seqAcked, seqNext, seqInit, ackInit, ackedBytes, seqInitialized := 0, 0, 0, 0, 0, false;
      minRttUs, unmatchedRtx, isBogus, isTlpEnabled := 0, 0, false, true;
      sacks := new Scoreboard();
      timer := new RttTimer();
      new;
      SetInitialSequenceNumbers(first);
    }

    method SetInitialSequenceNumbers(g: Segment)
      modifies this`seqInit, this`seqAcked, this`seqNext, this`ackInit, this`seqInitialized
      ensures SequenceFields() == SetInitial(old(SequenceFields()), g)
    {
      if seqInit == 0 {
        seqAcked, seqInit := g.seqNo, g.seqNo;
        seqNext := Wrap(seqAcked + 1);
      }
      if ackInit == 0 && g.ackFlag {
        ackInit := Wrap(g.ack - 1);
      }
      if seqInit != 0 && ackInit != 0 {
        seqInitialized := true;
      }
    }

    function GetUnackedBytes(): u32
      reads this, sacks
    {
      if sacks.numBytes > Sub(seqNext, seqAcked) then 0 else Sub(Sub(seqNext, seqAcked), sacks.numBytes)
    }

    // ----- timers

    predicate IsPacketLost(p: Packet)
      reads this
    {
      IsLost(packets + [current], p)
    }

    /** Whether exactly one outstanding packet is still on its way. */
    method ExactlyOneInFlight() returns (delayedAck: bool)
      ensures delayedAck <==> InFlight(packets + [current], unackedPackets) == 1
    {
      delayedAck := false;
      for i := 0 to |unackedPackets|
        invariant InFlight(packets + [current], unackedPackets[..i]) == if delayedAck then 1 else 0
      {
        assert unackedPackets[..i + 1][..i] == unackedPackets[..i];
        var pos := unackedPackets[i];
        if pos < |packets + [current]| && !IsPacketLost((packets + [current])[pos]) {
          if delayedAck {
            InFlightGrows(packets + [current], unackedPackets, i + 1);
            return false;
          }
          delayedAck := true;
        }
      }
      assert unackedPackets[..|unackedPackets|] == unackedPackets;
    }

    method ArmTimers(armer: Armer)
      modifies this`rto, this`tlp
      ensures State() == EndpointModel.ArmTimers(old(State()), armer)
    {
      hide Rto;
      hide Tlp;
      hide InFlight;
      SetTimers(armer);
    }

    method SetTimers(armer: Armer)
      modifies this`rto, this`tlp
      ensures rto == TimerInfo(armer, Rto(timer.State(), numRtos), numRtos, old(rto).delayedAck)
      ensures var delayedAck := InFlight(packets + [current], unackedPackets) == 1;
              tlp == TimerInfo(armer, Tlp(timer.State(), delayedAck), old(tlp).backoffs, delayedAck)
    {
      hide Rto;
      hide Tlp;
      hide InFlight;
      rto := rto.(armer := armer);
      var delay := timer.GetRTO(numRtos);
      rto := rto.(delay := delay, backoffs := numRtos);
      tlp := tlp.(armer := armer);
      var delayedAck := ExactlyOneInFlight();
      delay := timer.GetTLP(delayedAck);
      tlp := tlp.(delay := delay, delayedAck := delayedAck);
    }

    // ----- retransmissions

    method CheckForTLP() returns (isTlp: bool)
      modifies this`tlp, this`current
      ensures (State(), isTlp) == EndpointModel.CheckForTLP(old(State()))
    {
      if tlp.armer.Nobody? || !isTlpEnabled {
        return false;
      }
      if SeqEnd(current.segment) != seqNext {
        return false;
      }
      if OffSchedule(tlp, current.segment.ts) {
        return false;
      }
      tlp := tlp.(delay := Elapsed(current.segment.ts, ArmerTs(tlp.armer)));
      current := current.(flags := current.flags.(isTlp := true));
      current := current.(tlpInfo := tlp);
      return true;
    }

    predicate IsArmerTlp()
      reads this
    {
      match rto.armer
      case Nobody => false
      case Own(pos, _) => pos < |packets| && packets[pos].flags.isTlp
      case Peer(ack) => ack.isTlp
    }

    method CheckForRTO() returns (isRto: bool)
      modifies this`rto, this`tlp, this`current, this`packets, this`numRtos, this`rtoHighSeq, this`isTlpEnabled
      ensures (State(), isRto) == EndpointModel.CheckForRTO(old(State()))
      decreases numRtos
    {
      hide RevokeRto;
      hide OffSchedule;
      hide TakeRto;
      hide EndpointModel.ArmTimers;
      hide WithFlags;
      if rto.armer.Nobody? {
        return false;
      }
      if OffSchedule(rto, current.segment.ts) {
        if isTlpEnabled && numRtos == 1 && IsArmerTlp() {
          RevokeExpiry();
          isRto := CheckForRTO();
          return isRto;
        }
        return false;
      }
      TieToRto();
      return true;
    }

    method RevokeExpiry()
      requires numRtos > 0
      modifies this`rto, this`tlp, this`packets, this`numRtos, this`rtoHighSeq
      ensures State() == RevokeRto(old(State())) && numRtos == old(numRtos) - 1
    {
      hide EndpointModel.ArmTimers;
      hide WithFlags;
      DropExpiry();
      ArmTimers(rto.armer);
    }

    method DropExpiry()
      requires numRtos > 0
      modifies this`packets, this`numRtos, this`rtoHighSeq
      ensures numRtos == old(numRtos) - 1 && rtoHighSeq == 0
      ensures packets == WithFlags(old(packets), rto.armer, (f: Flags) => f.(isRto := false))
    {
      hide WithFlags;
      numRtos := numRtos - 1;
      rtoHighSeq := 0;
      packets := WithFlags(packets, rto.armer, (f: Flags) => f.(isRto := false));
    }

    method TieToRto()
      modifies this`rto, this`current, this`packets, this`numRtos, this`rtoHighSeq, this`isTlpEnabled
      ensures State() == TakeRto(old(State()))
    {
      hide StampRto;
      hide WithFlags;
      StampExpiry();
      if numRtos == 2 && IsArmerTlp() {
        isTlpEnabled := false;
        packets := WithFlags(packets, rto.armer, (f: Flags) => f.(isTlp := false));
      }
    }

    method StampExpiry()
      modifies this`rto, this`current, this`numRtos, this`rtoHighSeq, this`isTlpEnabled
      ensures State() == StampRto(old(State()))
    {
      hide Elapsed;
      hide NextRtos;
      NoteExpiry();
    }

    method NoteExpiry()
      modifies this`rto, this`current, this`numRtos, this`rtoHighSeq, this`isTlpEnabled
      ensures rto == old(rto).(delay := Elapsed(old(current).segment.ts, ArmerTs(old(rto).armer)))
      ensures current == old(current).(flags := old(current).flags.(isRto := true), rtoInfo := rto)
      ensures numRtos == NextRtos(old(numRtos)) && rtoHighSeq == seqNext
      ensures isTlpEnabled == (old(isTlpEnabled) && !(numRtos == 1 && !old(current).flags.isTlp))
    {
      StampPacket();
      numRtos := NextRtos(numRtos);
      rtoHighSeq := seqNext;
      if numRtos == 1 && !current.flags.isTlp {
        isTlpEnabled := false;
      }
    }

    method StampPacket()
      modifies this`rto, this`current
      ensures rto == old(rto).(delay := Elapsed(old(current).segment.ts, ArmerTs(old(rto).armer)))
      ensures current == old(current).(flags := old(current).flags.(isRto := true), rtoInfo := rto)
    {
      rto := rto.(delay := Elapsed(current.segment.ts, ArmerTs(rto.armer)));
      current := current.(flags := current.flags.(isRto := true), rtoInfo := rto);
    }

    method FindRtxTrigger() returns (found: bool)
      modifies this`rto, this`tlp, this`current, this`packets, this`numRtos, this`rtoHighSeq, this`isTlpEnabled
      ensures State() == EndpointModel.FindRtxTrigger(old(State()))
    {
      hide EndpointModel.CheckForRTO;
      hide EndpointModel.CheckForTLP;
      hide EndpointModel.ArmTimers;
      hide Elapsed;
      if lastAck.Some? {
        var elapsed := Elapsed(current.segment.ts, lastAck.value.ts);
        if elapsed <= MAX_TRIGGER_DELAY_US {
          if lastAckWithTrigger.Some? {
            var id := lastAckWithTrigger.value.id;
            current := current.(trigger := if id in triggers then Some(triggers[id]) else None);
          }
          if rtoHighSeq != 0 {
            current := current.(flags := current.flags.(isSlowStart := true));
          } else {
            current := current.(flags := current.flags.(isFast := true));
          }
          return true;
        }
      }
      var hasTlp := CheckForTLP();
      var hasRto := CheckForRTO();
      if hasTlp || hasRto {
        ArmTimers(Own(|packets|, current.segment.ts));
        tlp := CLEARED;
        return true;
      }
      return false;
    }

    /** The reverse search, the link, and the walk back along the earlier transmissions. */
    method LinkToPreviousTx() returns (linked: bool)
      modifies this`packets, this`current
      ensures (State(), linked) == EndpointModel.LinkToPreviousTx(old(State()))
    {
      hide CoversStart;
      hide CreditChain;
      var k := FindPreviousTx();
      if k == 0 {
        return false;
      }
      LinkTo(k - 1);
      return true;
    }

    /** The reverse search: one past the position found, or 0. */
    method FindPreviousTx() returns (k: nat)
      ensures k == PreviousTx(packets, current.segment.seqNo, |packets|)
    {
      hide CoversStart;
      k := |packets|;
      while k > 0 && !CoversStart(packets[k - 1].segment, current.segment.seqNo)
        invariant k <= |packets|
        invariant PreviousTx(packets, current.segment.seqNo, k)
               == PreviousTx(packets, current.segment.seqNo, |packets|)
      {
        k := k - 1;
      }
    }

    method LinkTo(pos: nat)
      requires pos < |packets|
      modifies this`packets, this`current
      ensures var previous := old(packets)[pos];
              var linked := previous.(links := previous.links.(rtx := Some(|old(packets)|)));
              && packets == CreditChain(old(packets)[pos := linked], pos, old(current).segment.ts)
              && current == old(current).(links := old(current).links.(previous := Some(pos),
                                                                       first := previous.links.first))
    {
      hide CreditChain;
      var n, previous := |packets|, packets[pos];
      packets := packets[pos := previous.(links := previous.links.(rtx := Some(n)))];
      CreditEarlierTxs(pos);
      current := current.(links := current.links.(previous := Some(pos), first := previous.links.first));
    }

    method CreditEarlierTxs(start: nat)
      requires start < |packets|
      modifies this`packets
      ensures packets == CreditChain(old(packets), start, current.segment.ts)
    {
      hide Credited;
      var pos: nat, more := start, true;
      while more
        invariant pos < |packets| == |old(packets)|
        invariant (if more then CreditChain(packets, pos, current.segment.ts) else packets)
               == CreditChain(old(packets), start, current.segment.ts)
        decreases pos, more
      {
        var before := packets[pos].links.previous;
        packets := packets[pos := Credited(packets[pos], current.segment.ts)];
        more := before.Some? && before.value < pos;
        if more {
          pos := before.value;
        }
      }
    }

    method MarkPacketsOutOfOrder()
      modifies this`packets
      ensures State() == EndpointModel.MarkOutOfOrder(old(State()))
    {
      var previous := if current.links.previous.Some? then current.links.previous.value + 1 else 0;
      var i: nat := |packets|;
      while i > previous
        invariant i <= |packets| == |old(packets)| && (previous <= i || i == |packets|)
        invariant packets == MarkedFrom(old(packets), i)
      {
        i := i - 1;
        if packets[i].segment.len != 0 {
          packets := packets[i := packets[i].(flags := packets[i].flags.(outOfOrder := true))];
        }
      }
      assert i <= previous && (i == previous || |packets| <= previous);
      assert packets == MarkedFrom(old(packets), previous);
    }

    method ProcessRtx()
      modifies this, sacks, timer
      ensures State() == EndpointModel.ProcessRtx(old(State()))
    {
      hide CheckLookalikesFrom;
      hide EndpointModel.FindRtxTrigger;
      hide EndpointModel.LinkToPreviousTx;
      hide EndpointModel.MarkOutOfOrder;
      hide NoteUnmatched;
      CheckForSacksFromLookalikes();
      current := current.(flags := current.flags.(isRtx := true));
      var found := FindRtxTrigger();
      var linked := LinkToPreviousTx();
      if !linked {
        CountUnmatched();
      }
      MarkPacketsOutOfOrder();
    }

    method CountUnmatched()
      modifies this`unmatchedRtx, this`isBogus
      ensures State() == NoteUnmatched(old(State()))
    {
      unmatchedRtx := unmatchedRtx + 1;
      if unmatchedRtx > 100 {
        isBogus := true;
      }
    }

    // ----- SACK lookalikes

    method AdjustUnackedBytesCounts(offset: u32)
      modifies this`packets
      ensures packets == ShiftUnacked(old(packets), offset)
    {
      var i: nat := |packets|;
      while i > 0
        invariant i <= |packets| == |old(packets)|
        invariant forall k :: 0 <= k < |packets| ==>
                    packets[k] == if k < i then old(packets)[k] else ShiftUnacked(old(packets), offset)[k]
      {
        i := i - 1;
        var s := packets[i].snapshot;
        packets := packets[i := packets[i].(snapshot := s.(unackedBytes := Wrap(s.unackedBytes + offset)))];
      }
    }

    method TiePacketToSackLookalike(pos: nat) returns (tied: bool)
      requires pos < |packets|
      modifies this, sacks, timer
      ensures (State(), tied) == EndpointModel.TiePacketToSackLookalike(old(State()), pos)
    {
      while unusedSackLookalikes != []
        invariant pos < |packets|
        invariant EndpointModel.TiePacketToSackLookalike(State(), pos)
               == EndpointModel.TiePacketToSackLookalike(old(State()), pos)
        decreases |unusedSackLookalikes|
      {
        var possible := unusedSackLookalikes[0];
        unusedSackLookalikes := unusedSackLookalikes[1..];
        if packets[pos].segment.ts + minRttUs < possible.ts {
          TiePacketTo(pos, possible);
          return true;
        }
      }
      return false;
    }

    method TiePacketTo(pos: nat, ack: Ack)
      requires pos < |packets|
      modifies this, sacks, timer
      ensures State() == TieTo(old(State()), pos, ack)
    {
      assert |HandleAcked(State(), pos, ack).packets| == |packets|;
      hide HandleAcked;
      hide EndpointModel.AfterTie;
      hide AddOne;
      hide SeqEnd;
      var g := packets[pos].segment;
      RecordTied(pos, ack, g);
      AfterTie(ack, g.len);
    }

    method AfterTie(ack: Ack, len: u32)
      modifies this`lastAckWithTrigger, this`rto, this`tlp, this`packets
      ensures State() == EndpointModel.AfterTie(old(State()), ack, len)
    {
      hide EndpointModel.ArmTimers;
      hide ShiftUnacked;
      if lastAckWithTrigger.None? || ack.ts > lastAckWithTrigger.value.ts {
        lastAckWithTrigger := Some(ack);
        ArmTimers(Peer(ack));
        AdjustUnackedBytesCounts(len);
      }
    }

    method RecordTied(pos: nat, ack: Ack, g: Segment)
      modifies this`packets, this`minRttUs, this`triggers, timer, sacks
      ensures State() == HandleAcked(old(State()), pos, ack).(board := AddOne(old(State()).board,
                                                                              Sack(g.seqNo, SeqEnd(g))))
    {
      hide HandleAcked;
      hide AddOne;
      hide SeqEnd;
      HandleKeepsBoard(State(), pos, ack);
      HandleAckedPacket(pos, ack);
      sacks.Add(Sack(g.seqNo, SeqEnd(g)));
    }

    method CheckForSacksFromLookalikes()
      modifies this, sacks, timer
      ensures State() == CheckLookalikesFrom(old(State()), 0)
    {
      hide EndpointModel.TiePacketToSackLookalike;
      hide IsLost;
      var i := 0;
      while i < |unackedPackets| && unusedSackLookalikes != [] && unackedPackets[i] < |packets|
        invariant CheckLookalikesFrom(State(), i) == CheckLookalikesFrom(old(State()), 0)
        decreases |unackedPackets| - i
      {
        var p := packets[unackedPackets[i]];
        if !After(current.segment.seqNo, p.segment.seqNo) {
          return;
        } else if !IsPacketLost(p) && p.links.previous.None? {
          var tied := TiePacketToSackLookalike(unackedPackets[i]);
          if !tied {
            return;
          }
          unackedPackets := unackedPackets[..i] + unackedPackets[i + 1..];
        } else {
          i := i + 1;
        }
      }
    }

    // ----- acknowledgments

    method HandleAckedPacket(pos: nat, ack: Ack)
      modifies this`packets, this`minRttUs, this`triggers, timer
      ensures State() == HandleAcked(old(State()), pos, ack)
    {
      if pos >= |packets| {
        return;
      }
      var delay := AckDelay(packets[pos], ack);
      packets := packets[pos := packets[pos].(acked := Acked(Some(ack), delay))];
      if packets[pos].links.previous.None? && (delay < minRttUs || minRttUs == 0) {
        minRttUs := delay;
      }
      triggers := triggers[ack.id := pos];
      if packets[pos].links.previous.None? && packets[pos].links.rtx.None? {
        timer.AddSample(RttSample(pos, Signed(delay), seqAcked, seqNext));
      }
    }

    method AckPackets(ack: Ack)
      requires lastAck == Some(ack)
      modifies this, timer
      ensures State() == EndpointModel.AckPackets(old(State()), ack)
    {
      HandleAllLeaves(State(), unackedPackets, ack);
      hide HandleAll;
      hide Kept;
      hide EndpointModel.ArmTimers;
      var remaining := HandleOutstanding(ack);
      var ackedData := |remaining| < |unackedPackets|;
      unackedPackets := remaining;
      if ackedData {
        RearmTimers(ack);
      }
      if unackedPackets == [] {
        rto := CLEARED;
        tlp := CLEARED;
      }
    }

    method RearmTimers(ack: Ack)
      requires lastAck == Some(ack)
      modifies this`rto, this`tlp, this`lastAckWithTrigger
      ensures var armed := EndpointModel.ArmTimers(old(State()), Peer(ack));
              State() == armed.(acks := armed.acks.(lastWithTrigger := Some(ack)))
    {
      hide InFlight;
      ArmTimers(Peer(ack));
      lastAckWithTrigger := lastAck;
    }

    /** The loop over the outstanding packets. */
    method HandleOutstanding(ack: Ack) returns (remaining: seq<nat>)
      modifies this`packets, this`minRttUs, this`triggers, timer
      ensures State() == HandleAll(old(State()), unackedPackets, ack)
      ensures remaining == Kept(old(State()), unackedPackets, ack.sacks)
    {
      hide HandleAcked;
      hide IsAcked;
      ghost var start := State();
      remaining := [];
      for i := 0 to |unackedPackets|
        invariant unackedPackets == old(unackedPackets) && seqAcked == old(seqAcked)
        invariant State() == HandleAll(start, unackedPackets[..i], ack)
        invariant remaining == Kept(start, unackedPackets[..i], ack.sacks)
      {
        assert unackedPackets[..i + 1][..i] == unackedPackets[..i];
        var pos := unackedPackets[i];
        SameSegments(start, unackedPackets[..i], ack);
        var acked := IsPacketAcked(pos, ack.sacks);
        if acked {
          HandleAckedPacket(pos, ack);
        } else {
          remaining := remaining + [pos];
        }
      }
      assert unackedPackets[..|unackedPackets|] == unackedPackets;
    }

    method IsPacketAcked(pos: nat, blocks: seq<Sack>) returns (acked: bool)
      ensures acked == AckedAt(State(), pos, blocks)
    {
      if pos >= |packets| {
        return false;
      }
      var g := packets[pos].segment;
      if !After(SeqEnd(g), seqAcked) {
        return true;
      }
      for i := 0 to |blocks|
        invariant forall k :: 0 <= k < i ==> !RangeIncluded(g.seqNo, SeqEnd(g), blocks[k].start, blocks[k].end)
      {
        if RangeIncluded(g.seqNo, SeqEnd(g), blocks[i].start, blocks[i].end) {
          return true;
        }
      }
      return false;
    }

    method DSackPackets(blocks: seq<Sack>, number: u32)
      modifies this`packets
      ensures State() == old(State()).(packets := EndpointModel.DSackPackets(old(packets), blocks, number))
    {
      for i := 0 to |blocks|
        invariant State() == old(State()).(packets := EndpointModel.DSackPackets(old(packets), blocks[..i], number))
      {
        assert blocks[..i + 1][..i] == blocks[..i];
        if IsDSack(blocks[i], number) {
          HandleSpuriousRtx(blocks[i]);
        }
      }
      assert blocks[..|blocks|] == blocks;
    }

    method HandleSpuriousRtx(block: Sack)
      modifies this`packets
      ensures packets == MarkSpurious(old(packets), block, |old(packets)|)
    {
      var i: nat := |packets|;
      while i > 0
        invariant i <= |packets| && packets == old(packets)
        invariant MarkSpurious(packets, block, i) == MarkSpurious(packets, block, |packets|)
      {
        i := i - 1;
        if IsSpuriousCandidate(packets[i], block) {
          packets := packets[i := packets[i].(flags := packets[i].flags.(isSpurious := true))];
          return;
        }
      }
    }

    method ProcessAck(ack: Ack)
      modifies this, sacks, timer
      ensures State() == EndpointModel.ProcessAck(old(State()), ack)
    {
      ghost var before := State();
      var moved, hasSacks := AdvanceAck(ack);
      if moved || hasSacks {
        AckPackets(ack);
        sacks.AddSacks(ack.sacks);
        sacks.RemoveAcked(seqAcked);
        numRtos := 0;
      }
      if hasSacks {
        DSackPackets(ack.sacks, ack.number);
      }
    }

    method AdvanceAck(ack: Ack) returns (moved: bool, hasSacks: bool)
      modifies this
      ensures State() == Advance(old(State()), ack) && lastAck == Some(ack)
      ensures moved == Moves(old(State()).seqs, ack) && hasSacks == HasSacks(ack)
    {
      hide AdvanceAcked;
      lastAck := Some(ack);
      moved := After(ack.number, seqAcked);
      hasSacks := ack.numSacks != 0;
      if moved {
        if After(ack.number, seqNext) {
          isBogus := true;
        }
        MoveAcked(ack.number);
      } else if ack.number == seqAcked {
        if ack.unknownOptions >= 10 {
          unusedSackLookalikes := unusedSackLookalikes + [ack];
        }
      }
    }

    method MoveAcked(number: u32)
      modifies this`ackedBytes, this`seqAcked, this`rtoHighSeq
      ensures State() == old(State()).(seqs := AdvanceAcked(old(State()).seqs, number))
    {
      ackedBytes := ackedBytes + Sub(number, seqAcked);
      seqAcked := number;
      if rtoHighSeq != 0 && !Before(seqAcked, rtoHighSeq) {
        rtoHighSeq := 0;
      }
    }

    // ----- sending

    method DeriveMSS(len: u32)
      modifies this`mss
      ensures mss == if DerivedMss(len) != 0 then DerivedMss(len) else old(mss)
    {
      if len < MIN_MSS {
        return;
      } else if len <= MAX_MSS {
        mss := len;
      } else {
        var mult := 2;
        while mult <= 10
          invariant 2 <= mult <= 11 && mss == old(mss) && Divisor(len, 2) == Divisor(len, mult)
        {
          if len % mult == 0 && len / mult <= MAX_MSS {
            mss := len / mult;
            break;
          }
          mult := mult + 1;
        }
      }
    }

    method SplitIntoWirePackets(g: Segment) returns (wire: seq<Segment>)
      ensures wire == WireSegments(g, mss)
    {
      if mss == 0 || g.len <= mss {
        return [g];
      }
      wire := [];
      var offset: u32 := 0;
      while offset < g.len
        invariant offset <= g.len && 0 < mss < g.len
        invariant wire + SplitFrom(g, mss, offset) == SplitFrom(g, mss, 0)
        decreases g.len - offset
      {
        var len: u32 := Min(mss, g.len - offset);
        wire := wire + [Cut(g, offset, len)];
        offset := offset + len;
      }
    }

    method AddPacket(g: Segment) returns (wire: seq<Segment>)
      modifies this, sacks, timer
      ensures State() == EndpointModel.AddPacket(old(State()), g)
      ensures wire == WireSegments(g, Prepared(old(State()), g).mss)
    {
      hide EndpointModel.AddWirePacket;
      hide WireSegments;
      Prepare(g);
      wire := SplitIntoWirePackets(g);
      ghost var start := State();
      for i := 0 to |wire|
        invariant State() == AddWirePackets(start, wire[..i])
      {
        assert wire[..i + 1][..i] == wire[..i];
        AddWirePacket(wire[i]);
      }
      assert wire[..|wire|] == wire;
    }

    method Prepare(g: Segment)
      modifies this`seqInit, this`seqAcked, this`seqNext, this`ackInit, this`seqInitialized, this`mss
      ensures State() == Prepared(old(State()), g)
    {
      hide SetInitial;
      hide DerivedMss;
      if !seqInitialized {
        SetInitialSequenceNumbers(g);
      }
      if mss == 0 {
        DeriveMSS(g.len);
      }
    }

    method AddWirePacket(g: Segment)
      modifies this, sacks, timer
      ensures State() == EndpointModel.AddWirePacket(old(State()), g)
    {
      hide SendData;
      hide SendSyn;
      hide EndpointModel.Outstanding;
      current := NewPacket(g, |packets|, ackedBytes);
      if RequiresAck(g) {
        if g.len != 0 {
          SendDataPacket();
        } else {
          SendSynPacket();
        }
        NoteOutstanding();
      }
      packets := packets + [current];
    }

    method NoteOutstanding()
      modifies this`unackedPackets, this`rto, this`tlp
      ensures State() == Outstanding(old(State()))
    {
      hide EndpointModel.ArmTimers;
      unackedPackets := unackedPackets + [|packets|];
      if rto.armer.Nobody? {
        ArmTimers(Own(|packets|, current.segment.ts));
      }
    }

    method SendSynPacket()
      modifies this, sacks, timer
      ensures State() == SendSyn(old(State()))
    {
      if unackedPackets != [] {
        ProcessRtx();
      }
    }

    method SendDataPacket()
      modifies this, sacks, timer
      ensures State() == SendData(old(State()))
    {
      hide EndpointModel.ProcessRtx;
      hide AdvanceNext;
      hide Rto;
      hide Tlp;
      hide EndpointModel.UnackedBytes;
      var seqMoved := MoveNext(SeqEnd(current.segment));
      if !seqMoved || rtoHighSeq != 0 {
        ProcessRtx();
      }
      RecordSnapshot();
    }

    method MoveNext(end: u32) returns (seqMoved: bool)
      modifies this`seqNext, this`rtoHighSeq
      ensures SequenceFields() == AdvanceNext(old(SequenceFields()), end)
      ensures seqMoved == After(end, old(seqNext))
    {
      seqMoved := false;
      if After(end, seqNext) {
        seqNext := end;
        seqMoved := true;
      }
      if rtoHighSeq != 0 && After(seqNext, rtoHighSeq) {
        rtoHighSeq := 0;
      }
    }

    method RecordSnapshot()
      modifies this`current
      ensures State() == WithSnapshot(old(State()))
    {
      hide Rto;
      hide Tlp;
      var rtoEstimate := timer.GetRTO(0);
      var tlpEstimate := timer.GetTLP(false);
      var tlpDelayed := timer.GetTLP(true);
      current := current.(snapshot := current.snapshot.(unackedBytes := GetUnackedBytes(), lastAck := lastAck,
                                                        rto := rtoEstimate, tlp := tlpEstimate,
                                                        tlpDelayed := tlpDelayed));
    }

    // ----- samples for the delay fit

    /** Samples near a packet, collected through a circular buffer. */
    method GetUnackedBytesRttPairsAroundPacket(target: nat, numSamples: nat, olderOnly: bool)
      returns (pairs: seq<(u32, u32)>)
      requires 0 < if olderOnly then numSamples else numSamples / 2
      ensures pairs == SamplesAround(packets, target, if olderOnly then numSamples else numSamples / 2, olderOnly)
    {
      hide IsEligible;
      hide Samples;
      hide LastOf;
      hide FirstOf;
      var distance := if olderOnly then numSamples else numSamples / 2;
      pairs := [];
      var ring, index := FillRing(target, distance);
      if target >= |packets| || index == 0 {
        return;
      }
      pairs := ReadRing(ring, index, Samples(packets, packets[..target + 1]));
      if olderOnly {
        return;
      }
      var after := CollectFrom(target, distance);
      pairs := pairs + after;
    }

    /** Reading the buffer from its oldest sample on. */
    static method ReadRing(ring: array<(u32, u32)>, index: nat, ghost before: seq<(u32, u32)>)
      returns (pairs: seq<(u32, u32)>)
      requires ring.Length > 0 && index == |before|
      requires forall k :: 0 <= k < index && index - ring.Length <= k ==> ring[k % ring.Length] == before[k]
      ensures pairs == LastOf(before, ring.Length)
    {
      pairs := [];
      var size := ring.Length;
      var first := if index < size then 0 else index - size;
      for i := first to index
        invariant pairs == before[first..i]
      {
        assert ring[i % size] == before[i];
        pairs := pairs + [ring[i % size]];
      }
    }

    /** The first pass: the buffer ends up holding the most recent samples, each at its index modulo the size. */
    method FillRing(target: nat, size: nat) returns (ring: array<(u32, u32)>, index: nat)
      requires size > 0
      ensures fresh(ring) && ring.Length == size
      ensures target < |packets| ==>
                var before := Samples(packets, packets[..target + 1]);
                && index == |before|
                && forall k :: 0 <= k < index && index - size <= k ==> ring[k % size] == before[k]
    {
      hide IsEligible;
      ring := new (u32, u32)[size]((_: nat) => (0, 0));
      index := 0;
      var i := 0;
      while i < |packets|
        invariant i <= |packets| && i <= target
        invariant index == |Samples(packets, packets[..i])|
        invariant forall k :: 0 <= k < index && index - size <= k
                              ==> ring[k % size] == Samples(packets, packets[..i])[k]
      {
        assert packets[..i + 1][..i] == packets[..i];
        if IsEligible(packets, packets[i]) {
          forall k | 0 <= k < index && index - size < k
            ensures k % size != index % size
          {
            DistinctSlots(k, index, size);
          }
          ring[index % size] := (packets[i].snapshot.unackedBytes, packets[i].acked.delay);
          index := index + 1;
        }
        if i == target {
          break;
        }
        i := i + 1;
      }
    }

    /** The second pass, from the target on, until enough samples were seen. */
    method CollectFrom(target: nat, distance: nat) returns (pairs: seq<(u32, u32)>)
      requires target < |packets|
      ensures pairs == FirstOf(Samples(packets, packets[target..]), distance)
    {
      hide IsEligible;
      pairs := [];
      var i := target;
      while i < |packets| && |pairs| < distance
        invariant target <= i <= |packets|
        invariant pairs == Samples(packets, packets[target..i]) && |pairs| <= distance
      {
        assert packets[target..i + 1][..i - target] == packets[target..i];
        if IsEligible(packets, packets[i]) {
          pairs := pairs + [(packets[i].snapshot.unackedBytes, packets[i].acked.delay)];
        }
        i := i + 1;
      }
      SamplesPrefix(packets, packets[target..], i - target);
      assert packets[target..][..i - target] == packets[target..i];
      assert i == |packets| ==> packets[target..i] == packets[target..];
      ghost var all := Samples(packets, packets[target..]);
      assert pairs == all[..|pairs|];
    }
  }

  lemma MultipleOf(q: int, size: int)
    requires -size < q * size < size
    ensures q == 0
  {
    assert q >= 1 ==> q * size >= size;
    assert q <= -1 ==> q * size <= -size;
  }

  /** Indices less than the size apart use different slots. */
  lemma DistinctSlots(k: nat, index: nat, size: nat)
    requires size > 0 && index - size < k < index
    ensures k % size != index % size
  {
    var a, b := k / size, index / size;
    assert k == a * size + k % size && index == b * size + index % size;
    assert (b - a) * size == b * size - a * size;
    if k % size == index % size {
      MultipleOf(b - a, size);
    }
  }

  lemma {:induction false} SamplesPrefix(all: seq<Packet>, ps: seq<Packet>, n: nat)
    requires n <= |ps|
    ensures Samples(all, ps[..n]) <= Samples(all, ps)
    decreases |ps| - n
  {
    if n < |ps| {
      assert ps[..n + 1][..n] == ps[..n];
      SamplesPrefix(all, ps, n + 1);
    } else {
      assert ps[..n] == ps;
    }
  }

  lemma {:induction false} HandleAllLeaves(e: Endpoint, positions: seq<nat>, ack: Ack)
    ensures HandleAll(e, positions, ack).unacked == e.unacked && HandleAll(e, positions, ack).acks.last == e.acks.last
  {
    if positions != [] {
      hide AckedAt;
      HandleAllLeaves(e, positions[..|positions| - 1], ack);
    }
  }

  lemma {:induction false} SameSegments(e: Endpoint, positions: seq<nat>, ack: Ack)
    ensures var f := HandleAll(e, positions, ack);
            && |f.packets| == |e.packets| && f.seqs == e.seqs
            && forall i :: 0 <= i < |e.packets| ==> f.packets[i].segment == e.packets[i].segment
  {
    if positions != [] {
      hide AckedAt;
      SameSegments(e, positions[..|positions| - 1], ack);
    }
  }

  lemma {:induction false} InFlightGrows(ps: seq<Packet>, positions: seq<nat>, i: nat)
    requires i <= |positions|
    ensures InFlight(ps, positions[..i]) <= InFlight(ps, positions)
    decreases |positions| - i
  {
    if i < |positions| {
      assert positions[..i + 1][..i] == positions[..i];
      InFlightGrows(ps, positions, i + 1);
    } else {
      assert positions[..i] == positions;
    }
  }

  lemma HandleKeepsBoard(e: Endpoint, pos: nat, ack: Ack)
    ensures HandleAcked(e, pos, ack).board == e.board
  {
    hide Sampled;
  }
}
