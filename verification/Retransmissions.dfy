/** The retransmission forest: links between transmissions of the same data, and the accounting along them. */
module Retransmissions {
  import opened SeqSpace
  import opened EndpointModel

  // ----- the forest

  /** The links of packet i: an earlier previous transmission that covers its start, a later retransmission that
      points back, and the root of the previous-transmission chain. */
  predicate LinkedAt(ps: seq<Packet>, i: nat)
    requires i < |ps|
  {
    var l := ps[i].links;
    && l.first <= i
    && (l.previous.None? ==> l.first == i)
    && (l.previous.Some? ==>
          && l.previous.value < i && l.first == ps[l.previous.value].links.first
          && CoversStart(ps[l.previous.value].segment, ps[i].segment.seqNo))
    && (l.rtx.Some? ==> i < l.rtx.value < |ps| && ps[l.rtx.value].links.previous == Some(i))
  }

  predicate Forest(ps: seq<Packet>) {
    forall i :: 0 <= i < |ps| ==> LinkedAt(ps, i)
  }

  predicate SameLinks(ps: seq<Packet>, qs: seq<Packet>) {
    |qs| == |ps| && forall i :: 0 <= i < |ps| ==> qs[i].links == ps[i].links && qs[i].segment == ps[i].segment
  }

  lemma ForestFrame(ps: seq<Packet>, qs: seq<Packet>)
    requires Forest(ps) && SameLinks(ps, qs)
    ensures Forest(qs)
  {
    forall i | 0 <= i < |qs|
      ensures LinkedAt(qs, i)
    {
      assert LinkedAt(ps, i);
    }
  }

  lemma ForestGrows(ps: seq<Packet>, p: Packet)
    requires Forest(ps) && p.links == Links(None, None, |ps|)
    ensures Forest(ps + [p])
  {
    var qs := ps + [p];
    forall i | 0 <= i < |qs|
      ensures LinkedAt(qs, i)
    {
      assert i < |ps| ==> LinkedAt(ps, i);
    }
  }

  /** Packet j is i or one of its earlier transmissions. */
  predicate InChain(ps: seq<Packet>, i: nat, j: nat)
    requires i < |ps|
    decreases i
  {
    j == i || (var l := ps[i].links.previous; l.Some? && l.value < i && InChain(ps, l.value, j))
  }

  lemma {:induction false} ChainGoesBack(ps: seq<Packet>, i: nat, j: nat)
    requires i < |ps| && InChain(ps, i, j)
    ensures j <= i
    decreases i
  {
    if j != i {
      ChainGoesBack(ps, ps[i].links.previous.value, j);
    }
  }

  lemma {:induction false} ChainFrame(ps: seq<Packet>, qs: seq<Packet>, i: nat, j: nat)
    requires SameLinks(ps, qs) && i < |ps|
    ensures InChain(ps, i, j) == InChain(qs, i, j)
    decreases i
  {
    if j != i && ps[i].links.previous.Some? && ps[i].links.previous.value < i {
      ChainFrame(ps, qs, ps[i].links.previous.value, j);
    }
  }

  /** In a forest the recorded first transmission is the root of the chain, and the chain has no other root. */
  lemma {:induction false} FirstIsRoot(ps: seq<Packet>, i: nat, j: nat)
    requires Forest(ps) && i < |ps|
    ensures InChain(ps, i, ps[i].links.first) && ps[i].links.first < |ps| && ps[ps[i].links.first].links.previous.None?
    ensures InChain(ps, i, j) ==> j < |ps| && ps[j].links.first == ps[i].links.first
    ensures InChain(ps, i, j) && ps[j].links.previous.None? ==> j == ps[i].links.first
    decreases i
  {
    assert LinkedAt(ps, i);
    if ps[i].links.previous.Some? {
      FirstIsRoot(ps, ps[i].links.previous.value, j);
    }
  }

  /** The transmission that was not lost, following the retransmissions of packet i. */
  function LastTx(ps: seq<Packet>, i: nat): (r: nat)
    requires Forest(ps) && i < |ps|
    ensures r < |ps| && i <= r && !IsLost(ps, ps[r])
    decreases |ps| - i
  {
    assert LinkedAt(ps, i);
    if IsLost(ps, ps[i]) then LastTx(ps, ps[i].links.rtx.value) else i
  }

  lemma {:induction false} ChainTransitive(ps: seq<Packet>, i: nat, j: nat, k: nat)
    requires i < |ps| && j < |ps| && InChain(ps, i, j) && InChain(ps, j, k)
    ensures InChain(ps, i, k)
    decreases i
  {
    if j != i {
      ChainTransitive(ps, ps[i].links.previous.value, j, k);
    }
  }

  /** The forward walk ends at a packet from which the backward walk returns, through the start, to the original
      transmission. */
  lemma {:induction false} WalkRetraces(ps: seq<Packet>, i: nat)
    requires Forest(ps) && i < |ps|
    ensures InChain(ps, LastTx(ps, i), i)
    ensures InChain(ps, LastTx(ps, i), ps[i].links.first) && ps[LastTx(ps, i)].links.first == ps[i].links.first
    decreases |ps| - i
  {
    assert LinkedAt(ps, i);
    if IsLost(ps, ps[i]) {
      var next := ps[i].links.rtx.value;
      WalkRetraces(ps, next);
      assert InChain(ps, next, i);
      ChainTransitive(ps, LastTx(ps, i), next, i);
    }
    FirstIsRoot(ps, LastTx(ps, i), i);
  }

  // ----- crediting a retransmission

  /** CreditChain credits every member of the chain once and nothing else. */
  lemma {:induction false} CreditChainExact(ps: seq<Packet>, i: nat, ts: nat)
    requires i < |ps|
    ensures var r := CreditChain(ps, i, ts);
            forall j :: 0 <= j < |ps| ==> r[j] == if InChain(ps, i, j) then Credited(ps[j], ts) else ps[j]
    decreases i
  {
    var qs := ps[i := Credited(ps[i], ts)];
    var before := ps[i].links.previous;
    if before.Some? && before.value < i {
      CreditChainExact(qs, before.value, ts);
      forall j | 0 <= j < |ps|
        ensures InChain(qs, before.value, j) == InChain(ps, before.value, j)
        ensures InChain(ps, before.value, j) ==> j != i
      {
        ChainFrame(ps, qs, before.value, j);
        if InChain(ps, before.value, j) { ChainGoesBack(ps, before.value, j); }
      }
    }
  }

  function Retransmitted(p: Packet, later: nat): Packet {
    p.(links := p.links.(rtx := Some(later)))
  }

  /** What LinkToPreviousTx does to the list when it finds packet j: the two link ends and one credited chain. */
  predicate LinkedTo(e: Endpoint, f: Endpoint, j: nat) {
    var ps, n := e.packets, |e.packets|;
    && j < n && |f.packets| == n
    && f.current == e.current.(links := Links(Some(j), e.current.links.rtx, ps[j].links.first))
    && f == e.(packets := f.packets, current := f.current)
    && forall i :: 0 <= i < n ==>
         var p := if i == j then Retransmitted(ps[i], n) else ps[i];
         f.packets[i] == if InChain(ps, j, i) then Credited(p, e.current.segment.ts) else p
  }

  lemma RetransmittedChain(ps: seq<Packet>, j: nat, later: nat, i: nat)
    requires j < |ps|
    ensures InChain(ps[j := Retransmitted(ps[j], later)], j, i) == InChain(ps, j, i)
  {
    if ps[j].links.previous.Some? && ps[j].links.previous.value < j {
      EarlierChainFrame(ps, ps[j := Retransmitted(ps[j], later)], ps[j].links.previous.value, i);
    }
  }

  lemma {:induction false} EarlierChainFrame(ps: seq<Packet>, qs: seq<Packet>, i: nat, j: nat)
    requires i < |ps| <= |qs| && forall k :: 0 <= k <= i ==> qs[k].links == ps[k].links
    ensures InChain(ps, i, j) == InChain(qs, i, j)
    decreases i
  {
    if j != i && ps[i].links.previous.Some? && ps[i].links.previous.value < i {
      EarlierChainFrame(ps, qs, ps[i].links.previous.value, j);
    }
  }

  lemma LinkedToFound(e: Endpoint)
    requires PreviousTx(e.packets, e.current.segment.seqNo, |e.packets|) > 0
    ensures LinkedTo(e, LinkToPreviousTx(e).0, PreviousTx(e.packets, e.current.segment.seqNo, |e.packets|) - 1)
  {
    hide CoversStart;
    hide CreditChain;
    hide Credited;
    var ps, n := e.packets, |e.packets|;
    var j := PreviousTx(ps, e.current.segment.seqNo, n) - 1;
    var linked := ps[j := Retransmitted(ps[j], n)];
    CreditChainExact(linked, j, e.current.segment.ts);
    forall i: nat {:trigger InChain(ps, j, i)} | i < n
      ensures InChain(linked, j, i) == InChain(ps, j, i)
    {
      RetransmittedChain(ps, j, n, i);
    }
    hide InChain;
  }

  /** The search starts at the back: the link goes to the most recent packet that covers the start, and there is
      none exactly when no packet does. */
  lemma LinkExact(e: Endpoint)
    ensures var (f, linked) := LinkToPreviousTx(e);
            && (linked <==>
                  exists i :: 0 <= i < |e.packets| && CoversStart(e.packets[i].segment, e.current.segment.seqNo))
            && (!linked ==> f == e)
            && (linked ==>
                  var j := f.current.links.previous;
                  && j.Some? && LinkedTo(e, f, j.value)
                  && CoversStart(e.packets[j.value].segment, e.current.segment.seqNo)
                  && forall i :: j.value < i < |e.packets| ==>
                       !CoversStart(e.packets[i].segment, e.current.segment.seqNo))
  {
    var k := PreviousTx(e.packets, e.current.segment.seqNo, |e.packets|);
    if k > 0 {
      LinkedToFound(e);
    }
    hide CoversStart;
    hide CreditChain;
    hide LinkedTo;
  }

  /** LinkToPreviousTx adds one tree edge. */
  lemma LinkKeepsForest(e: Endpoint, f: Endpoint, j: nat)
    requires Forest(All(e)) && e.current.links == Links(None, None, |e.packets|) && LinkedTo(e, f, j)
    requires CoversStart(e.packets[j].segment, e.current.segment.seqNo)
    ensures Forest(All(f))
  {
    hide InChain;
    hide CoversStart;
    var ps, qs, n := All(e), All(f), |e.packets|;
    forall i | 0 <= i <= n
      ensures LinkedAt(qs, i)
    {
      assert LinkedAt(ps, i) && LinkedAt(ps, j);
      assert i < n && i != j ==> qs[i].links == ps[i].links;
    }
  }

  // ----- accounting per original transmission

  /** The number of other packets among the first n whose first transmission is r. */
  function Attempts(ps: seq<Packet>, r: nat, n: nat): nat
    requires n <= |ps|
  {
    if n == 0 then 0
    else Attempts(ps, r, n - 1) + if n - 1 != r && ps[n - 1].links.first == r then 1 else 0
  }

  /** The timestamp of the last of those packets. */
  function LastAttempt(ps: seq<Packet>, r: nat, n: nat): Option<nat>
    requires n <= |ps|
  {
    if n == 0 then None
    else if n - 1 != r && ps[n - 1].links.first == r then Some(ps[n - 1].segment.ts)
    else LastAttempt(ps, r, n - 1)
  }

  /** The attempt counter and the final delay kept in an original transmission; a retransmission keeps none. */
  predicate TallyMatches(p: Packet, attempts: nat, last: Option<nat>) {
    if p.links.previous.Some? then p.tally.attempts == 0 && p.tally.finalDelay == 0
    else
      && p.tally.attempts == attempts % 65536
      && p.tally.finalDelay == if last.None? then 0 else Wrap(last.value - p.segment.ts)
  }

  predicate TalliedAt(ps: seq<Packet>, r: nat)
    requires r < |ps|
  {
    TallyMatches(ps[r], Attempts(ps, r, |ps|), LastAttempt(ps, r, |ps|))
  }

  predicate Tallied(ps: seq<Packet>) {
    forall r :: 0 <= r < |ps| ==> TalliedAt(ps, r)
  }

  lemma {:induction false} AttemptsFrame(ps: seq<Packet>, qs: seq<Packet>, r: nat, n: nat)
    requires n <= |ps| && n <= |qs|
    requires forall i :: 0 <= i < n ==> qs[i].links.first == ps[i].links.first && qs[i].segment == ps[i].segment
    ensures Attempts(qs, r, n) == Attempts(ps, r, n) && LastAttempt(qs, r, n) == LastAttempt(ps, r, n)
  {
    if n > 0 {
      AttemptsFrame(ps, qs, r, n - 1);
    }
  }

  lemma {:induction false} NoAttempts(ps: seq<Packet>, r: nat, n: nat)
    requires n <= |ps| && forall i :: 0 <= i < n ==> ps[i].links.first != r || i == r
    ensures Attempts(ps, r, n) == 0 && LastAttempt(ps, r, n) == None
  {
    if n > 0 {
      NoAttempts(ps, r, n - 1);
    }
  }

  predicate SameTallies(ps: seq<Packet>, qs: seq<Packet>) {
    |qs| == |ps| && forall i :: 0 <= i < |ps| ==> qs[i].tally == ps[i].tally
  }

  lemma TalliedFrame(ps: seq<Packet>, qs: seq<Packet>)
    requires Tallied(ps) && SameLinks(ps, qs) && SameTallies(ps, qs)
    ensures Tallied(qs)
  {
    forall r | 0 <= r < |qs|
      ensures TalliedAt(qs, r)
    {
      assert TalliedAt(ps, r);
      AttemptsFrame(ps, qs, r, |ps|);
    }
  }

  lemma TalliedGrows(ps: seq<Packet>, p: Packet)
    requires Tallied(ps) && Forest(ps) && p.links == Links(None, None, |ps|) && p.tally == Tally(0, 0, 0)
    ensures Tallied(ps + [p])
  {
    var qs := ps + [p];
    forall r | 0 <= r < |qs|
      ensures TalliedAt(qs, r)
    {
      AttemptsFrame(ps, qs, r, |ps|);
      if r < |ps| {
        assert TalliedAt(ps, r);
      } else {
        forall i | 0 <= i < |ps|
          ensures ps[i].links.first <= i
        {
          assert LinkedAt(ps, i);
        }
        NoAttempts(ps, r, |ps|);
      }
    }
  }

  lemma LinkAttempts(e: Endpoint, f: Endpoint, j: nat, r: nat)
    requires LinkedTo(e, f, j) && e.current.links.first == |e.packets| && r <= |e.packets|
    ensures var ps, qs, n := All(e), All(f), |e.packets|;
            && LastAttempt(ps, r, n + 1) == LastAttempt(ps, r, n) && Attempts(ps, r, n + 1) == Attempts(ps, r, n)
            && (r < n && ps[j].links.first == r ==>
                  && LastAttempt(qs, r, n + 1) == Some(e.current.segment.ts)
                  && Attempts(qs, r, n + 1) == Attempts(ps, r, n) + 1)
            && (r == n || ps[j].links.first != r ==>
                  LastAttempt(qs, r, n + 1) == LastAttempt(ps, r, n)
                  && Attempts(qs, r, n + 1) == Attempts(ps, r, n))
  {
    hide InChain;
    hide Credited;
    var ps, qs, n := All(e), All(f), |e.packets|;
    LinkedToLinks(e, f, j);
    AttemptsFrame(ps, qs, r, n);
  }

  lemma LinkedToLinks(e: Endpoint, f: Endpoint, j: nat)
    requires LinkedTo(e, f, j)
    ensures forall i :: 0 <= i < |e.packets| ==>
              && All(f)[i].links == (if i == j then All(e)[i].links.(rtx := Some(|e.packets|)) else All(e)[i].links)
              && All(f)[i].segment == All(e)[i].segment
    ensures All(f)[|e.packets|].links.previous == Some(j)
    ensures All(f)[|e.packets|].links.first == All(e)[j].links.first
    ensures All(f)[|e.packets|].tally == e.current.tally
    ensures forall i :: 0 <= i < |e.packets| ==>
              All(f)[i].tally == if InChain(e.packets, j, i) then Credited(e.packets[i], e.current.segment.ts).tally
                                 else All(e)[i].tally
  {
    hide InChain;
  }

  lemma CreditedMatches(p: Packet, q: Packet, attempts: nat, last: Option<nat>, ts: nat)
    requires TallyMatches(p, attempts, last) && q.segment == p.segment && q.links.previous == p.links.previous
    requires q.tally == Credited(p, ts).tally
    ensures TallyMatches(q, attempts + 1, Some(ts))
    ensures p.links.previous.Some? ==> TallyMatches(q, attempts, last)
  {
  }

  lemma LinkTalliedRoot(e: Endpoint, f: Endpoint, j: nat, r: nat)
    requires LinkedTo(e, f, j) && r < |e.packets| && TalliedAt(All(e), r) && e.current.links.first == |e.packets|
    requires InChain(e.packets, j, r) && e.packets[r].links.previous.None? && e.packets[j].links.first == r
    ensures TalliedAt(All(f), r)
  {
    LinkAttempts(e, f, j, r);
    LinkedToLinks(e, f, j);
    hide InChain;
    hide LinkedTo;
    hide Attempts;
    hide LastAttempt;
    hide TallyMatches;
    hide Credited;
    var n := |e.packets|;
    CreditedMatches(All(e)[r], All(f)[r], Attempts(All(e), r, n), LastAttempt(All(e), r, n), e.current.segment.ts);
  }

  lemma LinkTalliedOther(e: Endpoint, f: Endpoint, j: nat, r: nat)
    requires LinkedTo(e, f, j) && r < |e.packets| && TalliedAt(All(e), r) && e.current.links.first == |e.packets|
    requires e.packets[j].links.first != r || e.packets[r].links.previous.Some?
    requires InChain(e.packets, j, r) ==> e.packets[r].links.previous.Some?
    ensures TalliedAt(All(f), r)
  {
    LinkAttempts(e, f, j, r);
    LinkedToLinks(e, f, j);
    hide InChain;
    hide LinkedTo;
    hide Attempts;
    hide LastAttempt;
    hide Credited;
    var n := |e.packets|;
    if InChain(e.packets, j, r) {
      CreditedMatches(All(e)[r], All(f)[r], Attempts(All(e), r, n), LastAttempt(All(e), r, n), e.current.segment.ts);
    }
  }

  lemma LinkTalliedNew(e: Endpoint, f: Endpoint, j: nat)
    requires LinkedTo(e, f, j) && e.current.tally == Tally(0, 0, 0)
    ensures TalliedAt(All(f), |e.packets|)
  {
  }

  lemma LinkTalliedAt(e: Endpoint, f: Endpoint, j: nat, r: nat)
    requires Forest(All(e)) && LinkedTo(e, f, j) && r <= |e.packets| && TalliedAt(All(e), r)
    requires e.current.links == Links(None, None, |e.packets|) && e.current.tally == Tally(0, 0, 0)
    ensures TalliedAt(All(f), r)
  {
    hide TalliedAt;
    hide LinkedAt;
    hide Forest;
    if r == |e.packets| {
      LinkTalliedNew(e, f, j);
    } else {
      EarlierChainFrame(e.packets, All(e), j, r);
      FirstIsRoot(All(e), j, r);
      if e.packets[j].links.first == r && e.packets[r].links.previous.None? {
        LinkTalliedRoot(e, f, j, r);
      } else {
        LinkTalliedOther(e, f, j, r);
      }
    }
  }

  /** A new edge adds one attempt to the root of its tree, and to no other packet. */
  lemma LinkKeepsTallies(e: Endpoint, f: Endpoint, j: nat)
    requires Forest(All(e)) && Tallied(All(e)) && LinkedTo(e, f, j)
    requires e.current.links == Links(None, None, |e.packets|) && e.current.tally == Tally(0, 0, 0)
    ensures Tallied(All(f))
  {
    forall r | 0 <= r <= |e.packets|
      ensures TalliedAt(All(f), r)
    {
      assert TalliedAt(All(e), r);
      LinkTalliedAt(e, f, j, r);
    }
  }

  // ----- the delay to the first retransmission

  /** The first packet among the first n that retransmits packet p directly. */
  function FirstChild(ps: seq<Packet>, p: nat, n: nat): (c: Option<nat>)
    requires n <= |ps|
    ensures c.Some? ==> c.value < n && ps[c.value].links.previous == Some(p)
    ensures forall i :: 0 <= i < n && ps[i].links.previous == Some(p) ==> c.Some? && c.value <= i
  {
    if n == 0 then None
    else
      var c := FirstChild(ps, p, n - 1);
      if c.Some? then c else if ps[n - 1].links.previous == Some(p) then Some(n - 1) else None
  }

  /** No packet is sent a multiple of 2^32 us, or no time at all, after the one that it retransmits: a recorded delay
      of zero would read as no delay. */
  predicate DelaysShow(ps: seq<Packet>) {
    forall i :: 0 <= i < |ps| && ps[i].links.previous.Some? && ps[i].links.previous.value < |ps| ==>
      Wrap(ps[i].segment.ts - ps[ps[i].links.previous.value].segment.ts) != 0
  }

  predicate DelayedAt(ps: seq<Packet>, p: nat)
    requires p < |ps|
  {
    var c := FirstChild(ps, p, |ps|);
    ps[p].tally.rtxDelay == if c.None? then 0 else Wrap(ps[c.value].segment.ts - ps[p].segment.ts)
  }

  predicate Delayed(ps: seq<Packet>) {
    DelaysShow(ps) ==> forall p :: 0 <= p < |ps| ==> DelayedAt(ps, p)
  }

  lemma {:induction false} FirstChildFrame(ps: seq<Packet>, qs: seq<Packet>, p: nat, n: nat)
    requires n <= |ps| && n <= |qs| && forall i :: 0 <= i < n ==> qs[i].links.previous == ps[i].links.previous
    ensures FirstChild(qs, p, n) == FirstChild(ps, p, n)
  {
    if n > 0 {
      FirstChildFrame(ps, qs, p, n - 1);
    }
  }

  lemma DelayedFrame(ps: seq<Packet>, qs: seq<Packet>)
    requires Delayed(ps) && SameLinks(ps, qs) && SameTallies(ps, qs)
    ensures Delayed(qs)
  {
    if DelaysShow(qs) {
      assert DelaysShow(ps);
      forall p | 0 <= p < |qs|
        ensures DelayedAt(qs, p)
      {
        assert DelayedAt(ps, p);
        FirstChildFrame(ps, qs, p, |ps|);
      }
    }
  }

  lemma DelayedGrows(ps: seq<Packet>, p: Packet)
    requires Delayed(ps) && Forest(ps) && p.links == Links(None, None, |ps|) && p.tally == Tally(0, 0, 0)
    ensures Delayed(ps + [p])
  {
    var qs := ps + [p];
    if DelaysShow(qs) {
      assert DelaysShow(ps) by {
        assert forall i :: 0 <= i < |ps| ==> qs[i] == ps[i];
      }
      forall i | 0 <= i < |qs|
        ensures DelayedAt(qs, i)
      {
        FirstChildFrame(ps, qs, i, |ps|);
        if i < |ps| {
          assert DelayedAt(ps, i);
        } else {
          NoChildren(ps, i);
        }
      }
    }
  }

  lemma NoChildren(ps: seq<Packet>, p: nat)
    requires Forest(ps) && |ps| <= p
    ensures FirstChild(ps, p, |ps|) == None
  {
    forall i | 0 <= i < |ps|
      ensures ps[i].links.previous != Some(p)
    {
      assert LinkedAt(ps, i);
    }
  }

  /** Every proper ancestor of i has a direct retransmission no later than i. */
  lemma {:induction false} ChainHasChild(ps: seq<Packet>, i: nat, p: nat)
    requires i < |ps| && InChain(ps, i, p) && p != i
    ensures FirstChild(ps, p, |ps|).Some? && FirstChild(ps, p, |ps|).value <= i
    decreases i
  {
    var l := ps[i].links.previous;
    if l.value != p {
      ChainHasChild(ps, l.value, p);
    }
  }

  lemma LinkFirstChild(e: Endpoint, f: Endpoint, j: nat, p: nat)
    requires LinkedTo(e, f, j) && e.current.links.previous.None? && p <= |e.packets|
    ensures var c := FirstChild(All(e), p, |e.packets| + 1);
            FirstChild(All(f), p, |e.packets| + 1) == if c.Some? then c else if p == j then Some(|e.packets|) else None
  {
    LinkedToLinks(e, f, j);
    hide InChain;
    hide LinkedTo;
    FirstChildFrame(All(e), All(f), p, |e.packets|);
  }

  lemma CreditedDelay(p: Packet, ts: nat)
    ensures Credited(p, ts).tally.rtxDelay
         == if p.tally.rtxDelay == 0 then Wrap(ts - p.segment.ts) else p.tally.rtxDelay
  {
  }

  /** A packet has a recorded delay exactly when it has been retransmitted directly. */
  lemma DelayedIffChild(ps: seq<Packet>, p: nat)
    requires Forest(ps) && DelaysShow(ps) && p < |ps| && DelayedAt(ps, p)
    ensures FirstChild(ps, p, |ps|).Some? <==> ps[p].tally.rtxDelay != 0
  {
    var c := FirstChild(ps, p, |ps|);
    if c.Some? {
      assert LinkedAt(ps, c.value);
    }
  }

  /** Only a packet without an earlier retransmission gets its delay set, and that is the linked one. */
  lemma LinkDelay(e: Endpoint, f: Endpoint, j: nat, p: nat)
    requires Forest(All(e)) && DelaysShow(All(e)) && LinkedTo(e, f, j) && p < |e.packets| && DelayedAt(All(e), p)
    ensures All(f)[p].tally.rtxDelay
         == if FirstChild(All(e), p, |e.packets| + 1).None? && p == j
            then Wrap(e.current.segment.ts - All(e)[p].segment.ts) else All(e)[p].tally.rtxDelay
  {
    var ps := All(e);
    DelayedIffChild(ps, p);
    LinkedToLinks(e, f, j);
    EarlierChainFrame(e.packets, ps, j, p);
    CreditedDelay(ps[p], e.current.segment.ts);
    if InChain(ps, j, p) && p != j {
      ChainHasChild(ps, j, p);
    }
    assert InChain(ps, j, j);
    hide InChain;
    hide LinkedTo;
    hide FirstChild;
    hide Credited;
    hide DelayedAt;
    hide Wrap;
  }

  lemma LinkDelayedAt(e: Endpoint, f: Endpoint, j: nat, p: nat)
    requires Forest(All(e)) && DelaysShow(All(e)) && LinkedTo(e, f, j) && p < |e.packets| && DelayedAt(All(e), p)
    requires e.current.links.previous.None?
    ensures DelayedAt(All(f), p)
  {
    LinkDelay(e, f, j, p);
    LinkFirstChild(e, f, j, p);
    LinkedToLinks(e, f, j);
    hide LinkedTo;
    hide FirstChild;
    hide Forest;
    hide DelaysShow;
    hide InChain;
    hide Credited;
    hide Wrap;
  }

  lemma LinkDelaysShow(e: Endpoint, f: Endpoint, j: nat)
    requires LinkedTo(e, f, j) && DelaysShow(All(f)) && e.current.links.previous.None?
    ensures DelaysShow(All(e))
  {
    LinkedToLinks(e, f, j);
    var ps, qs, n := All(e), All(f), |e.packets|;
    assert forall i :: 0 <= i <= n ==> qs[i].segment == ps[i].segment;
    hide LinkedTo;
    hide Wrap;
  }

  /** A new edge sets the delay of exactly the packets that had no retransmission yet. */
  lemma LinkKeepsDelays(e: Endpoint, f: Endpoint, j: nat)
    requires Forest(All(e)) && Delayed(All(e)) && LinkedTo(e, f, j)
    requires e.current.links == Links(None, None, |e.packets|) && e.current.tally == Tally(0, 0, 0)
    ensures Delayed(All(f))
  {
    hide InChain;
    hide Credited;
    hide Forest;
    hide FirstChild;
    assert |f.packets| == |e.packets| && j < |e.packets|;
    hide LinkedTo;
    LinkedToLinks(e, f, j);
    var ps, qs, n := All(e), All(f), |e.packets|;
    if DelaysShow(qs) {
      LinkDelaysShow(e, f, j);
      forall p | 0 <= p <= n
        ensures DelayedAt(qs, p)
      {
        assert DelayedAt(ps, p);
        if p < n {
          LinkDelayedAt(e, f, j, p);
        } else {
          LinkFirstChild(e, f, j, p);
        }
      }
    }
  }

  /** Timestamps never go back, are less than 2^32 us apart, and differ between a packet and the one it retransmits.
      Packets split from the same captured packet share its timestamp. */
  predicate Ordered(ps: seq<Packet>) {
    && (forall i, j :: 0 <= i < j < |ps| ==> 0 <= ps[j].segment.ts - ps[i].segment.ts < 0x1_0000_0000)
    && forall i :: 0 <= i < |ps| && ps[i].links.previous.Some? && ps[i].links.previous.value < i ==>
         ps[ps[i].links.previous.value].segment.ts < ps[i].segment.ts
  }

  lemma OrderedShows(ps: seq<Packet>)
    requires Forest(ps) && Ordered(ps)
    ensures DelaysShow(ps)
  {
    hide CoversStart;
    forall i | 0 <= i < |ps| && ps[i].links.previous.Some? && ps[i].links.previous.value < |ps|
      ensures Wrap(ps[i].segment.ts - ps[ps[i].links.previous.value].segment.ts) != 0
    {
      assert LinkedAt(ps, i);
    }
  }

  /** The recorded delay of a packet is the delay to its earliest descendant. */
  lemma EarliestDescendant(ps: seq<Packet>, p: nat, d: nat)
    requires Forest(ps) && Delayed(ps) && Ordered(ps)
    requires p < d < |ps| && InChain(ps, d, p)
    ensures var c := FirstChild(ps, p, |ps|);
            && c.Some? && p < c.value <= d && InChain(ps, c.value, p)
            && ps[p].tally.rtxDelay == ps[c.value].segment.ts - ps[p].segment.ts
            && ps[p].tally.rtxDelay <= ps[d].segment.ts - ps[p].segment.ts
  {
    OrderedShows(ps);
    ChainHasChild(ps, d, p);
    var c := FirstChild(ps, p, |ps|).value;
    assert LinkedAt(ps, c) && DelayedAt(ps, p);
    hide *;
    ChildOrdered(ps, p, c, d);
    ChildDelay(ps, p);
  }

  lemma ChildOrdered(ps: seq<Packet>, p: nat, c: nat, d: nat)
    requires Ordered(ps) && p < c <= d < |ps| && ps[c].links.previous == Some(p)
    ensures 0 < ps[c].segment.ts - ps[p].segment.ts < 0x1_0000_0000 && ps[c].segment.ts <= ps[d].segment.ts
    ensures InChain(ps, c, p)
  {
    assert InChain(ps, p, p);
  }

  lemma ChildDelay(ps: seq<Packet>, p: nat)
    requires p < |ps| && DelayedAt(ps, p) && FirstChild(ps, p, |ps|).Some?
    ensures var delay := ps[FirstChild(ps, p, |ps|).value].segment.ts - ps[p].segment.ts;
            0 < delay < 0x1_0000_0000 ==> ps[p].tally.rtxDelay == delay
  {
    hide FirstChild;
  }
}
