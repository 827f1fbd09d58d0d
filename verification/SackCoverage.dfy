/** The scoreboard agrees with a plain set of bytes: every operation is exact on the covered positions. */
module SackCoverage {
  import opened SeqSpace
  import opened Intervals
  import opened TcpSacks

  function AsBlock(base: int, s: Sack): Block {
    Block(Lift(base, s.start), Lift(base, s.end))
  }

  /** A non-empty range lying inside the window that starts at `base`. */
  predicate Inside(base: int, s: Sack) {
    InWindow(base, s.start) && InWindow(base, s.end) && Lift(base, s.start) < Lift(base, s.end)
  }

  predicate AllInside(base: int, ss: seq<Sack>) {
    forall i :: 0 <= i < |ss| ==> Inside(base, ss[i])
  }

  function Blocks(base: int, ss: seq<Sack>): (bs: seq<Block>)
    ensures |bs| == |ss| && forall i :: 0 <= i < |ss| ==> bs[i] == AsBlock(base, ss[i])
  {
    seq(|ss|, i requires 0 <= i < |ss| => AsBlock(base, ss[i]))
  }

  /** The positions a list covers. */
  function Covered(base: int, ss: seq<Sack>): set<int> {
    Cover(Blocks(base, ss))
  }

  /** Sorted, non-empty, strictly separated blocks of the window. */
  predicate Good(base: int, ss: seq<Sack>) {
    AllInside(base, ss) && Normal(Blocks(base, ss))
  }

  lemma TouchesExact(base: int, a: Sack, b: Sack)
    requires Inside(base, a) && Inside(base, b)
    ensures Touches(a, b) <==> Lift(base, a.start) <= Lift(base, b.end) && Lift(base, b.start) <= Lift(base, a.end)
    ensures Before(a.end, b.start) <==> Lift(base, a.end) < Lift(base, b.start)
  {
    AfterLift(base, a.start, b.end);
    AfterLift(base, b.start, a.end);
  }

  lemma CoveredConcat(base: int, a: seq<Sack>, b: seq<Sack>)
    ensures Covered(base, a + b) == Covered(base, a) + Covered(base, b)
  {
    assert Blocks(base, a + b) == Blocks(base, a) + Blocks(base, b);
    CoverConcat(Blocks(base, a), Blocks(base, b));
  }

  lemma CoveredOne(base: int, s: Sack)
    ensures Covered(base, [s]) == Range(Lift(base, s.start), Lift(base, s.end))
  {
    assert Blocks(base, [s]) == [AsBlock(base, s)];
    CoverOne(AsBlock(base, s));
  }

  lemma CoveredSplit(base: int, a: seq<Sack>, s: Sack, c: seq<Sack>)
    ensures Covered(base, a + [s] + c)
         == Covered(base, a) + Range(Lift(base, s.start), Lift(base, s.end)) + Covered(base, c)
  {
    CoveredConcat(base, a + [s], c);
    CoveredConcat(base, a, [s]);
    CoveredOne(base, s);
  }

  // ----- merging

  lemma HullRange(a: Block, b: Block, h: Block)
    requires a.lo <= b.hi && b.lo <= a.hi && a.lo < a.hi && b.lo < b.hi
    requires h.lo == (if b.lo < a.lo then b.lo else a.lo) && h.hi == if b.hi > a.hi then b.hi else a.hi
    ensures Range(h.lo, h.hi) == Range(a.lo, a.hi) + Range(b.lo, b.hi)
  {
  }

  lemma JoinedExact(base: int, a: Sack, b: Sack)
    requires Inside(base, a) && Inside(base, b) && Touches(a, b)
    ensures Inside(base, Joined(a, b))
    ensures AsBlock(base, Joined(a, b)).lo <= AsBlock(base, b).lo
    ensures Joined(a, b).start == a.start || Joined(a, b).start == b.start
    ensures Range(Lift(base, Joined(a, b).start), Lift(base, Joined(a, b).end))
         == Range(Lift(base, a.start), Lift(base, a.end)) + Range(Lift(base, b.start), Lift(base, b.end))
  {
    TouchesExact(base, a, b);
    AfterLift(base, a.start, b.start);
    AfterLift(base, b.end, a.end);
    HullRange(AsBlock(base, a), AsBlock(base, b), AsBlock(base, Joined(a, b)));
  }

  /** All pairs are in order except those whose left member is block k, which does not lie past its neighbour. */
  predicate MergeReady(bs: seq<Block>, k: nat) {
    && k < |bs|
    && (forall i :: 0 <= i < |bs| ==> bs[i].lo < bs[i].hi)
    && (forall i, j :: 0 <= i < j < |bs| && i != k ==> bs[i].hi < bs[j].lo)
    && (k + 1 < |bs| ==> bs[k].lo <= bs[k + 1].hi)
  }

  lemma HullKeepsReady(bs: seq<Block>, k: nat, h: Block)
    requires MergeReady(bs, k) && k + 1 < |bs| && h.lo < h.hi
    requires h.lo <= bs[k + 1].lo && (h.lo == bs[k].lo || h.lo == bs[k + 1].lo)
    ensures MergeReady(bs[..k] + [h] + bs[k + 2..], k)
  {
    var after := bs[..k] + [h] + bs[k + 2..];
    forall i, j | 0 <= i < j < |after| && i != k
      ensures after[i].hi < after[j].lo
    {
      if k < i {
        assert bs[i + 1].hi < bs[j + 1].lo;
      } else if j == k {
        assert bs[i].hi < bs[k].lo && bs[i].hi < bs[k + 1].lo;
      } else {
        assert bs[i].hi < bs[if j < k then j else j + 1].lo;
      }
    }
    assert k + 1 < |after| ==> bs[k + 1].hi < bs[k + 2].lo;
  }

  lemma JoinAtBlocks(base: int, ss: seq<Sack>, k: nat)
    requires k + 1 < |ss|
    ensures Blocks(base, JoinAt(ss, k))
         == Blocks(base, ss)[..k] + [AsBlock(base, Joined(ss[k], ss[k + 1]))] + Blocks(base, ss)[k + 2..]
  {
    hide AsBlock;
    hide Joined;
  }

  lemma JoinKeepsReady(base: int, ss: seq<Sack>, k: nat)
    requires AllInside(base, ss) && MergeReady(Blocks(base, ss), k)
    requires k + 1 < |ss| && Touches(ss[k], ss[k + 1])
    ensures AllInside(base, JoinAt(ss, k)) && MergeReady(Blocks(base, JoinAt(ss, k)), k)
  {
    var bs, h := Blocks(base, ss), AsBlock(base, Joined(ss[k], ss[k + 1]));
    JoinedExact(base, ss[k], ss[k + 1]);
    hide Overlaps;
    hide After;
    hide Joined;
    hide Lift;
    HullKeepsReady(bs, k, h);
    JoinAtBlocks(base, ss, k);
  }

  lemma CoveredPair(base: int, a: seq<Sack>, x: Sack, y: Sack, c: seq<Sack>)
    ensures Covered(base, a + [x, y] + c)
         == Covered(base, a)
          + (Range(Lift(base, x.start), Lift(base, x.end)) + Range(Lift(base, y.start), Lift(base, y.end)))
          + Covered(base, c)
  {
    CoveredConcat(base, a + [x, y], c);
    assert a + [x, y] == a + [x] + [y];
    CoveredConcat(base, a + [x], [y]);
    CoveredConcat(base, a, [x]);
    CoveredOne(base, x);
    CoveredOne(base, y);
  }

  lemma SplitAtPair(ss: seq<Sack>, k: nat)
    requires k + 1 < |ss|
    ensures ss == ss[..k] + [ss[k], ss[k + 1]] + ss[k + 2..]
  {
  }

  lemma JoinKeepsCover(base: int, ss: seq<Sack>, k: nat)
    requires k + 1 < |ss| && Inside(base, ss[k]) && Inside(base, ss[k + 1]) && Touches(ss[k], ss[k + 1])
    ensures Covered(base, JoinAt(ss, k)) == Covered(base, ss)
  {
    hide Joined;
    hide Covered;
    var a, b, c, j := ss[k], ss[k + 1], ss[k + 2..], Joined(ss[k], ss[k + 1]);
    JoinedExact(base, a, b);
    CoveredSplit(base, ss[..k], j, c);
    CoveredPair(base, ss[..k], a, b, c);
    SplitAtPair(ss, k);
  }

  lemma StepKeepsReady(base: int, ss: seq<Sack>, k: nat)
    requires AllInside(base, ss) && MergeReady(Blocks(base, ss), k)
    requires k + 1 < |ss| && !Touches(ss[k], ss[k + 1])
    ensures MergeReady(Blocks(base, ss), k + 1)
  {
    TouchesExact(base, ss[k], ss[k + 1]);
    var bs := Blocks(base, ss);
    assert k + 2 < |bs| ==> bs[k + 1].hi < bs[k + 2].lo;
  }

  /** Merging a ready list produces the normal form of the same bytes. */
  lemma {:induction false} MergeExact(base: int, ss: seq<Sack>, k: nat)
    requires AllInside(base, ss) && MergeReady(Blocks(base, ss), k)
    ensures Good(base, MergeAt(ss, k)) && Covered(base, MergeAt(ss, k)) == Covered(base, ss)
    decreases |ss| - k
  {
    if k + 1 == |ss| {
      assert Good(base, ss);
    } else if Touches(ss[k], ss[k + 1]) {
      JoinKeepsReady(base, ss, k);
      JoinKeepsCover(base, ss, k);
      MergeExact(base, JoinAt(ss, k), k);
    } else {
      StepKeepsReady(base, ss, k);
      MergeExact(base, ss, k + 1);
    }
  }

  /** Merging passes over neighbours that do not touch. */
  lemma {:induction false} MergeSkips(ss: seq<Sack>, k: nat, last: nat)
    requires k <= last < |ss| && forall i :: k <= i < last ==> !Touches(ss[i], ss[i + 1])
    ensures MergeAt(ss, k) == MergeAt(ss, last)
    decreases last - k
  {
    if k < last {
      MergeSkips(ss, k + 1, last);
    }
  }

  /** A normal list is a fixed point of merging. */
  lemma MergeOfGood(base: int, ss: seq<Sack>)
    requires Good(base, ss)
    ensures MergeAt(ss, 0) == ss
  {
    if ss != [] {
      forall i | 0 <= i < |ss| - 1
        ensures !Touches(ss[i], ss[i + 1])
      {
        TouchesExact(base, ss[i], ss[i + 1]);
        assert Blocks(base, ss)[i].hi < Blocks(base, ss)[i + 1].lo;
      }
      MergeSkips(ss, 0, |ss| - 1);
    }
  }

  // ----- adding a block

  function Inserted(bs: seq<Block>, x: Block, k: nat): (r: seq<Block>)
    requires k <= |bs|
    ensures |r| == |bs| + 1 && r[k] == x
    ensures forall i :: 0 <= i < k ==> r[i] == bs[i]
    ensures forall i :: k < i < |r| ==> r[i] == bs[i - 1]
  {
    bs[..k] + [x] + bs[k..]
  }

  lemma InsertedReady(bs: seq<Block>, x: Block, k: nat)
    requires Normal(bs) && x.lo < x.hi && k <= |bs|
    requires forall i :: 0 <= i < k ==> bs[i].hi < x.lo
    ensures k < |bs| && x.lo <= bs[k].hi ==> MergeReady(Inserted(bs, x, k), k)
    ensures k == |bs| || x.hi < bs[k].lo ==> Normal(Inserted(bs, x, k))
  {
    var r := Inserted(bs, x, k);
    forall i, j | 0 <= i < j < |r|
      ensures i != k ==> r[i].hi < r[j].lo
      ensures i == k && x.hi < bs[k].lo ==> r[i].hi < r[j].lo
    {
      if i < k < j {
        assert bs[i].hi < bs[j - 1].lo;
      } else if k < i {
        assert bs[i - 1].hi < bs[j - 1].lo;
      } else if i == k && k < j - 1 {
        assert bs[k].hi < bs[j - 1].lo;
      }
    }
  }

  lemma InsertAtBlocks(base: int, ss: seq<Sack>, s: Sack, k: nat)
    requires k <= |ss|
    ensures Blocks(base, InsertAt(ss, s, k)) == Inserted(Blocks(base, ss), AsBlock(base, s), k)
    ensures AllInside(base, ss) && Inside(base, s) ==> AllInside(base, InsertAt(ss, s, k))
  {
  }

  lemma BelowInsertion(base: int, ss: seq<Sack>, s: Sack)
    requires AllInside(base, ss) && Inside(base, s)
    ensures var k := FirstTouch(ss, s, 0);
            && (forall i :: 0 <= i < k ==> Lift(base, ss[i].end) < Lift(base, s.start))
            && (k < |ss| ==> Lift(base, s.start) <= Lift(base, ss[k].end))
            && (k < |ss| && Before(s.end, ss[k].start) ==> Lift(base, s.end) < Lift(base, ss[k].start))
  {
    forall i | 0 <= i < |ss|
      ensures Touches(ss[i], s) <==>
              Lift(base, ss[i].start) <= Lift(base, s.end) && Lift(base, s.start) <= Lift(base, ss[i].end)
      ensures Before(s.end, ss[i].start) <==> Lift(base, s.end) < Lift(base, ss[i].start)
    {
      TouchesExact(base, ss[i], s);
      TouchesExact(base, s, ss[i]);
    }
    hide Lift;
    hide Touches;
    hide SeqSpace.Before;
  }

  lemma InsertedDoesNotTouch(base: int, ss: seq<Sack>, s: Sack, k: nat)
    requires Good(base, ss) && Inside(base, s) && k <= |ss|
    requires forall i :: 0 <= i < k ==> Lift(base, ss[i].end) < Lift(base, s.start)
    ensures forall i :: 0 <= i < k ==> !Touches(InsertAt(ss, s, k)[i], InsertAt(ss, s, k)[i + 1])
  {
    var after := InsertAt(ss, s, k);
    forall i | 0 <= i < k
      ensures !Touches(after[i], after[i + 1])
    {
      assert after[i] == ss[i] && after[i + 1] == if i + 1 < k then ss[i + 1] else s;
      TouchesExact(base, ss[i], after[i + 1]);
      assert i + 1 < k ==> Blocks(base, ss)[i].hi < Blocks(base, ss)[i + 1].lo;
    }
  }

  lemma InsertCover(base: int, ss: seq<Sack>, s: Sack, k: nat)
    requires k <= |ss|
    ensures Covered(base, InsertAt(ss, s, k))
         == Covered(base, ss) + Range(Lift(base, s.start), Lift(base, s.end))
  {
    CoveredSplit(base, ss[..k], s, ss[k..]);
    CoveredConcat(base, ss[..k], ss[k..]);
    assert ss == ss[..k] + ss[k..];
  }

  /** The list part of AddOne. */
  lemma AddOneList(b: Board, s: Sack)
    ensures var k := FirstTouch(b.list, s, 0);
            var list := InsertAt(b.list, s, k);
            AddOne(b, s).list == if k == |b.list| || Before(s.end, b.list[k].start) then list else MergeAt(list, 0)
  {
    assert b.list + [s] == InsertAt(b.list, s, |b.list|);
  }

  /** Adding a block keeps the normal form and covers exactly the old bytes and the new ones. */
  lemma AddExact(base: int, b: Board, s: Sack)
    requires Good(base, b.list) && Inside(base, s)
    ensures Good(base, AddOne(b, s).list)
    ensures Covered(base, AddOne(b, s).list)
         == Covered(base, b.list) + Range(Lift(base, s.start), Lift(base, s.end))
  {
    var k := FirstTouch(b.list, s, 0);
    var list := InsertAt(b.list, s, k);
    AddOneList(b, s);
    BelowInsertion(base, b.list, s);
    InsertAtBlocks(base, b.list, s, k);
    InsertedReady(Blocks(base, b.list), AsBlock(base, s), k);
    InsertCover(base, b.list, s, k);
    if k < |b.list| && !Before(s.end, b.list[k].start) {
      InsertedDoesNotTouch(base, b.list, s, k);
      MergeSkips(list, 0, k);
      MergeExact(base, list, k);
    }
  }

  lemma UnionAssociative(a: set<int>, b: set<int>, c: set<int>)
    ensures a + b + c == a + (b + c)
  {
  }

  lemma CoveredSnoc(base: int, ss: seq<Sack>)
    requires ss != []
    ensures Covered(base, ss)
         == Covered(base, ss[..|ss| - 1]) + Range(Lift(base, ss[|ss| - 1].start), Lift(base, ss[|ss| - 1].end))
  {
    assert ss == ss[..|ss| - 1] + [ss[|ss| - 1]];
    CoveredConcat(base, ss[..|ss| - 1], [ss[|ss| - 1]]);
    CoveredOne(base, ss[|ss| - 1]);
  }

  lemma {:induction false} AddAllExact(base: int, b: Board, blocks: seq<Sack>)
    requires Good(base, b.list) && AllInside(base, blocks)
    ensures Good(base, AddAll(b, blocks).list)
    ensures Covered(base, AddAll(b, blocks).list) == Covered(base, b.list) + Covered(base, blocks)
  {
    if blocks != [] {
      hide Covered;
      hide Good;
      var rest, last := blocks[..|blocks| - 1], blocks[|blocks| - 1];
      AddAllExact(base, b, rest);
      AddExact(base, AddAll(b, rest), last);
      CoveredSnoc(base, blocks);
      UnionAssociative(Covered(base, b.list), Covered(base, rest), Range(Lift(base, last.start), Lift(base, last.end)));
    }
  }

  // ----- canonical form

  lemma GoodIsCanonical(base: int, a: seq<Sack>, b: seq<Sack>)
    requires Good(base, a) && Good(base, b) && Covered(base, a) == Covered(base, b)
    ensures a == b
  {
    Canonical(Blocks(base, a), Blocks(base, b));
    forall i | 0 <= i < |a|
      ensures a[i] == b[i]
    {
      assert Blocks(base, a)[i] == Blocks(base, b)[i];
      AfterLift(base, a[i].start, b[i].start);
      AfterLift(base, a[i].end, b[i].end);
    }
  }

  lemma CoveredMember(base: int, ss: seq<Sack>, p: int)
    ensures p in Covered(base, ss) <==> exists s :: s in ss && Holds(AsBlock(base, s), p)
  {
    CoverMember(Blocks(base, ss), p);
    if i :| 0 <= i < |Blocks(base, ss)| && Holds(Blocks(base, ss)[i], p) {
      assert ss[i] in ss && Holds(AsBlock(base, ss[i]), p);
    }
    if s :| s in ss && Holds(AsBlock(base, s), p) {
      var i :| 0 <= i < |ss| && ss[i] == s;
      assert Holds(Blocks(base, ss)[i], p);
    }
  }

  /** The list does not depend on the order or the number of times the same blocks are added. */
  lemma AddOrderIrrelevant(base: int, b: Board, xs: seq<Sack>, ys: seq<Sack>)
    requires Good(base, b.list) && AllInside(base, xs) && AllInside(base, ys)
    requires forall s :: s in xs <==> s in ys
    ensures AddAll(b, xs).list == AddAll(b, ys).list
  {
    AddAllExact(base, b, xs);
    AddAllExact(base, b, ys);
    forall p
      ensures p in Covered(base, xs) <==> p in Covered(base, ys)
    {
      CoveredMember(base, xs, p);
      CoveredMember(base, ys, p);
    }
    GoodIsCanonical(base, AddAll(b, xs).list, AddAll(b, ys).list);
  }

  /** Parsing an option yields the normal form of its completely captured blocks. */
  lemma ParseExact(base: int, blocks: seq<Sack>)
    requires AllInside(base, blocks)
    ensures Good(base, ParsedList(blocks)) && Covered(base, ParsedList(blocks)) == Covered(base, blocks)
  {
    AddAllExact(base, Board([], 0), blocks);
    MergeOfGood(base, AddAll(Board([], 0), blocks).list);
  }

  // ----- the byte counter

  lemma SubsetSize(a: set<int>, b: set<int>)
    requires a <= b
    ensures |a| <= |b|
  {
    assert b * a == a && |b - a| == |b| - |b * a|;
  }

  lemma {:induction false} BytesIsTotal(base: int, ss: seq<Sack>)
    requires AllInside(base, ss)
    ensures Bytes(ss) == Total(Blocks(base, ss))
  {
    if ss != [] {
      var n := |ss| - 1;
      BytesIsTotal(base, ss[..n]);
      assert Blocks(base, ss)[..n] == Blocks(base, ss[..n]);
      WrapLift(base, ss[n].start);
      WrapLift(base, ss[n].end);
      SubExact(Lift(base, ss[n].end), Lift(base, ss[n].start));
    }
  }

  lemma CoveredBounded(base: int, ss: seq<Sack>)
    requires AllInside(base, ss)
    ensures Covered(base, ss) <= Range(base, base + WINDOW)
  {
    AllAbove(Blocks(base, ss), base);
    AllBelow(Blocks(base, ss), base + WINDOW);
  }

  lemma BytesIsCardinality(base: int, ss: seq<Sack>)
    requires Good(base, ss)
    ensures Bytes(ss) == |Covered(base, ss)| <= WINDOW
  {
    BytesIsTotal(base, ss);
    TotalIsCardinality(Blocks(base, ss));
    CoveredBounded(base, ss);
    SubsetSize(Covered(base, ss), Range(base, base + WINDOW));
  }

  /** The counter is brought up to date by every addition except one behind all blocks, which leaves it as it was. */
  lemma CounterStaleIff(b: Board, s: Sack)
    ensures var behind := forall i :: 0 <= i < |b.list| ==>
                            !After(b.list[i].start, s.end) && !Overlaps(b.list[i].start, b.list[i].end, s.start, s.end);
            && (behind ==> AddOne(b, s).list == b.list + [s] && AddOne(b, s).numBytes == b.numBytes)
            && (!behind ==> AddOne(b, s).numBytes == Wrap(Bytes(AddOne(b, s).list)))
  {
    hide MergeAt;
    hide After;
    hide Bytes;
  }

  /** The recomputed byte counter is the number of covered positions, without overflow. */
  lemma CounterExact(base: int, ss: seq<Sack>)
    requires Good(base, ss)
    ensures Recounted(ss).numBytes == |Covered(base, ss)| <= WINDOW
  {
    BytesIsCardinality(base, ss);
  }

  // ----- trimming

  lemma TrimFirst(base: int, ss: seq<Sack>)
    requires Good(base, ss) && ss != []
    ensures Good(base, ss[1..])
    ensures Covered(base, ss) == Range(Lift(base, ss[0].start), Lift(base, ss[0].end)) + Covered(base, ss[1..])
    ensures forall p :: p in Covered(base, ss[1..]) ==> Lift(base, ss[0].end) < p
  {
    var bs := Blocks(base, ss);
    assert bs[1..] == Blocks(base, ss[1..]);
    AllAbove(bs[1..], bs[0].hi + 1);
  }

  lemma CutNormal(bs: seq<Block>, lo: int)
    requires Normal(bs) && bs != [] && lo < bs[0].hi
    ensures Normal([Block(lo, bs[0].hi)] + bs[1..])
  {
  }

  lemma CutFirst(base: int, ss: seq<Sack>, start: u32)
    requires Good(base, ss) && ss != [] && InWindow(base, start) && Lift(base, start) < Lift(base, ss[0].end)
    ensures Good(base, [Sack(start, ss[0].end)] + ss[1..])
    ensures Covered(base, [Sack(start, ss[0].end)] + ss[1..])
         == Range(Lift(base, start), Lift(base, ss[0].end)) + Covered(base, ss[1..])
  {
    var first := Sack(start, ss[0].end);
    var bs := Blocks(base, ss);
    hide Covered;
    hide Cover;
    CoveredConcat(base, [first], ss[1..]);
    CoveredOne(base, first);
    CutNormal(bs, Lift(base, start));
    assert Blocks(base, [first] + ss[1..]) == [Block(Lift(base, start), bs[0].hi)] + bs[1..];
  }

  /** Trimming removes exactly the positions below the acknowledged one. */
  lemma {:induction false} TrimExact(base: int, ss: seq<Sack>, acked: u32)
    requires Good(base, ss) && InWindow(base, acked)
    ensures Good(base, Trimmed(ss, acked))
    ensures forall p :: p in Covered(base, Trimmed(ss, acked)) <==> p in Covered(base, ss) && Lift(base, acked) <= p
  {
    if ss != [] {
      assert Inside(base, ss[0]);
      hide Covered;
      hide Good;
      hide After;
      AfterLift(base, ss[0].end, acked);
      AfterLift(base, acked, ss[0].start);
      hide InWindow;
      TrimFirst(base, ss);
      hide Lift;
      if !After(ss[0].end, acked) {
        TrimExact(base, ss[1..], acked);
      } else if Before(ss[0].start, acked) {
        CutFirst(base, ss, acked);
      }
    }
  }

  // ----- moving the window

  /** The covered positions do not depend on the window they are read in. */
  lemma SlideWindow(base: int, base': int, ss: seq<Sack>)
    requires Good(base, ss)
    requires forall i :: 0 <= i < |ss| ==>
               base' <= Lift(base, ss[i].start) && Lift(base, ss[i].end) <= base' + WINDOW
    ensures Good(base', ss) && Covered(base', ss) == Covered(base, ss)
  {
    forall i | 0 <= i < |ss|
      ensures AsBlock(base', ss[i]) == AsBlock(base, ss[i])
    {
      assert Lift(base, ss[i].start) < Lift(base, ss[i].end);
      LiftSlide(base, base', ss[i].start);
      LiftSlide(base, base', ss[i].end);
    }
    assert Blocks(base', ss) == Blocks(base, ss);
  }

  // ----- the wire image of unbounded blocks

  function WireBlocks(bs: seq<Block>): (ss: seq<Sack>)
    ensures |ss| == |bs| && forall i :: 0 <= i < |bs| ==> ss[i] == Sack(Wrap(bs[i].lo), Wrap(bs[i].hi))
  {
    seq(|bs|, i requires 0 <= i < |bs| => Sack(Wrap(bs[i].lo), Wrap(bs[i].hi)))
  }

  predicate BlocksWithin(bs: seq<Block>, low: int, high: int) {
    forall i :: 0 <= i < |bs| ==> low <= bs[i].lo < bs[i].hi <= high
  }

  lemma WireBlocksExact(base: int, bs: seq<Block>)
    requires BlocksWithin(bs, base, base + WINDOW)
    ensures AllInside(base, WireBlocks(bs)) && Covered(base, WireBlocks(bs)) == Cover(bs)
  {
    forall i | 0 <= i < |bs|
      ensures AsBlock(base, WireBlocks(bs)[i]) == bs[i]
    {
      LiftWrap(base, bs[i].lo);
      LiftWrap(base, bs[i].hi);
    }
    assert Blocks(base, WireBlocks(bs)) == bs;
  }

  /** The parsed blocks of an option cover exactly the bytes the receiver reported. */
  lemma ReportedExact(base: int, bs: seq<Block>)
    requires BlocksWithin(bs, base, base + WINDOW)
    ensures Good(base, ParsedList(WireBlocks(bs))) && Covered(base, ParsedList(WireBlocks(bs))) == Cover(bs)
  {
    WireBlocksExact(base, bs);
    ParseExact(base, WireBlocks(bs));
  }

  // ----- packets inside blocks

  /** All bytes of the range are in the set; an empty range needs both neighbouring positions. */
  predicate RangeCovered(lo: int, hi: int, bytes: set<int>) {
    if lo < hi then forall p :: lo <= p < hi ==> p in bytes else lo - 1 in bytes && lo in bytes
  }

  predicate IncludedAt(ss: seq<Sack>, i: nat, lo: int, hi: int)
    requires i < |ss|
  {
    RangeIncluded(Wrap(lo), Wrap(hi), ss[i].start, ss[i].end)
  }

  lemma IncludedExact(base: int, ss: seq<Sack>, i: nat, lo: int, hi: int)
    requires Good(base, ss) && i < |ss| && base <= lo <= hi <= base + WINDOW
    ensures var b := AsBlock(base, ss[i]);
            IncludedAt(ss, i, lo, hi) <==> if lo < hi then b.lo <= lo && hi <= b.hi else b.lo < lo < b.hi
  {
    LiftWrap(base, lo);
    LiftWrap(base, hi);
    RangeIncludedExact(base, Wrap(lo), Wrap(hi), ss[i].start, ss[i].end);
  }

  lemma IncludedIsCovered(base: int, ss: seq<Sack>, i: nat, lo: int, hi: int)
    requires Good(base, ss) && base <= lo <= hi <= base + WINDOW && i < |ss| && IncludedAt(ss, i, lo, hi)
    ensures RangeCovered(lo, hi, Covered(base, ss))
  {
    IncludedExact(base, ss, i, lo, hi);
    hide IncludedAt;
    hide Good;
    forall p | if lo < hi then lo <= p < hi else lo - 1 <= p <= lo
      ensures p in Covered(base, ss)
    {
      BlockInCover(Blocks(base, ss), i, p);
    }
    hide Covered;
  }

  lemma CoveredIsIncluded(base: int, ss: seq<Sack>, lo: int, hi: int) returns (i: nat)
    requires Good(base, ss) && base <= lo <= hi <= base + WINDOW && RangeCovered(lo, hi, Covered(base, ss))
    ensures i < |ss| && IncludedAt(ss, i, lo, hi)
  {
    var from, upto := if lo < hi then lo else lo - 1, if lo < hi then hi else lo + 1;
    assert Range(from, upto) <= Cover(Blocks(base, ss));
    i := RunInsideOneBlock(Blocks(base, ss), from, upto);
    IncludedExact(base, ss, i, lo, hi);
    hide IncludedAt;
    hide RangeCovered;
    hide Covered;
  }

  /** A packet is inside one block of a normal list exactly when all its bytes are covered. */
  lemma IncludedSomewhere(base: int, ss: seq<Sack>, lo: int, hi: int)
    requires Good(base, ss) && base <= lo <= hi <= base + WINDOW
    ensures (exists i :: 0 <= i < |ss| && IncludedAt(ss, i, lo, hi)) <==> RangeCovered(lo, hi, Covered(base, ss))
  {
    hide IncludedAt;
    hide RangeCovered;
    hide Covered;
    hide Good;
    if i :| 0 <= i < |ss| && IncludedAt(ss, i, lo, hi) {
      IncludedIsCovered(base, ss, i, lo, hi);
    }
    if RangeCovered(lo, hi, Covered(base, ss)) {
      var i := CoveredIsIncluded(base, ss, lo, hi);
    }
  }
}
