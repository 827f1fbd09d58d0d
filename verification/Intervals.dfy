/** Half-open intervals of unbounded sequence positions, and the byte sets that lists of them cover. */
module Intervals {
  datatype Block = Block(lo: int, hi: int)

  predicate Holds(b: Block, p: int) {
    b.lo <= p < b.hi
  }

  function Range(lo: int, hi: int): (r: set<int>)
    ensures forall p :: p in r <==> lo <= p < hi
    ensures lo <= hi ==> |r| == hi - lo
    decreases hi - lo
  {
    if lo >= hi then {} else Range(lo, hi - 1) + {hi - 1}
  }

  function Cover(bs: seq<Block>): set<int> {
    if bs == [] then {} else Range(bs[0].lo, bs[0].hi) + Cover(bs[1..])
  }

  /** Non-empty blocks in ascending order with at least one uncovered position between neighbours. */
  predicate Normal(bs: seq<Block>) {
    && (forall i :: 0 <= i < |bs| ==> bs[i].lo < bs[i].hi)
    && (forall i, j :: 0 <= i < j < |bs| ==> bs[i].hi < bs[j].lo)
  }

  function Total(bs: seq<Block>): int {
    if bs == [] then 0 else Total(bs[..|bs| - 1]) + (bs[|bs| - 1].hi - bs[|bs| - 1].lo)
  }

  lemma {:induction false} CoverConcat(a: seq<Block>, b: seq<Block>)
    ensures Cover(a + b) == Cover(a) + Cover(b)
  {
    if a == [] {
      assert a + b == b;
    } else {
      assert (a + b)[1..] == a[1..] + b;
      CoverConcat(a[1..], b);
    }
  }

  lemma {:induction false} CoverMember(bs: seq<Block>, p: int)
    ensures p in Cover(bs) <==> exists i :: 0 <= i < |bs| && Holds(bs[i], p)
  {
    if bs != [] {
      CoverMember(bs[1..], p);
      if p in Cover(bs[1..]) {
        var i :| 0 <= i < |bs| - 1 && Holds(bs[1..][i], p);
        assert Holds(bs[i + 1], p);
      }
      if i :| 0 <= i < |bs| && Holds(bs[i], p) {
        if i > 0 {
          assert Holds(bs[1..][i - 1], p);
        }
      }
    }
  }

  lemma CoverOne(b: Block)
    ensures Cover([b]) == Range(b.lo, b.hi)
  {
    assert Cover([b][1..]) == {};
  }

  lemma CoverSnoc(bs: seq<Block>)
    requires bs != []
    ensures Cover(bs) == Cover(bs[..|bs| - 1]) + Range(bs[|bs| - 1].lo, bs[|bs| - 1].hi)
  {
    var rest, last := bs[..|bs| - 1], bs[|bs| - 1];
    CoverOne(last);
    hide Cover;
    hide Range;
    assert bs == rest + [last];
    CoverConcat(rest, [last]);
  }

  lemma {:induction false} AllBelow(bs: seq<Block>, bound: int)
    requires forall i :: 0 <= i < |bs| ==> bs[i].hi <= bound
    ensures forall p :: p in Cover(bs) ==> p < bound
  {
    if bs != [] {
      AllBelow(bs[1..], bound);
    }
  }

  lemma {:induction false} AllAbove(bs: seq<Block>, bound: int)
    requires forall i :: 0 <= i < |bs| ==> bound <= bs[i].lo
    ensures forall p :: p in Cover(bs) ==> bound <= p
  {
    if bs != [] {
      AllAbove(bs[1..], bound);
    }
  }

  /** In normal form the block lengths add up to the number of covered positions. */
  lemma {:induction false} TotalIsCardinality(bs: seq<Block>)
    requires Normal(bs)
    ensures Total(bs) == |Cover(bs)|
  {
    if bs != [] {
      var rest, last := bs[..|bs| - 1], bs[|bs| - 1];
      TotalIsCardinality(rest);
      CoverSnoc(bs);
      AllBelow(rest, last.lo);
      assert Cover(rest) !! Range(last.lo, last.hi);
    }
  }

  /** The position just past a block of a normal list is not covered. */
  lemma EndNotCovered(bs: seq<Block>, i: nat)
    requires Normal(bs) && i < |bs|
    ensures bs[i].hi !in Cover(bs)
  {
    CoverMember(bs, bs[i].hi);
    forall j | 0 <= j < |bs|
      ensures !Holds(bs[j], bs[i].hi)
    {
      assert j < i ==> bs[j].hi < bs[i].lo;
      assert j > i ==> bs[i].hi < bs[j].lo;
    }
  }

  lemma FirstIsLeast(bs: seq<Block>, p: int)
    requires Normal(bs) && p in Cover(bs)
    ensures bs != [] && bs[0].lo <= p && bs[0].lo in Cover(bs)
  {
    CoverMember(bs, p);
    var i :| 0 <= i < |bs| && Holds(bs[i], p);
    assert i == 0 || bs[0].hi < bs[i].lo;
    assert Holds(bs[0], bs[0].lo);
    CoverMember(bs, bs[0].lo);
  }

  lemma TailCover(bs: seq<Block>)
    requires Normal(bs) && bs != []
    ensures Normal(bs[1..]) && Cover(bs[1..]) == Cover(bs) - Range(bs[0].lo, bs[0].hi)
  {
    AllAbove(bs[1..], bs[0].hi);
  }

  lemma FirstCovered(bs: seq<Block>)
    requires Normal(bs) && bs != []
    ensures bs[0].lo in Cover(bs)
  {
    BlockInCover(bs, 0, bs[0].lo);
  }

  lemma FirstNotLater(a: seq<Block>, b: seq<Block>)
    requires Normal(a) && Normal(b) && a != [] && Cover(a) == Cover(b)
    ensures b != [] && b[0].lo <= a[0].lo
  {
    FirstCovered(a);
    FirstIsLeast(b, a[0].lo);
  }

  lemma FirstNotLonger(a: seq<Block>, b: seq<Block>)
    requires Normal(a) && Normal(b) && a != [] && b != [] && Cover(a) == Cover(b)
    requires a[0].lo == b[0].lo
    ensures b[0].hi <= a[0].hi
  {
    EndNotCovered(a, 0);
    CoverMember(b, a[0].hi);
    assert a[0].hi < b[0].hi ==> Holds(b[0], a[0].hi);
  }

  /** A byte set has one normal list. */
  lemma {:induction false} Canonical(a: seq<Block>, b: seq<Block>)
    requires Normal(a) && Normal(b) && Cover(a) == Cover(b)
    ensures a == b
    decreases |a|
  {
    if a == [] {
      if b != [] { FirstNotLater(b, a); }
    } else {
      FirstNotLater(a, b);
      FirstNotLater(b, a);
      FirstNotLonger(a, b);
      FirstNotLonger(b, a);
      TailCover(a);
      TailCover(b);
      Canonical(a[1..], b[1..]);
      assert a == [a[0]] + a[1..] && b == [b[0]] + b[1..];
    }
  }

  /** A run of covered positions lies inside a single block of a normal list. */
  lemma RunInsideOneBlock(bs: seq<Block>, lo: int, hi: int) returns (i: nat)
    requires Normal(bs) && lo < hi && Range(lo, hi) <= Cover(bs)
    ensures i < |bs| && bs[i].lo <= lo && hi <= bs[i].hi
  {
    assert lo in Range(lo, hi);
    CoverMember(bs, lo);
    i :| 0 <= i < |bs| && Holds(bs[i], lo);
    EndNotCovered(bs, i);
    assert bs[i].hi !in Range(lo, hi);
  }

  lemma BlockInCover(bs: seq<Block>, i: nat, p: int)
    requires i < |bs| && bs[i].lo <= p < bs[i].hi
    ensures p in Cover(bs)
  {
    CoverMember(bs, p);
    assert Holds(bs[i], p);
  }
}
