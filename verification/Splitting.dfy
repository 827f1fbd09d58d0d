/** Splitting a coalesced packet into wire packets keeps its bytes and its meaning. */
module Splitting {
  import opened Arithmetic
  import opened SeqSpace
  import opened TcpTimer
  import opened EndpointModel

  function TotalLen(gs: seq<Segment>): nat {
    if gs == [] then 0 else TotalLen(gs[..|gs| - 1]) + gs[|gs| - 1].len
  }

  /** The segments lie back to back from `start` on and differ from `g` in position and length only. */
  predicate BackToBack(gs: seq<Segment>, g: Segment, start: int) {
    forall k :: 0 <= k < |gs| ==>
      gs[k] == g.(seqNo := Wrap(start + TotalLen(gs[..k])), len := gs[k].len)
  }

  /** All segments are non-empty and at most `mss` long, and all but the last are exactly that long. */
  predicate FullSized(gs: seq<Segment>, mss: u32) {
    forall k :: 0 <= k < |gs| ==> 0 < gs[k].len <= mss && (k + 1 < |gs| ==> gs[k].len == mss)
  }

  lemma {:induction false} TotalLenCons(c: Segment, gs: seq<Segment>)
    ensures TotalLen([c] + gs) == c.len + TotalLen(gs)
  {
    if gs == [] {
      assert [c] + gs == [c] && [c][..0] == [];
    } else {
      var all := [c] + gs;
      assert all[..|all| - 1] == [c] + gs[..|gs| - 1];
      TotalLenCons(c, gs[..|gs| - 1]);
    }
  }

  lemma PrefixCons(c: Segment, gs: seq<Segment>, k: nat)
    requires 0 < k <= |gs|
    ensures ([c] + gs)[..k] == [c] + gs[..k - 1] && TotalLen(([c] + gs)[..k]) == c.len + TotalLen(gs[..k - 1])
  {
    assert ([c] + gs)[..k] == [c] + gs[..k - 1];
    TotalLenCons(c, gs[..k - 1]);
  }

  lemma BackToBackCons(c: Segment, gs: seq<Segment>, g: Segment, start: int)
    requires c == g.(seqNo := Wrap(start), len := c.len) && BackToBack(gs, g, start + c.len)
    ensures BackToBack([c] + gs, g, start)
  {
    hide Wrap;
    var all := [c] + gs;
    forall k | 0 <= k < |all|
      ensures all[k] == g.(seqNo := Wrap(start + TotalLen(all[..k])), len := all[k].len)
    {
      if k > 0 {
        PrefixCons(c, gs, k);
        hide TotalLen;
        assert all[k] == gs[k - 1];
      } else {
        assert all[..0] == [];
      }
    }
  }

  lemma FullSizedCons(c: Segment, gs: seq<Segment>, mss: u32)
    requires 0 < c.len <= mss && FullSized(gs, mss) && (gs != [] ==> c.len == mss)
    ensures FullSized([c] + gs, mss)
  {
    forall k | 0 <= k < |[c] + gs|
      ensures 0 < ([c] + gs)[k].len <= mss && (k + 1 < |[c] + gs| ==> ([c] + gs)[k].len == mss)
    {
      if k > 0 {
        assert ([c] + gs)[k] == gs[k - 1];
      }
    }
  }

  predicate SplitOk(gs: seq<Segment>, g: Segment, mss: u32, offset: u32) {
    TotalLen(gs) == g.len - offset && BackToBack(gs, g, g.seqNo + offset) && FullSized(gs, mss)
  }

  lemma SplitStep(g: Segment, mss: u32, offset: u32, len: u32, rest: seq<Segment>)
    requires 0 < len <= mss && offset + len <= g.len && SplitOk(rest, g, mss, offset + len)
    requires len == mss || rest == []
    ensures SplitOk([Cut(g, offset, len)] + rest, g, mss, offset)
  {
    var c := Cut(g, offset, len);
    TotalLenCons(c, rest);
    BackToBackCons(c, rest, g, g.seqNo + offset);
    FullSizedCons(c, rest, mss);
    hide BackToBack;
    hide FullSized;
    hide TotalLen;
    hide Wrap;
  }

  lemma {:induction false} SplitFromExact(g: Segment, mss: u32, offset: u32)
    requires 0 < mss && offset <= g.len
    ensures SplitOk(SplitFrom(g, mss, offset), g, mss, offset)
    decreases g.len - offset
  {
    if offset < g.len {
      hide SplitOk;
      hide Cut;
      var len := Min(mss, g.len - offset);
      assert offset + len == g.len ==> SplitFrom(g, mss, offset + len) == [];
      SplitFromExact(g, mss, offset + len);
      SplitStep(g, mss, offset, len, SplitFrom(g, mss, offset + len));
    }
  }

  lemma SplitAtLeastTwo(g: Segment, mss: u32)
    requires 0 < mss < g.len
    ensures |SplitFrom(g, mss, 0)| >= 2
  {
    assert SplitFrom(g, mss, 0) == [Cut(g, 0, mss)] + SplitFrom(g, mss, mss);
    assert |SplitFrom(g, mss, mss)| >= 1;
  }

  /** The wire packets tile the original range. */
  lemma WireSegmentsExact(g: Segment, mss: u32)
    ensures var gs := WireSegments(g, mss);
            && TotalLen(gs) == g.len && BackToBack(gs, g, g.seqNo)
            && (mss == 0 || g.len <= mss ==> gs == [g])
            && (0 < mss < g.len ==> FullSized(gs, mss) && |gs| >= 2)
  {
    if mss == 0 || g.len <= mss {
      assert [g][..0] == [];
    } else {
      SplitFromExact(g, mss, 0);
      SplitAtLeastTwo(g, mss);
    }
  }

  lemma MultipleBelow(k: int, m: int)
    requires 0 <= k * m < m
    ensures k == 0
  {
    assert k >= 1 ==> k * m >= m;
    assert k <= -1 ==> k * m <= -m;
  }

  lemma QuotientOfProduct(d: int, m: int)
    requires 0 < m && 0 < d
    ensures (d * m) % m == 0 && (d * m) / m == d
  {
    var x := d * m;
    var q, r := x / m, x % m;
    assert x == q * m + r;
    assert (d - q) * m == d * m - q * m;
    MultipleBelow(d - q, m);
  }

  lemma FrameDivides(len: u32, d: nat)
    requires 2 <= d <= 10 && len % d == 0 && len > MAX_MSS
    ensures len % (len / d) == 0 && len / (len / d) == d
  {
    var m := len / d;
    assert len == d * m;
    QuotientOfProduct(d, m);
  }

  /** A segment size derived from a frame larger than an Ethernet frame divides its payload into as few packets as
      possible, at most 10. */
  lemma DerivedMssExact(len: u32)
    ensures var mss := DerivedMss(len);
            && (len < 536 ==> mss == 0)
            && (536 <= len <= 1460 ==> mss == len)
            && (len > 1460 && mss != 0 ==> mss <= 1460 && len % mss == 0 && 2 <= len / mss <= 10)
            && (len > 1460 ==>
                  forall m :: 2 <= m <= 10 && (mss == 0 || m < len / mss) ==> !(len % m == 0 && len / m <= 1460))
  {
    var d := Divisor(len, 2);
    if len > MAX_MSS && d != 0 {
      FrameDivides(len, d);
      assert DerivedMss(len) == len / d;
      assert len / d <= MAX_MSS;
      hide Divisor;
    } else {
      assert len > MAX_MSS ==> DerivedMss(len) == 0;
    }
  }
}
