/** The SACK option on the wire: writing it, parsing it, and parsing a truncated capture of it. */
module SackOption {
  import opened SeqSpace
  import opened TcpSacks
  import opened SackCoverage

  function BytesOf(x: u32): (b: seq<byte>)
    ensures |b| == 4
  {
    [x / 0x100_0000, x / 0x1_0000 % 256, x / 256 % 256, x % 256]
  }

  function BlockBytes(s: Sack): (b: seq<byte>)
    ensures |b| == 8
  {
    BytesOf(s.start) + BytesOf(s.end)
  }

  function Payload(blocks: seq<Sack>): (b: seq<byte>)
    ensures |b| == 8 * |blocks|
  {
    if blocks == [] then [] else Payload(blocks[..|blocks| - 1]) + BlockBytes(blocks[|blocks| - 1])
  }

  /** The SACK option as a receiver writes it (section 3 of RFC 2018). */
  function Encoded(blocks: seq<Sack>): seq<byte>
    requires |blocks| <= 4
  {
    var kind, size: byte := 5, 2 + 8 * |blocks|;
    [kind, size] + Payload(blocks)
  }

  lemma {:induction false} PayloadAt(blocks: seq<Sack>, k: nat)
    requires k < |blocks|
    ensures Payload(blocks)[8 * k..8 * k + 8] == BlockBytes(blocks[k])
  {
    var n := |blocks| - 1;
    var front, last := Payload(blocks[..n]), BlockBytes(blocks[n]);
    assert Payload(blocks) == front + last;
    hide BlockBytes;
    if k < n {
      PayloadAt(blocks[..n], k);
      assert (front + last)[8 * k..8 * k + 8] == front[8 * k..8 * k + 8];
    } else {
      assert (front + last)[8 * n..8 * n + 8] == last;
    }
  }

  lemma BytesAddUp(x: u32)
    ensures 0x100_0000 * (x / 0x100_0000) + 0x1_0000 * (x / 0x1_0000 % 256) + 0x100 * (x / 256 % 256) + x % 256 == x
  {
    var a, b: int := x / 256, x / 0x1_0000;
    assert a / 256 == b && b / 256 == x / 0x100_0000;
  }

  lemma BigEndianOfBytes(bytes: seq<byte>, i: nat, x: u32)
    requires i + 4 <= |bytes| && bytes[i..i + 4] == BytesOf(x)
    ensures BigEndian(bytes, i) == x
  {
    var four := bytes[i..i + 4];
    assert bytes[i] == four[0] && bytes[i + 1] == four[1] && bytes[i + 2] == four[2] && bytes[i + 3] == four[3];
    BytesAddUp(x);
  }

  lemma BlockAt(bytes: seq<byte>, i: nat, s: Sack)
    requires i + 8 <= |bytes| && bytes[i..i + 8] == BlockBytes(s)
    ensures Sack(BigEndian(bytes, i), BigEndian(bytes, i + 4)) == s
  {
    assert bytes[i..i + 4] == bytes[i..i + 8][..4] && bytes[i + 4..i + 8] == bytes[i..i + 8][4..];
    BigEndianOfBytes(bytes, i, s.start);
    BigEndianOfBytes(bytes, i + 4, s.end);
  }

  /** What a receiver writes is what the parser extracts. */
  lemma DecodeEncoded(blocks: seq<Sack>)
    requires |blocks| <= 4
    ensures WellSized(Encoded(blocks)) && WholeBlocks(Encoded(blocks)) == blocks
  {
    var option := Encoded(blocks);
    assert WholeCount(option) == |blocks|;
    hide BigEndian;
    forall k | 0 <= k < |blocks|
      ensures WholeBlocks(option)[k] == blocks[k]
    {
      PayloadAt(blocks, k);
      assert option[2 + 8 * k..2 + 8 * k + 8] == Payload(blocks)[8 * k..8 * k + 8];
      BlockAt(option, 2 + 8 * k, blocks[k]);
    }
  }

  lemma BigEndianPrefix(option: seq<byte>, captured: nat, i: nat)
    requires i + 4 <= captured <= |option|
    ensures BigEndian(option[..captured], i) == BigEndian(option, i)
  {
  }

  /** Truncation only loses whole blocks at the end. */
  lemma TruncationIsPrefix(option: seq<byte>, captured: nat)
    requires WellSized(option) && 2 <= captured <= |option|
    ensures WellSized(option[..captured]) && WholeBlocks(option[..captured]) <= WholeBlocks(option)
  {
    var cut := option[..captured];
    forall i | 0 <= i < WholeCount(cut)
      ensures i < WholeCount(option) && WholeBlocks(cut)[i] == WholeBlocks(option)[i]
    {
      BigEndianPrefix(option, captured, 2 + 8 * i);
      BigEndianPrefix(option, captured, 6 + 8 * i);
    }
    hide BigEndian;
  }

  /** A truncated option never makes the scoreboard claim bytes that the full one does not. */
  lemma TruncationCoversLess(base: int, option: seq<byte>, captured: nat)
    requires WellSized(option) && 2 <= captured <= |option| && AllInside(base, WholeBlocks(option))
    ensures WellSized(option[..captured])
    ensures Good(base, ParsedList(WholeBlocks(option[..captured])))
    ensures Covered(base, ParsedList(WholeBlocks(option[..captured])))
         <= Covered(base, ParsedList(WholeBlocks(option)))
  {
    TruncationIsPrefix(option, captured);
    var all, some := WholeBlocks(option), WholeBlocks(option[..captured]);
    assert all == some + all[|some|..];
    CoveredConcat(base, some, all[|some|..]);
    assert AllInside(base, some);
    ParseExact(base, all);
    ParseExact(base, some);
  }
}
