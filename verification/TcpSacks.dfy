/** The SACK scoreboard: an ordered list of 32-bit sequence ranges that is edited in place. */
module TcpSacks {
  import opened SeqSpace

  type byte = x: int | 0 <= x < 256

  datatype Sack = Sack(start: u32, end: u32)

  /** The list together with the byte counter kept beside it, which a tail insertion leaves stale. */
  datatype Board = Board(list: seq<Sack>, numBytes: u32)

  // ----- what each operation does to the list

  /** Sum of the block lengths. */
  function Bytes(ss: seq<Sack>): nat {
    if ss == [] then 0 else Bytes(ss[..|ss| - 1]) + Sub(ss[|ss| - 1].end, ss[|ss| - 1].start)
  }

  function Recounted(ss: seq<Sack>): Board {
    Board(ss, Wrap(Bytes(ss)))
  }

  predicate Touches(a: Sack, b: Sack) {
    Overlaps(a.start, a.end, b.start, b.end)
  }

  /** The first block, from index k on, that `s` precedes or touches. */
  function FirstTouch(ss: seq<Sack>, s: Sack, k: nat): (r: nat)
    requires k <= |ss|
    ensures k <= r <= |ss|
    ensures forall i :: k <= i < r ==> !Before(s.end, ss[i].start) && !Touches(ss[i], s)
    ensures r < |ss| ==> Before(s.end, ss[r].start) || Touches(ss[r], s)
    decreases |ss| - k
  {
    if k == |ss| || Before(s.end, ss[k].start) || Touches(ss[k], s) then k else FirstTouch(ss, s, k + 1)
  }

  function InsertAt(ss: seq<Sack>, s: Sack, k: nat): seq<Sack>
    requires k <= |ss|
  {
    ss[..k] + [s] + ss[k..]
  }

  function Joined(a: Sack, b: Sack): Sack {
    Sack(if Before(b.start, a.start) then b.start else a.start, if After(b.end, a.end) then b.end else a.end)
  }

  /** The list with its neighbours k and k + 1 replaced by their hull. */
  function JoinAt(ss: seq<Sack>, k: nat): seq<Sack>
    requires k + 1 < |ss|
  {
    ss[..k] + [Joined(ss[k], ss[k + 1])] + ss[k + 2..]
  }

  /** Merging onwards from index k. */
  function MergeAt(ss: seq<Sack>, k: nat): seq<Sack>
    decreases |ss| - k
  {
    if k + 1 >= |ss| then ss
    else if Touches(ss[k], ss[k + 1]) then MergeAt(JoinAt(ss, k), k)
    else MergeAt(ss, k + 1)
  }

  function AddOne(b: Board, s: Sack): Board {
    var k := FirstTouch(b.list, s, 0);
    if k == |b.list| then Board(b.list + [s], b.numBytes)
    else if Before(s.end, b.list[k].start) then Recounted(InsertAt(b.list, s, k))
    else Recounted(MergeAt(InsertAt(b.list, s, k), 0))
  }

  /** Adding the blocks one by one, in order. */
  function AddAll(b: Board, blocks: seq<Sack>): Board {
    if blocks == [] then b else AddOne(AddAll(b, blocks[..|blocks| - 1]), blocks[|blocks| - 1])
  }

  /** The list without the part before the acknowledged sequence number. */
  function Trimmed(ss: seq<Sack>, acked: u32): seq<Sack> {
    if ss == [] then []
    else if !After(ss[0].end, acked) then Trimmed(ss[1..], acked)
    else if Before(ss[0].start, acked) then [Sack(acked, ss[0].end)] + ss[1..]
    else ss
  }

  // ----- the SACK option on the wire (section 3 of RFC 2018)

  /** A 32-bit value in network byte order. */
  function BigEndian(bytes: seq<byte>, i: nat): u32
    requires i + 4 <= |bytes|
  {
    var b0: int, b1: int, b2: int, b3: int := bytes[i], bytes[i + 1], bytes[i + 2], bytes[i + 3];
    0x100_0000 * b0 + 0x1_0000 * b1 + 0x100 * b2 + b3
  }

  predicate WellSized(option: seq<byte>) {
    |option| >= 2 && (option[1] as int - 2) % 8 == 0 && option[1] <= 40
  }

  /** How many blocks of a possibly truncated option were captured completely. */
  function WholeCount(option: seq<byte>): (n: nat)
    requires WellSized(option)
    ensures 2 + 8 * n <= |option|
  {
    var declared, captured := (option[1] as int - 2) / 8, (|option| - 2) / 8;
    if declared <= captured then declared else captured
  }

  function WholeBlocks(option: seq<byte>): seq<Sack>
    requires WellSized(option)
  {
    seq(WholeCount(option), i requires 0 <= i < WholeCount(option) =>
      Sack(BigEndian(option, 2 + 8 * i), BigEndian(option, 6 + 8 * i)))
  }

  function ParsedList(blocks: seq<Sack>): seq<Sack> {
    MergeAt(AddAll(Board([], 0), blocks).list, 0)
  }

  lemma {:induction false} ListIgnoresCounter(list: seq<Sack>, n: u32, m: u32, blocks: seq<Sack>)
    ensures AddAll(Board(list, n), blocks).list == AddAll(Board(list, m), blocks).list
  {
    if blocks != [] {
      ListIgnoresCounter(list, n, m, blocks[..|blocks| - 1]);
    }
  }

  // ----- the class

  class Scoreboard {
    var sacks: seq<Sack>
    var numSacks: nat
    var numBytes: u32

    ghost function State(): Board
      reads this
    {
      Board(sacks, numBytes)
    }

    constructor ()
      ensures State() == Board([], 0) && numSacks == 0
    {
      sacks, numSacks, numBytes := [], 0, 0;
    }

    method Parse(option: seq<byte>) returns (ok: bool)
      modifies this
      ensures ok == (|option| < 2 || WellSized(option))
      ensures ok && |option| >= 2 ==>
                numSacks == (option[1] as int - 2) / 8 && State() == Recounted(ParsedList(WholeBlocks(option)))
      ensures !ok || |option| < 2 ==> sacks == [] && numSacks == 0 && numBytes == old(numBytes)
    {
      hide BigEndian;
      hide AddOne;
      hide MergeAt;
      sacks, numSacks := [], 0;
      if |option| < 2 {
        return true;
      }
      var size: int := option[1];
      if (size - 2) % 8 != 0 || size > 40 {
        return false;
      }
      numSacks := (size - 2) / 8;
      var used := 2;
      ghost var start, blocks, i := State(), WholeBlocks(option), 0;
      while used + 8 <= |option| && used < size
        invariant numSacks == (size - 2) / 8 && used == 2 + 8 * i && i <= |blocks|
        invariant State() == AddAll(start, blocks[..i])
      {
        var sack := Sack(BigEndian(option, used), BigEndian(option, used + 4));
        assert sack == blocks[i] && blocks[..i + 1][..i] == blocks[..i];
        Add(sack);
        used, i := used + 8, i + 1;
      }
      assert i == |blocks| && blocks[..i] == blocks;
      ListIgnoresCounter([], start.numBytes, 0, blocks);
      Merge();
      UpdateNumBytes();
      return true;
    }

    method Add(newSack: Sack)
      modifies this`sacks, this`numBytes
      ensures State() == AddOne(old(State()), newSack)
    {
      var i := 0;
      while i < |sacks|
        invariant i <= |sacks| && State() == old(State())
        invariant FirstTouch(sacks, newSack, 0) == FirstTouch(sacks, newSack, i)
      {
        if Before(newSack.end, sacks[i].start) {
          sacks := InsertAt(sacks, newSack, i);
          UpdateNumBytes();
          return;
        } else if Touches(sacks[i], newSack) {
          sacks := InsertAt(sacks, newSack, i);
          Merge();
          UpdateNumBytes();
          return;
        }
        i := i + 1;
      }
      sacks := sacks + [newSack];
    }

    method AddSacks(newSacks: seq<Sack>)
      modifies this`sacks, this`numBytes
      ensures State() == AddAll(old(State()), newSacks)
    {
      for i := 0 to |newSacks|
        invariant State() == AddAll(old(State()), newSacks[..i])
      {
        assert newSacks[..i + 1][..i] == newSacks[..i];
        Add(newSacks[i]);
      }
      assert newSacks[..|newSacks|] == newSacks;
    }

    method Merge()
      modifies this`sacks
      ensures sacks == MergeAt(old(sacks), 0)
    {
      if |sacks| < 2 {
        return;
      }
      var current := 0;
      while current + 1 < |sacks|
        invariant MergeAt(sacks, current) == MergeAt(old(sacks), 0)
        decreases |sacks| - current
      {
        var next := sacks[current + 1];
        if Touches(sacks[current], next) {
          var grown := sacks[current];
          if Before(next.start, grown.start) {
            grown := grown.(start := next.start);
          }
          if After(next.end, grown.end) {
            grown := grown.(end := next.end);
          }
          sacks := sacks[..current] + [grown] + sacks[current + 2..];
        } else {
          current := current + 1;
        }
      }
    }

    method RemoveAcked(acked: u32)
      modifies this`sacks, this`numBytes
      ensures State() == Recounted(Trimmed(old(sacks), acked))
    {
      while sacks != []
        invariant Trimmed(sacks, acked) == Trimmed(old(sacks), acked)
        decreases |sacks|
      {
        if !After(sacks[0].end, acked) {
          sacks := sacks[1..];
          continue;
        }
        if Before(sacks[0].start, acked) {
          sacks := [Sack(acked, sacks[0].end)] + sacks[1..];
        }
        break;
      }
      UpdateNumBytes();
    }

    method UpdateNumBytes()
      modifies this`numBytes
      ensures State() == Recounted(sacks)
    {
      hide Sub;
      numBytes := 0;
      for i := 0 to |sacks|
        invariant numBytes == Wrap(Bytes(sacks[..i]))
      {
        assert sacks[..i + 1][..i] == sacks[..i];
        numBytes := Wrap(numBytes + Sub(sacks[i].end, sacks[i].start));
      }
      assert sacks[..|sacks|] == sacks;
    }
  }
}
