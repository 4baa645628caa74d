/** Blocks as bytes: the words of an indirect block and the bits of the free map. */
module InodeLayout {

  const BSIZE := 512
  const NDIRECT := 12
  const NINDIRECT := 128
  const MAXFILE := NDIRECT + NINDIRECT
  const BPB := 4096  // bits of the free map per block
  const WORD := 0x1_0000_0000

  datatype Block = Block(bytes: seq<int>)

  predicate Full(b: Block) {
    |b.bytes| == BSIZE
  }

  function Zeroed(): (b: Block)
    ensures Full(b)
  {
    Block(seq(BSIZE, i => 0))
  }

  // Little-endian words.

  function Word(b: Block, j: int): int
    requires Full(b) && 0 <= j < NINDIRECT
  {
    b.bytes[4 * j] + 256 * b.bytes[4 * j + 1] + 0x1_0000 * b.bytes[4 * j + 2] + 0x100_0000 * b.bytes[4 * j + 3]
  }

  function PutWord(b: Block, j: int, w: int): (r: Block)
    requires Full(b) && 0 <= j < NINDIRECT
    ensures Full(r)
  {
    Block(b.bytes[4 * j := w % 256][4 * j + 1 := w / 256 % 256]
          [4 * j + 2 := w / 0x1_0000 % 256][4 * j + 3 := w / 0x100_0000 % 256])
  }

  lemma SplitWord(w: int)
    requires 0 <= w < WORD
    ensures w % 256 + 256 * (w / 256 % 256) + 0x1_0000 * (w / 0x1_0000 % 256) + 0x100_0000 * (w / 0x100_0000 % 256) == w
  {
    assert w / 0x1_0000 == w / 256 / 256;
    assert w / 0x100_0000 == w / 256 / 256 / 256;
  }

  /** A word reads back as it was written, and the other words stay. */
  lemma WordPut(b: Block, j: int, w: int, i: int)
    requires Full(b) && 0 <= j < NINDIRECT && 0 <= i < NINDIRECT && 0 <= w < WORD
    ensures Word(PutWord(b, j, w), i) == if i == j then w else Word(b, i)
  {
    SplitWord(w);
    if i != j {
      assert 4 * i + 3 < 4 * j || 4 * j + 3 < 4 * i;
    }
  }

  // Bits.

  /** The code's x & (1 << k), as 0 or 1. */
  function BitOf(x: int, k: nat): int
    decreases k
  {
    if k == 0 then x % 2 else BitOf(x / 2, k - 1)
  }

  /** x with bit k set or cleared. */
  function WithBit(x: int, k: nat, on: bool): int
    decreases k
  {
    if k == 0 then x / 2 * 2 + (if on then 1 else 0) else x % 2 + 2 * WithBit(x / 2, k - 1, on)
  }

  lemma {:induction false} BitOfWith(x: int, k: nat, on: bool, i: nat)
    ensures BitOf(WithBit(x, k, on), i) == if i == k then (if on then 1 else 0) else BitOf(x, i)
    decreases k
  {
    if k > 0 {
      var y := WithBit(x / 2, k - 1, on);
      assert (x % 2 + 2 * y) / 2 == y && (x % 2 + 2 * y) % 2 == x % 2;
      if i > 0 {
        BitOfWith(x / 2, k - 1, on, i - 1);
      }
    } else if i > 0 {
      assert WithBit(x, 0, on) / 2 == x / 2;
    }
  }

  predicate MapBit(b: Block, i: int)
    requires Full(b) && 0 <= i < BPB
  {
    BitOf(b.bytes[i / 8], i % 8) == 1
  }

  function PutBit(b: Block, i: int, on: bool): (r: Block)
    requires Full(b) && 0 <= i < BPB
    ensures Full(r)
  {
    Block(b.bytes[i / 8 := WithBit(b.bytes[i / 8], i % 8, on)])
  }

  lemma MapBitPut(b: Block, i: int, on: bool, j: int)
    requires Full(b) && 0 <= i < BPB && 0 <= j < BPB
    ensures MapBit(PutBit(b, i, on), j) == if j == i then on else MapBit(b, j)
  {
    BitOfWith(b.bytes[i / 8], i % 8, on, j % 8);
    if j / 8 == i / 8 {
      assert j == i <==> j % 8 == i % 8;
    }
  }

  /** Bytes laid over a block from position at. */
  function PutBytes(b: Block, at: nat, data: seq<int>): (r: Block)
    requires Full(b) && at + |data| <= BSIZE
    ensures Full(r)
    ensures forall k :: 0 <= k < BSIZE ==>
              r.bytes[k] == if at <= k < at + |data| then data[k - at] else b.bytes[k]
  {
    Block(b.bytes[..at] + data + b.bytes[at + |data|..])
  }
}
