/** Disk blocks of BSIZE bytes and the little-endian 32-bit words the kernel reads and
    writes inside them (the log header, indirect tables and on-disk inodes are all arrays
    of `uint` laid over the bytes of a block), and the free-map bits. */
module Blocks {
  import opened Basics

  const BSIZE := 512
  const WORDS := 128

  type uint = x: int | 0 <= x < UINT_LIMIT
  type Block = b: seq<byte> | |b| == BSIZE witness seq(BSIZE, i => 0)

  /** memset(data, 0, BSIZE) */
  function Zeros(): (z: Block)
    ensures forall i | 0 <= i < BSIZE :: z[i] == 0
  {
    seq(BSIZE, i => 0)
  }

  const ZERO: Block := Zeros()

  /** The word at index i, as a C program sees it through a `uint*`. */
  function Word(b: Block, i: nat): (w: uint)
    requires i < WORDS
  {
    var b0: int, b1: int, b2: int, b3: int := b[4 * i], b[4 * i + 1], b[4 * i + 2], b[4 * i + 3];
    b0 + 0x100 * b1 + 0x1_0000 * b2 + 0x100_0000 * b3
  }

  function PutWord(b: Block, i: nat, w: uint): (r: Block)
    requires i < WORDS
  {
    b[4 * i := w % 0x100]
     [4 * i + 1 := w / 0x100 % 0x100]
     [4 * i + 2 := w / 0x1_0000 % 0x100]
     [4 * i + 3 := w / 0x100_0000]
  }

  lemma WordSplit(w: uint)
    ensures w % 0x100 + 0x100 * (w / 0x100 % 0x100) + 0x1_0000 * (w / 0x1_0000 % 0x100)
            + 0x100_0000 * (w / 0x100_0000) == w
  {
    assert w / 0x1_0000 == w / 0x100 / 0x100;
    assert w / 0x100_0000 == w / 0x1_0000 / 0x100;
  }

  /** Writing one word changes that word and no other. */
  lemma WordOfPutWord(b: Block, i: nat, w: uint, j: nat)
    requires i < WORDS && j < WORDS
    ensures Word(PutWord(b, i, w), j) == if i == j then w else Word(b, j)
  {
    WordSplit(w);
  }

  lemma PutWordFrame(b: Block, i: nat, w: uint)
    requires i < WORDS
    ensures forall j | 0 <= j < WORDS ::
              Word(PutWord(b, i, w), j) == if i == j then w else Word(b, j)
  {
    forall j | 0 <= j < WORDS
      ensures Word(PutWord(b, i, w), j) == if i == j then w else Word(b, j)
    {
      WordOfPutWord(b, i, w, j);
    }
  }

  lemma ZeroWords()
    ensures forall j | 0 <= j < WORDS :: Word(ZERO, j) == 0
  {
  }

  // Bits of a block, as the free map uses them: bit bi is bit bi % 8 of byte bi / 8.

  const BPB := 4096

  /** x & (1 << k) != 0 */
  predicate BitOf(x: nat, k: nat) {
    if k == 0 then x % 2 == 1 else BitOf(x / 2, k - 1)
  }

  /** x | (1 << k) */
  function OrMask(x: nat, k: nat): (r: nat) {
    if k == 0 then x / 2 * 2 + 1 else 2 * OrMask(x / 2, k - 1) + x % 2
  }

  /** x & ~(1 << k) */
  function AndNotMask(x: nat, k: nat): (r: nat) {
    if k == 0 then x / 2 * 2 else 2 * AndNotMask(x / 2, k - 1) + x % 2
  }

  function Pow2(n: nat): nat { if n == 0 then 1 else 2 * Pow2(n - 1) }

  lemma {:induction false} MaskBound(x: nat, k: nat, n: nat)
    requires k < n && x < Pow2(n)
    ensures OrMask(x, k) < Pow2(n) && AndNotMask(x, k) < Pow2(n)
    decreases k
  {
    if k > 0 {
      MaskBound(x / 2, k - 1, n - 1);
    }
  }

  /** The masks act on bit k and on no other bit. */
  lemma {:induction false} MaskBits(x: nat, k: nat, j: nat)
    ensures BitOf(OrMask(x, k), j) <==> j == k || BitOf(x, j)
    ensures BitOf(AndNotMask(x, k), j) <==> j != k && BitOf(x, j)
    decreases k
  {
    if k > 0 && j > 0 {
      MaskBits(x / 2, k - 1, j - 1);
      assert OrMask(x, k) / 2 == OrMask(x / 2, k - 1);
      assert AndNotMask(x, k) / 2 == AndNotMask(x / 2, k - 1);
    }
  }

  predicate Bit(b: Block, bi: nat)
    requires bi < BPB
  {
    BitOf(b[bi / 8], bi % 8)
  }

  lemma ByteMasks(x: byte, k: nat)
    requires k < 8
    ensures OrMask(x, k) < 256 && AndNotMask(x, k) < 256
  {
    assert Pow2(8) == 2 * (2 * (2 * (2 * Pow2(4))));
    MaskBound(x, k, 8);
  }

  /** data[bi/8] |= m */
  function SetBit(b: Block, bi: nat): (r: Block)
    requires bi < BPB
  {
    ByteMasks(b[bi / 8], bi % 8);
    b[bi / 8 := OrMask(b[bi / 8], bi % 8)]
  }

  /** data[bi/8] &= ~m */
  function ClearBit(b: Block, bi: nat): (r: Block)
    requires bi < BPB
  {
    ByteMasks(b[bi / 8], bi % 8);
    b[bi / 8 := AndNotMask(b[bi / 8], bi % 8)]
  }

  /** Setting or clearing one bit leaves every other bit of the block alone. */
  lemma BitUpdates(b: Block, bi: nat, bj: nat)
    requires bi < BPB && bj < BPB
    ensures Bit(SetBit(b, bi), bj) <==> bj == bi || Bit(b, bj)
    ensures Bit(ClearBit(b, bi), bj) <==> bj != bi && Bit(b, bj)
  {
    ByteMasks(b[bi / 8], bi % 8);
    if bi / 8 == bj / 8 {
      MaskBits(b[bi / 8], bi % 8, bj % 8);
    }
  }
}
