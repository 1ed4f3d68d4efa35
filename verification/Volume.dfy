/** The on-disk structure of kernel/fs.c: a bitmap of used blocks, inodes with direct block
    numbers and one indirect table, and who owns which block. */
module Volume {
  import opened Basics
  import opened Blocks

  const NDIRECT := 12
  const NINDIRECT := 128
  const MAXFILE := 140
  const IPB := 8

  /** The super block, and datastart, the end of the metadata. */
  datatype Super = Super(size: nat, ninodes: nat, inodestart: nat, bmapstart: nat, datastart: nat)

  ghost predicate ValidSuper(sb: Super) {
    && 2 <= sb.inodestart
    && sb.inodestart + sb.ninodes / IPB + 1 <= sb.bmapstart
    && sb.bmapstart + sb.size / BPB + 1 <= sb.datastart <= sb.size < UINT_LIMIT
  }

  /** An inode: w0 and w1 are the words holding type, major, minor and nlink; addrs[NDIRECT] is the
      indirect table. */
  datatype Dinode = Dinode(w0: uint, w1: uint, size: uint, addrs: seq<uint>)

  type Inode = d: Dinode | |d.addrs| == NDIRECT + 1
    witness Dinode(0, 0, 0, seq(NDIRECT + 1, i => 0))

  /** The blocks as seen through cache and log, and the in-core inodes. */
  datatype Vol = Vol(blocks: seq<Block>, inodes: seq<Inode>)

  ghost predicate Shape(sb: Super, v: Vol) {
    ValidSuper(sb) && |v.blocks| == sb.size && |v.inodes| == sb.ninodes
  }

  // Inodes on disk: 16 words each, IPB to a block.

  function IBlock(sb: Super, n: nat): nat { n / IPB + sb.inodestart }

  /** Word k of inode n in its block. */
  function DWord(b: Block, n: nat, k: nat): uint
    requires k < 16
  {
    Word(b, 16 * (n % IPB) + k)
  }

  function DiskAddrs(b: Block, n: nat): (r: seq<uint>) {
    seq(NDIRECT + 1, i requires 0 <= i < NDIRECT + 1 => DWord(b, n, 3 + i))
  }

  function DiskInode(b: Block, n: nat): (r: Inode) {
    Dinode(DWord(b, n, 0), DWord(b, n, 1), DWord(b, n, 2), DiskAddrs(b, n))
  }

  /** The in-core inode is what is on disk. */
  ghost predicate Synced(sb: Super, v: Vol, n: nat)
    requires Shape(sb, v) && n < sb.ninodes
  {
    DiskInode(v.blocks[IBlock(sb, n)], n) == v.inodes[n]
  }

  // The free map.

  function BBlock(sb: Super, b: nat): nat { b / BPB + sb.bmapstart }

  ghost predicate Used(sb: Super, blocks: seq<Block>, b: nat)
    requires ValidSuper(sb) && |blocks| == sb.size && b < sb.size
  {
    Bit(blocks[BBlock(sb, b)], b % BPB)
  }

  /** Exactly the metadata and the blocks in s are marked used. */
  ghost predicate BitmapIs(sb: Super, blocks: seq<Block>, s: set<uint>)
    requires ValidSuper(sb) && |blocks| == sb.size
  {
    forall b: uint | b < sb.size :: Used(sb, blocks, b) <==> b < sb.datastart || b in s
  }

  // Who owns a block: a place that can hold a block number.

  datatype Slot = Direct(n: nat, i: nat) | Table(n: nat) | Entry(n: nat, j: nat)

  ghost predicate ValidSlot(sb: Super, s: Slot) {
    s.n < sb.ninodes && (s.Direct? ==> s.i < NDIRECT) && (s.Entry? ==> s.j < NINDIRECT)
  }

  /** The block number held at a place; entries of an absent table hold none. */
  ghost function At(sb: Super, v: Vol, s: Slot): uint
    requires Shape(sb, v) && ValidSlot(sb, s)
  {
    match s
    case Direct(n, i) => v.inodes[n].addrs[i]
    case Table(n) => v.inodes[n].addrs[NDIRECT]
    case Entry(n, j) =>
      var t := v.inodes[n].addrs[NDIRECT];
      if 0 < t < sb.size then Word(v.blocks[t], j) else 0
  }

  /** owner is the exact inverse of At: every block number in use is held at one place, and is a
      data block. */
  ghost predicate Links(sb: Super, v: Vol, owner: map<uint, Slot>)
    requires Shape(sb, v)
  {
    && (forall s: Slot | ValidSlot(sb, s) && At(sb, v, s) != 0 ::
          At(sb, v, s) in owner && owner[At(sb, v, s)] == s)
    && (forall b: uint | b in owner ::
          sb.datastart <= b < sb.size && ValidSlot(sb, owner[b]) && At(sb, v, owner[b]) == b)
  }

  // Files.

  function FileSlot(n: nat, bn: nat): Slot {
    if bn < NDIRECT then Direct(n, bn) else Entry(n, bn - NDIRECT)
  }

  ghost function AddrOf(sb: Super, v: Vol, n: nat, bn: nat): uint
    requires Shape(sb, v) && n < sb.ninodes && bn < MAXFILE
  {
    At(sb, v, FileSlot(n, bn))
  }

  /** Exactly the first k blocks of file n are mapped, and the table exists only if needed. */
  ghost predicate Mapped(sb: Super, v: Vol, n: nat, k: nat)
    requires Shape(sb, v) && n < sb.ninodes
  {
    && k <= MAXFILE
    && (forall bn | 0 <= bn < MAXFILE :: AddrOf(sb, v, n, bn) != 0 <==> bn < k)
    && (v.inodes[n].addrs[NDIRECT] != 0 <==> k > NDIRECT)
  }

  /** Number of blocks holding size bytes. */
  function Ceil(size: nat): nat { (size + BSIZE - 1) / BSIZE }

  ghost predicate NoHoles(sb: Super, v: Vol, n: nat)
    requires Shape(sb, v) && n < sb.ninodes
  {
    v.inodes[n].size <= MAXFILE * BSIZE && Mapped(sb, v, n, Ceil(v.inodes[n].size))
  }

  /** What every file-system operation keeps. */
  ghost predicate FsInv(sb: Super, v: Vol, owner: map<uint, Slot>) {
    && Shape(sb, v)
    && Links(sb, v, owner)
    && BitmapIs(sb, v.blocks, owner.Keys)
    && (forall n | 0 <= n < sb.ninodes :: v.inodes[n].size <= MAXFILE * BSIZE)
    && (forall n | 0 <= n < sb.ninodes :: Synced(sb, v, n) && NoHoles(sb, v, n))
  }

  /** The bytes of file block bn. */
  ghost function FileBlock(sb: Super, v: Vol, n: nat, bn: nat): Block
    requires Shape(sb, v) && n < sb.ninodes && bn < MAXFILE
  {
    var a := AddrOf(sb, v, n, bn);
    if a < sb.size then v.blocks[a] else ZERO
  }

  /** Byte i of file n, through the block map. */
  ghost function ByteAt(sb: Super, v: Vol, n: nat, i: nat): byte
    requires Shape(sb, v) && n < sb.ninodes && i < MAXFILE * BSIZE
  {
    FileBlock(sb, v, n, i / BSIZE)[i % BSIZE]
  }

  /** The first k bytes of file n. */
  ghost function Bytes(sb: Super, v: Vol, n: nat, k: nat): (c: seq<byte>)
    requires Shape(sb, v) && n < sb.ninodes && k <= MAXFILE * BSIZE
    ensures |c| == k
  {
    if k == 0 then [] else Bytes(sb, v, n, k - 1) + [ByteAt(sb, v, n, k - 1)]
  }

  /** The file as a flat byte sequence. */
  ghost function Content(sb: Super, v: Vol, n: nat): (c: seq<byte>)
    requires Shape(sb, v) && n < sb.ninodes && v.inodes[n].size <= MAXFILE * BSIZE
    ensures |c| == v.inodes[n].size
  {
    Bytes(sb, v, n, v.inodes[n].size)
  }

  lemma {:induction false} BytesAt(sb: Super, v: Vol, n: nat, k: nat, i: nat)
    requires Shape(sb, v) && n < sb.ninodes && i < k <= MAXFILE * BSIZE
    ensures Bytes(sb, v, n, k)[i] == ByteAt(sb, v, n, i)
  {
    if i < k - 1 {
      BytesAt(sb, v, n, k - 1, i);
    }
  }

  // Frames: which part of the disk each notion reads.

  ghost predicate SameRange(x: seq<Block>, y: seq<Block>, lo: nat, hi: nat) {
    |x| == |y| && forall i | 0 <= i < |x| && lo <= i < hi :: x[i] == y[i]
  }

  lemma BitmapFrame(sb: Super, x: seq<Block>, y: seq<Block>, s: set<uint>)
    requires ValidSuper(sb) && |x| == sb.size && SameRange(x, y, sb.bmapstart, sb.datastart)
    ensures BitmapIs(sb, x, s) <==> BitmapIs(sb, y, s)
  {
    forall b: uint | b < sb.size ensures Used(sb, x, b) <==> Used(sb, y, b) {
      assert sb.bmapstart <= BBlock(sb, b) < sb.datastart;
    }
  }

  lemma SyncedFrame(sb: Super, v: Vol, w: Vol, n: nat)
    requires Shape(sb, v) && Shape(sb, w) && n < sb.ninodes
    requires SameRange(v.blocks, w.blocks, sb.inodestart, sb.bmapstart) && v.inodes[n] == w.inodes[n]
    ensures Synced(sb, v, n) <==> Synced(sb, w, n)
  {
    assert sb.inodestart <= IBlock(sb, n) < sb.bmapstart;
  }

  /** Block numbers held in inodes and in tables stay while inodes and tables do. */
  lemma LinksFrame(sb: Super, v: Vol, w: Vol, owner: map<uint, Slot>)
    requires Shape(sb, v) && Shape(sb, w) && Links(sb, v, owner)
    requires v.inodes == w.inodes
    requires forall b: uint | b in owner && owner[b].Table? :: v.blocks[b] == w.blocks[b]
    ensures forall s: Slot | ValidSlot(sb, s) :: At(sb, w, s) == At(sb, v, s)
    ensures Links(sb, w, owner)
  {
    forall s: Slot | ValidSlot(sb, s) ensures At(sb, w, s) == At(sb, v, s) {
      if s.Entry? {
        var t := v.inodes[s.n].addrs[NDIRECT];
        assert At(sb, v, Table(s.n)) == t;
        assert ValidSlot(sb, Table(s.n));
        if t != 0 {
          assert t in owner && owner[t] == Table(s.n);
        }
      }
    }
  }

  /** An indirect table is a data block. */
  lemma TableOwned(sb: Super, v: Vol, owner: map<uint, Slot>, n: nat)
    requires Shape(sb, v) && Links(sb, v, owner) && n < sb.ninodes && v.inodes[n].addrs[NDIRECT] != 0
    ensures sb.datastart <= v.inodes[n].addrs[NDIRECT] < sb.size
  {
    assert ValidSlot(sb, Table(n)) && At(sb, v, Table(n)) == v.inodes[n].addrs[NDIRECT];
  }

  /** A file block that is mapped is owned by its place in the file. */
  lemma MappedOwned(sb: Super, v: Vol, owner: map<uint, Slot>, n: nat, bn: nat)
    requires Shape(sb, v) && Links(sb, v, owner) && n < sb.ninodes && bn < MAXFILE
    requires AddrOf(sb, v, n, bn) != 0
    ensures var a := AddrOf(sb, v, n, bn);
            a in owner && owner[a] == FileSlot(n, bn) && sb.datastart <= a < sb.size
  {
    assert ValidSlot(sb, FileSlot(n, bn));
  }
}
