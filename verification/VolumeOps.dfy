/** The elementary changes file-system operations make to a volume, and what each does to block
    ownership and to file contents. */
module VolumeOps {
  import opened Blocks
  import opened Volume
  import opened Counting

  function SetUsed(sb: Super, blocks: seq<Block>, b: nat): seq<Block>
    requires BBlock(sb, b) < |blocks|
  {
    blocks[BBlock(sb, b) := SetBit(blocks[BBlock(sb, b)], b % BPB)]
  }

  function SetFree(sb: Super, blocks: seq<Block>, b: nat): seq<Block>
    requires BBlock(sb, b) < |blocks|
  {
    blocks[BBlock(sb, b) := ClearBit(blocks[BBlock(sb, b)], b % BPB)]
  }

  lemma BBlockRange(sb: Super, b: nat)
    requires ValidSuper(sb) && b < sb.size
    ensures sb.bmapstart <= BBlock(sb, b) < sb.datastart
  {
  }

  lemma SetUsedBits(sb: Super, blocks: seq<Block>, b: nat, c: nat)
    requires ValidSuper(sb) && |blocks| == sb.size && b < sb.size && c < sb.size
    ensures Used(sb, SetUsed(sb, blocks, b), c) <==> c == b || Used(sb, blocks, c)
    ensures Used(sb, SetFree(sb, blocks, b), c) <==> c != b && Used(sb, blocks, c)
  {
    BBlockRange(sb, b);
    BBlockRange(sb, c);
    BitUpdates(blocks[BBlock(sb, b)], b % BPB, c % BPB);
  }

  lemma SetUsedBitmap(sb: Super, blocks: seq<Block>, b: uint, s: set<uint>)
    requires ValidSuper(sb) && |blocks| == sb.size && b < sb.size && BitmapIs(sb, blocks, s)
    ensures BitmapIs(sb, SetUsed(sb, blocks, b), s + {b})
    ensures sb.datastart <= b ==> BitmapIs(sb, SetFree(sb, blocks, b), s - {b})
  {
    forall c: uint | c < sb.size
      ensures Used(sb, SetUsed(sb, blocks, b), c) <==> c < sb.datastart || c in s + {b}
      ensures sb.datastart <= b ==> (Used(sb, SetFree(sb, blocks, b), c) <==> c < sb.datastart || c in s - {b})
    {
      SetUsedBits(sb, blocks, b, c);
    }
  }

  /** balloc's effect: bit set, block zeroed. */
  function Allocated(sb: Super, blocks: seq<Block>, b: nat): seq<Block>
    requires BBlock(sb, b) < |blocks| && b < |blocks|
  {
    SetUsed(sb, blocks, b)[b := ZERO]
  }

  /** Places hold the same numbers, and owned blocks the same bytes. */
  ghost predicate SamePlaces(sb: Super, v: Vol, w: Vol)
    requires Shape(sb, v) && Shape(sb, w)
  {
    forall s: Slot | ValidSlot(sb, s) :: At(sb, w, s) == At(sb, v, s)
  }

  /** A block whose bit is clear belongs to no one; taking it disturbs nothing. */
  lemma AllocInv(sb: Super, v: Vol, owner: map<uint, Slot>, b: uint)
    requires Shape(sb, v) && Links(sb, v, owner) && BitmapIs(sb, v.blocks, owner.Keys)
    requires b < sb.size && !Used(sb, v.blocks, b)
    ensures sb.datastart <= b && b !in owner && BBlock(sb, b) < sb.size
    ensures var w := v.(blocks := Allocated(sb, v.blocks, b));
            && Shape(sb, w) && Links(sb, w, owner) && BitmapIs(sb, w.blocks, owner.Keys + {b})
            && SamePlaces(sb, v, w)
            && (forall x: uint | x in owner :: sb.datastart <= x < sb.size && w.blocks[x] == v.blocks[x])
            && SameRange(v.blocks, w.blocks, sb.inodestart, sb.bmapstart)
            && w.blocks[b] == ZERO
  {
    hide Word, Bit;
    BBlockRange(sb, b);
    var w := v.(blocks := Allocated(sb, v.blocks, b));
    SetUsedBitmap(sb, v.blocks, b, owner.Keys);
    BitmapFrame(sb, SetUsed(sb, v.blocks, b), w.blocks, owner.Keys + {b});
    LinksFrame(sb, v, w, owner);
  }

  function SetAddr(v: Vol, n: nat, i: nat, a: uint): Vol
    requires n < |v.inodes| && i <= NDIRECT
  {
    v.(inodes := v.inodes[n := v.inodes[n].(addrs := v.inodes[n].addrs[i := a])])
  }

  function AddrSlot(n: nat, i: nat): Slot { if i == NDIRECT then Table(n) else Direct(n, i) }

  /** Putting a fresh block number into an empty place of an inode. */
  lemma LinkInode(sb: Super, v: Vol, owner: map<uint, Slot>, n: nat, i: nat, b: uint)
    requires Shape(sb, v) && Links(sb, v, owner) && n < sb.ninodes && i <= NDIRECT
    requires v.inodes[n].addrs[i] == 0 && b !in owner && sb.datastart <= b < sb.size
    requires i == NDIRECT ==> v.blocks[b] == ZERO
    ensures var w := SetAddr(v, n, i, b);
            && Shape(sb, w) && Links(sb, w, owner[b := AddrSlot(n, i)])
            && (forall s: Slot | ValidSlot(sb, s) ::
                  At(sb, w, s) == if s == AddrSlot(n, i) then b else At(sb, v, s))
  {
    hide Used, Word;
    var w := SetAddr(v, n, i, b);
    var me := AddrSlot(n, i);
    ZeroWords();
    forall s: Slot | ValidSlot(sb, s) ensures At(sb, w, s) == if s == me then b else At(sb, v, s) {
    }
    assert ValidSlot(sb, me) && At(sb, v, me) == 0;
    assert forall x: uint | x in owner :: owner[x] != me;
  }

  /** Putting a fresh block number into an empty entry of an indirect table. */
  lemma LinkEntry(sb: Super, v: Vol, owner: map<uint, Slot>, n: nat, j: nat, b: uint)
    requires Shape(sb, v) && Links(sb, v, owner) && n < sb.ninodes && j < NINDIRECT
    requires v.inodes[n].addrs[NDIRECT] != 0 && At(sb, v, Entry(n, j)) == 0
    requires b !in owner && sb.datastart <= b < sb.size
    ensures var t := v.inodes[n].addrs[NDIRECT];
            && t in owner && owner[t] == Table(n) && sb.datastart <= t < sb.size
            && var w := v.(blocks := v.blocks[t := PutWord(v.blocks[t], j, b)]);
            && Shape(sb, w) && Links(sb, w, owner[b := Entry(n, j)])
            && (forall s: Slot | ValidSlot(sb, s) ::
                  At(sb, w, s) == if s == Entry(n, j) then b else At(sb, v, s))
  {
    hide Word, PutWord, Used;
    var t := v.inodes[n].addrs[NDIRECT];
    assert ValidSlot(sb, Table(n)) && At(sb, v, Table(n)) == t;
    var w := v.(blocks := v.blocks[t := PutWord(v.blocks[t], j, b)]);
    var me := Entry(n, j);
    forall s: Slot | ValidSlot(sb, s) ensures At(sb, w, s) == if s == me then b else At(sb, v, s) {
      if s.Entry? {
        assert ValidSlot(sb, Table(s.n));
        if s.n == n {
          WordOfPutWord(v.blocks[t], j, b, s.j);
        } else {
          assert At(sb, v, Table(s.n)) != t;
        }
      }
    }
    assert ValidSlot(sb, me);
    assert forall x: uint | x in owner :: owner[x] != me;
  }

  /** File m is the same file, byte for byte, at the same addresses. */
  ghost predicate SameFile(sb: Super, v: Vol, w: Vol, m: nat)
    requires Shape(sb, v) && Shape(sb, w) && m < sb.ninodes
  {
    && w.inodes[m] == v.inodes[m]
    && (forall bn | 0 <= bn < MAXFILE :: AddrOf(sb, w, m, bn) == AddrOf(sb, v, m, bn))
    && (forall bn | 0 <= bn < MAXFILE && AddrOf(sb, v, m, bn) != 0 ::
          FileBlock(sb, w, m, bn) == FileBlock(sb, v, m, bn))
  }

  /** Bytes through the map are the bytes of a file in the flat sense. */
  lemma SameFileContent(sb: Super, v: Vol, w: Vol, m: nat)
    requires Shape(sb, v) && Shape(sb, w) && m < sb.ninodes && SameFile(sb, v, w, m) && NoHoles(sb, v, m)
    ensures NoHoles(sb, w, m) && Content(sb, w, m) == Content(sb, v, m)
  {
    var c, d := Content(sb, v, m), Content(sb, w, m);
    forall i | 0 <= i < v.inodes[m].size ensures d[i] == c[i] {
      assert i / BSIZE < Ceil(v.inodes[m].size);
      assert AddrOf(sb, v, m, i / BSIZE) != 0;
      BytesAt(sb, v, m, |c|, i);
      BytesAt(sb, w, m, |c|, i);
    }
  }

  lemma SameFileTransitive(sb: Super, u: Vol, v: Vol, w: Vol, m: nat)
    requires Shape(sb, u) && Shape(sb, v) && Shape(sb, w) && m < sb.ninodes
    requires SameFile(sb, u, v, m) && SameFile(sb, v, w, m)
    ensures SameFile(sb, u, w, m)
  {
  }

  /** Distinct places of files are at distinct addresses. */
  lemma AddrsDiffer(sb: Super, v: Vol, owner: map<uint, Slot>, n: nat, bn: nat, m: nat, c: nat)
    requires Shape(sb, v) && Links(sb, v, owner) && n < sb.ninodes && bn < MAXFILE && m < sb.ninodes && c < MAXFILE
    requires AddrOf(sb, v, n, bn) != 0 && (m != n || c != bn)
    ensures AddrOf(sb, v, m, c) != AddrOf(sb, v, n, bn)
  {
    assert ValidSlot(sb, FileSlot(m, c)) && ValidSlot(sb, FileSlot(n, bn));
    assert FileSlot(m, c) != FileSlot(n, bn);
  }

  /** Replacing the contents of one file block: no block number moves, and no other file block
      changes, in this file or another. */
  lemma PutData(sb: Super, v: Vol, owner: map<uint, Slot>, n: nat, bn: nat, data: Block)
    requires Shape(sb, v) && Links(sb, v, owner) && BitmapIs(sb, v.blocks, owner.Keys)
    requires n < sb.ninodes && bn < MAXFILE && AddrOf(sb, v, n, bn) != 0
    ensures AddrOf(sb, v, n, bn) < sb.size
    ensures var w := v.(blocks := v.blocks[AddrOf(sb, v, n, bn) := data]);
            && Shape(sb, w) && Links(sb, w, owner) && BitmapIs(sb, w.blocks, owner.Keys)
            && SamePlaces(sb, v, w)
            && SameRange(v.blocks, w.blocks, 0, sb.datastart)
            && (forall m | 0 <= m < sb.ninodes && m != n :: SameFile(sb, v, w, m))
            && FileBlock(sb, w, n, bn) == data
            && (forall c | 0 <= c < MAXFILE && c != bn && AddrOf(sb, v, n, c) != 0 ::
                  FileBlock(sb, w, n, c) == FileBlock(sb, v, n, c))
  {
    hide Word, Used;
    MappedOwned(sb, v, owner, n, bn);
    var a := AddrOf(sb, v, n, bn);
    var w := v.(blocks := v.blocks[a := data]);
    BitmapFrame(sb, v.blocks, w.blocks, owner.Keys);
    LinksFrame(sb, v, w, owner);
    forall m, c | 0 <= m < sb.ninodes && 0 <= c < MAXFILE
      ensures AddrOf(sb, w, m, c) == AddrOf(sb, v, m, c)
      ensures m != n || c != bn ==> FileBlock(sb, w, m, c) == FileBlock(sb, v, m, c)
    {
      assert ValidSlot(sb, FileSlot(m, c));
      if m != n || c != bn {
        AddrsDiffer(sb, v, owner, n, bn, m, c);
      }
    }
  }

  function EmptyInode(): Inode { Dinode(0, 0, 0, seq(NDIRECT + 1, i => 0)) }

  /** The state mkfs starts from: inode blocks zero, only the metadata marked used, no files. */
  lemma FreshVolume(sb: Super, blocks: seq<Block>, inodes: seq<Inode>)
    requires ValidSuper(sb) && |blocks| == sb.size && |inodes| == sb.ninodes
    requires forall i | sb.inodestart <= i < sb.bmapstart :: blocks[i] == ZERO
    requires forall n | 0 <= n < sb.ninodes :: inodes[n] == EmptyInode()
    requires BitmapIs(sb, blocks, {})
    ensures FsInv(sb, Vol(blocks, inodes), map[])
  {
    var v := Vol(blocks, inodes);
    ZeroWords();
    var none: map<uint, Slot> := map[];
    assert none.Keys == {};
    forall n | 0 <= n < sb.ninodes ensures Synced(sb, v, n) && NoHoles(sb, v, n) {
      assert DiskAddrs(ZERO, n) == EmptyInode().addrs;
      assert Ceil(0) == 0;
    }
    forall s: Slot | ValidSlot(sb, s) ensures At(sb, v, s) == 0 {}
  }

  // Running out of blocks.

  /** The data blocks of the disk. */
  function Room(sb: Super): int { sb.size - sb.datastart }

  ghost predicate AllUsed(sb: Super, blocks: seq<Block>)
    requires ValidSuper(sb) && |blocks| == sb.size
  {
    forall x: nat | x < sb.size :: Used(sb, blocks, x)
  }

  /** Every bit is set exactly if as many blocks are owned as there are data blocks. */
  lemma AllUsedIff(sb: Super, v: Vol, owner: map<uint, Slot>)
    requires Shape(sb, v) && Links(sb, v, owner) && BitmapIs(sb, v.blocks, owner.Keys)
    ensures |owner| <= Room(sb)
    ensures AllUsed(sb, v.blocks) <==> |owner| == Room(sb)
  {
    hide Used;
    var all := DataBlocks(sb.datastart, sb.size);
    assert owner.Keys <= all;
    SubsetSize(owner.Keys, all);
    if AllUsed(sb, v.blocks) {
      assert all <= owner.Keys;
      SubsetSize(all, owner.Keys);
    } else {
      var x: nat :| x < sb.size && !Used(sb, v.blocks, x);
      var y: uint := x;
      assert y in all && y !in owner;
      SubsetSize(owner.Keys, all - {y});
    }
  }

  ghost function DataBlocks(lo: uint, hi: uint): (s: set<uint>)
    requires lo <= hi
    ensures forall b: uint :: b in s <==> lo <= b < hi
    ensures |s| == hi - lo
  {
    if hi == lo then {} else DataBlocks(lo, hi - 1) + {hi - 1}
  }
}
