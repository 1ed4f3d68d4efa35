/** Files as flat byte sequences: what reading or writing one block's worth does to the bytes. */
module FileBytes {
  import opened Basics
  import opened Blocks
  import opened Volume
  import opened VolumeOps
  import opened BlockMap
  import opened Counting

  // On-disk inodes.

  function InodeWord(ino: Inode, k: nat): uint
    requires k < 16
  {
    if k == 0 then ino.w0 else if k == 1 then ino.w1 else if k == 2 then ino.size else ino.addrs[k - 3]
  }

  /** iupdate: the first k words of inode n written into its block. */
  function PutInode(b: Block, n: nat, ino: Inode, k: nat): (r: Block)
    requires k <= 16
  {
    if k == 0 then b else PutWord(PutInode(b, n, ino, k - 1), 16 * (n % IPB) + k - 1, InodeWord(ino, k - 1))
  }

  lemma {:induction false} PutInodeWords(b: Block, n: nat, ino: Inode, k: nat, j: nat)
    requires k <= 16 && j < WORDS
    ensures var o := 16 * (n % IPB);
            Word(PutInode(b, n, ino, k), j) == if o <= j < o + k then InodeWord(ino, j - o) else Word(b, j)
  {
    if k > 0 {
      PutInodeWords(b, n, ino, k - 1, j);
      WordOfPutWord(PutInode(b, n, ino, k - 1), 16 * (n % IPB) + k - 1, InodeWord(ino, k - 1), j);
    }
  }

  /** ilock reads back what iupdate wrote, and the other inodes of the block are untouched. */
  lemma InodeRoundTrip(b: Block, n: nat, ino: Inode, m: nat)
    ensures DiskInode(PutInode(b, n, ino, 16), n) == ino
    ensures m % IPB != n % IPB ==> DiskInode(PutInode(b, n, ino, 16), m) == DiskInode(b, m)
  {
    var r := PutInode(b, n, ino, 16);
    forall k: nat | k < 16
      ensures DWord(r, n, k) == InodeWord(ino, k)
      ensures m % IPB != n % IPB ==> DWord(r, m, k) == DWord(b, m, k)
    {
      PutInodeWords(b, n, ino, 16, 16 * (n % IPB) + k);
      PutInodeWords(b, n, ino, 16, 16 * (m % IPB) + k);
    }
    assert DiskAddrs(r, n) == ino.addrs;
    if m % IPB != n % IPB {
      assert DiskAddrs(r, m) == DiskAddrs(b, m);
    }
  }

  function Updated(sb: Super, v: Vol, n: nat): Vol
    requires IBlock(sb, n) < |v.blocks| && n < |v.inodes|
  {
    v.(blocks := v.blocks[IBlock(sb, n) := PutInode(v.blocks[IBlock(sb, n)], n, v.inodes[n], 16)])
  }

  /** What iupdate does: inode n is on disk as it is in core, and that is all that changed. */
  ghost predicate IupdatePost(sb: Super, v: Vol, w: Vol, owner: map<uint, Slot>, n: nat)
    requires Shape(sb, v) && n < sb.ninodes
  {
    && Shape(sb, w) && Links(sb, w, owner) && BitmapIs(sb, w.blocks, owner.Keys)
    && w.inodes == v.inodes
    && SamePlaces(sb, v, w)
    && SameRange(v.blocks, w.blocks, sb.datastart, sb.size)
    && Synced(sb, w, n)
    && (forall m | 0 <= m < sb.ninodes && m != n :: Synced(sb, w, m) <==> Synced(sb, v, m))
  }

  lemma UpdatedInv(sb: Super, v: Vol, owner: map<uint, Slot>, n: nat)
    requires Shape(sb, v) && Links(sb, v, owner) && BitmapIs(sb, v.blocks, owner.Keys) && n < sb.ninodes
    ensures IBlock(sb, n) < sb.size
    ensures IupdatePost(sb, v, Updated(sb, v, n), owner, n)
  {
    hide BitmapIs, Word;
    var w := Updated(sb, v, n);
    BitmapFrame(sb, v.blocks, w.blocks, owner.Keys);
    LinksFrame(sb, v, w, owner);
    InodeRoundTrip(v.blocks[IBlock(sb, n)], n, v.inodes[n], n);
    forall m | 0 <= m < sb.ninodes && m != n ensures Synced(sb, w, m) <==> Synced(sb, v, m) {
      InodeRoundTrip(v.blocks[IBlock(sb, n)], n, v.inodes[n], m);
    }
  }

  /** Same places and same data blocks: same files. */
  lemma SameDataFiles(sb: Super, v: Vol, w: Vol, owner: map<uint, Slot>, m: nat)
    requires Shape(sb, v) && Shape(sb, w) && Links(sb, v, owner) && m < sb.ninodes
    requires SamePlaces(sb, v, w) && SameRange(v.blocks, w.blocks, sb.datastart, sb.size)
    ensures forall bn | 0 <= bn < MAXFILE :: AddrOf(sb, w, m, bn) == AddrOf(sb, v, m, bn)
    ensures forall bn | 0 <= bn < MAXFILE && AddrOf(sb, v, m, bn) != 0 ::
              FileBlock(sb, w, m, bn) == FileBlock(sb, v, m, bn)
  {
    forall bn | 0 <= bn < MAXFILE
      ensures AddrOf(sb, w, m, bn) == AddrOf(sb, v, m, bn)
      ensures AddrOf(sb, v, m, bn) != 0 ==> FileBlock(sb, w, m, bn) == FileBlock(sb, v, m, bn)
    {
      assert ValidSlot(sb, FileSlot(m, bn));
      if AddrOf(sb, v, m, bn) != 0 {
        MappedOwned(sb, v, owner, m, bn);
      }
    }
  }

  // One chunk of readi or writei: positions [at, at + m) inside one block.

  lemma InBlock(at: nat, m: nat, i: nat)
    requires m <= BSIZE - at % BSIZE && at <= i < at + m
    ensures i / BSIZE == at / BSIZE && i % BSIZE == at % BSIZE + (i - at)
  {
  }

  function Patch(b: Block, o: nat, src: seq<byte>): (r: Block)
    requires o + |src| <= BSIZE
  {
    b[..o] + src + b[o + |src|..]
  }

  /** The first tot bytes of src are in the file at off; other bytes below size are as in v0. */
  ghost predicate Written(sb: Super, v0: Vol, v: Vol, n: nat, off: nat, src: seq<byte>, tot: nat, size: nat)
    requires Shape(sb, v0) && Shape(sb, v) && n < sb.ninodes
    requires tot <= |src| && off + |src| <= MAXFILE * BSIZE && size <= MAXFILE * BSIZE
  {
    && (forall i | off <= i < off + tot :: ByteAt(sb, v, n, i) == src[i - off])
    && (forall i | 0 <= i < size && !(off <= i < off + tot) :: ByteAt(sb, v, n, i) == ByteAt(sb, v0, n, i))
  }

  lemma MappedAfterBmap(sb: Super, v: Vol, w: Vol, owner': map<uint, Slot>, n: nat, bn: nat, a: uint, k: nat)
    requires Shape(sb, v) && n < sb.ninodes && bn < MAXFILE && Mapped(sb, v, n, k) && bn <= k
    requires BmapPost(sb, v, w, owner', n, bn, a)
    ensures Mapped(sb, w, n, Max(k, bn + 1))
  {
  }

  /** x has the mapped blocks of file n of v, except that block bn may differ. */
  ghost predicate KeptBut(sb: Super, v: Vol, x: Vol, n: nat, bn: nat)
    requires Shape(sb, v) && Shape(sb, x) && n < sb.ninodes
  {
    forall c | 0 <= c < MAXFILE && c != bn && AddrOf(sb, v, n, c) != 0 ::
      FileBlock(sb, x, n, c) == FileBlock(sb, v, n, c)
  }

  /** The block a write into file block bn starts from. */
  ghost function OldBlock(sb: Super, v: Vol, n: nat, bn: nat): Block
    requires Shape(sb, v) && n < sb.ninodes && bn < MAXFILE
  {
    if AddrOf(sb, v, n, bn) != 0 then FileBlock(sb, v, n, bn) else ZERO
  }

  ghost predicate OthersSame(sb: Super, v: Vol, x: Vol, n: nat)
    requires Shape(sb, v) && Shape(sb, x)
  {
    forall m | 0 <= m < sb.ninodes && m != n :: SameFile(sb, v, x, m)
  }

  /** Addresses once given to file n stay. */
  ghost predicate AddrsKept(sb: Super, v: Vol, x: Vol, n: nat)
    requires Shape(sb, v) && Shape(sb, x) && n < sb.ninodes
  {
    && (forall c | 0 <= c < MAXFILE && AddrOf(sb, v, n, c) != 0 :: AddrOf(sb, x, n, c) == AddrOf(sb, v, n, c))
    && (v.inodes[n].addrs[NDIRECT] != 0 ==> x.inodes[n].addrs[NDIRECT] == v.inodes[n].addrs[NDIRECT])
  }

  /** What one round of writei does: block bn of file n is mapped and holds data. */
  ghost predicate RoundPost(sb: Super, v: Vol, x: Vol, owner': map<uint, Slot>, n: nat, bn: nat, data: Block, k: nat)
    requires Shape(sb, v) && n < sb.ninodes && bn < MAXFILE
  {
    && Shape(sb, x) && Links(sb, x, owner') && BitmapIs(sb, x.blocks, owner'.Keys)
    && Mapped(sb, x, n, Max(k, bn + 1))
    && SameRange(v.blocks, x.blocks, sb.inodestart, sb.bmapstart)
    && OthersSame(sb, v, x, n)
    && x.inodes[n] == v.inodes[n].(addrs := x.inodes[n].addrs)
    && (bn < k ==> x.inodes == v.inodes)
    && KeptBut(sb, v, x, n, bn) && AddrsKept(sb, v, x, n)
    && FileBlock(sb, x, n, bn) == data
  }

  /** Bmap followed by a write into the block it found is one round. */
  lemma RoundIs(sb: Super, v: Vol, w: Vol, owner': map<uint, Slot>, n: nat, bn: nat, data: Block, k: nat)
    requires Shape(sb, v) && Shape(sb, w) && n < sb.ninodes && bn < MAXFILE && bn <= k && Mapped(sb, v, n, k)
    requires BmapPost(sb, v, w, owner', n, bn, AddrOf(sb, w, n, bn))
    ensures AddrOf(sb, w, n, bn) < sb.size
    ensures RoundPost(sb, v, w.(blocks := w.blocks[AddrOf(sb, w, n, bn) := data]), owner', n, bn, data, k)
  {
    PutData(sb, w, owner', n, bn, data);
    var x := w.(blocks := w.blocks[AddrOf(sb, w, n, bn) := data]);
    MappedAfterBmap(sb, v, w, owner', n, bn, AddrOf(sb, w, n, bn), k);
    SamePlacesMapped(sb, w, x, n, Max(k, bn + 1));
    forall m | 0 <= m < sb.ninodes && m != n ensures SameFile(sb, v, x, m) {
      SameFileTransitive(sb, v, w, x, m);
    }
  }

  lemma SamePlacesMapped(sb: Super, v: Vol, w: Vol, n: nat, k: nat)
    requires Shape(sb, v) && Shape(sb, w) && n < sb.ninodes && SamePlaces(sb, v, w) && Mapped(sb, v, n, k)
    requires v.inodes == w.inodes
    ensures Mapped(sb, w, n, k)
    ensures forall c | 0 <= c < MAXFILE :: AddrOf(sb, w, n, c) == AddrOf(sb, v, n, c)
  {
    forall c | 0 <= c < MAXFILE ensures AddrOf(sb, w, n, c) == AddrOf(sb, v, n, c) {
      assert ValidSlot(sb, FileSlot(n, c));
    }
  }

  /** The block a position below the size lies in is mapped. */
  lemma BelowSize(sb: Super, v: Vol, n: nat, at: nat)
    requires Shape(sb, v) && n < sb.ninodes && NoHoles(sb, v, n) && at < v.inodes[n].size
    ensures at / BSIZE < MAXFILE && AddrOf(sb, v, n, at / BSIZE) != 0
  {
    assert at / BSIZE < Ceil(v.inodes[n].size);
  }

  lemma SliceConcat(c: seq<byte>, lo: nat, mid: nat, hi: nat)
    requires lo <= mid <= hi <= |c|
    ensures c[lo..mid] + c[mid..hi] == c[lo..hi]
  {
  }

  lemma ChunkOfContent(sb: Super, v: Vol, n: nat, at: nat, m: nat)
    requires Shape(sb, v) && n < sb.ninodes && v.inodes[n].size <= MAXFILE * BSIZE
    requires m <= BSIZE - at % BSIZE && at + m <= v.inodes[n].size && 0 < m
    ensures FileBlock(sb, v, n, at / BSIZE)[at % BSIZE..at % BSIZE + m] == Content(sb, v, n)[at..at + m]
  {
    hide AddrOf, FileBlock, Bytes;
    var x := FileBlock(sb, v, n, at / BSIZE)[at % BSIZE..at % BSIZE + m];
    var y := Content(sb, v, n)[at..at + m];
    forall i | 0 <= i < m ensures x[i] == y[i] {
      InBlock(at, m, at + i);
      BytesAt(sb, v, n, v.inodes[n].size, at + i);
    }
  }

  /** After bmap and one patched block, tot + m bytes are in place. */
  lemma WriteChunk(sb: Super, v0: Vol, v: Vol, x: Vol, n: nat,
                   off: nat, src: seq<byte>, tot: nat, m: nat, size: nat, k: nat)
    requires Shape(sb, v0) && Shape(sb, v) && Shape(sb, x) && n < sb.ninodes
    requires tot + m <= |src| && off + |src| <= MAXFILE * BSIZE && size <= MAXFILE * BSIZE
    requires 0 < m <= BSIZE - (off + tot) % BSIZE
    requires Mapped(sb, v, n, k) && size <= k * BSIZE && (tot > 0 ==> off + tot <= k * BSIZE)
    requires Written(sb, v0, v, n, off, src, tot, size)
    requires KeptBut(sb, v, x, n, (off + tot) / BSIZE)
    requires FileBlock(sb, x, n, (off + tot) / BSIZE) ==
               Patch(OldBlock(sb, v, n, (off + tot) / BSIZE), (off + tot) % BSIZE, src[tot..tot + m])
    ensures Written(sb, v0, x, n, off, src, tot + m, size)
  {
    hide AddrOf, FileBlock, Mapped, KeptBut, OldBlock, Patch;
    var at := off + tot;
    forall i | 0 <= i < MAXFILE * BSIZE && (i < size || off <= i < at + m)
      ensures ByteAt(sb, x, n, i) == if at <= i < at + m then src[i - off] else ByteAt(sb, v, n, i)
    {
      ChunkByte(sb, v, x, n, at, src[tot..tot + m], k, i);
    }
  }

  lemma ChunkByte(sb: Super, v: Vol, x: Vol, n: nat, at: nat, chunk: seq<byte>, k: nat, i: nat)
    requires Shape(sb, v) && Shape(sb, x) && n < sb.ninodes && i < MAXFILE * BSIZE
    requires 0 < |chunk| <= BSIZE - at % BSIZE && at + |chunk| <= MAXFILE * BSIZE
    requires Mapped(sb, v, n, k) && (at <= i < at + |chunk| || i < k * BSIZE)
    requires KeptBut(sb, v, x, n, at / BSIZE)
    requires FileBlock(sb, x, n, at / BSIZE) == Patch(OldBlock(sb, v, n, at / BSIZE), at % BSIZE, chunk)
    ensures ByteAt(sb, x, n, i) == if at <= i < at + |chunk| then chunk[i - at] else ByteAt(sb, v, n, i)
  {
    if at <= i < at + |chunk| {
      InBlock(at, |chunk|, i);
    } else {
      assert AddrOf(sb, v, n, i / BSIZE) != 0;
    }
  }

  /** The flat meaning of a write. */
  function Splice(c: seq<byte>, off: nat, src: seq<byte>): seq<byte>
    requires off <= |c|
  {
    c[..off] + src + (if off + |src| < |c| then c[off + |src|..] else [])
  }

  /** When all of src is in place and the size is adjusted, the contents are spliced. */
  lemma WrittenContent(sb: Super, v0: Vol, v: Vol, n: nat, off: nat, src: seq<byte>)
    requires Shape(sb, v0) && Shape(sb, v) && n < sb.ninodes
    requires off <= v0.inodes[n].size <= MAXFILE * BSIZE && off + |src| <= MAXFILE * BSIZE
    requires Written(sb, v0, v, n, off, src, |src|, v0.inodes[n].size)
    requires v.inodes[n].size == Max(v0.inodes[n].size, off + |src|)
    ensures Content(sb, v, n) == Splice(Content(sb, v0, n), off, src)
  {
    hide ByteAt, FileBlock;
    var c, c0 := Content(sb, v, n), Content(sb, v0, n);
    var sp := Splice(c0, off, src);
    assert |c| == |sp|;
    forall i | 0 <= i < |c| ensures c[i] == sp[i] {
      BytesAt(sb, v, n, |c|, i);
      if i < |c0| {
        BytesAt(sb, v0, n, |c0|, i);
      }
    }
  }

  /** Two writes next to each other are one write. */
  lemma SpliceTwice(c: seq<byte>, off: nat, s: seq<byte>, t: seq<byte>)
    requires off <= |c|
    ensures off + |s| <= |Splice(c, off, s)|
    ensures Splice(Splice(c, off, s), off + |s|, t) == Splice(c, off, s + t)
  {
  }

  // Which data blocks a range of a file occupies.

  ghost function Addrs(sb: Super, v: Vol, n: nat, lo: nat, hi: nat): set<uint>
    requires Shape(sb, v) && n < sb.ninodes && lo <= hi <= MAXFILE
    decreases hi
  {
    if lo == hi then {} else Addrs(sb, v, n, lo, hi - 1) + {AddrOf(sb, v, n, hi - 1)}
  }

  lemma {:induction false} AddrsSize(sb: Super, v: Vol, n: nat, lo: nat, hi: nat)
    requires Shape(sb, v) && n < sb.ninodes && lo <= hi <= MAXFILE
    ensures |Addrs(sb, v, n, lo, hi)| <= hi - lo
    decreases hi
  {
    if lo < hi {
      AddrsSize(sb, v, n, lo, hi - 1);
    }
  }

  lemma {:induction false} AddrsFrame(sb: Super, v: Vol, w: Vol, n: nat, lo: nat, hi: nat)
    requires Shape(sb, v) && Shape(sb, w) && n < sb.ninodes && lo <= hi <= MAXFILE
    requires forall c | lo <= c < hi :: AddrOf(sb, v, n, c) == AddrOf(sb, w, n, c)
    ensures Addrs(sb, v, n, lo, hi) == Addrs(sb, w, n, lo, hi)
    decreases hi
  {
    if lo < hi {
      AddrsFrame(sb, v, w, n, lo, hi - 1);
    }
  }

  lemma {:induction false} AddrsHas(sb: Super, v: Vol, n: nat, lo: nat, hi: nat, bn: nat)
    requires Shape(sb, v) && n < sb.ninodes && lo <= bn < hi <= MAXFILE
    ensures AddrOf(sb, v, n, bn) in Addrs(sb, v, n, lo, hi)
    decreases hi
  {
    if bn < hi - 1 {
      AddrsHas(sb, v, n, lo, hi - 1, bn);
    }
  }

  lemma {:induction false} AddrsMore(sb: Super, v: Vol, n: nat, lo: nat, hi: nat, hi': nat)
    requires Shape(sb, v) && n < sb.ninodes && lo <= hi <= hi' <= MAXFILE
    ensures Addrs(sb, v, n, lo, hi) <= Addrs(sb, v, n, lo, hi')
    decreases hi'
  {
    if hi < hi' {
      AddrsMore(sb, v, n, lo, hi, hi' - 1);
    }
  }

  ghost function Range(lo: nat, hi: nat): (r: set<uint>)
    requires lo <= hi < UINT_LIMIT
    ensures forall x: uint :: x in r <==> lo <= x < hi
    decreases hi
  {
    if lo == hi then {} else Range(lo, hi - 1) + {hi - 1}
  }

  /** The blocks of the free map that cover the disk. */
  ghost function BitmapBlocks(sb: Super): set<uint>
    requires ValidSuper(sb)
  {
    Range(sb.bmapstart, sb.bmapstart + (sb.size - 1) / BPB + 1)
  }

  ghost function TableBlock(v: Vol, n: nat): set<uint>
    requires n < |v.inodes|
  {
    if v.inodes[n].addrs[NDIRECT] == 0 then {} else {v.inodes[n].addrs[NDIRECT]}
  }

  /** What writing blocks [lo, hi) of file n may log, iupdate aside. */
  ghost function WriteLogs(sb: Super, v: Vol, n: nat, lo: nat, hi: nat): set<uint>
    requires Shape(sb, v) && n < sb.ninodes && lo <= hi <= MAXFILE
  {
    BitmapBlocks(sb) + TableBlock(v, n) + Addrs(sb, v, n, lo, hi)
  }

  /** What bmap of block bn of file n, and the write into it, may log. */
  ghost function BmapLogs(sb: Super, v: Vol, n: nat, bn: nat): set<uint>
    requires Shape(sb, v) && n < sb.ninodes && bn < MAXFILE
  {
    BitmapBlocks(sb) + {AddrOf(sb, v, n, bn)} + (if bn < NDIRECT then {} else {v.inodes[n].addrs[NDIRECT]})
  }

  /** One more block written: the log set grows to the next range. */
  lemma WriteLogsStep(sb: Super, v: Vol, x: Vol, n: nat, lo: nat, hi: nat, bn: nat, k: nat)
    requires Shape(sb, v) && Shape(sb, x) && n < sb.ninodes && lo <= hi <= k && lo <= bn < MAXFILE && hi <= bn + 1
    requires Mapped(sb, v, n, k) && AddrsKept(sb, v, x, n)
    ensures WriteLogs(sb, v, n, lo, hi) <= WriteLogs(sb, x, n, lo, bn + 1)
    ensures AddrOf(sb, x, n, bn) != 0 && (bn >= NDIRECT ==> x.inodes[n].addrs[NDIRECT] != 0) ==>
              BmapLogs(sb, x, n, bn) <= WriteLogs(sb, x, n, lo, bn + 1)
  {
    AddrsFrame(sb, v, x, n, lo, hi);
    AddrsMore(sb, x, n, lo, hi, bn + 1);
    AddrsHas(sb, x, n, lo, bn + 1, bn);
  }

  lemma {:induction false} RangeSize(lo: nat, hi: nat)
    requires lo <= hi < UINT_LIMIT
    ensures |Range(lo, hi)| == hi - lo
    decreases hi
  {
    if lo < hi {
      RangeSize(lo, hi - 1);
    }
  }

  /** filewrite's chunk size: at most four data blocks, the table, the bitmap block, the inode. */
  lemma ChunkLogSize(sb: Super, v: Vol, n: nat, off: nat, cnt: nat, logs: set<uint>)
    requires Shape(sb, v) && n < sb.ninodes && sb.size <= BPB
    requires 0 < cnt <= 3 * BSIZE && off + cnt <= MAXFILE * BSIZE
    requires off / BSIZE <= Ceil(off + cnt) <= MAXFILE
    requires logs <= WriteLogs(sb, v, n, off / BSIZE, Ceil(off + cnt)) + {IBlock(sb, n)}
    ensures |logs| <= 7
  {
    var lo, hi := off / BSIZE, Ceil(off + cnt);
    AddrsSize(sb, v, n, lo, hi);
    RangeSize(sb.bmapstart, sb.bmapstart + 1);
    assert |BitmapBlocks(sb)| <= 1;
    var a, b := BitmapBlocks(sb), TableBlock(v, n);
    var c := Addrs(sb, v, n, lo, hi);
    assert |a + b| <= 2;
    assert |a + b + c| <= |a + b| + |c|;
    assert |a + b + c + {IBlock(sb, n)}| <= |a + b + c| + 1;
    SubsetSize(logs, a + b + c + {IBlock(sb, n)});
  }
}
