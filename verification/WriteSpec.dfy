/** writei as a whole: the loop invariant, and what is left when the loop is done. */
module WriteSpec {
  import opened Basics
  import opened Blocks
  import opened Volume
  import opened VolumeOps
  import opened BlockMap
  import opened FileBytes

  /** Blocks mapped after tot bytes, starting from a file of size bytes. */
  function MappedSoFar(size: nat, off: nat, tot: nat): nat {
    if tot == 0 then Ceil(size) else Max(Ceil(size), Ceil(off + tot))
  }

  // How many blocks a file takes.

  /** The blocks of a file mapped up to k: the data blocks, and the indirect table once it is needed. */
  function FileBlocks(k: nat): nat { if k > NDIRECT then k + 1 else k }

  /** The blocks a write of cnt bytes at off adds to a file of the given size. */
  function WriteNeed(size: nat, off: nat,
                     cnt: nat): int { FileBlocks(MappedSoFar(size, off, cnt)) - FileBlocks(Ceil(size)) }

  /** The blocks it takes to extend a file mapped up to k by block bn. */
  function RoundNeed(k: nat, bn: nat): int { FileBlocks(Max(k, bn + 1)) - FileBlocks(k) }

  /** bmap allocates what the file grows by. */
  lemma BmapGrows(sb: Super, v: Vol, n: nat, k: nat, bn: nat)
    requires Shape(sb, v) && n < sb.ninodes && bn < MAXFILE && Mapped(sb, v, n, k) && bn <= k
    ensures BmapNeed(sb, v, n, bn) == RoundNeed(k, bn)
  {
  }

  lemma NeedGrows(size: nat, off: nat, tot: nat, cnt: nat)
    requires tot <= cnt
    ensures 0 <= WriteNeed(size, off, tot) <= WriteNeed(size, off, cnt)
    ensures off + cnt <= Ceil(size) * BSIZE ==> WriteNeed(size, off, cnt) == 0
  {
    assert Ceil(off + tot) <= Ceil(off + cnt);
    if off + cnt <= Ceil(size) * BSIZE {
      CeilBelow(off + cnt, Ceil(size));
    }
  }

  lemma NeedStart(size: nat, off: nat)
    ensures WriteNeed(size, off, 0) == 0
  {
  }

  /** The blocks one round of writei adds. */
  function StepNeed(size: nat, off: nat, tot: nat, m: nat): int {
    FileBlocks(MappedSoFar(size, off, tot + m)) - FileBlocks(MappedSoFar(size, off, tot))
  }

  lemma StepNeedIs(size: nat, off: nat, tot: nat, m: nat)
    requires off <= size && 0 < m <= BSIZE - (off + tot) % BSIZE
    ensures StepNeed(size, off, tot, m) == RoundNeed(MappedSoFar(size, off, tot), (off + tot) / BSIZE)
  {
    RoundBounds(size, off, tot, m);
  }

  lemma NeedStep(size: nat, off: nat, tot: nat, m: nat)
    ensures WriteNeed(size, off, tot + m) == WriteNeed(size, off, tot) + StepNeed(size, off, tot, m)
  {
  }

  lemma CeilBelow(x: nat, k: nat)
    requires x <= k * BSIZE
    ensures Ceil(x) <= k
  {
  }

  /** Writing in two parts needs what writing at once does. */
  lemma NeedTwice(size: nat, off: nat, a: nat, b: nat)
    requires off <= size
    ensures WriteNeed(size, off, a) + WriteNeed(Max(size, off + a), off + a, b) == WriteNeed(size, off, a + b)
  {
    CeilMax(size, off + a);
    CeilMax(size, off + a + b);
    CeilMax(Max(size, off + a), off + a + b);
    if a == 0 {
      CeilOrder(off, size);
    }
  }

  lemma CeilMax(x: nat, y: nat)
    ensures Ceil(Max(x, y)) == Max(Ceil(x), Ceil(y))
  {
    if x <= y {
      CeilOrder(x, y);
    } else {
      CeilOrder(y, x);
    }
  }

  lemma CeilOrder(x: nat, y: nat)
    requires x <= y
    ensures Ceil(x) <= Ceil(y)
  {
  }

  /** v0 with the first tot bytes of src written into file n at off, size not yet adjusted. */
  ghost predicate Writing(sb: Super, v0: Vol, v: Vol, n: nat, off: nat, src: seq<byte>, tot: nat)
    requires Shape(sb, v0) && Shape(sb, v) && n < sb.ninodes
    requires tot <= |src| && off + |src| <= MAXFILE * BSIZE && v0.inodes[n].size <= MAXFILE * BSIZE
  {
    var size := v0.inodes[n].size;
    && Mapped(sb, v, n, MappedSoFar(size, off, tot))
    && SameRange(v0.blocks, v.blocks, sb.inodestart, sb.bmapstart)
    && OthersSame(sb, v0, v, n)
    && v.inodes[n] == v0.inodes[n].(addrs := v.inodes[n].addrs)
    && (MappedSoFar(size, off, tot) == Ceil(size) ==> v.inodes == v0.inodes)
    && Written(sb, v0, v, n, off, src, tot, size)
  }

  lemma WritingStart(sb: Super, v0: Vol, n: nat, off: nat, src: seq<byte>)
    requires Shape(sb, v0) && n < sb.ninodes && NoHoles(sb, v0, n) && off + |src| <= MAXFILE * BSIZE
    ensures Writing(sb, v0, v0, n, off, src, 0)
  {
  }

  lemma WritingSize(sb: Super, v0: Vol, v: Vol, n: nat, off: nat, src: seq<byte>)
    requires Shape(sb, v0) && Shape(sb, v) && n < sb.ninodes
    requires off + |src| <= MAXFILE * BSIZE && v0.inodes[n].size <= MAXFILE * BSIZE
    requires Writing(sb, v0, v, n, off, src, |src|)
    ensures v.inodes[n].size == v0.inodes[n].size
  {
  }

  /** The arithmetic of one round. */
  lemma RoundBounds(size: nat, off: nat, tot: nat, m: nat)
    requires off <= size && 0 < m <= BSIZE - (off + tot) % BSIZE
    ensures var k := MappedSoFar(size, off, tot);
            && (off + tot) / BSIZE <= k
            && MappedSoFar(size, off, tot + m) == Max(k, (off + tot) / BSIZE + 1)
            && size <= k * BSIZE && (tot > 0 ==> off + tot <= k * BSIZE)
  {
    assert Ceil(off + tot + m) == (off + tot) / BSIZE + 1;
  }

  lemma PlaceBelow(at: nat)
    requires at < MAXFILE * BSIZE
    ensures at / BSIZE < MAXFILE && 0 <= at % BSIZE < BSIZE
  {
  }

  lemma WritingMapped(sb: Super, v0: Vol, v: Vol, n: nat, off: nat, src: seq<byte>, tot: nat)
    requires Shape(sb, v0) && Shape(sb, v) && n < sb.ninodes
    requires tot <= |src| && off + |src| <= MAXFILE * BSIZE && v0.inodes[n].size <= MAXFILE * BSIZE
    requires Writing(sb, v0, v, n, off, src, tot)
    ensures Mapped(sb, v, n, MappedSoFar(v0.inodes[n].size, off, tot))
  {
  }

  lemma RoundParts(sb: Super, v: Vol, x: Vol, owner': map<uint, Slot>, n: nat, bn: nat, data: Block, k: nat)
    requires Shape(sb, v) && n < sb.ninodes && bn < MAXFILE && RoundPost(sb, v, x, owner', n, bn, data, k)
    ensures Shape(sb, x) && Links(sb, x, owner') && BitmapIs(sb, x.blocks, owner'.Keys) && AddrsKept(sb, v, x, n)
    ensures AddrOf(sb, x, n, bn) != 0 && (bn >= NDIRECT ==> x.inodes[n].addrs[NDIRECT] != 0)
  {
  }

  lemma WritingStep(sb: Super, v0: Vol, v: Vol, x: Vol, owner: map<uint, Slot>, n: nat, off: nat, src: seq<byte>,
                    tot: nat, m: nat)
    requires Shape(sb, v0) && Shape(sb, v) && n < sb.ninodes
    requires tot + m <= |src| && off + |src| <= MAXFILE * BSIZE && off <= v0.inodes[n].size <= MAXFILE * BSIZE
    requires 0 < m <= BSIZE - (off + tot) % BSIZE
    requires Writing(sb, v0, v, n, off, src, tot)
    requires RoundPost(sb, v, x, owner, n, (off + tot) / BSIZE,
                       Patch(OldBlock(sb, v, n, (off + tot) / BSIZE), (off + tot) % BSIZE, src[tot..tot + m]),
                       MappedSoFar(v0.inodes[n].size, off, tot))
    ensures Writing(sb, v0, x, n, off, src, tot + m)
  {
    var size := v0.inodes[n].size;
    RoundBounds(size, off, tot, m);
    WriteChunk(sb, v0, v, x, n, off, src, tot, m, size, MappedSoFar(size, off, tot));
    assert OthersSame(sb, v0, x, n) by {
      forall c | 0 <= c < sb.ninodes && c != n ensures SameFile(sb, v0, x, c) {
        SameFileTransitive(sb, v0, v, x, c);
      }
    }
  }

  /** File m is as before. */
  ghost predicate Untouched(sb: Super, v0: Vol, w: Vol, m: nat)
    requires Shape(sb, v0) && Shape(sb, w) && m < sb.ninodes
  {
    w.inodes[m] == v0.inodes[m]
    && (v0.inodes[m].size <= MAXFILE * BSIZE ==> Content(sb, w, m) == Content(sb, v0, m))
  }

  ghost predicate OthersUntouched(sb: Super, v0: Vol, w: Vol, n: nat)
    requires Shape(sb, v0) && Shape(sb, w)
  {
    forall m | 0 <= m < sb.ninodes && m != n :: Untouched(sb, v0, w, m)
  }

  function Resized(v: Vol, n: nat, size: uint): Vol
    requires n < |v.inodes|
  {
    v.(inodes := v.inodes[n := v.inodes[n].(size := size)])
  }

  /** Files that are the same keep everything FsInv says of them. */
  lemma OthersKept(sb: Super, v0: Vol, v: Vol, n: nat)
    requires Shape(sb, v0) && Shape(sb, v) && OthersSame(sb, v0, v, n)
    requires forall m | 0 <= m < sb.ninodes :: NoHoles(sb, v0, m)
    ensures OthersUntouched(sb, v0, v, n)
    ensures forall m | 0 <= m < sb.ninodes && m != n :: NoHoles(sb, v, m)
  {
    forall m | 0 <= m < sb.ninodes && m != n ensures Untouched(sb, v0, v, m) && NoHoles(sb, v, m) {
      SameFileContent(sb, v0, v, m);
    }
  }

  /** What a successful writei leaves: FsInv, the bytes spliced in, every other file as before. */
  ghost predicate WriteiPost(sb: Super, v0: Vol, v: Vol, owner: map<uint, Slot>, n: nat, off: nat, src: seq<byte>)
    requires Shape(sb, v0) && n < sb.ninodes && off <= v0.inodes[n].size <= MAXFILE * BSIZE
  {
    && FsInv(sb, v, owner)
    && v.inodes[n].size == Max(v0.inodes[n].size, off + |src|) <= MAXFILE * BSIZE
    && v.inodes[n].w0 == v0.inodes[n].w0 && v.inodes[n].w1 == v0.inodes[n].w1
    && Content(sb, v, n) == Splice(Content(sb, v0, n), off, src)
    && OthersUntouched(sb, v0, v, n)
  }

  lemma WriteiKeeps(sb: Super, v0: Vol, v: Vol, owner: map<uint, Slot>, n: nat, off: nat, src: seq<byte>)
    requires Shape(sb, v0) && n < sb.ninodes && off <= v0.inodes[n].size <= MAXFILE * BSIZE
    requires WriteiPost(sb, v0, v, owner, n, off, src)
    ensures FsInv(sb, v, owner)
  {
  }

  /** A write that does not reach past the end leaves the inode alone, so the inode on disk still
      matches without iupdate. */
  lemma DoneWithin(sb: Super, v0: Vol, v: Vol, owner0: map<uint, Slot>, owner: map<uint, Slot>, n: nat, off: nat,
                   src: seq<byte>)
    requires FsInv(sb, v0, owner0) && Shape(sb, v) && n < sb.ninodes
    requires off <= v0.inodes[n].size <= MAXFILE * BSIZE && off + |src| <= MAXFILE * BSIZE
    requires Links(sb, v, owner) && BitmapIs(sb, v.blocks, owner.Keys)
    requires Writing(sb, v0, v, n, off, src, |src|)
    requires off + |src| <= v0.inodes[n].size || |src| == 0
    ensures WriteiPost(sb, v0, v, owner, n, off, src)
  {
    hide Word, Content, Splice, DiskInode, ByteAt;
    assert MappedSoFar(v0.inodes[n].size, off, |src|) == Ceil(v0.inodes[n].size);
    WrittenContent(sb, v0, v, n, off, src);
    OthersKept(sb, v0, v, n);
    forall m | 0 <= m < sb.ninodes ensures Synced(sb, v, m) {
      SyncedFrame(sb, v0, v, m);
    }
  }

  /** Changing only the size of inode n moves no block and no byte. */
  lemma ResizedSame(sb: Super, v: Vol, owner: map<uint, Slot>, n: nat, size: uint)
    requires Shape(sb, v) && Links(sb, v, owner) && n < sb.ninodes
    ensures var w := Resized(v, n, size);
            && Shape(sb, w) && Links(sb, w, owner) && SamePlaces(sb, v, w)
            && (forall c | 0 <= c < MAXFILE ::
                 AddrOf(sb, w, n, c) == AddrOf(sb, v, n, c) && FileBlock(sb, w, n, c) == FileBlock(sb, v, n, c))
            && OthersSame(sb, v, w, n)
  {
    var w := Resized(v, n, size);
    forall s: Slot | ValidSlot(sb, s) ensures At(sb, w, s) == At(sb, v, s) {}
    forall m, c | 0 <= m < sb.ninodes && 0 <= c < MAXFILE
      ensures AddrOf(sb, w, m, c) == AddrOf(sb, v, m, c)
    {
      assert ValidSlot(sb, FileSlot(m, c));
    }
  }

  /** A write past the end: new size, then iupdate. */
  lemma DoneGrown(sb: Super, v0: Vol, v: Vol, w: Vol, owner0: map<uint, Slot>, owner: map<uint, Slot>, n: nat,
                  off: nat, src: seq<byte>)
    requires FsInv(sb, v0, owner0) && Shape(sb, v) && n < sb.ninodes
    requires off <= v0.inodes[n].size <= MAXFILE * BSIZE && off + |src| <= MAXFILE * BSIZE
    requires Links(sb, v, owner)
    requires Writing(sb, v0, v, n, off, src, |src|) && off + |src| > v0.inodes[n].size
    requires IupdatePost(sb, Resized(v, n, off + |src|), w, owner, n)
    ensures WriteiPost(sb, v0, w, owner, n, off, src)
  {
    hide Links, BitmapIs, Mapped, Written, SamePlaces, SameRange, OthersUntouched, Word, Content, Splice, NoHoles,
         Synced, OthersSame;
    var u := Resized(v, n, off + |src|);
    ResizedSame(sb, v, owner, n, off + |src|);
    GrownAll(sb, v0, v, u, w, owner, n, off, src);
  }

  lemma GrownAll(sb: Super, v0: Vol, v: Vol, u: Vol, w: Vol, owner: map<uint, Slot>, n: nat, off: nat, src: seq<byte>)
    requires Shape(sb, v0) && Shape(sb, v) && Shape(sb, u) && Shape(sb, w) && n < sb.ninodes
    requires off <= v0.inodes[n].size <= MAXFILE * BSIZE && off + |src| <= MAXFILE * BSIZE
    requires forall m | 0 <= m < sb.ninodes :: Synced(sb, v0, m) && NoHoles(sb, v0, m)
    requires Writing(sb, v0, v, n, off, src, |src|) && off + |src| > v0.inodes[n].size
    requires forall c | 0 <= c < MAXFILE ::
               AddrOf(sb, u, n, c) == AddrOf(sb, v, n, c) && FileBlock(sb, u, n, c) == FileBlock(sb, v, n, c)
    requires OthersSame(sb, v, u, n) && u.blocks == v.blocks && u.inodes[n] == v.inodes[n].(size := off + |src|)
    requires SamePlaces(sb, u, w) && SameRange(u.blocks, w.blocks, sb.datastart, sb.size) && w.inodes == u.inodes
    requires Links(sb, u, owner) && Links(sb, w, owner) && BitmapIs(sb, w.blocks, owner.Keys)
    requires Synced(sb, w, n) && forall m | 0 <= m < sb.ninodes && m != n :: Synced(sb, w, m) <==> Synced(sb, u, m)
    ensures WriteiPost(sb, v0, w, owner, n, off, src)
  {
    hide Word, Links, BitmapIs, Content, Splice, Mapped, SamePlaces, Written;
    GrownContent(sb, v0, v, u, w, owner, n, off, src);
    GrownFiles(sb, v0, v, u, w, owner, n);
    OthersKept(sb, v0, w, n);
    forall m | 0 <= m < sb.ninodes ensures w.inodes[m].size <= MAXFILE * BSIZE {
      assert NoHoles(sb, w, m);
    }
    forall m | 0 <= m < sb.ninodes && m != n ensures Synced(sb, w, m) {
      assert SameFile(sb, v0, w, m);
      SyncedFrame(sb, v0, u, m);
    }
  }

  lemma GrownFiles(sb: Super, v0: Vol, v: Vol, u: Vol, w: Vol, owner: map<uint, Slot>, n: nat)
    requires Shape(sb, v0) && Shape(sb, v) && Shape(sb, u) && Shape(sb, w) && n < sb.ninodes
    requires OthersSame(sb, v0, v, n) && OthersSame(sb, v, u, n) && Links(sb, u, owner)
    requires SamePlaces(sb, u, w) && SameRange(u.blocks, w.blocks, sb.datastart, sb.size) && w.inodes == u.inodes
    ensures OthersSame(sb, v0, w, n)
  {
    forall m | 0 <= m < sb.ninodes && m != n ensures SameFile(sb, v0, w, m) {
      SameFileTransitive(sb, v0, v, u, m);
      SameDataFiles(sb, u, w, owner, m);
      SameFileTransitive(sb, v0, u, w, m);
    }
  }

  lemma GrownContent(sb: Super, v0: Vol, v: Vol, u: Vol, w: Vol, owner: map<uint, Slot>, n: nat, off: nat,
                     src: seq<byte>)
    requires Shape(sb, v0) && Shape(sb, v) && Shape(sb, u) && Shape(sb, w) && n < sb.ninodes
    requires off <= v0.inodes[n].size <= MAXFILE * BSIZE && off + |src| <= MAXFILE * BSIZE
    requires Writing(sb, v0, v, n, off, src, |src|) && off + |src| > v0.inodes[n].size
    requires forall c | 0 <= c < MAXFILE ::
               AddrOf(sb, u, n, c) == AddrOf(sb, v, n, c) && FileBlock(sb, u, n, c) == FileBlock(sb, v, n, c)
    requires SamePlaces(sb, u, w) && SameRange(u.blocks, w.blocks, sb.datastart, sb.size) && Links(sb, u, owner)
    requires w.inodes[n] == v.inodes[n].(size := off + |src|)
    ensures NoHoles(sb, w, n)
    ensures Content(sb, w, n) == Splice(Content(sb, v0, n), off, src)
  {
    SameDataFiles(sb, u, w, owner, n);
    assert MappedSoFar(v0.inodes[n].size, off, |src|) == Ceil(off + |src|);
    var k := Ceil(off + |src|);
    assert Mapped(sb, w, n, k);
    forall i | 0 <= i < off + |src| ensures ByteAt(sb, w, n, i) == ByteAt(sb, v, n, i) {
      assert i / BSIZE < k;
      assert AddrOf(sb, u, n, i / BSIZE) != 0;
    }
    WrittenContent(sb, v0, w, n, off, src);
  }

  /** The block numbers of file n did not move. */
  lemma GrownLogs(sb: Super, v: Vol, u: Vol, w: Vol, n: nat, lo: nat, hi: nat)
    requires Shape(sb, v) && Shape(sb, u) && Shape(sb, w) && n < sb.ninodes && lo <= hi <= MAXFILE
    requires forall c | 0 <= c < MAXFILE :: AddrOf(sb, u, n, c) == AddrOf(sb, v, n, c)
    requires u.inodes[n].addrs == v.inodes[n].addrs && w.inodes == u.inodes && SamePlaces(sb, u, w)
    ensures WriteLogs(sb, w, n, lo, hi) == WriteLogs(sb, v, n, lo, hi)
  {
    forall c | 0 <= c < MAXFILE ensures AddrOf(sb, w, n, c) == AddrOf(sb, u, n, c) {
      assert ValidSlot(sb, FileSlot(n, c));
    }
    AddrsFrame(sb, w, v, n, lo, hi);
  }

  /** Two successive writes, the second right behind the first, are one write of both. */
  lemma WriteiTwice(sb: Super, u: Vol, v: Vol, w: Vol, o1: map<uint, Slot>, o2: map<uint, Slot>, n: nat, off: nat,
                    s: seq<byte>, t: seq<byte>)
    requires Shape(sb, u) && n < sb.ninodes && off <= u.inodes[n].size <= MAXFILE * BSIZE
    requires WriteiPost(sb, u, v, o1, n, off, s)
    requires off + |s| <= v.inodes[n].size && WriteiPost(sb, v, w, o2, n, off + |s|, t)
    ensures WriteiPost(sb, u, w, o2, n, off, s + t)
  {
    hide Links, BitmapIs, NoHoles, Synced, Content;
    SpliceTwice(Content(sb, u, n), off, s, t);
    forall m | 0 <= m < sb.ninodes && m != n ensures Untouched(sb, u, w, m) {
      assert Untouched(sb, u, v, m) && Untouched(sb, v, w, m);
    }
  }

  lemma WriteiNothing(sb: Super, v: Vol, owner: map<uint, Slot>, n: nat, off: nat)
    requires FsInv(sb, v, owner) && n < sb.ninodes && off <= v.inodes[n].size
    ensures WriteiPost(sb, v, v, owner, n, off, [])
  {
  }
}
