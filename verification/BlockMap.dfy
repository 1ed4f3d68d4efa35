/** What bmap does to a volume when it has to allocate. */
module BlockMap {
  import opened Blocks
  import opened Volume
  import opened VolumeOps

  /** w is v with one fresh zeroed block b put into the empty place me of inode n. */
  ghost predicate Grew(sb: Super, v: Vol, owner: map<uint, Slot>, w: Vol, owner': map<uint, Slot>, n: nat, me: Slot,
                       b: uint)
    requires Shape(sb, v) && Shape(sb, w) && n < sb.ninodes && Links(sb, v, owner)
  {
    && b !in owner && b != 0 && owner' == owner[b := me] && me.n == n && ValidSlot(sb, me)
    && Links(sb, w, owner') && BitmapIs(sb, w.blocks, owner'.Keys)
    && SameRange(v.blocks, w.blocks, sb.inodestart, sb.bmapstart)
    && (forall s: Slot | ValidSlot(sb, s) :: At(sb, w, s) == if s == me then b else At(sb, v, s))
    && (forall m | 0 <= m < sb.ninodes && m != n :: w.inodes[m] == v.inodes[m])
    && w.inodes[n] == v.inodes[n].(addrs := w.inodes[n].addrs)
    && (forall x: uint | x in owner && !owner[x].Table? :: w.blocks[x] == v.blocks[x])
    && b < sb.size && w.blocks[b] == ZERO
  }

  lemma GrewParts(sb: Super, v: Vol, owner: map<uint, Slot>, w: Vol, owner': map<uint, Slot>, n: nat, me: Slot, b: uint)
    requires Shape(sb, v) && Shape(sb, w) && n < sb.ninodes && Links(sb, v, owner)
    requires Grew(sb, v, owner, w, owner', n, me, b)
    ensures Links(sb, w, owner') && BitmapIs(sb, w.blocks, owner'.Keys) && |owner'| == |owner| + 1
  {
    assert owner'.Keys == owner.Keys + {b};
  }

  lemma GrowInode(sb: Super, v: Vol, owner: map<uint, Slot>, n: nat, i: nat, b: uint)
    requires Shape(sb, v) && Links(sb, v, owner) && BitmapIs(sb, v.blocks, owner.Keys)
    requires n < sb.ninodes && i <= NDIRECT && v.inodes[n].addrs[i] == 0
    requires b < sb.size && !Used(sb, v.blocks, b) && BBlock(sb, b) < sb.size
    ensures var w := SetAddr(v.(blocks := Allocated(sb, v.blocks, b)), n, i, b);
            Shape(sb, w) && Grew(sb, v, owner, w, owner[b := AddrSlot(n, i)], n, AddrSlot(n, i), b)
  {
    AllocInv(sb, v, owner, b);
    var u := v.(blocks := Allocated(sb, v.blocks, b));
    LinkInode(sb, u, owner, n, i, b);
    assert owner[b := AddrSlot(n, i)].Keys == owner.Keys + {b};
  }

  lemma GrowEntry(sb: Super, v: Vol, owner: map<uint, Slot>, n: nat, j: nat, b: uint)
    requires Shape(sb, v) && Links(sb, v, owner) && BitmapIs(sb, v.blocks, owner.Keys)
    requires n < sb.ninodes && j < NINDIRECT
    requires v.inodes[n].addrs[NDIRECT] != 0 && At(sb, v, Entry(n, j)) == 0
    requires b < sb.size && !Used(sb, v.blocks, b) && BBlock(sb, b) < sb.size
    ensures v.inodes[n].addrs[NDIRECT] < sb.size
    ensures var u := Allocated(sb, v.blocks, b);
            var t := v.inodes[n].addrs[NDIRECT];
            var w := v.(blocks := u[t := PutWord(u[t], j, b)]);
            Shape(sb, w) && Grew(sb, v, owner, w, owner[b := Entry(n, j)], n, Entry(n, j), b)
  {
    hide Links, BitmapIs, Word, PutWord, Used, Bit, At;
    AllocInv(sb, v, owner, b);
    var u := v.(blocks := Allocated(sb, v.blocks, b));
    var t := v.inodes[n].addrs[NDIRECT];
    assert At(sb, u, Entry(n, j)) == 0 by {
      assert ValidSlot(sb, Entry(n, j));
    }
    LinkEntry(sb, u, owner, n, j, b);
    var w := u.(blocks := u.blocks[t := PutWord(u.blocks[t], j, b)]);
    BitmapFrame(sb, u.blocks, w.blocks, owner.Keys + {b});
    assert owner[b := Entry(n, j)].Keys == owner.Keys + {b};
  }

  /** The blocks bmap has to allocate: none for a mapped block, else the block, and the indirect
      table if it is wanted and absent. */
  ghost function BmapNeed(sb: Super, v: Vol, n: nat, bn: nat): nat
    requires Shape(sb, v) && n < sb.ninodes && bn < MAXFILE
  {
    if AddrOf(sb, v, n, bn) != 0 then 0
    else if bn >= NDIRECT && v.inodes[n].addrs[NDIRECT] == 0 then 2
    else 1
  }

  /** What bmap(n, bn) == a promises, in terms of files: block bn of file n is at a, every other
      file block is where it was with the contents it had, and no other inode is touched. */
  ghost predicate BmapPost(sb: Super, v: Vol, w: Vol, owner': map<uint, Slot>, n: nat, bn: nat, a: uint)
    requires Shape(sb, v) && n < sb.ninodes && bn < MAXFILE
  {
    && Shape(sb, w) && Links(sb, w, owner') && BitmapIs(sb, w.blocks, owner'.Keys)
    && SameRange(v.blocks, w.blocks, sb.inodestart, sb.bmapstart)
    && (forall m | 0 <= m < sb.ninodes && m != n :: SameFile(sb, v, w, m))
    && w.inodes[n] == v.inodes[n].(addrs := w.inodes[n].addrs)
    && (w.inodes[n].addrs[NDIRECT] != 0 <==> v.inodes[n].addrs[NDIRECT] != 0 || bn >= NDIRECT)
    && (v.inodes[n].addrs[NDIRECT] != 0 ==> w.inodes[n].addrs[NDIRECT] == v.inodes[n].addrs[NDIRECT])
    && AddrOf(sb, w, n, bn) == a && a != 0
    && (forall c | 0 <= c < MAXFILE && c != bn :: AddrOf(sb, w, n, c) == AddrOf(sb, v, n, c))
    && (forall c | 0 <= c < MAXFILE && AddrOf(sb, v, n, c) != 0 ::
          AddrOf(sb, w, n, c) == AddrOf(sb, v, n, c) && FileBlock(sb, w, n, c) == FileBlock(sb, v, n, c))
    && (AddrOf(sb, v, n, bn) != 0 ==> w == v)
    && (AddrOf(sb, v, n, bn) == 0 ==> FileBlock(sb, w, n, bn) == ZERO)
  }

  /** Growth at a place other than bn, seen from the files. */
  lemma GrewFiles(sb: Super, v: Vol, owner: map<uint, Slot>, w: Vol, owner': map<uint, Slot>, n: nat, me: Slot, b: uint)
    requires Shape(sb, v) && Shape(sb, w) && n < sb.ninodes && Links(sb, v, owner)
    requires Grew(sb, v, owner, w, owner', n, me, b)
    ensures forall m | 0 <= m < sb.ninodes && m != n :: SameFile(sb, v, w, m)
    ensures forall c | 0 <= c < MAXFILE && FileSlot(n, c) != me :: AddrOf(sb, w, n, c) == AddrOf(sb, v, n, c)
    ensures forall c | 0 <= c < MAXFILE && FileSlot(n, c) != me && AddrOf(sb, v, n, c) != 0 ::
              FileBlock(sb, w, n, c) == FileBlock(sb, v, n, c)
  {
    hide Word, BitmapIs;
    forall m, c | 0 <= m < sb.ninodes && 0 <= c < MAXFILE && FileSlot(m, c) != me
      ensures AddrOf(sb, w, m, c) == AddrOf(sb, v, m, c)
      ensures AddrOf(sb, v, m, c) != 0 ==> FileBlock(sb, w, m, c) == FileBlock(sb, v, m, c)
    {
      assert ValidSlot(sb, FileSlot(m, c));
      if AddrOf(sb, v, m, c) != 0 {
        MappedOwned(sb, v, owner, m, c);
      }
    }
  }

  lemma BmapGrew(sb: Super, v: Vol, owner: map<uint, Slot>, w: Vol, owner': map<uint, Slot>, n: nat, bn: nat, b: uint)
    requires Shape(sb, v) && Shape(sb, w) && n < sb.ninodes && bn < MAXFILE && Links(sb, v, owner)
    requires AddrOf(sb, v, n, bn) == 0
    requires bn >= NDIRECT ==> v.inodes[n].addrs[NDIRECT] != 0
    requires Grew(sb, v, owner, w, owner', n, FileSlot(n, bn), b)
    ensures BmapPost(sb, v, w, owner', n, bn, b)
  {
    var me := FileSlot(n, bn);
    GrewFiles(sb, v, owner, w, owner', n, me, b);
    assert ValidSlot(sb, me) && ValidSlot(sb, Table(n));
    assert At(sb, w, Table(n)) == At(sb, v, Table(n));
    assert forall c | 0 <= c < MAXFILE && c != bn :: FileSlot(n, c) != me;
  }

  /** Allocating the table first does not show in the files. */
  lemma BmapAfterTable(sb: Super, v: Vol, owner: map<uint, Slot>, u: Vol, owner1: map<uint, Slot>, t: uint,
                       w: Vol, owner2: map<uint, Slot>, n: nat, bn: nat, a: uint)
    requires Shape(sb, v) && Shape(sb, u) && n < sb.ninodes && NDIRECT <= bn < MAXFILE && Links(sb, v, owner)
    requires v.inodes[n].addrs[NDIRECT] == 0
    requires Grew(sb, v, owner, u, owner1, n, Table(n), t)
    requires BmapPost(sb, u, w, owner2, n, bn, a)
    ensures BmapPost(sb, v, w, owner2, n, bn, a)
  {
    hide Links, BitmapIs, Word, Bit, Used;
    GrewFiles(sb, v, owner, u, owner1, n, Table(n), t);
    forall m | 0 <= m < sb.ninodes && m != n ensures SameFile(sb, v, w, m) {
      SameFileTransitive(sb, v, u, w, m);
    }
    assert forall c | 0 <= c < MAXFILE :: FileSlot(n, c) != Table(n);
    assert AddrOf(sb, v, n, bn) == 0;
  }
}
