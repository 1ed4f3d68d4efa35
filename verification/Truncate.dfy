/** itrunc: freeing the blocks of one inode, one after another. */
module Truncate {
  import opened Blocks
  import opened Volume
  import opened FileBytes
  import opened WriteSpec

  /** The order in which itrunc frees: direct blocks, table entries, the table. */
  function Rank(s: Slot): nat {
    match s
    case Direct(_, i) => i
    case Entry(_, j) => NDIRECT + j
    case Table(_) => MAXFILE
  }

  /** The owned blocks left when the places of inode n below rank k have been freed. */
  ghost function Left(owner: map<uint, Slot>, n: nat, k: nat): set<uint> {
    set b | b in owner && !(owner[b].n == n && Rank(owner[b]) < k)
  }

  lemma LeftStep(sb: Super, v: Vol, owner: map<uint, Slot>, s: Slot)
    requires Shape(sb, v) && Links(sb, v, owner) && ValidSlot(sb, s)
    requires s.Direct? ==> s.i < NDIRECT
    ensures Left(owner, s.n, Rank(s) + 1) == Left(owner, s.n, Rank(s)) - {At(sb, v, s)}
    ensures At(sb, v, s) != 0 ==> At(sb, v, s) in Left(owner, s.n, Rank(s)) && sb.datastart <= At(sb, v, s) < sb.size
  {
    forall b: uint | b in owner && owner[b].n == s.n && Rank(owner[b]) == Rank(s) ensures owner[b] == s {
      assert ValidSlot(sb, owner[b]);
    }
    forall b: uint | b in Left(owner, s.n, Rank(s)) && b != At(sb, v, s) ensures owner[b] != s {
      assert At(sb, v, owner[b]) == b;
    }
  }

  /** Without a table there is nothing past the direct blocks. */
  lemma LeftNoTable(sb: Super, v: Vol, owner: map<uint, Slot>, n: nat)
    requires Shape(sb, v) && Links(sb, v, owner) && n < sb.ninodes && v.inodes[n].addrs[NDIRECT] == 0
    ensures Left(owner, n, MAXFILE + 1) == Left(owner, n, NDIRECT)
  {
    forall b: uint | b in owner && owner[b].n == n ensures Rank(owner[b]) < NDIRECT {
      assert ValidSlot(sb, owner[b]) && At(sb, v, owner[b]) == b;
    }
  }

  ghost function OwnerWithout(owner: map<uint, Slot>, n: nat): map<uint, Slot> {
    map b | b in owner && owner[b].n != n :: owner[b]
  }

  lemma LeftAll(sb: Super, v: Vol, owner: map<uint, Slot>, n: nat)
    requires Shape(sb, v) && Links(sb, v, owner)
    ensures OwnerWithout(owner, n).Keys == Left(owner, n, MAXFILE + 1)
    ensures Left(owner, n, 0) == owner.Keys
  {
    forall b: uint | b in owner ensures Rank(owner[b]) < MAXFILE + 1 {
      assert ValidSlot(sb, owner[b]);
    }
  }

  /** The inode emptied: no addresses, size 0. */
  function Emptied(ino: Inode): Inode {
    Dinode(ino.w0, ino.w1, 0, seq(NDIRECT + 1, i => 0))
  }

  /** Outside the bitmap the blocks are as before, and inode n is empty: the other inodes still own
      exactly what they owned. */
  lemma EmptiedLinks(sb: Super, v: Vol, w: Vol, owner: map<uint, Slot>, n: nat)
    requires Shape(sb, v) && Links(sb, v, owner) && Shape(sb, w) && n < sb.ninodes
    requires SameRange(v.blocks, w.blocks, sb.datastart, sb.size)
    requires w.inodes == v.inodes[n := Emptied(v.inodes[n])]
    ensures Links(sb, w, OwnerWithout(owner, n))
    ensures forall s: Slot | ValidSlot(sb, s) :: At(sb, w, s) == if s.n == n then 0 else At(sb, v, s)
  {
    forall s: Slot | ValidSlot(sb, s) ensures At(sb, w, s) == if s.n == n then 0 else At(sb, v, s) {
      if s.n != n && s.Entry? {
        assert ValidSlot(sb, Table(s.n));
      }
    }
  }

  lemma EmptiedFiles(sb: Super, v: Vol, w: Vol, owner: map<uint, Slot>, n: nat)
    requires Shape(sb, v) && Links(sb, v, owner) && Shape(sb, w) && n < sb.ninodes
    requires SameRange(v.blocks, w.blocks, sb.datastart, sb.size)
    requires w.inodes == v.inodes[n := Emptied(v.inodes[n])]
    requires forall s: Slot | ValidSlot(sb, s) :: At(sb, w, s) == if s.n == n then 0 else At(sb, v, s)
    ensures OthersSame(sb, v, w, n) && NoHoles(sb, w, n)
  {
    forall m, c | 0 <= m < sb.ninodes && 0 <= c < MAXFILE
      ensures AddrOf(sb, w, m, c) == if m == n then 0 else AddrOf(sb, v, m, c)
      ensures m != n && AddrOf(sb, v, m, c) != 0 ==> FileBlock(sb, w, m, c) == FileBlock(sb, v, m, c)
    {
      assert ValidSlot(sb, FileSlot(m, c));
      if m != n && AddrOf(sb, v, m, c) != 0 {
        MappedOwned(sb, v, owner, m, c);
      }
    }
    assert Ceil(0) == 0;
  }

  /** What itrunc leaves: inode n empty, exactly its blocks free, every other file as before. */
  ghost predicate TruncPost(sb: Super, v: Vol, owner: map<uint, Slot>, w: Vol, owner': map<uint, Slot>, n: nat)
    requires Shape(sb, v) && n < sb.ninodes
  {
    && FsInv(sb, w, owner') && owner' == OwnerWithout(owner, n)
    && w.inodes == v.inodes[n := Emptied(v.inodes[n])]
    && w.inodes[n].w0 == v.inodes[n].w0 && w.inodes[n].w1 == v.inodes[n].w1
    && Content(sb, w, n) == []
    && OthersUntouched(sb, v, w, n)
    && (forall b: uint | b < sb.size ::
          Used(sb, w.blocks, b) <==> Used(sb, v.blocks, b) && !(b in owner && owner[b].n == n))
  }

  lemma TruncDone(sb: Super, v: Vol, u: Vol, w: Vol, owner: map<uint, Slot>, n: nat)
    requires FsInv(sb, v, owner) && n < sb.ninodes && Shape(sb, u)
    requires SameRange(v.blocks, u.blocks, sb.inodestart, sb.bmapstart)
    requires SameRange(v.blocks, u.blocks, sb.datastart, sb.size)
    requires u.inodes == v.inodes[n := Emptied(v.inodes[n])]
    requires IupdatePost(sb, u, w, OwnerWithout(owner, n), n)
    ensures TruncPost(sb, v, owner, w, OwnerWithout(owner, n), n)
  {
    hide Word, Used, DiskInode, Content, Mapped;
    assert SameRange(v.blocks, w.blocks, sb.datastart, sb.size);
    EmptiedLinks(sb, v, w, owner, n);
    EmptiedFiles(sb, v, w, owner, n);
    OthersKept(sb, v, w, n);
    forall m | 0 <= m < sb.ninodes && m != n ensures Synced(sb, w, m) {
      SyncedFrame(sb, v, u, m);
    }
    forall m | 0 <= m < sb.ninodes ensures w.inodes[m].size <= MAXFILE * BSIZE {}
    assert BitmapIs(sb, w.blocks, OwnerWithout(owner, n).Keys);
    forall b: uint | b < sb.size
      ensures Used(sb, w.blocks, b) <==> Used(sb, v.blocks, b) && !(b in owner && owner[b].n == n)
    {
      assert b in owner ==> sb.datastart <= b;
    }
  }

  /** The first k addresses cleared. */
  function Zeroed(addrs: seq<uint>, k: nat): (r: seq<uint>)
    requires k <= |addrs|
    ensures |r| == |addrs|
  {
    if k == 0 then addrs else Zeroed(addrs, k - 1)[k - 1 := 0]
  }

  lemma {:induction false} ZeroedAt(addrs: seq<uint>, k: nat)
    requires k <= |addrs|
    ensures forall i | 0 <= i < |addrs| :: Zeroed(addrs, k)[i] == if i < k then 0 else addrs[i]
  {
    if k > 0 {
      ZeroedAt(addrs, k - 1);
    }
  }

  lemma EmptiedIs(ino: Inode)
    ensures ino.(addrs := Zeroed(ino.addrs, NDIRECT + 1), size := 0) == Emptied(ino)
  {
    ZeroedAt(ino.addrs, NDIRECT + 1);
  }

  lemma TableThere(sb: Super, v: Vol, owner: map<uint, Slot>, n: nat)
    requires Shape(sb, v) && Links(sb, v, owner) && n < sb.ninodes && v.inodes[n].addrs[NDIRECT] != 0
    ensures sb.datastart <= v.inodes[n].addrs[NDIRECT] < sb.size
    ensures forall j | 0 <= j < NINDIRECT :: At(sb, v, Entry(n, j)) == Word(v.blocks[v.inodes[n].addrs[NDIRECT]], j)
    ensures At(sb, v, Table(n)) == v.inodes[n].addrs[NDIRECT]
  {
    assert ValidSlot(sb, Table(n));
  }

  lemma SameRangeSelf(x: seq<Block>, sb: Super)
    ensures SameRange(x, x, sb.inodestart, sb.bmapstart) && SameRange(x, x, sb.datastart, sb.size)
  {
  }
}
