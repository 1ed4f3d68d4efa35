/** The buffer cache of kernel/bio.c over the synchronous disk of kernel/memide.c.

    A buffer between bget and brelse belongs to its holder (the sleep lock is not modelled), and a
    holder hands its modified contents over at log_write or bwrite. */
module Bcache {
  import opened Basics
  import opened Blocks
  import opened Ring
  import opened Counting
  import LogMachine

  const ROOTDEV := 1

  /** Flags tell the truth, and no two buffers hold the same block of the root device. */
  ghost predicate Coherent(t: Table, disk: seq<Block>) {
    && (forall i | 0 <= i < NBUF && t[i].valid :: t[i].dev == ROOTDEV && t[i].blockno < |disk|)
    && (forall i | 0 <= i < NBUF && t[i].dirty :: t[i].valid)
    && (forall i | 0 <= i < NBUF && t[i].valid && !t[i].dirty :: t[i].data == disk[t[i].blockno])
    && (forall i, j | 0 <= i < j < NBUF && t[i].dev == ROOTDEV && t[j].dev == ROOTDEV ::
          t[i].blockno != t[j].blockno)
  }

  ghost predicate HoldsDirty(t: Table, i: int, bn: uint) {
    0 <= i < NBUF && t[i].dirty && t[i].blockno == bn
  }

  /** The simple map the cache stands for: a pending update if there is one, else the disk. */
  ghost function CacheView(t: Table, disk: seq<Block>, bn: uint): Block
    requires bn < |disk|
  {
    if i :| HoldsDirty(t, i, bn) then t[i].data else disk[bn]
  }

  /** The dirty buffers are exactly the pending updates. */
  ghost predicate Pends(t: Table, pending: map<uint, Block>) {
    && (forall i | 0 <= i < NBUF && t[i].dirty :: t[i].blockno in pending && pending[t[i].blockno] == t[i].data)
    && (forall p | p in pending :: exists i :: HoldsDirty(t, i, p))
  }

  /** Recycling, reading and relinking leave the dirty buffers alone. */
  lemma PendsFrame(t: Table, u: Table, pending: map<uint, Block>)
    requires Pends(t, pending)
    requires forall i | 0 <= i < NBUF ::
               u[i].dirty == t[i].dirty && (t[i].dirty ==> u[i].blockno == t[i].blockno && u[i].data == t[i].data)
    ensures Pends(u, pending)
  {
    forall p | p in pending ensures exists i :: HoldsDirty(u, i, p) {
      var i :| HoldsDirty(t, i, p);
      assert HoldsDirty(u, i, p);
    }
  }

  lemma PendsDirty(t: Table, u: Table, disk: seq<Block>, pending: map<uint, Block>, b: nat)
    requires Coherent(t, disk) && Pends(t, pending) && SameButOne(t, u, b) && u[b].dirty
    ensures Pends(u, pending[u[b].blockno := u[b].data])
  {
    var more := pending[u[b].blockno := u[b].data];
    forall p | p in more ensures exists i :: HoldsDirty(u, i, p) {
      if p == u[b].blockno {
        assert HoldsDirty(u, b, p);
      } else {
        var i :| HoldsDirty(t, i, p);
        assert HoldsDirty(u, i, p);
      }
    }
  }

  lemma PendsWritten(t: Table, u: Table, disk: seq<Block>, pending: map<uint, Block>, b: nat)
    requires Coherent(t, disk) && Pends(t, pending) && SameButOne(t, u, b) && !u[b].dirty
    ensures Pends(u, pending - {u[b].blockno})
  {
    var rest := pending - {u[b].blockno};
    forall p | p in rest ensures exists i :: HoldsDirty(u, i, p) {
      var i :| HoldsDirty(t, i, p);
      assert HoldsDirty(u, i, p);
    }
  }

  predicate HasKey(b: Buf, dev: uint, bn: uint) { b.dev == dev && b.blockno == bn }

  predicate Recyclable(b: Buf) { b.refcnt == 0 && !b.dirty }

  /** Some buffer can be taken over. */
  ghost predicate Roomy(t: Table) { exists i | 0 <= i < NBUF :: Recyclable(t[i]) }

  /** bget finds a buffer for block bn of the root device. */
  ghost predicate Readable(t: Table, bn: uint) {
    exists i | 0 <= i < NBUF :: HasKey(t[i], ROOTDEV, bn) || Recyclable(t[i])
  }

  /** What bread does to the table: buffer b, cached or taken over, is held once more. */
  ghost predicate Gets(t: Table, u: Table, b: nat, bn: uint) {
    && b < NBUF && (forall i | 0 <= i <= NBUF && i != b :: u[i] == t[i])
    && HasKey(u[b], ROOTDEV, bn) && u[b].valid && u[b].refcnt == t[b].refcnt + 1 && u[b].dirty == t[b].dirty
    && (HasKey(t[b], ROOTDEV, bn) || Recyclable(t[b]))
  }

  /** What bwrite does to the table. */
  ghost predicate Wrote(t: Table, u: Table, b: nat, data: Block) {
    && b < NBUF && (forall i | 0 <= i <= NBUF && i != b :: u[i] == t[i])
    && u[b] == t[b].(data := data, dirty := false)
  }

  /** What brelse does to the table. */
  ghost predicate Releases(t: Table, u: Table, b: nat) {
    b < NBUF && t[b].refcnt > 0 && SameButLinks(t[b := t[b].(refcnt := t[b].refcnt - 1)], u)
  }

  /** In a coherent cache a valid buffer shows the simple map. */
  lemma ValidShowsView(t: Table, disk: seq<Block>, i: nat)
    requires Coherent(t, disk) && i < NBUF && t[i].valid
    ensures t[i].data == CacheView(t, disk, t[i].blockno)
  {
    if t[i].dirty {
      assert HoldsDirty(t, i, t[i].blockno);
    }
  }

  /** Changing one buffer that is dirty neither before nor after leaves the map alone. */
  lemma CleanChange(t: Table, u: Table, disk: seq<Block>, b: nat, bn: uint)
    requires b < NBUF && bn < |disk|
    requires forall i | 0 <= i < NBUF && i != b ::
               u[i].dirty == t[i].dirty && u[i].blockno == t[i].blockno && u[i].data == t[i].data
    requires !t[b].dirty && !u[b].dirty
    requires Coherent(t, disk)
    ensures CacheView(u, disk, bn) == CacheView(t, disk, bn)
  {
    if i :| HoldsDirty(t, i, bn) {
      assert HoldsDirty(u, i, bn);
    }
    if i :| HoldsDirty(u, i, bn) {
      assert HoldsDirty(t, i, bn);
    }
  }

  /** The cache is the `pending else disk` map of the log: while the dirty buffers are the log's
      pending blocks, reading through the cache is reading through the log. */
  lemma CacheIsLogView(t: Table, s: LogMachine.State, bn: uint)
    requires Coherent(t, s.disk) && bn < |s.disk| && Pends(t, s.pending)
    ensures CacheView(t, s.disk, bn) == LogMachine.View(s, bn)
  {
    if i :| HoldsDirty(t, i, bn) {
      assert bn in s.pending;
    }
  }

  class Bcache {
    const bufs: array<Buf>
    var disk: seq<Block>
    ghost var order: seq<Link>      // buffers, most recently used first
    ghost var pending: map<uint, Block>     // updates given to log_write and not yet installed

    ghost function T(): Table
      reads bufs
      requires bufs.Length == NBUF + 1
    {
      bufs[..]
    }

    ghost predicate Valid()
      reads this, bufs
    {
      && bufs.Length == NBUF + 1
      && |order| == NBUF
      && RingOf(T(), order)
      && Coherent(T(), disk)
      && Pends(T(), pending)
    }

    /** binit: buffers pushed one after another, so the last one is most recently used. */
    constructor (d: seq<Block>)
      ensures Valid() && disk == d && pending == map[] && fresh(bufs)
      ensures forall i | 0 <= i < NBUF :: bufs[i].refcnt == 0 && !bufs[i].valid && order[i] == NBUF - 1 - i
    {
      disk := d;
      order := [];
      pending := map[];
      bufs := new Buf[NBUF + 1](i => Buf(0, 0, false, false, 0, ZERO, HEAD, HEAD));
      new;
      var b := 0;
      while b < NBUF
        modifies bufs, this`order
        invariant 0 <= b <= NBUF
        invariant RingOf(T(), order) && |order| == b
        invariant forall i | 0 <= i < b :: order[i] == b - 1 - i
        invariant forall i | 0 <= i < NBUF ::
                    !bufs[i].valid && !bufs[i].dirty && bufs[i].refcnt == 0 && bufs[i].dev == 0
      {
        PushFrontRing(T(), order, b);
        Insert(b);
        order := [b] + order;
        b := b + 1;
      }
    }

    /** The four assignments that put b behind the header. */
    method Insert(b: Link)
      requires bufs.Length == NBUF + 1 && b < NBUF
      modifies bufs
      ensures T() == PushFront(old(T()), b)
    {
      bufs[b] := bufs[b].(next := bufs[HEAD].next);
      bufs[b] := bufs[b].(prev := HEAD);
      var first := bufs[HEAD].next;
      bufs[first] := bufs[first].(prev := b);
      bufs[HEAD] := bufs[HEAD].(next := b);
    }

    /** The two assignments that take b out of the ring. */
    method Remove(b: Link)
      requires bufs.Length == NBUF + 1 && b < NBUF
      modifies bufs
      ensures T() == Unlink(old(T()), b)
    {
      var n := bufs[b].next;
      bufs[n] := bufs[n].(prev := bufs[b].prev);
      var p := bufs[b].prev;
      bufs[p] := bufs[p].(next := bufs[b].next);
    }

    /** First loop of bget: walk next from the header. */
    method FindCached(dev: uint, bn: uint) returns (b: Link)
      requires Valid()
      ensures b == HEAD <==> forall i | 0 <= i < NBUF :: !HasKey(bufs[i], dev, bn)
      ensures b != HEAD ==> HasKey(bufs[b], dev, bn)
    {
      ghost var k := 1;
      assert Linked(T(), order, 0);
      b := bufs[HEAD].next;
      while b != HEAD
        invariant 1 <= k <= NBUF + 1 && b == At(order, k)
        invariant forall j | 0 <= j < k - 1 :: !HasKey(bufs[order[j]], dev, bn)
        decreases NBUF + 1 - k
      {
        if HasKey(bufs[b], dev, bn) {
          return;
        }
        assert Linked(T(), order, k);
        b := bufs[b].next;
        k := k + 1;
      }
      forall i | 0 <= i < NBUF ensures !HasKey(bufs[i], dev, bn) {
        var j := Position(order, i);
      }
    }

    /** Second loop of bget: walk prev from the header to the least recently used free buffer. */
    method FindRecyclable() returns (b: Link, ghost j: nat)
      requires Valid()
      ensures b == HEAD <==> forall i | 0 <= i < NBUF :: !Recyclable(bufs[i])
      ensures b != HEAD ==>
                && j < NBUF && order[j] == b && Recyclable(bufs[b])
                && forall m | j < m < NBUF :: !Recyclable(bufs[order[m]])
    {
      ghost var k := NBUF;
      assert Linked(T(), order, NBUF);
      b := bufs[HEAD].prev;
      j := 0;
      while b != HEAD
        invariant 0 <= k <= NBUF && b == At(order, k)
        invariant forall m | k <= m < NBUF :: !Recyclable(bufs[order[m]])
        decreases k
      {
        if Recyclable(bufs[b]) {
          j := k - 1;
          return;
        }
        assert Linked(T(), order, k - 1);
        b := bufs[b].prev;
        k := k - 1;
      }
      forall i | 0 <= i < NBUF ensures !Recyclable(bufs[i]) {
        var m := Position(order, i);
      }
    }

    method Reuse(b: Link)
      requires Valid() && b < NBUF
      modifies bufs
      ensures Valid() && bufs[..] == old(bufs[..])[b := old(bufs[b]).(refcnt := old(bufs[b].refcnt) + 1)]
      ensures forall x: uint | x < |disk| :: CacheView(T(), disk, x) == old(CacheView(T(), disk, x))
    {
      ghost var t := T();
      bufs[b] := bufs[b].(refcnt := bufs[b].refcnt + 1);
      SameLinks(t, T(), order);
      PendsFrame(t, T(), pending);
      SameContents(t, T(), disk);
    }

    method Recycle(b: Link, dev: uint, bn: uint)
      requires Valid() && b < NBUF && Recyclable(bufs[b]) && forall i | 0 <= i < NBUF :: !HasKey(bufs[i], dev, bn)
      modifies bufs
      ensures Valid()
      ensures bufs[..] == old(bufs[..])[b := old(bufs[b]).(dev := dev, blockno := bn, valid := false, dirty := false,
                                                           refcnt := 1)]
      ensures forall x: uint | x < |disk| :: CacheView(T(), disk, x) == old(CacheView(T(), disk, x))
    {
      ghost var t := T();
      bufs[b] := bufs[b].(dev := dev, blockno := bn, valid := false, dirty := false, refcnt := 1);
      SameLinks(t, T(), order);
      PendsFrame(t, T(), pending);
      forall x: uint | x < |disk| ensures CacheView(T(), disk, x) == CacheView(t, disk, x) {
        CleanChange(t, T(), disk, b, x);
      }
    }

    /** bget. None is the "no buffers" panic. A cached block keeps its buffer; otherwise the least
        recently used free clean buffer is taken over. Either way the map the cache stands for is
        unchanged and no dirty buffer is touched: a block waiting for its commit stays. */
    method Bget(dev: uint, bn: uint) returns (r: Option<Link>)
      requires Valid()
      modifies bufs
      ensures Valid()
      ensures r.None? <==> old((forall i | 0 <= i < NBUF :: !HasKey(bufs[i], dev, bn) && !Recyclable(bufs[i])))
      ensures r.None? ==> bufs[..] == old(bufs[..])
      ensures r.Some? ==>
                && r.value < NBUF && HasKey(bufs[r.value], dev, bn) && bufs[r.value].refcnt > 0
                && (forall i | 0 <= i <= NBUF && i != r.value :: bufs[i] == old(bufs[i]))
      ensures r.Some? && old(HasKey(bufs[r.value], dev, bn)) ==>
                bufs[r.value] == old(bufs[r.value]).(refcnt := old(bufs[r.value].refcnt) + 1)
      ensures r.Some? && !old(HasKey(bufs[r.value], dev, bn)) ==>
                && old(Recyclable(bufs[r.value])) && bufs[r.value].refcnt == 1 && !bufs[r.value].valid
                   && !bufs[r.value].dirty
                && old(forall i | 0 <= i < NBUF :: !HasKey(bufs[i], dev, bn))
                && exists j | 0 <= j < NBUF && order[j] == r.value ::
                     forall m | j < m < NBUF :: !old(Recyclable(bufs[order[m]]))
      ensures forall i | 0 <= i < NBUF && old(bufs[i].dirty) ::
                bufs[i].dirty && bufs[i].data == old(bufs[i].data) && bufs[i].blockno == old(bufs[i].blockno)
      ensures forall x: uint | x < |disk| :: CacheView(T(), disk, x) == old(CacheView(T(), disk, x))
    {
      hide RingOf, CacheView, Coherent, Pends;
      var b := FindCached(dev, bn);
      if b != HEAD {
        Reuse(b);
        return Some(b);
      }
      ghost var j;
      b, j := FindRecyclable();
      if b == HEAD {
        return None;
      }
      Recycle(b, dev, bn);
      return Some(b);
    }

    /** iderw on a clean invalid buffer. */
    method ReadIn(b: Link)
      requires Valid() && b < NBUF && !bufs[b].valid && bufs[b].dev == ROOTDEV && bufs[b].blockno < |disk|
      modifies bufs
      ensures Valid() && bufs[..] == old(bufs[..])[b := old(bufs[b]).(data := disk[old(bufs[b].blockno)],
                                                                      valid := true)]
      ensures forall x: uint | x < |disk| :: CacheView(T(), disk, x) == old(CacheView(T(), disk, x))
    {
      ghost var t := T();
      bufs[b] := bufs[b].(data := disk[bufs[b].blockno], valid := true);
      SameLinks(t, T(), order);
      PendsFrame(t, T(), pending);
      forall x: uint | x < |disk| ensures CacheView(T(), disk, x) == CacheView(t, disk, x) {
        CleanChange(t, T(), disk, b, x);
      }
    }

    /** bread. None is a panic: no buffer, or a block that is not on the disk. */
    method Bread(dev: uint, bn: uint) returns (r: Option<Link>)
      requires Valid()
      modifies bufs
      ensures r.Some? <==> dev == ROOTDEV && bn < |disk| && Readable(old(T()), bn)
      ensures dev == ROOTDEV && bn < |disk| ==> Valid() && (r.None? ==> bufs[..] == old(bufs[..]))
      ensures r.Some? ==> Gets(old(T()), T(), r.value, bn) && bufs[r.value].data == CacheView(T(), disk, bn)
      ensures r.Some? ==> forall x: uint | x < |disk| :: CacheView(T(), disk, x) == old(CacheView(T(), disk, x))
    {
      hide CacheView, RingOf, Pends;
      r := Bget(dev, bn);
      if r.None? {
        return;
      }
      var b := r.value;
      if !bufs[b].valid {
        if dev != ROOTDEV || bn >= |disk| {
          return None;
        }
        ReadIn(b);
      }
      ValidShowsView(T(), disk, b);
    }

    /** A held buffer gets new contents and log_write marks it dirty: the map changes at that
        block and nowhere else, the disk not at all. */
    method MarkDirty(b: Link, data: Block)
      requires Valid() && b < NBUF && bufs[b].valid && bufs[b].refcnt > 0
      modifies bufs, this`pending
      ensures Valid() && pending == old(pending)[bufs[b].blockno := data]
      ensures bufs[..] == old(bufs[..])[b := old(bufs[b]).(data := data, dirty := true)]
      ensures forall x: uint | x < |disk| ::
                CacheView(T(), disk, x) == if x == bufs[b].blockno then data else old(CacheView(T(), disk, x))
    {
      ghost var t := T();
      bufs[b] := bufs[b].(data := data, dirty := true);
      SameLinks(t, T(), order);
      DirtyChange(t, T(), disk, b);
      PendsDirty(t, T(), disk, pending, b);
      pending := pending[bufs[b].blockno := data];
    }

    /** bwrite: contents to the disk, dirty flag off. The map gets the contents at that block; a
        pending update of it is no longer pending. */
    method Bwrite(b: Link, data: Block)
      requires Valid() && b < NBUF && bufs[b].valid && bufs[b].refcnt > 0
      modifies bufs, this`disk, this`pending
      ensures Valid() && Wrote(old(T()), T(), b, data) && bufs[b].blockno < |old(disk)|
      ensures pending == old(pending) - {bufs[b].blockno} && disk == old(disk)[bufs[b].blockno := data]
      ensures forall x: uint | x < |disk| ::
                CacheView(T(), disk, x) == if x == bufs[b].blockno then data else old(CacheView(T(), disk, x))
    {
      ghost var t, d := T(), disk;
      bufs[b] := bufs[b].(data := data, dirty := true);
      // iderw: a dirty buffer is written
      bufs[b] := bufs[b].(dirty := false);
      disk := disk[bufs[b].blockno := data];
      SameLinks(t, T(), order);
      WriteChange(t, T(), d, disk, b);
      PendsWritten(t, T(), d, pending, b);
      pending := pending - {bufs[b].blockno};
    }

    /** brelse by a holder: the last one out moves the buffer to the front of the ring. */
    method Brelse(b: Link)
      requires Valid() && b < NBUF && bufs[b].refcnt > 0
      modifies bufs, this`order
      ensures Valid() && Releases(old(T()), T(), b)
      ensures old(bufs[b].refcnt) > 1 ==> order == old(order)
      ensures old(bufs[b].refcnt) == 1 ==>
                exists j | 0 <= j < NBUF && old(order)[j] == b :: order == [b] + Without(old(order), j)
      ensures forall x: uint | x < |disk| :: CacheView(T(), disk, x) == old(CacheView(T(), disk, x))
    {
      hide RingOf, Coherent, Pends, CacheView;
      ghost var t := T();
      bufs[b] := bufs[b].(refcnt := bufs[b].refcnt - 1);
      ghost var u := T();
      SameLinks(t, u, order);
      if bufs[b].refcnt == 0 {
        ToFront(b);
      }
      assert SameButLinks(u, T());
      Released(t, T(), disk, pending, b);
    }

    /** brelse's six assignments: b becomes the most recently used. */
    method ToFront(b: Link)
      requires bufs.Length == NBUF + 1 && |order| == NBUF && RingOf(T(), order) && b < NBUF
      modifies bufs, this`order
      ensures |order| == NBUF && RingOf(T(), order) && SameButLinks(old(T()), T())
      ensures exists j | 0 <= j < NBUF && old(order)[j] == b :: order == [b] + Without(old(order), j)
    {
      ghost var u := T();
      ghost var j := Position(order, b);
      MoveToFrontRing(u, order, j);
      RelinkLinksOnly(u, b);
      Remove(b);
      Insert(b);
      order := [b] + Without(order, j);
    }
  }

  // How many buffers a commit needs.

  /** Over a stretch of log work: everyone's holds are as they were, on the same blocks, and no
      buffer became dirty. */
  ghost predicate Calm(t: Table, u: Table) {
    forall i | 0 <= i < NBUF ::
      && u[i].refcnt == t[i].refcnt && (u[i].dirty ==> t[i].dirty)
      && (t[i].refcnt > 0 ==> u[i].dev == t[i].dev && u[i].blockno == t[i].blockno)
  }

  lemma CalmRoomy(t: Table, u: Table)
    requires Calm(t, u) && Roomy(t)
    ensures Roomy(u)
  {
    var i :| 0 <= i < NBUF && Recyclable(t[i]);
    assert Recyclable(u[i]);
  }

  /** Reading one block, writing it, and letting go of it. */
  lemma CalmOne(t: Table, u: Table, v: Table, w: Table, b: nat, bn: uint, data: Block)
    requires Gets(t, u, b, bn) && Wrote(u, v, b, data) && Releases(v, w, b)
    ensures Calm(t, w)
  {
  }

  /** Reading one block and letting go of it. */
  lemma CalmRead(t: Table, u: Table, v: Table, b: nat, bn: uint)
    requires Gets(t, u, b, bn) && Releases(u, v, b)
    ensures Calm(t, v)
  {
  }

  /** Reading two blocks, writing one of them, and letting go of both. */
  lemma CalmTwo(t: Table, u: Table, v: Table, w: Table, x: Table, y: Table, b: nat, bn: uint, c: nat, cn: uint,
                data: Block)
    requires Gets(t, u, b, bn) && Gets(u, v, c, cn) && bn != cn
    requires (Wrote(v, w, b, data) && Releases(w, x, c) && Releases(x, y, b))
             || (Wrote(v, w, c, data) && Releases(w, x, b) && Releases(x, y, c))
    ensures Calm(t, y)
  {
    assert b != c;
  }

  /** The blocks held dirty in the first n buffers. */
  ghost function Dirties(t: Table, n: nat): (r: set<uint>)
    requires n <= NBUF
    ensures forall i | 0 <= i < n && t[i].dirty :: t[i].blockno in r
  {
    if n == 0 then {}
    else if t[n - 1].dirty then Dirties(t, n - 1) + {t[n - 1].blockno}
    else Dirties(t, n - 1)
  }

  lemma SizeWith(s: set<uint>, x: uint)
    ensures |s + {x}| <= |s| + 1
    ensures x !in s ==> |s + {x}| == |s| + 1
  {
    if x in s {
      assert s + {x} == s;
    }
  }

  lemma {:induction false} DirtiesSize(t: Table, n: nat, i: nat)
    requires n <= NBUF && (i < n ==> !t[i].dirty)
    ensures |Dirties(t, n)| <= if i < n then n - 1 else n
  {
    if n > 0 {
      DirtiesSize(t, n - 1, i);
      SizeWith(Dirties(t, n - 1), t[n - 1].blockno);
    }
  }

  /** With as many pending blocks as buffers, every buffer is dirty and none can be taken over. */
  lemma FullHasNoRoom(t: Table, pending: map<uint, Block>)
    requires Pends(t, pending) && |pending| >= NBUF
    ensures !Roomy(t)
  {
    if i :| 0 <= i < NBUF && Recyclable(t[i]) {
      DirtiesSize(t, NBUF, i);
      forall p | p in pending ensures p in Dirties(t, NBUF) {
        var j :| HoldsDirty(t, j, p);
      }
      SubsetSize(pending.Keys, Dirties(t, NBUF));
    }
  }

  ghost predicate Unheld(t: Table) { forall i | 0 <= i < NBUF :: t[i].refcnt == 0 }

  /** With nobody holding a buffer, one can be taken over exactly if fewer blocks are pending than
      there are buffers. */
  lemma RoomyExactly(t: Table, disk: seq<Block>, pending: map<uint, Block>)
    requires Coherent(t, disk) && Pends(t, pending) && Unheld(t)
    ensures Roomy(t) <==> |pending| < NBUF
  {
    if |pending| >= NBUF {
      FullHasNoRoom(t, pending);
    } else if !Roomy(t) {
      forall i | 0 <= i < NBUF ensures t[i].dirty {
        assert !Recyclable(t[i]);
      }
      DirtiesAll(t, disk, NBUF);
      forall p | p in Dirties(t, NBUF) ensures p in pending {
        var j := DirtyBuffer(t, NBUF, p);
      }
      SubsetSize(Dirties(t, NBUF), pending.Keys);
    }
  }

  lemma {:induction false} DirtyBuffer(t: Table, n: nat, p: uint) returns (i: nat)
    requires n <= NBUF && p in Dirties(t, n)
    ensures i < n && HoldsDirty(t, i, p)
  {
    if t[n - 1].dirty && t[n - 1].blockno == p {
      i := n - 1;
    } else {
      i := DirtyBuffer(t, n - 1, p);
    }
  }

  lemma DirtyApart(t: Table, disk: seq<Block>, i: nat, j: nat)
    requires Coherent(t, disk) && i < j < NBUF && t[i].dirty && t[j].dirty
    ensures t[i].blockno != t[j].blockno
  {
  }

  lemma {:induction false} DirtiesAll(t: Table, disk: seq<Block>, n: nat)
    requires Coherent(t, disk) && n <= NBUF && forall i | 0 <= i < n :: t[i].dirty
    ensures |Dirties(t, n)| == n
  {
    hide Coherent;
    if n > 0 {
      DirtiesAll(t, disk, n - 1);
      var q := t[n - 1].blockno;
      if q in Dirties(t, n - 1) {
        var i := DirtyBuffer(t, n - 1, q);
        DirtyApart(t, disk, i, n - 1);
      }
      SizeWith(Dirties(t, n - 1), q);
    }
  }

  /** Releasing a buffer changes its reference count and links only. */
  lemma Released(t: Table, u: Table, disk: seq<Block>, pending: map<uint, Block>, b: nat)
    requires Coherent(t, disk) && Pends(t, pending) && b < NBUF && t[b].refcnt > 0
    requires SameButLinks(t[b := t[b].(refcnt := t[b].refcnt - 1)], u)
    ensures Coherent(u, disk) && Pends(u, pending)
    ensures forall x: uint | x < |disk| :: CacheView(u, disk, x) == CacheView(t, disk, x)
  {
    hide Pends;
    PendsFrame(t, u, pending);
    SameContents(t, u, disk);
  }

  /** The map depends on contents and dirty flags only. */
  lemma SameContents(t: Table, u: Table, disk: seq<Block>)
    requires Coherent(t, disk)
    requires forall i | 0 <= i < NBUF ::
               u[i].dirty == t[i].dirty && u[i].blockno == t[i].blockno && u[i].data == t[i].data
    ensures forall x: uint | x < |disk| :: CacheView(t, disk, x) == CacheView(u, disk, x)
  {
    forall x: uint | x < |disk| ensures CacheView(t, disk, x) == CacheView(u, disk, x) {
      if i :| HoldsDirty(t, i, x) {
        assert HoldsDirty(u, i, x);
      }
      if i :| HoldsDirty(u, i, x) {
        assert HoldsDirty(t, i, x);
      }
    }
  }

  ghost predicate SameButOne(t: Table, u: Table, b: nat) {
    && b < NBUF
    && (forall i | 0 <= i <= NBUF && i != b :: u[i] == t[i])
    && u[b].blockno == t[b].blockno && u[b].dev == t[b].dev && u[b].valid && t[b].valid
  }

  lemma DirtyChange(t: Table, u: Table, disk: seq<Block>, b: nat)
    requires Coherent(t, disk) && SameButOne(t, u, b) && u[b].dirty
    ensures Coherent(u, disk)
    ensures forall x: uint | x < |disk| ::
              CacheView(u, disk, x) == if x == u[b].blockno then u[b].data else CacheView(t, disk, x)
  {
    forall x: uint | x < |disk|
      ensures CacheView(u, disk, x) == if x == u[b].blockno then u[b].data else CacheView(t, disk, x)
    {
      assert HoldsDirty(u, b, u[b].blockno);
      if i :| HoldsDirty(t, i, x) {
        assert HoldsDirty(u, i, x);
      }
      if i :| HoldsDirty(u, i, x) {
        assert i != b ==> HoldsDirty(t, i, x);
      }
    }
  }

  lemma WriteChange(t: Table, u: Table, d: seq<Block>, e: seq<Block>, b: nat)
    requires Coherent(t, d) && SameButOne(t, u, b) && !u[b].dirty
    requires e == d[t[b].blockno := u[b].data]
    ensures Coherent(u, e)
    ensures forall x: uint | x < |d| ::
              CacheView(u, e, x) == if x == u[b].blockno then u[b].data else CacheView(t, d, x)
  {
    forall x: uint | x < |d|
      ensures CacheView(u, e, x) == if x == u[b].blockno then u[b].data else CacheView(t, d, x)
    {
      if i :| HoldsDirty(t, i, x) {
        assert i != b ==> HoldsDirty(u, i, x);
      }
      if i :| HoldsDirty(u, i, x) {
        assert HoldsDirty(t, i, x);
      }
    }
  }

  /** A ring of NBUF distinct buffers contains every buffer. */
  lemma Position(order: seq<Link>, b: Link) returns (i: nat)
    requires Distinct(order) && |order| == NBUF && b < NBUF
    ensures i < NBUF && order[i] == b
  {
    var ints := seq(|order|, i requires 0 <= i < |order| => order[i] as int);
    Pigeonhole(ints, NBUF, b);
    i :| 0 <= i < |ints| && ints[i] == b;
  }
}
