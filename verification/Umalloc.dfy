/** malloc, free and morecore of user/umalloc.c: headers in memory, linked in a ring. */
module Umalloc {
  import opened Basics
  import opened HeapSpec

  /** Members of the ring in address order: base, then the free blocks. */
  function Node(base: int, free: seq<Block>, i: nat): int
    requires i <= |free|
  {
    if i == 0 then base else free[i - 1].addr
  }

  function Succ(n: nat, i: nat): nat { if i >= n then 0 else i + 1 }

  /** The headers in memory link base and the free blocks into one ring in address order. */
  ghost predicate Ring(base: int, free: seq<Block>, ptr: map<int, int>, size: map<int, nat>) {
    forall i | 0 <= i <= |free| ::
      var a := Node(base, free, i);
      && a in ptr && ptr[a] == Node(base, free, Succ(|free|, i))
      && a in size && size[a] == if i == 0 then 0 else free[i - 1].size
  }

  ghost predicate Headers(bs: seq<Block>, size: map<int, nat>) {
    forall i | 0 <= i < |bs| :: bs[i].addr in size && size[bs[i].addr] == bs[i].size
  }

  lemma NodesRise(base: int, free: seq<Block>, top: int)
    requires Separated(free) && Within(free, base + HEADER, top)
    ensures forall i, j | 0 <= i < j <= |free| :: Node(base, free, i) < Node(base, free, j)
  {
    forall i, j | 0 <= i < j <= |free| ensures Node(base, free, i) < Node(base, free, j) {
      if i > 0 {
        assert End(free[i - 1]) < free[j - 1].addr;
      }
    }
  }

  /** Where b goes: between node k and its successor. */
  lemma PlaceOf(base: int, free: seq<Block>, b: Block, top: int)
    requires Separated(free) && Within(free, base + HEADER, top) && Apart(free, b) && b.size >= 1
             && base + HEADER <= b.addr
    ensures var k := Below(free, b.addr);
            && (forall i | 0 <= i <= k :: Node(base, free, i) < b.addr)
            && (forall i | k < i <= |free| :: b.addr < Node(base, free, i))
  {
    hide Below;
    var k := Below(free, b.addr);
    forall i | k < i <= |free| ensures b.addr < Node(base, free, i) {
      assert Disjoint(free[i - 1], b);
      if i - 1 > k {
        assert End(free[k]) < free[i - 1].addr;
      }
    }
  }

  /** Node k of the ring is the last below address a, and a is no node. */
  ghost predicate Between(base: int, free: seq<Block>, k: nat, a: int) {
    && k <= |free|
    && (forall i, j | 0 <= i < j <= |free| :: Node(base, free, i) < Node(base, free, j))
    && (forall i | 0 <= i <= k :: Node(base, free, i) < a)
    && (forall i | k < i <= |free| :: a < Node(base, free, i))
  }

  // The four ways free relinks the ring.

  lemma LinkAlone(base: int, free: seq<Block>, k: nat, b: Block, ptr: map<int, int>, size: map<int, nat>)
    requires Ring(base, free, ptr, size) && Between(base, free, k, b.addr) && b.addr in size && size[b.addr] == b.size
    ensures var p := Node(base, free, k);
            Ring(base, free[..k] + [b] + free[k..], ptr[b.addr := ptr[p]][p := b.addr], size)
  {
    var new_ := free[..k] + [b] + free[k..];
    forall i | 0 <= i <= |new_|
      ensures Node(base, new_, i) == if i <= k then Node(base, free, i) else if i == k + 1 then b.addr
              else Node(base, free, i - 1)
    {
    }
    var ptr' := ptr[b.addr := ptr[Node(base, free, k)]][Node(base, free, k) := b.addr];
    forall i | 0 <= i <= |new_|
      ensures var a := Node(base, new_, i);
              && a in ptr' && ptr'[a] == Node(base, new_, Succ(|new_|, i))
              && a in size && size[a] == if i == 0 then 0 else new_[i - 1].size
    {
      var o := if i <= k then i else i - 1;
      assert ptr[Node(base, free, o)] == Node(base, free, Succ(|free|, o));
      assert i > 0 ==> new_[i - 1] == if i <= k then free[i - 1] else if i == k + 1 then b else free[i - 2];
    }
  }

  lemma LinkUpper(base: int, free: seq<Block>, k: nat, b: Block, ptr: map<int, int>, size: map<int, nat>)
    requires Ring(base, free, ptr, size) && Between(base, free, k, b.addr) && k < |free|
    ensures var p := Node(base, free, k);
            var q := free[k].addr;
            var m := b.size + free[k].size;
            && q in ptr
            && Ring(base, free[..k] + [Block(b.addr, m)] + free[k + 1..], ptr[b.addr := ptr[q]][p := b.addr],
                    size[b.addr := m])
  {
    var new_ := free[..k] + [Block(b.addr, b.size + free[k].size)] + free[k + 1..];
    assert free[k].addr == Node(base, free, k + 1);
    forall i | 0 <= i <= |new_|
      ensures Node(base, new_, i) == if i == k + 1 then b.addr else Node(base, free, i)
    {
    }
  }

  lemma LinkLower(base: int, free: seq<Block>, k: nat, b: Block, ptr: map<int, int>, size: map<int, nat>)
    requires Ring(base, free, ptr, size) && Between(base, free, k, b.addr) && k > 0
    ensures var p := Node(base, free, k);
            var m := free[k - 1].size + b.size;
            && p in ptr
            && Ring(base, free[..k - 1] + [Block(p, m)] + free[k..], ptr[b.addr := ptr[p]][p := ptr[p]], size[p := m])
  {
    var new_ := free[..k - 1] + [Block(free[k - 1].addr, free[k - 1].size + b.size)] + free[k..];
    forall i | 0 <= i <= |new_| ensures Node(base, new_, i) == Node(base, free, i) {
    }
  }

  lemma LinkBoth(base: int, free: seq<Block>, k: nat, b: Block, n: nat, ptr: map<int, int>, size: map<int, nat>)
    requires Ring(base, free, ptr, size) && Between(base, free, k, b.addr) && 0 < k < |free|
    ensures var p := Node(base, free, k);
            var q := free[k].addr;
            var m := free[k - 1].size + n;
            && q in ptr
            && Ring(base, free[..k - 1] + [Block(p, m)] + free[k + 1..],
                    ptr[b.addr := ptr[q]][p := ptr[q]], size[b.addr := n][p := m])
  {
    var new_ := free[..k - 1] + [Block(free[k - 1].addr, free[k - 1].size + n)] + free[k + 1..];
    assert free[k].addr == Node(base, free, k + 1);
    forall i | 0 <= i <= |new_| ensures Node(base, new_, i) == Node(base, free, if i <= k then i else i + 1) {
    }
  }

  class Memory {
    const base: int
    var freep: Option<int>
    var ptr: map<int, int>
    var size: map<int, nat>
    var brk: Break
    ghost var h: Heap
    ghost var cur: nat

    ghost predicate Linked()
      reads this
    {
      && freep.Some? && cur <= |h.free| && freep.value == Node(base, h.free, cur)
      && Ring(base, h.free, ptr, size)
    }

    /** The ring, the live headers and the recorded areas agree. */
    ghost predicate Sound()
      reads this
    {
      && Partition(h, base) && Headers(h.live, size)
      && (freep.None? ==> h.free == [] && h.live == [] && cur == 0)
      && (freep.Some? ==> Linked())
    }

    /** The recorded areas are memory the process has. */
    ghost predicate Granted()
      reads this
    {
      brk.held == brk.sz && h.top <= brk.sz && base + HEADER <= brk.sz && 0 <= brk.sz < KERNBASE
    }

    ghost predicate Valid()
      reads this
    {
      Sound() && Granted()
    }

    constructor (base: int, sz: int)
      requires 0 <= sz < KERNBASE && base + HEADER <= sz
      ensures Valid() && h == Heap([], [], [], sz) && this.base == base && brk == Break(sz, sz)
    {
      this.base := base;
      freep := None;
      cur := 0;
      ptr, size := map[], map[];
      brk := Break(sz, sz);
      h := Heap([], [], [], sz);
    }

    /** The program's own calls of sbrk may move the break up between calls of malloc and free. */
    method Extend(n: nat, room: bool) returns (r: Option<int>)
      requires Valid()
      modifies this`brk
      ensures Valid() && (r, brk) == Sbrk(old(brk), n, room)
    {
      var (a, b) := Sbrk(brk, n, room);
      brk := b;
      return a;
    }

    /** free's search: it stops at the member of the ring below bp. */
    method Search(bp: int, ghost b: Block) returns (p: int)
      requires Partition(h, base) && Linked() && b.addr == bp && Apart(h.free, b) && b.size >= 1 && base + HEADER <= bp
      ensures p == Node(base, h.free, Below(h.free, bp))
    {
      hide Below, Separated, Apart, Covers, Partition;
      assert Separated(h.free) && Within(h.free, base + HEADER, h.top) by { Parts(h, base); }
      NodesRise(base, h.free, h.top);
      PlaceOf(base, h.free, b, h.top);
      p := freep.value;
      ghost var i: nat := cur;
      ghost var k := Below(h.free, bp);
      while !(bp > p && bp < ptr[p])
        invariant i <= |h.free| && p == Node(base, h.free, i)
        decreases if i <= k then k - i else k + |h.free| + 1 - i
      {
        if p >= ptr[p] && (bp > p || bp < ptr[p]) {
          break;
        }
        p := ptr[p];
        i := Succ(|h.free|, i);
      }
    }

    /** free after the search: block b, whose header is written, joins the ring after node k. */
    method Link(p: int, bp: int, ghost k: nat, ghost b: Block)
      requires Ring(base, h.free, ptr, size) && Between(base, h.free, k, bp) && k == Below(h.free, bp)
      requires p == Node(base, h.free, k) && b.addr == bp && b.size >= 1 && base + HEADER <= bp && bp in size
               && size[bp] == b.size
      modifies this`freep, this`ptr, this`size, this`cur
      ensures freep == Some(p) && cur == k && Ring(base, Insert(h.free, b), ptr, size)
      ensures forall a | a in old(size) && a != bp && a != p :: a in size && size[a] == old(size[a])
    {
      hide Below, Ring, Between;
      NodeHeader(base, h.free, k, ptr, size);
      var q := ptr[p];
      ghost var ptr0, size0 := ptr, size;
      assert JoinsUpper(h.free, k, b) <==> bp + HEADER * size[bp] == q;
      assert JoinsLower(h.free, k, b) <==> p + HEADER * size[p] == bp;
      assert p != bp by { BetweenAt(base, h.free, k, bp); }
      if bp + HEADER * size[bp] == q {
        NodeHeader(base, h.free, k + 1, ptr, size);
        size := size[bp := size[bp] + size[q]];
        ptr := ptr[bp := ptr[q]];
      } else {
        ptr := ptr[bp := q];
      }
      if p + HEADER * size[p] == bp {
        size := size[p := size[p] + size[bp]];
        ptr := ptr[p := ptr[bp]];
      } else {
        ptr := ptr[p := bp];
      }
      freep := Some(p);
      cur := k;
      if JoinsUpper(h.free, k, b) {
        if JoinsLower(h.free, k, b) {
          LinkBoth(base, h.free, k, b, b.size + h.free[k].size, ptr0, size0);
        } else {
          LinkUpper(base, h.free, k, b, ptr0, size0);
        }
      } else if JoinsLower(h.free, k, b) {
        LinkLower(base, h.free, k, b, ptr0, size0);
      } else {
        LinkAlone(base, h.free, k, b, ptr0, size0);
      }
    }

    /** free from the search on. */
    method PutBack(bp: int, ghost b: Block)
      requires Partition(h, base) && Linked() && b.addr == bp && Apart(h.free, b) && b.size >= 1 && base + HEADER <= bp
      requires bp in size && size[bp] == b.size
      modifies this`freep, this`ptr, this`size, this`cur
      ensures freep.Some? && cur <= |Insert(h.free, b)| && freep.value == Node(base, Insert(h.free, b), cur)
      ensures Ring(base, Insert(h.free, b), ptr, size)
      ensures forall a | a in old(size) && a != bp && a != freep.value :: a in size && size[a] == old(size[a])
      ensures freep.value == Node(base, h.free, Below(h.free, bp)) && cur == Below(h.free, bp)
    {
      hide Below, Separated, Apart, Covers, Partition, Within, Ring, Between;
      var p := Search(bp, b);
      ghost var k := Below(h.free, bp);
      assert Between(base, h.free, k, bp) by {
        Parts(h, base);
        PlaceBetween(base, h.free, b, h.top);
      }
      Link(p, bp, k, b);
    }

    /** free: the block goes back to the free list, joined with its neighbours. */
    method Free(ap: int, ghost i: nat)
      requires Valid() && i < |h.live| && h.live[i].addr == ap - HEADER
      modifies this
      ensures Valid() && h == Release(old(h), i)
      ensures freep == Some(Node(base, old(h).free, Below(old(h).free, ap - HEADER)))
    {
      hide Below, Separated, Apart, Covers, Partition, Within, Ring, Insert, Sized;
      ghost var b := h.live[i];
      LiveFacts(h, base, i);
      ReleasePartition(h, base, i);
      PutBack(ap - HEADER, b);
      forall j | 0 <= j < |h.live| && j != i
        ensures h.live[j].addr != b.addr && h.live[j].addr != freep.value
      {
        LiveDiffer(h, base, i, j, Below(h.free, b.addr));
      }
      h := Release(h, i);
    }

    /** morecore: the area it records was granted exactly if its byte count fitted an int. */
    method Morecore(nu: nat, room: bool) returns (ok: bool)
      requires Valid() && Linked()
      modifies this
      ensures Sound() && Linked()
      ensures var (a, b) := Sbrk(old(brk), CoreBytes(nu), room); ok == a.Some? && brk == b
      ensures h == if ok then Grow(old(h), Block(old(brk).sz, Core(nu))) else old(h)
      ensures ok ==> (Granted() <==> CoreBytes(nu) == Core(nu) * HEADER)
      ensures CoreBytes(nu) == Core(nu) * HEADER ==> Granted()
      ensures cur == if ok then Below(old(h).free, old(brk).sz) else old(cur)
      ensures !ok ==> freep == old(freep)
    {
      hide Below, Separated, Apart, Covers, Partition, Within, Insert, Sized, Ring;
      var n := if nu < 4096 then 4096 else nu;
      var (a, b) := Sbrk(brk, AsInt(n * HEADER % UINT_LIMIT), room);
      CoreBytesBelow(nu);
      brk := b;
      if a.None? {
        return false;
      }
      var hp := a.value;
      ghost var area := Block(hp, n);
      GrowPartition(h, base, area);
      AboveAll(h, base, hp);
      RingFrame(base, h.free, ptr, size, hp, n);
      size := size[hp := n];
      PutBack(hp, area);
      forall j | 0 <= j < |h.live| ensures h.live[j].addr != freep.value {
        LiveFacts(h, base, j);
        LiveNode(h, base, j, Below(h.free, hp));
      }
      h := Grow(h, area);
      return true;
    }

    /** malloc from block p, which follows prevp in the ring: node i + 1 of it. */
    method Take(prevp: int, p: int, nunits: nat, ghost i: nat) returns (r: int)
      requires Sound() && Linked() && i < |h.free| && 1 <= nunits <= h.free[i].size
      requires prevp == Node(base, h.free, i) && p == h.free[i].addr && Small(h.free, cur, i, nunits)
      modifies this
      ensures Sound() && Linked() && brk == old(brk) && h.top == old(h.top)
      ensures Serves(base, old(h), old(cur), i, nunits, h, r, freep)
    {
      hide Below, Separated, Apart, Covers, Partition, Within, Sized, Ring, Small, FirstFit;
      FirstFitAt(h.free, cur, i, nunits);
      AllocatePartition(h, base, i, nunits);
      NodeHeader(base, h.free, i, ptr, size);
      NodeHeader(base, h.free, i + 1, ptr, size);
      assert Separated(h.free) && Within(h.free, base + HEADER, h.top) by { Parts(h, base); }
      NodesRise(base, h.free, h.top);
      ghost var b := Carved(h.free, i, nunits);
      CarvedNew(h, base, i, nunits);
      if size[p] == nunits {
        UnlinkRing(base, h.free, i, ptr, size);
        ptr := ptr[prevp := ptr[p]];
        r := p + HEADER;
      } else {
        ShrinkRing(base, h.free, i, nunits, ptr, size);
        size := size[p := size[p] - nunits];
        var q := p + HEADER * size[p];
        size := size[q := nunits];
        r := q + HEADER;
      }
      freep := Some(prevp);
      cur := i;
      h := Allocate(h, i, nunits);
    }

    /** malloc, for every request. The heap stays made of granted memory, except exactly when new core
        was wanted whose byte count did not fit an int and sbrk did not report failure. */
    method Malloc(nbytes: nat, room: bool) returns (r: Option<int>, calls: nat, ghost at: nat)
      requires Valid() && nbytes < UINT_LIMIT
      modifies this
      ensures Sound()
      ensures calls == if Fits(old(h.free), Nunits(nbytes)) then 0 else 1
      ensures calls == 0 ==> brk == old(brk)
      ensures calls == 1 ==> brk == Sbrk(old(brk), CoreBytes(Nunits(nbytes)), room).1
      ensures r.None? <==> calls == 1 && Sbrk(old(brk), CoreBytes(Nunits(nbytes)), room).0.None?
      ensures r.None? ==> h == old(h)
      ensures calls == 0 || CoreFits(nbytes) ==> Valid()
      ensures calls == 1 && r.Some? ==> (Valid() <==> CoreFits(nbytes))
      ensures calls == 0 ==> Serves(base, old(h), old(cur), at, Nunits(nbytes), h, r.value, freep)
      ensures calls == 1 && r.Some? ==>
                Serves(base, Grow(old(h), Block(old(brk).sz, Core(Nunits(nbytes)))), Below(old(h.free), old(brk).sz),
                       at,
                       Nunits(nbytes), h, r.value, freep)
    {
      hide Below, Separated, Apart, Covers, Partition, Within, Sized, Ring, Insert, Headers, Fits, Small, Way, FirstFit,
           Sbrk, CoreBytes, CoreFits, Grow, Core, Nunits, Serves, NodeSize;
      CoreBytesExact(nbytes);
      ghost var asked := Sbrk(brk, CoreBytes(Nunits(nbytes)), room);
      var nunits := (nbytes + HEADER - 1) % UINT_LIMIT / HEADER + 1;
      NunitsIs(nbytes);
      if freep.None? {
        ptr, size, freep := ptr[base := base], size[base := 0], Some(base);
        cur := 0;
        assert Linked() && Headers(h.live, size) by { FirstRing(base, ptr, size); }
      }
      ghost var g := h;
      calls, at := 0, 0;
      var prevp := freep.value;
      NodeHeader(base, h.free, cur, ptr, size);
      var p := ptr[prevp];
      ghost var i: nat := cur;
      SmallStart(h.free, cur, nunits);
      while true
        invariant Sound() && Linked() && i <= |h.free| && calls <= 1
        invariant if calls == 0 then brk == old(brk) && Granted()
                  else brk == asked.1 && (Granted() <==> CoreFits(nbytes))
        invariant prevp == Node(base, h.free, i) && p == Node(base, h.free, Succ(|h.free|, i))
        invariant if calls == 0 then h == g else asked.0.Some? && Grown(g, old(brk).sz, nunits, h)
        invariant cur == if calls == 0 then old(cur) else Below(g.free, old(brk).sz)
        invariant Small(h.free, cur, i, nunits)
        decreases 1 - calls, |h.free| - Way(|h.free|, cur, i)
      {
        NodeHeader(base, h.free, Succ(|h.free|, i), ptr, size);
        if size[p] >= nunits {
          at := i;
          FitsAt(h.free, i, nunits);
          var a := Take(prevp, p, nunits, i);
          return Some(a), calls, at;
        }
        WaySucc(|h.free|, cur, i);
        if p == freep.value {
          NodeInjective(h, base, cur, Succ(|h.free|, i));
          assert !Fits(h.free, nunits) by { AllSmall(h.free, cur, i, nunits); }
          calls := 1;
          var ok := Morecore(nunits, room);
          if !ok {
            return None, calls, at;
          }
          NowFits(g, old(brk).sz, nunits);
          p := freep.value;
          i := cur;
          SmallStart(h.free, cur, nunits);
        } else {
          SmallNext(h.free, cur, i, nunits);
          i := Succ(|h.free|, i);
        }
        prevp := p;
        NodeHeader(base, h.free, i, ptr, size);
        p := ptr[p];
      }
    }
  }

  /** sbrk has added an area because nothing fitted. */
  ghost predicate Grown(g: Heap, hp: int, n: nat, h: Heap) {
    && h == Grow(g, Block(hp, Core(n)))
    && !Fits(g.free, n) && Fits(h.free, n)
  }

  lemma NowFits(g: Heap, hp: int, n: nat)
    requires n >= 1 && !Fits(g.free, n)
    ensures Grown(g, hp, n, Grow(g, Block(hp, Core(n))))
  {
    hide Insert;
    InsertFits(g.free, Block(hp, Core(n)), n);
  }

  lemma NunitsIs(nbytes: nat)
    ensures Nunits(nbytes) == (nbytes + HEADER - 1) % UINT_LIMIT / HEADER + 1 >= 1
  {
  }

  // First fit.

  ghost predicate Fits(free: seq<Block>, n: nat) { exists i :: 0 <= i < |free| && free[i].size >= n }

  /** Steps round the ring of n free blocks from node c to node i. */
  function Way(n: nat, c: nat, i: nat): int { if i >= c then i - c else i + n + 1 - c }

  function NodeSize(free: seq<Block>, j: nat): nat
    requires j <= |free|
  {
    if j == 0 then 0 else free[j - 1].size
  }

  /** The nodes after c up to i are too small. */
  ghost predicate Small(free: seq<Block>, c: nat, i: nat, n: nat) {
    forall j | 0 <= j <= |free| && 0 < Way(|free|, c, j) <= Way(|free|, c, i) :: NodeSize(free, j) < n
  }

  /** Block at is the first that is large enough, going round from node c. */
  ghost predicate FirstFit(free: seq<Block>, c: nat, at: nat, n: nat) {
    && at < |free| && free[at].size >= n
    && forall j | 0 < j <= |free| && 0 < Way(|free|, c, j) < Way(|free|, c, at + 1) :: free[j - 1].size < n
  }

  /** n units of heap g, from the first block that has them going round from node c, became a live block
      of h; the list is next searched from the node before it. */
  ghost predicate Serves(base: int, g: Heap, c: nat, at: nat, n: nat, h: Heap, r: int, freep: Option<int>) {
    && FirstFit(g.free, c, at, n) && n >= 1 && h == Allocate(g, at, n)
    && r == Carved(g.free, at, n).addr + HEADER && freep == Some(Node(base, g.free, at))
  }

  lemma WaySucc(n: nat, c: nat, i: nat)
    requires c <= n && i <= n
    ensures Succ(n, i) != c ==> Way(n, c, Succ(n, i)) == Way(n, c, i) + 1
    ensures Succ(n, i) == c ==> Way(n, c, i) == n
    ensures 0 <= Way(n, c, i) <= n
  {
  }

  lemma SmallStart(free: seq<Block>, c: nat, n: nat)
    requires c <= |free|
    ensures Small(free, c, c, n)
  {
  }

  lemma SmallNext(free: seq<Block>, c: nat, i: nat, n: nat)
    requires c <= |free| && i <= |free| && Small(free, c, i, n) && Succ(|free|, i) != c
             && NodeSize(free, Succ(|free|, i)) < n
    ensures Small(free, c, Succ(|free|, i), n)
  {
  }

  lemma FirstFitAt(free: seq<Block>, c: nat, i: nat, n: nat)
    requires c <= |free| && i < |free| && Small(free, c, i, n) && free[i].size >= n
    ensures FirstFit(free, c, i, n)
  {
    forall j | 0 < j <= |free| && 0 < Way(|free|, c, j) < Way(|free|, c, i + 1) ensures free[j - 1].size < n {
      assert NodeSize(free, j) == free[j - 1].size;
    }
  }

  lemma AllSmall(free: seq<Block>, c: nat, i: nat, n: nat)
    requires c <= |free| && i <= |free| && n >= 1 && Small(free, c, i, n) && Way(|free|, c, i) == |free|
             && NodeSize(free, c) < n
    ensures !Fits(free, n)
  {
    forall j | 0 <= j < |free| ensures free[j].size < n {
      assert NodeSize(free, j + 1) < n;
    }
  }

  lemma FitsAt(free: seq<Block>, i: nat, n: nat)
    requires i <= |free| && n >= 1 && NodeSize(free, Succ(|free|, i)) >= n
    ensures i < |free| && free[i].size >= n && Fits(free, n)
  {
  }

  lemma InsertFits(bs: seq<Block>, b: Block, n: nat)
    requires b.size >= n
    ensures Fits(Insert(bs, b), n)
  {
    hide Below;
    var k := Below(bs, b.addr);
    var left := if JoinsLower(bs, k, b) then bs[..k - 1] else bs[..k];
    assert Insert(bs, b)[|left|] == Joined(bs, k, b);
  }

  lemma NodeInjective(h: Heap, base: int, i: nat, j: nat)
    requires Partition(h, base) && i <= |h.free| && j <= |h.free| && Node(base, h.free, i) == Node(base, h.free, j)
    ensures i == j
  {
    hide Covers;
    NodesRise(base, h.free, h.top);
  }

  lemma FirstRing(base: int, ptr: map<int, int>, size: map<int, nat>)
    requires base in ptr && ptr[base] == base && base in size && size[base] == 0
    ensures Ring(base, [], ptr, size) && Headers([], size)
  {
  }

  // What malloc does to the ring.

  lemma UnlinkRing(base: int, free: seq<Block>, i: nat, ptr: map<int, int>, size: map<int, nat>)
    requires Ring(base, free, ptr, size) && i < |free|
    requires forall a, b | 0 <= a < b <= |free| :: Node(base, free, a) < Node(base, free, b)
    ensures free[i].addr in ptr
    ensures Ring(base, Removed(free, i), ptr[Node(base, free, i) := ptr[free[i].addr]], size)
  {
    var new_ := Removed(free, i);
    assert free[i].addr == Node(base, free, i + 1);
    forall k | 0 <= k <= |new_| ensures Node(base, new_, k) == Node(base, free, if k <= i then k else k + 1) {
    }
  }

  lemma ShrinkRing(base: int, free: seq<Block>, i: nat, n: nat, ptr: map<int, int>, size: map<int, nat>)
    requires Ring(base, free, ptr, size) && i < |free| && 1 <= n < free[i].size
    requires forall a, b | 0 <= a < b <= |free| :: Node(base, free, a) < Node(base, free, b)
    requires forall k | 0 <= k <= |free| :: Node(base, free, k) != Carved(free, i, n).addr
    ensures Ring(base, Carve(free, i, n), ptr, size[free[i].addr := free[i].size - n][Carved(free, i, n).addr := n])
  {
    var new_ := Carve(free, i, n);
    assert free[i].addr == Node(base, free, i + 1);
    forall k | 0 <= k <= |new_| ensures Node(base, new_, k) == Node(base, free, k) {
    }
  }

  /** The address of a carved tail is no header yet, and the block it is cut from is not live. */
  lemma CarvedNew(h: Heap, base: int, i: nat, n: nat)
    requires Partition(h, base) && i < |h.free| && 1 <= n <= h.free[i].size
    ensures n < h.free[i].size ==> forall k | 0 <= k <= |h.free| :: Node(base, h.free, k) != Carved(h.free, i, n).addr
    ensures forall j | 0 <= j < |h.live| ::
              h.live[j].addr != Carved(h.free, i, n).addr && h.live[j].addr != h.free[i].addr
  {
    hide Covers;
    var a := Carved(h.free, i, n).addr;
    forall k | 0 <= k <= |h.free| && n < h.free[i].size ensures Node(base, h.free, k) != a {
      if 0 < k <= i {
        assert End(h.free[k - 1]) < h.free[i].addr;
      } else if k > i + 1 {
        assert End(h.free[i]) < h.free[k - 1].addr;
      }
    }
    forall j | 0 <= j < |h.live| ensures h.live[j].addr != a && h.live[j].addr != h.free[i].addr {
      assert Apart(h.free, h.live[j]) && Disjoint(h.free[i], h.live[j]);
    }
  }

  lemma CoreBytesBelow(nu: nat)
    ensures CoreBytes(nu) <= Core(nu) * HEADER
  {
  }

  lemma LiveFacts(h: Heap, base: int, i: nat)
    requires Partition(h, base) && i < |h.live|
    ensures Apart(h.free, h.live[i]) && h.live[i].size >= 1 && base + HEADER <= h.live[i].addr
  {
  }

  lemma LiveNode(h: Heap, base: int, j: nat, k: nat)
    requires Partition(h, base) && j < |h.live| && k <= |h.free|
    ensures h.live[j].addr != Node(base, h.free, k)
  {
    hide Covers;
    assert Apart(h.free, h.live[j]);
    if k > 0 {
      assert Disjoint(h.free[k - 1], h.live[j]);
    }
  }

  lemma LiveDiffer(h: Heap, base: int, i: nat, j: nat, k: nat)
    requires Partition(h, base) && i < |h.live| && j < |h.live| && i != j && k <= |h.free|
    ensures h.live[j].addr != h.live[i].addr && h.live[j].addr != Node(base, h.free, k)
  {
    hide Covers;
    LiveNode(h, base, j, k);
    assert i < j ==> Disjoint(h.live[i], h.live[j]);
    assert j < i ==> Disjoint(h.live[j], h.live[i]);
  }

  lemma AboveAll(h: Heap, base: int, a: int)
    requires Partition(h, base) && h.top <= a && base + HEADER <= a
    ensures forall j | 0 <= j < |h.live| :: h.live[j].addr < a
    ensures forall k | 0 <= k <= |h.free| :: Node(base, h.free, k) < a
  {
    hide Covers;
  }

  /** A header written elsewhere does not disturb the ring. */
  lemma RingFrame(base: int, free: seq<Block>, ptr: map<int, int>, size: map<int, nat>, a: int, n: nat)
    requires Ring(base, free, ptr, size) && forall k | 0 <= k <= |free| :: Node(base, free, k) != a
    ensures Ring(base, free, ptr, size[a := n])
  {
  }

  lemma BetweenAt(base: int, free: seq<Block>, k: nat, a: int)
    requires Between(base, free, k, a)
    ensures Node(base, free, k) < a
  {
  }

  /** The header of node k. */
  lemma NodeHeader(base: int, free: seq<Block>, k: nat, ptr: map<int, int>, size: map<int, nat>)
    requires Ring(base, free, ptr, size) && k <= |free|
    ensures var a := Node(base, free, k);
            && a in ptr && ptr[a] == Node(base, free, Succ(|free|, k))
            && a in size && size[a] == NodeSize(free, k)
  {
  }

  lemma PlaceBetween(base: int, free: seq<Block>, b: Block, top: int)
    requires Separated(free) && Within(free, base + HEADER, top) && Apart(free, b) && b.size >= 1
             && base + HEADER <= b.addr
    ensures Between(base, free, Below(free, b.addr), b.addr)
  {
    NodesRise(base, free, top);
    PlaceOf(base, free, b, top);
  }

  lemma Parts(h: Heap, base: int)
    requires Partition(h, base)
    ensures Separated(h.free) && Within(h.free, base + HEADER, h.top)
  {
  }
}
