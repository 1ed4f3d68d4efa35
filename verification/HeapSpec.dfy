/** Blocks of memory and the free list of user/umalloc.c as a value: a list of blocks in address
    order, no two of which overlap or touch. */
module HeapSpec {
  import opened Basics

  const HEADER := 8

  /** size units of HEADER bytes, the first of them the header, from address addr. */
  datatype Block = Block(addr: int, size: nat)

  function End(b: Block): int { b.addr + HEADER * b.size }

  predicate In(b: Block, x: int) { b.addr <= x < End(b) }

  predicate Disjoint(b: Block, c: Block) { End(b) <= c.addr || End(c) <= b.addr }

  /** Some block of the list holds address x. */
  ghost predicate Covers(bs: seq<Block>, x: int) { exists i :: 0 <= i < |bs| && In(bs[i], x) }

  function Units(bs: seq<Block>): nat {
    if bs == [] then 0 else bs[0].size + Units(bs[1..])
  }

  ghost predicate Sized(bs: seq<Block>) { forall i | 0 <= i < |bs| :: bs[i].size >= 1 }

  /** In address order, with a gap after every block but the last. */
  ghost predicate Separated(bs: seq<Block>) {
    Sized(bs) && forall i, j | 0 <= i < j < |bs| :: End(bs[i]) < bs[j].addr
  }

  ghost predicate Apart(bs: seq<Block>, b: Block) { forall i | 0 <= i < |bs| :: Disjoint(bs[i], b) }

  ghost predicate PairwiseApart(bs: seq<Block>) { forall i, j | 0 <= i < j < |bs| :: Disjoint(bs[i], bs[j]) }

  // Lists of blocks.

  lemma {:induction false} UnitsAppend(a: seq<Block>, b: seq<Block>)
    ensures Units(a + b) == Units(a) + Units(b)
  {
    if a == [] {
      assert a + b == b;
    } else {
      assert (a + b)[1..] == a[1..] + b;
      UnitsAppend(a[1..], b);
    }
  }

  lemma CoversAppend(a: seq<Block>, b: seq<Block>, x: int)
    ensures Covers(a + b, x) <==> Covers(a, x) || Covers(b, x)
  {
    if Covers(a, x) {
      var i :| 0 <= i < |a| && In(a[i], x);
      assert In((a + b)[i], x);
    }
    if Covers(b, x) {
      var i :| 0 <= i < |b| && In(b[i], x);
      assert In((a + b)[|a| + i], x);
    }
  }

  lemma CoversOne(b: Block, x: int)
    ensures Covers([b], x) <==> In(b, x)
  {
    if In(b, x) {
      assert In([b][0], x);
    }
  }

  lemma UnitsOne(b: Block)
    ensures Units([b]) == b.size
  {
    assert [b][1..] == [];
  }

  /** Splitting a list around a position. */
  lemma Around(bs: seq<Block>, i: nat, x: int)
    requires i < |bs|
    ensures Units(bs) == Units(bs[..i]) + bs[i].size + Units(bs[i + 1..])
    ensures Covers(bs, x) <==> Covers(bs[..i], x) || In(bs[i], x) || Covers(bs[i + 1..], x)
  {
    var rest := [bs[i]] + bs[i + 1..];
    assert bs == bs[..i] + rest;
    UnitsAppend(bs[..i], rest);
    UnitsAppend([bs[i]], bs[i + 1..]);
    UnitsOne(bs[i]);
    CoversAppend(bs[..i], rest, x);
    CoversAppend([bs[i]], bs[i + 1..], x);
    CoversOne(bs[i], x);
  }

  // Putting a block back.

  /** How many blocks of the list lie below address a. */
  function Below(bs: seq<Block>, a: int): (k: nat)
    ensures k <= |bs|
    ensures forall i | 0 <= i < k :: bs[i].addr < a
    ensures k < |bs| ==> bs[k].addr >= a
  {
    if bs == [] || bs[0].addr >= a then 0 else 1 + Below(bs[1..], a)
  }

  /** The block below k ends where b starts. */
  predicate JoinsLower(bs: seq<Block>, k: nat, b: Block)
    requires k <= |bs|
  {
    k > 0 && End(bs[k - 1]) == b.addr
  }

  predicate JoinsUpper(bs: seq<Block>, k: nat, b: Block)
    requires k <= |bs|
  {
    k < |bs| && End(b) == bs[k].addr
  }

  /** b joined with the neighbours it touches. */
  function Joined(bs: seq<Block>, k: nat, b: Block): Block
    requires k <= |bs|
  {
    var lower := JoinsLower(bs, k, b);
    Block(if lower then bs[k - 1].addr else b.addr,
          b.size + (if lower then bs[k - 1].size else 0) + if JoinsUpper(bs, k, b) then bs[k].size else 0)
  }

  /** free: put b in its place, coalescing with its neighbours. */
  function Insert(bs: seq<Block>, b: Block): seq<Block> {
    var k := Below(bs, b.addr);
    (if JoinsLower(bs, k, b) then bs[..k - 1] else bs[..k])
    + [Joined(bs, k, b)]
    + (if JoinsUpper(bs, k, b) then bs[k + 1..] else bs[k..])
  }

  lemma InsertSeparated(bs: seq<Block>, b: Block)
    requires Separated(bs) && Apart(bs, b) && b.size >= 1
    ensures Separated(Insert(bs, b))
  {
    hide Below;
    var k := Below(bs, b.addr);
    assert k > 0 ==> Disjoint(bs[k - 1], b);
    assert k < |bs| ==> Disjoint(bs[k], b);
    forall i | 0 <= i < k ensures End(bs[i]) <= b.addr && (i < k - 1 || !JoinsLower(bs, k, b) ==> End(bs[i]) < b.addr) {
      assert Disjoint(bs[i], b);
      assert i == k - 1 || End(bs[i]) < bs[k - 1].addr;
    }
    forall j | k <= j < |bs| ensures End(b) <= bs[j].addr && (j > k || !JoinsUpper(bs, k, b) ==> End(b) < bs[j].addr) {
      assert j == k || End(bs[k]) < bs[j].addr;
    }
    InsertEnds(bs, k, b);
  }

  lemma InsertEnds(bs: seq<Block>, k: nat, b: Block)
    requires Separated(bs) && k <= |bs| && b.size >= 1
    requires forall i | 0 <= i < k ::
               End(bs[i]) <= b.addr && (i < k - 1 || !JoinsLower(bs, k, b) ==> End(bs[i]) < b.addr)
    requires forall j | k <= j < |bs| ::
               End(b) <= bs[j].addr && (j > k || !JoinsUpper(bs, k, b) ==> End(b) < bs[j].addr)
    ensures Separated((if JoinsLower(bs, k, b) then bs[..k - 1] else bs[..k]) + [Joined(bs, k, b)]
                      + if JoinsUpper(bs, k, b) then bs[k + 1..] else bs[k..])
  {
    var left := if JoinsLower(bs, k, b) then bs[..k - 1] else bs[..k];
    var right := if JoinsUpper(bs, k, b) then bs[k + 1..] else bs[k..];
    LeftEnds(bs, k, b);
    RightEnds(bs, k, b);
    SeparatedJoin(left, Joined(bs, k, b), right);
  }

  lemma LeftEnds(bs: seq<Block>, k: nat, b: Block)
    requires Separated(bs) && k <= |bs| && b.size >= 1
    requires forall i | 0 <= i < k ::
               End(bs[i]) <= b.addr && (i < k - 1 || !JoinsLower(bs, k, b) ==> End(bs[i]) < b.addr)
    ensures var left := if JoinsLower(bs, k, b) then bs[..k - 1] else bs[..k];
            Separated(left) && forall i | 0 <= i < |left| :: End(left[i]) < Joined(bs, k, b).addr
  {
  }

  lemma RightEnds(bs: seq<Block>, k: nat, b: Block)
    requires Separated(bs) && k <= |bs| && b.size >= 1
    requires forall j | k <= j < |bs| ::
               End(b) <= bs[j].addr && (j > k || !JoinsUpper(bs, k, b) ==> End(b) < bs[j].addr)
    ensures var right := if JoinsUpper(bs, k, b) then bs[k + 1..] else bs[k..];
            Separated(right) && forall j | 0 <= j < |right| :: End(Joined(bs, k, b)) < right[j].addr
  {
    var m := Joined(bs, k, b);
    assert End(m) == if JoinsUpper(bs, k, b) then End(bs[k]) else End(b);
    hide End, Joined;
    var d := if JoinsUpper(bs, k, b) then k + 1 else k;
    var right := bs[d..];
    assert forall j | 0 <= j < |right| :: right[j] == bs[d + j];
    forall j | 0 <= j < |right| ensures End(m) < right[j].addr {
      assert d > k ==> End(bs[k]) < bs[d + j].addr;
    }
  }

  lemma SeparatedJoin(left: seq<Block>, m: Block, right: seq<Block>)
    requires Separated(left) && Separated(right) && m.size >= 1
    requires forall i | 0 <= i < |left| :: End(left[i]) < m.addr
    requires forall j | 0 <= j < |right| :: End(m) < right[j].addr
    ensures Separated(left + [m] + right)
  {
  }

  /** The part of the list below k, and what of it is left when b joins its last block. */
  lemma LowerPart(bs: seq<Block>, k: nat, b: Block, x: int)
    requires k <= |bs|
    ensures var lower := JoinsLower(bs, k, b);
            var left := if lower then bs[..k - 1] else bs[..k];
            && Units(bs[..k]) == Units(left) + (if lower then bs[k - 1].size else 0)
            && (Covers(bs[..k], x) <==> Covers(left, x) || (lower && In(bs[k - 1], x)))
  {
    hide Covers;
    if JoinsLower(bs, k, b) {
      Around(bs[..k], k - 1, x);
      assert bs[..k][..k - 1] == bs[..k - 1] && bs[..k][k..] == [];
      CoversNone(x);
    }
  }

  lemma UpperPart(bs: seq<Block>, k: nat, b: Block, x: int)
    requires k <= |bs|
    ensures var upper := JoinsUpper(bs, k, b);
            var right := if upper then bs[k + 1..] else bs[k..];
            && Units(bs[k..]) == Units(right) + (if upper then bs[k].size else 0)
            && (Covers(bs[k..], x) <==> Covers(right, x) || (upper && In(bs[k], x)))
  {
    hide Covers;
    if JoinsUpper(bs, k, b) {
      Around(bs[k..], 0, x);
      assert bs[k..][1..] == bs[k + 1..] && bs[k..][..0] == [];
      CoversNone(x);
    }
  }

  lemma JoinedIn(bs: seq<Block>, k: nat, b: Block, x: int)
    requires k <= |bs|
    ensures In(Joined(bs, k, b), x) <==>
            In(b, x) || (JoinsLower(bs, k, b) && In(bs[k - 1], x)) || (JoinsUpper(bs, k, b) && In(bs[k], x))
  {
  }

  /** The list afterwards holds exactly the addresses it held and those of b. */
  lemma InsertCovers(bs: seq<Block>, b: Block, x: int)
    ensures Covers(Insert(bs, b), x) <==> Covers(bs, x) || In(b, x)
    ensures Units(Insert(bs, b)) == Units(bs) + b.size
  {
    hide Below, Covers, In, Units, End;
    var k := Below(bs, b.addr);
    LowerPart(bs, k, b, x);
    UpperPart(bs, k, b, x);
    JoinedIn(bs, k, b, x);
    Pieces(if JoinsLower(bs, k, b) then bs[..k - 1] else bs[..k], Joined(bs, k, b),
           if JoinsUpper(bs, k, b) then bs[k + 1..] else bs[k..], x);
    assert bs == bs[..k] + bs[k..];
    UnitsAppend(bs[..k], bs[k..]);
    CoversAppend(bs[..k], bs[k..], x);
  }

  lemma CoversNone(x: int)
    ensures !Covers([], x)
  {
  }

  lemma Pieces(left: seq<Block>, m: Block, right: seq<Block>, x: int)
    ensures Units(left + [m] + right) == Units(left) + m.size + Units(right)
    ensures Covers(left + [m] + right, x) <==> Covers(left, x) || In(m, x) || Covers(right, x)
  {
    hide Covers;
    UnitsAppend(left + [m], right);
    UnitsAppend(left, [m]);
    UnitsOne(m);
    CoversAppend(left + [m], right, x);
    CoversAppend(left, [m], x);
    CoversOne(m, x);
  }

  // Taking a block.

  /** malloc from block i: the whole block if it fits exactly, else its tail. */
  function Carved(bs: seq<Block>, i: nat, n: nat): (r: Block)
    requires i < |bs| && 1 <= n <= bs[i].size
    ensures r.size == n && End(r) == End(bs[i])
  {
    Block(bs[i].addr + HEADER * (bs[i].size - n), n)
  }

  function Carve(bs: seq<Block>, i: nat, n: nat): seq<Block>
    requires i < |bs| && 1 <= n <= bs[i].size
  {
    if bs[i].size == n then bs[..i] + bs[i + 1..] else bs[i := Block(bs[i].addr, bs[i].size - n)]
  }

  lemma CarveSeparated(bs: seq<Block>, i: nat, n: nat)
    requires Separated(bs) && i < |bs| && 1 <= n <= bs[i].size
    ensures Separated(Carve(bs, i, n)) && Apart(Carve(bs, i, n), Carved(bs, i, n))
    ensures forall b | Apart(bs, b) :: Apart(Carve(bs, i, n), b) && Disjoint(Carved(bs, i, n), b)
  {
    var cs := Carve(bs, i, n);
    forall j | 0 <= j < |cs| ensures Disjoint(cs[j], Carved(bs, i, n)) {
      if j < i {
        assert End(bs[j]) < bs[i].addr;
      } else if bs[i].size == n {
        assert cs[j] == bs[j + 1] && End(bs[i]) < bs[j + 1].addr;
      } else if j > i {
        assert End(bs[i]) < bs[j].addr;
      }
    }
    forall b | Apart(bs, b) ensures Apart(cs, b) && Disjoint(Carved(bs, i, n), b) {
      assert Disjoint(bs[i], b);
      forall j | 0 <= j < |cs| ensures Disjoint(cs[j], b) {
        assert Disjoint(bs[if bs[i].size == n && j >= i then j + 1 else j], b);
      }
    }
  }

  /** The addresses of the list are those left in it and those taken. */
  lemma CarveCovers(bs: seq<Block>, i: nat, n: nat, x: int)
    requires Separated(bs) && i < |bs| && 1 <= n <= bs[i].size
    ensures Covers(bs, x) <==> Covers(Carve(bs, i, n), x) || In(Carved(bs, i, n), x)
    ensures Units(bs) == Units(Carve(bs, i, n)) + n
  {
    hide Covers, Separated;
    Around(bs, i, x);
    if bs[i].size == n {
      UnitsAppend(bs[..i], bs[i + 1..]);
      CoversAppend(bs[..i], bs[i + 1..], x);
    } else {
      var m := Block(bs[i].addr, bs[i].size - n);
      assert Carve(bs, i, n) == bs[..i] + [m] + bs[i + 1..];
      Pieces(bs[..i], m, bs[i + 1..], x);
    }
  }

  // Sizes of requests.

  /** The units malloc looks for, computed in 32 bits. */
  function Nunits(nbytes: nat): nat { (nbytes + HEADER - 1) % UINT_LIMIT / HEADER + 1 }

  /** The units morecore asks for. */
  function Core(nu: nat): (r: nat)
    ensures r >= nu && r >= 4096 && (r == nu || r == 4096)
  {
    if nu < 4096 then 4096 else nu
  }

  /** A 32-bit word read as an int. */
  function AsInt(w: nat): int { if w < UINT_LIMIT / 2 then w else w - UINT_LIMIT }

  /** morecore's argument to sbrk: a 32-bit product, passed as an int. */
  function CoreBytes(nu: nat): int { AsInt(Core(nu) * HEADER % UINT_LIMIT) }

  /** The argument is the bytes morecore wants if and only if the request is below 2^31 - 15 bytes, or
      so large that Nunits itself wrapped. */
  lemma CoreBytesExact(nbytes: nat)
    requires nbytes < UINT_LIMIT
    ensures CoreBytes(Nunits(nbytes)) == Core(Nunits(nbytes)) * HEADER <==> CoreFits(nbytes)
    ensures CoreFits(nbytes) <==> Core(Nunits(nbytes)) * HEADER < UINT_LIMIT / 2
    ensures !CoreFits(nbytes) ==> CoreBytes(Nunits(nbytes)) <= 0
  {
  }

  predicate CoreFits(nbytes: nat) { nbytes <= UINT_LIMIT / 2 - 16 || nbytes > UINT_LIMIT - HEADER }

  /** The units hold a header and nbytes exactly if the sum did not wrap. */
  lemma NunitsHolds(nbytes: nat)
    requires nbytes < UINT_LIMIT
    ensures 1 <= Nunits(nbytes)
    ensures HEADER * (Nunits(nbytes) - 1) >= nbytes <==> nbytes <= UINT_LIMIT - HEADER
    ensures nbytes <= UINT_LIMIT - HEADER ==> HEADER * (Nunits(nbytes) - 1) < nbytes + HEADER
  {
  }

  // The whole heap.

  /** free and live blocks, the areas sbrk has handed out, and the end of the last of them. */
  datatype Heap = Heap(free: seq<Block>, live: seq<Block>, areas: seq<Block>, top: int)

  ghost predicate Within(bs: seq<Block>, lo: int, hi: int) {
    forall i | 0 <= i < |bs| :: lo <= bs[i].addr && End(bs[i]) <= hi
  }

  ghost predicate LiveApart(h: Heap) { forall i | 0 <= i < |h.live| :: Apart(h.free, h.live[i]) }

  /** Free and live blocks are disjoint and together are exactly what sbrk handed out. */
  ghost predicate Partition(h: Heap, base: int) {
    && Separated(h.free) && Sized(h.live) && PairwiseApart(h.live) && LiveApart(h)
    && Within(h.free, base + HEADER, h.top) && Within(h.live, base + HEADER, h.top)
    && (forall x :: Covers(h.areas, x) <==> Covers(h.free, x) || Covers(h.live, x))
    && Units(h.areas) == Units(h.free) + Units(h.live)
  }

  function Removed(bs: seq<Block>, i: nat): seq<Block>
    requires i < |bs|
  {
    bs[..i] + bs[i + 1..]
  }

  function Release(h: Heap, i: nat): Heap
    requires i < |h.live|
  {
    h.(free := Insert(h.free, h.live[i]), live := Removed(h.live, i))
  }

  function Grow(h: Heap, b: Block): Heap {
    Heap(Insert(h.free, b), h.live, h.areas + [b], End(b))
  }

  function Allocate(h: Heap, i: nat, n: nat): Heap
    requires i < |h.free| && 1 <= n <= h.free[i].size
  {
    h.(free := Carve(h.free, i, n), live := h.live + [Carved(h.free, i, n)])
  }

  lemma JoinedApart(bs: seq<Block>, k: nat, b: Block, c: Block)
    requires k <= |bs| && Sized(bs) && Apart(bs, c) && Disjoint(b, c) && c.size >= 1 && b.size >= 1
    ensures Disjoint(Joined(bs, k, b), c)
  {
    assert k > 0 ==> Disjoint(bs[k - 1], c) && bs[k - 1].size >= 1;
    assert k < |bs| ==> Disjoint(bs[k], c) && bs[k].size >= 1;
  }

  lemma InsertApart(bs: seq<Block>, b: Block, c: Block)
    requires Separated(bs) && Apart(bs, b) && Apart(bs, c) && Disjoint(b, c) && c.size >= 1 && b.size >= 1
    ensures Apart(Insert(bs, b), c)
  {
    hide Below, Disjoint, Joined, End;
    var k := Below(bs, b.addr);
    var m := Joined(bs, k, b);
    JoinedApart(bs, k, b, c);
    var left := if JoinsLower(bs, k, b) then bs[..k - 1] else bs[..k];
    var right := if JoinsUpper(bs, k, b) then bs[k + 1..] else bs[k..];
    var all := left + [m] + right;
    var d := |bs| - |right|;
    forall i | 0 <= i < |all| ensures Disjoint(all[i], c) {
      if i < |left| {
        assert all[i] == bs[i];
      } else if i > |left| {
        assert all[i] == bs[i - |left| - 1 + d];
      }
    }
  }

  lemma InsertWithin(bs: seq<Block>, b: Block, lo: int, hi: int)
    requires Within(bs, lo, hi) && lo <= b.addr && End(b) <= hi
    ensures Within(Insert(bs, b), lo, hi)
  {
    hide Below;
    var k := Below(bs, b.addr);
    assert k > 0 ==> lo <= bs[k - 1].addr;
    assert k < |bs| ==> End(bs[k]) <= hi;
  }

  /** Freeing a block keeps the partition. */
  lemma ReleasePartition(h: Heap, base: int, i: nat)
    requires Partition(h, base) && i < |h.live|
    ensures Partition(Release(h, i), base)
  {
    hide Separated, Apart, Insert, Covers, Units, Within, Sized;
    var g := Release(h, i);
    var b := h.live[i];
    assert Apart(h.free, b) && b.size >= 1 by { SizedAt(h.live, i); }
    InsertSeparated(h.free, b);
    assert base + HEADER <= b.addr && End(b) <= h.top by { WithinAt(h.live, i, base + HEADER, h.top); }
    InsertWithin(h.free, b, base + HEADER, h.top);
    assert Sized(g.live) && Within(g.live, base + HEADER, h.top) by { RemovedAll(h.live, i, base + HEADER, h.top); }
    forall j | 0 <= j < |g.live| ensures Apart(g.free, g.live[j]) {
      var j' := if j < i then j else j + 1;
      assert g.live[j] == h.live[j'] && Apart(h.free, h.live[j']) && Disjoint(b, h.live[j']);
      SizedAt(h.live, j');
      InsertApart(h.free, b, h.live[j']);
    }
    forall x ensures Covers(g.areas, x) <==> Covers(g.free, x) || Covers(g.live, x) {
      InsertCovers(h.free, b, x);
      Around(h.live, i, x);
      CoversAppend(h.live[..i], h.live[i + 1..], x);
    }
    InsertCovers(h.free, b, 0);
    Around(h.live, i, 0);
    UnitsAppend(h.live[..i], h.live[i + 1..]);
  }

  lemma SizedAt(bs: seq<Block>, i: nat)
    requires Sized(bs) && i < |bs|
    ensures bs[i].size >= 1
  {
  }

  lemma WithinAt(bs: seq<Block>, i: nat, lo: int, hi: int)
    requires Within(bs, lo, hi) && i < |bs|
    ensures lo <= bs[i].addr && End(bs[i]) <= hi
  {
  }

  lemma RemovedAll(bs: seq<Block>, i: nat, lo: int, hi: int)
    requires Sized(bs) && Within(bs, lo, hi) && i < |bs|
    ensures Sized(Removed(bs, i)) && Within(Removed(bs, i), lo, hi)
  {
  }

  /** Adding an area above everything keeps the partition. */
  lemma GrowPartition(h: Heap, base: int, b: Block)
    requires Partition(h, base) && b.size >= 1 && h.top <= b.addr && base + HEADER <= b.addr
    ensures Apart(h.free, b) && Partition(Grow(h, b), base)
  {
    hide Separated, Insert, Covers, Units, Sized;
    var g := Grow(h, b);
    assert Apart(h.free, b);
    InsertSeparated(h.free, b);
    assert Within(h.free, base + HEADER, g.top);
    InsertWithin(h.free, b, base + HEADER, g.top);
    forall j | 0 <= j < |g.live| ensures Apart(g.free, g.live[j]) {
      assert Apart(h.free, h.live[j]) && End(h.live[j]) <= h.top;
      SizedAt(h.live, j);
      InsertApart(h.free, b, h.live[j]);
    }
    forall x ensures Covers(g.areas, x) <==> Covers(g.free, x) || Covers(g.live, x) {
      InsertCovers(h.free, b, x);
      CoversAppend(h.areas, [b], x);
      CoversOne(b, x);
    }
    InsertCovers(h.free, b, 0);
    UnitsAppend(h.areas, [b]);
    UnitsOne(b);
  }

  /** Allocating from a free block keeps the partition. */
  lemma AllocatePartition(h: Heap, base: int, i: nat, n: nat)
    requires Partition(h, base) && i < |h.free| && 1 <= n <= h.free[i].size
    ensures Partition(Allocate(h, i, n), base)
  {
    hide Separated, Apart, Carve, Covers, Units, Within;
    var g := Allocate(h, i, n);
    var b := Carved(h.free, i, n);
    CarveSeparated(h.free, i, n);
    forall j | 0 <= j < |g.live| ensures Apart(g.free, g.live[j]) {
      if j < |h.live| {
        assert Apart(h.free, h.live[j]);
      }
    }
    forall j | 0 <= j < |h.live| ensures Disjoint(h.live[j], b) {
      assert Apart(h.free, h.live[j]);
    }
    CarveWithin(h.free, i, n, base + HEADER, h.top);
    WithinSnoc(h.live, b, base + HEADER, h.top);
    forall x ensures Covers(g.areas, x) <==> Covers(g.free, x) || Covers(g.live, x) {
      CarveCovers(h.free, i, n, x);
      CoversAppend(h.live, [b], x);
      CoversOne(b, x);
    }
    CarveCovers(h.free, i, n, 0);
    UnitsAppend(h.live, [b]);
    UnitsOne(b);
  }

  lemma CarveWithin(bs: seq<Block>, i: nat, n: nat, lo: int, hi: int)
    requires Within(bs, lo, hi) && i < |bs| && 1 <= n <= bs[i].size
    ensures Within(Carve(bs, i, n), lo, hi) && lo <= Carved(bs, i, n).addr && End(Carved(bs, i, n)) <= hi
  {
  }

  lemma WithinSnoc(bs: seq<Block>, b: Block, lo: int, hi: int)
    requires Within(bs, lo, hi) && lo <= b.addr && End(b) <= hi
    ensures Within(bs + [b], lo, hi)
  {
  }

  // The break of the process.

  /** sz as the kernel records it, and the end of the memory the process really has. */
  datatype Break = Break(sz: int, held: int)

  /** sbrk(n) through growproc: what it returns, and the break afterwards. room says whether allocuvm
      found pages. A negative n below -sz wraps to a larger size, which deallocuvm refuses without an
      error; a shrink to nothing frees the pages and then reports failure. */
  function Sbrk(b: Break, n: int, room: bool): (Option<int>, Break) {
    if n > 0 then
      if room && b.sz + n < KERNBASE then (Some(b.sz), Break(b.sz + n, if b.held == b.sz then b.sz + n else b.held))
      else (None, b)
    else if n == 0 then (Some(b.sz), b)
    else if b.sz + n < 0 then (if b.sz == 0 then None else Some(b.sz), b)
    else if b.sz + n == 0 then (None, b.(held := 0))
    else (Some(b.sz), Break(b.sz + n, Min(b.held, b.sz + n)))
  }

  /** For any request up to 4 GB that needs new core, sbrk's success means the area was granted if and
      only if the byte count fitted an int. */
  lemma GrantedExactly(b: Break, nbytes: nat, room: bool)
    requires nbytes < UINT_LIMIT && b.held == b.sz && 0 <= b.sz < KERNBASE
    requires Sbrk(b, CoreBytes(Nunits(nbytes)), room).0.Some?
    ensures b.sz + Core(Nunits(nbytes)) * HEADER <= Sbrk(b, CoreBytes(Nunits(nbytes)), room).1.held <==>
            CoreFits(nbytes)
  {
    CoreBytesExact(nbytes);
  }

  /** The largest request that does not wrap Nunits: 2^29 units are wanted and sbrk(0) is asked, which
      succeeds and grants nothing. */
  lemma HugeRequestUngranted(b: Break, room: bool)
    ensures var n := Nunits(UINT_LIMIT - HEADER);
            && n == 0x2000_0000 && CoreBytes(n) == 0 && Sbrk(b, CoreBytes(n), room) == (Some(b.sz), b)
  {
  }
}
