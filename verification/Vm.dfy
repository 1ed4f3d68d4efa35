/** kernel/kalloc.c and kernel/vm.c: the free list and two-level page tables, updated in place. */
module Vm {
  import opened Basics
  import opened PageSpec
  import opened PageSteps
  import opened PageCount

  // How the calls relate states.

  /** Every address space in dirs is as it was. */
  ghost predicate SameSpaces(mem: Mem, mem': Mem, dirs: set<int>) {
    forall d, v | d in dirs && 0 <= v < PAGES :: Lookup(mem', d, v) == Lookup(mem, d, v)
  }

  predicate Holds(o: Owner) { o.User? || o.Other? }

  /** User frames and pages in a caller's hands keep their contents. */
  ghost predicate SameData(mem: Mem, mem': Mem, owner: Owners) {
    forall p | p in owner && Holds(owner[p]) && p in mem :: p in mem' && mem'[p] == mem[p]
  }

  /** Nothing changed hands but free pages that became tables of d. */
  ghost predicate Grew(owner: Owners, owner': Owners, d: int) {
    && owner.Keys == owner'.Keys
    && forall p | p in owner :: owner'[p] == owner[p] || (owner[p] == Free && owner'[p].Table? && owner'[p].d == d)
  }

  const USER_PAGES := USER_TABLES * ENTRIES

  /** Entry of virtual page w after mapping n pages from v to frames from page on. */
  function Entry(v: int, page: int, perm: nat, w: int): Pte { Pte(page + (w - v), OrPresent(perm)) }

  /** In every address space, all pages but those of d from v up to w are as they were. */
  ghost predicate SameBut(mem: Mem, mem': Mem, dirs: set<int>, d: int, v: int, w: int) {
    forall e, u | e in dirs && 0 <= u < PAGES && (e != d || u < v || w <= u) :: Lookup(mem', e, u) == Lookup(mem, e, u)
  }

  /** Owners after mapping: a user frame now belongs to its virtual page. */
  function MappedOwner(owner: Owners, d: int, v: int, page: int): Owners {
    if v < USER_PAGES then owner[page := User(d, Pdx(v), Ptx(v))] else owner
  }

  /** Frame p goes to a user page when pages v up to w are mapped to the frames from page on. */
  predicate GoesTo(v: int, w: int, page: int, p: int) {
    var u := v + (p - page);
    v <= u < w && u < USER_PAGES
  }

  /** What mapping pages v up to w changes hands: free pages that became tables of d, and the frames
      at user pages. */
  ghost predicate Mapped(owner: Owners, owner': Owners, d: int, v: int, w: int, page: int) {
    && owner.Keys == owner'.Keys
    && forall p | p in owner ::
         if GoesTo(v, w, page, p) then owner'[p] == User(d, Pdx(v + (p - page)), Ptx(v + (p - page)))
         else owner'[p] == owner[p] || (owner[p] == Free && owner'[p].Table? && owner'[p].d == d)
  }

  lemma MappedOn(owner: Owners, owner1: Owners, owner2: Owners, d: int, v: int, w: int, page: int)
    requires Mapped(owner, owner1, d, v, w, page) && v <= w
    requires Mapped(owner1, owner2, d, w, w + 1, page + (w - v))
    ensures Mapped(owner, owner2, d, v, w + 1, page)
  {
    hide Pdx, Ptx;
  }

  /** Mapping pages from v to the frames from page on, the frame for user page w is in the caller's
      hands. */
  ghost predicate Offered(mem: Mem, owner: Owners, v: int, page: int, w: int) {
    w < USER_PAGES ==>
      var p := page + (w - v);
      p in owner && owner[p] == Other && IsData(mem, p)
  }

  /** The frames still to be mapped are still in the caller's hands. */
  lemma OfferedOn(mem: Mem, owner: Owners, mem': Mem, owner': Owners, d: int, v: int, page: int, a: int, w: int)
    requires Mapped(owner, owner', d, a, a + 1, page + (a - v)) && SameData(mem, mem', owner) && a < w
    requires Offered(mem, owner, v, page, w)
    ensures Offered(mem', owner', v, page, w)
  {
    hide Pdx, Ptx;
  }

  lemma SameDataOn(a: Mem, b: Mem, c: Mem, owner: Owners, owner1: Owners, d: int, v: int, w: int, page: int)
    requires SameData(a, b, owner) && Mapped(owner, owner1, d, v, w, page) && SameData(b, c, owner1)
    ensures SameData(a, c, owner)
  {
    hide Pdx, Ptx;
  }

  /** PGROUNDUP, as a page number: the first page not below byte sz. */
  function FirstPage(sz: nat): nat { (sz + PGSIZE - 1) / PGSIZE }

  predicate UserIn(o: Owner, d: int, lo: int, hi: int) { o.User? && o.d == d && lo <= ENTRIES * o.i + o.j < hi }

  /** The frames at user pages lo up to hi of d are free, everything else is as it was. */
  ghost predicate Unmapped(owner: Owners, owner': Owners, d: int, lo: int, hi: int) {
    && owner.Keys == owner'.Keys
    && forall p | p in owner :: owner'[p] == if UserIn(owner[p], d, lo, hi) then Free else owner[p]
  }

  lemma UnmappedTrans(a: Owners, b: Owners, c: Owners, d: int, lo: int, mid: int, hi: int)
    requires Unmapped(a, b, d, lo, mid) && Unmapped(b, c, d, mid, hi) && lo <= mid <= hi
    ensures Unmapped(a, c, d, lo, hi)
  {
  }

  lemma SameButTrans(a: Mem, b: Mem, c: Mem, dirs: set<int>, d: int, lo: int, mid: int, hi: int)
    requires SameBut(a, b, dirs, d, lo, mid) && SameBut(b, c, dirs, d, mid, hi) && lo <= mid <= hi
    ensures SameBut(a, c, dirs, d, lo, hi)
  {
  }

  lemma SameDataTrans(a: Mem, b: Mem, c: Mem, o: Owners, o': Owners, d: int, lo: int, hi: int)
    requires SameData(a, b, o) && SameData(b, c, o') && Unmapped(o, o', d, lo, hi) && SameKeys(a, o)
    ensures SameData(a, c, o')
  {
  }

  /** Pages with no table map nothing. */
  lemma NothingMapped(mem: Mem, owner: Owners, dirs: set<int>, d: int, v: int, w: int)
    requires TabInv(mem, owner, dirs) && d in dirs && 0 <= v <= w <= USER_PAGES
    requires forall u | v <= u < w :: Lookup(mem, d, u) == None
    ensures Unmapped(owner, owner, d, v, w)
  {
    forall p | p in owner && UserIn(owner[p], d, v, w) ensures false {
      var u := ENTRIES * owner[p].i + owner[p].j;
      OnlyUser(mem, owner, dirs, d, u);
      assert UserIn(owner[p], d, u, u + 1);
    }
  }

  lemma NoTable(mem: Mem, d: int, v: int)
    requires 0 <= v < PAGES && !Present(Ent(mem, d, Pdx(v)))
    ensures forall u | v <= u < ENTRIES * (Pdx(v) + 1) :: Lookup(mem, d, u) == None
    ensures v < ENTRIES * (Pdx(v) + 1)
    ensures v < USER_PAGES ==> ENTRIES * (Pdx(v) + 1) <= USER_PAGES
  {
    forall u | v <= u < ENTRIES * (Pdx(v) + 1) ensures Pdx(u) == Pdx(v) {
    }
  }

  /** deallocuvm has dealt with the pages from lo up to v. */
  ghost predicate Freed(mem: Mem, owner: Owners, mem': Mem, owner': Owners, dirs: set<int>, d: int, lo: int, v: int) {
    && SameBut(mem, mem', dirs, d, lo, v) && Unmapped(owner, owner', d, lo, v) && SameData(mem, mem', owner')
    && forall u | lo <= u < v && 0 <= u < PAGES :: Lookup(mem', d, u) == None
  }

  /** One more page, or a whole stretch of unmapped ones. */
  lemma FreedOn(mem: Mem, owner: Owners, mem': Mem, owner': Owners, m: Mem, o: Owners, dirs: set<int>, d: int, lo: int,
                v: int, w: int)
    requires Freed(mem, owner, mem', owner', dirs, d, lo, v) && 0 <= lo <= v <= w && d in dirs && SameKeys(mem, owner)
    requires SameBut(mem', m, dirs, d, v, w) && Unmapped(owner', o, d, v, w) && SameData(mem', m, o)
    requires forall u | v <= u < w && 0 <= u < PAGES :: Lookup(m, d, u) == None
    ensures Freed(mem, owner, m, o, dirs, d, lo, w)
  {
    hide Lookup;
    UnmappedTrans(owner, owner', o, d, lo, v, w);
    SameButTrans(mem, mem', m, dirs, d, lo, v, w);
    SameDataTrans(mem, mem', m, owner', o, d, v, w);
  }

  // Counting pages.

  /** The directory and its 64 kernel tables. */
  const KERNEL_PAGES := 65

  /** The pages allocuvm takes for user pages lo up to hi: a frame each, and the missing tables. */
  ghost function GrowthNeed(mem: Mem, d: int, lo: int, hi: int): int { hi - lo + Lacks(mem, d, lo, hi) }

  /** The pages copyuvm takes for n user pages. */
  function CopyNeed(n: nat): nat { KERNEL_PAGES + n + TablesFor(n) }

  lemma GrowthNext(mem: Mem, mem1: Mem, d: int, lo: int, v: int, hi: int)
    requires 0 <= lo <= v < hi && v < PAGES && Tabled(mem, mem1, d, lo, v)
    ensures GrowthNeed(mem, d, lo, v + 1) == GrowthNeed(mem, d, lo, v) + 1 + Lacks(mem1, d, v, v + 1)
    ensures GrowthNeed(mem, d, lo, v + 1) <= GrowthNeed(mem, d, lo, hi)
  {
    hide Lacks, Tabled;
    LacksNext(mem, mem1, d, lo, v);
    LacksGrows(mem, d, lo, v + 1, hi);
  }

  /** A page that was free is not the directory. */
  lemma SameTables(mem: Mem, owner: Owners, dirs: set<int>, d: int, p: int, x: Page, v: int)
    requires TabInv(mem, owner, dirs) && d in dirs && p in owner && owner[p] == Free
    ensures Tabled(mem, mem[p := x], d, v, v) && Lacks(mem[p := x], d, v, v + 1) == Lacks(mem, d, v, v + 1)
  {
    PdeFacts(mem, owner, dirs, d, 0);
    TablesElsewhere(mem, d, p, x);
    LacksOne(mem, d, v);
    LacksOne(mem[p := x], d, v);
  }

  lemma TabledAfter(mem: Mem, mem1: Mem, mem2: Mem, mem3: Mem, d: int, lo: int, v: int)
    requires 0 <= lo <= v < PAGES && Tabled(mem, mem1, d, lo, v) && Tabled(mem1, mem2, d, v, v)
    requires Tabled(mem2, mem3, d, v, v + 1)
    ensures Tabled(mem, mem3, d, lo, v + 1)
  {
    hide HasTable;
    assert Tabled(mem, mem2, d, lo, v);
    TabledNext(mem, mem2, mem3, d, lo, v);
  }

  lemma FirstPageOrder(a: nat, b: nat)
    requires a <= b
    ensures FirstPage(a) <= FirstPage(b)
  {
  }

  lemma PageBelow(a: nat, v: int, sz: nat)
    requires a == PGSIZE * v && a < sz <= KERNBASE
    ensures a / PGSIZE == v < FirstPage(sz) <= USER_PAGES
  {
  }

  lemma PagesDone(a: nat, v: int, sz: nat)
    requires a == PGSIZE * v && a >= sz
    ensures FirstPage(sz) <= v
  {
  }

  lemma UserSize(sz: nat)
    requires sz <= KERNBASE
    ensures FirstPage(sz) <= USER_PAGES
  {
  }

  lemma TableAfter(v: int)
    requires 0 <= v < USER_PAGES
    ensures v < ENTRIES * (Pdx(v) + 1) <= v + ENTRIES
  {
  }

  /** Writing an entry of a table leaves the directory's own entries. */
  lemma KeepsTables(mem: Mem, owner: Owners, dirs: set<int>, d: int, v: int, t: int, f: Pte)
    requires TabInv(mem, owner, dirs) && d in dirs && At(mem, d, v, t)
    ensures 0 <= Ptx(v) < ENTRIES
    ensures forall i | 0 <= i < ENTRIES :: HasTable(SetEnt(mem, t, Ptx(v), f), d, i) == HasTable(mem, d, i)
  {
    SetTables(mem, owner, dirs, d, v, t, f);
  }

  lemma SameButAt(mem: Mem, mem': Mem, dirs: set<int>, d: int, v: int, w: int, e: int, u: int)
    requires SameBut(mem, mem', dirs, d, v, w) && e in dirs && 0 <= u < PAGES && (e != d || u < v || w <= u)
    ensures Lookup(mem', e, u) == Lookup(mem, e, u)
  {
  }

  lemma WalkedTo(mem: Mem, owner: Owners, mem1: Mem, owner1: Owners, dirs: set<int>, d: int, v: int, page: int)
    requires SameSpaces(mem, mem1, dirs) && SameData(mem, mem1, owner) && Grew(owner, owner1, d)
    requires d in dirs && 0 <= v < PAGES && Lookup(mem, d, v) == None && Offered(mem, owner, v, page, v)
    ensures Lookup(mem1, d, v) == None && Offered(mem1, owner1, v, page, v)
  {
    hide Lookup;
  }

  /** mappages' body is a walk and a write. */
  lemma MappedOne(mem: Mem, owner: Owners, mem1: Mem, owner1: Owners, mem2: Mem, owner2: Owners, dirs: set<int>,
                  d: int, v: int, page: int)
    requires SameSpaces(mem, mem1, dirs) && SameData(mem, mem1, owner) && Grew(owner, owner1, d)
    requires Tabled(mem, mem1, d, v, v + 1) && Offered(mem1, owner1, v, page, v)
    requires SameBut(mem1, mem2, dirs, d, v, v + 1) && SameData(mem1, mem2, owner1) && Tabled(mem1, mem2, d, v, v)
    requires owner2 == MappedOwner(owner1, d, v, page)
    ensures SameBut(mem, mem2, dirs, d, v, v + 1) && SameData(mem, mem2, owner)
    ensures Mapped(owner, owner2, d, v, v + 1, page) && Tabled(mem, mem2, d, v, v + 1)
  {
    hide Lookup, HasTable;
    var w := v + 1;
    assert forall p :: GoesTo(v, w, page, p) <==> p == page && v < USER_PAGES;
  }

  lemma MapNone(mem: Mem, owner: Owners, dirs: set<int>, d: int, v: int, page: int)
    ensures SameBut(mem, mem, dirs, d, v, v) && SameData(mem, mem, owner) && Mapped(owner, owner, d, v, v, page)
    ensures Tabled(mem, mem, d, v, v) && Lacks(mem, d, v, v) == 0
  {
    TabledNone(mem, d, v);
  }

  /** One more page of mappages' loop. */
  lemma MapOn(mem: Mem, owner: Owners, mem1: Mem, owner1: Owners, mem2: Mem, owner2: Owners, dirs: set<int>,
              d: int, v: int, n: nat, page: int, perm: nat, a: int)
    requires 0 <= v <= a < v + n <= PAGES && d in dirs
    requires SameBut(mem, mem1, dirs, d, v, a) && SameData(mem, mem1, owner) && Mapped(owner, owner1, d, v, a, page)
    requires forall w | v <= w < a :: Lookup(mem1, d, w) == Some(Entry(v, page, perm, w))
    requires forall w | a <= w < v + n :: Offered(mem1, owner1, v, page, w)
    requires Tabled(mem, mem1, d, v, a) && Tabled(mem1, mem2, d, a, a + 1)
    requires SameBut(mem1, mem2, dirs, d, a, a + 1) && SameData(mem1, mem2, owner1)
    requires Mapped(owner1, owner2, d, a, a + 1, page + (a - v))
    requires Lookup(mem2, d, a) == Some(Entry(a, page + (a - v), perm, a))
    ensures SameBut(mem, mem2, dirs, d, v, a + 1) && SameData(mem, mem2, owner)
    ensures Mapped(owner, owner2, d, v, a + 1, page) && Tabled(mem, mem2, d, v, a + 1)
    ensures forall w | v <= w < a + 1 :: Lookup(mem2, d, w) == Some(Entry(v, page, perm, w))
    ensures forall w | a + 1 <= w < v + n :: Offered(mem2, owner2, v, page, w)
  {
    hide Lookup, SameBut, SameData, Mapped, Tabled, Offered;
    SameButTrans(mem, mem1, mem2, dirs, d, v, a, a + 1);
    SameDataOn(mem, mem1, mem2, owner, owner1, d, v, a, page);
    MappedOn(owner, owner1, owner2, d, v, a, page);
    TabledNext(mem, mem1, mem2, d, v, a);
    forall w | v <= w < a ensures Lookup(mem2, d, w) == Some(Entry(v, page, perm, w)) {
      SameButAt(mem1, mem2, dirs, d, a, a + 1, d, w);
    }
    forall w | a + 1 <= w < v + n ensures Offered(mem2, owner2, v, page, w) {
      OfferedOn(mem1, owner1, mem2, owner2, d, v, page, a, w);
    }
  }

  class Kernel {
    var mem: Mem
    var freelist: Option<int>
    ghost var owner: Owners
    ghost var dirs: set<int>
    ghost var free: seq<int>

    ghost predicate Valid()
      reads this
    {
      TabInv(mem, owner, dirs) && FreeInv(mem, owner, free, freelist)
    }

    /** kinit1 and kinit2: every page from lo up to hi goes on the free list. */
    constructor (lo: int, hi: int)
      ensures Valid() && dirs == {} && owner == FreeUpto(lo, hi, hi)
    {
      mem := Fill(lo, hi, ZeroData());
      freelist := None;
      owner := FreeUpto(lo, hi, lo);
      dirs, free := {}, [];
      new;
      hide TabInv, FreeInv;
      StartEmpty(mem, owner, lo, hi);
      var p := lo;
      while p + 1 <= hi
        invariant lo <= p && (lo <= hi ==> p <= hi) && Valid() && dirs == {} && owner == FreeUpto(lo, hi, p)
        decreases hi - p
      {
        FreeOther(p);
        p := p + 1;
      }
    }

    method Kalloc() returns (r: Option<int>)
      requires Valid()
      modifies this`freelist, this`owner, this`free
      ensures Valid()
      ensures r.None? <==> forall p | p in owner :: old(owner)[p] != Free
      ensures r.None? ==> owner == old(owner) && free == old(free) == []
      ensures r.Some? ==> r.value in old(owner) && old(owner)[r.value] == Free && owner == old(owner)[r.value := Other]
      ensures r.Some? ==> |free| == |old(free)| - 1
    {
      hide TabInv, FreeInv;
      FreeParts(mem, owner, free, freelist);
      if freelist.None? {
        return None;
      }
      var p := freelist.value;
      PopFree(mem, owner, free, freelist);
      TabFrame(mem, owner, mem, owner[p := Other], dirs);
      freelist := mem[p].next;
      owner := owner[p := Other];
      free := free[1..];
      return Some(p);
    }

    method Kfree(p: int)
      requires FreeInv(mem, owner, free, freelist) && p in owner && owner[p] != Free
      modifies this`mem, this`freelist, this`owner, this`free
      ensures FreeInv(mem, owner, free, freelist)
      ensures mem == old(mem)[p := FreePage(old(freelist))] && owner == old(owner)[p := Free]
    {
      hide FreeInv;
      PushFree(mem, owner, free, freelist, p);
      mem := mem[p := FreePage(freelist)];
      freelist := Some(p);
      owner := owner[p := Free];
      free := [p] + free;
    }

    /** walkpgdir: the page of the table that holds the entry for virtual page v. */
    method Walk(d: int, v: int, alloc: bool) returns (r: Option<int>)
      requires Valid() && d in dirs && 0 <= v < PAGES
      modifies this`mem, this`freelist, this`owner, this`free
      ensures Valid() && SameSpaces(old(mem), mem, dirs) && SameData(old(mem), mem, old(owner))
              && Grew(old(owner), owner, d)
      ensures r.Some? ==> At(mem, d, v, r.value)
      ensures r.None? <==> !HasTable(old(mem), d, Pdx(v)) && (!alloc || old(free) == [])
      ensures r.None? || !alloc ==> mem == old(mem) && owner == old(owner) && free == old(free)
      ensures r.Some? ==> Tabled(old(mem), mem, d, v, v + 1)
      ensures r.Some? ==> |free| == |old(free)| - Lacks(old(mem), d, v, v + 1)
    {
      hide TabInv, FreeInv, Lookup, Of, Lacks;
      Split(v);
      LacksOne(mem, d, v);
      PdeFacts(mem, owner, dirs, d, Pdx(v));
      var pde := mem[d].ptes[Pdx(v)];
      if Present(pde) {
        return Some(pde.page);
      }
      if !alloc {
        return None;
      }
      r := Kalloc();
      if r.None? {
        return;
      }
      var t := r.value;
      FreeParts(mem, owner, free, freelist);
      NewTableTab(mem, owner, dirs, d, Pdx(v), t);
      WithTableIs(mem, d, Pdx(v), t);
      ghost var mem', owner' := WithTable(mem, d, Pdx(v), t), owner[t := Table(d, Pdx(v))];
      assert FreeInv(mem', owner', free, freelist) by {
        PdeFacts(mem, owner, dirs, d, Pdx(v));
        FreeFrame(mem, owner, mem', owner', free, freelist);
      }
      mem := mem[t := ZeroTable()];
      mem := mem[d := TablePage(mem[d].ptes[Pdx(v) := Pte(t, PTE_P + PTE_W + PTE_U)])];
      owner := owner';
    }

    /** The body of mappages' loop. It fails exactly if it needs a table and no page is free. */
    method MapOne(d: int, v: int, page: int, perm: nat) returns (ok: bool)
      requires Valid() && d in dirs && 0 <= v < PAGES && Lookup(mem, d, v) == None && Offered(mem, owner, v, page, v)
      modifies this`mem, this`freelist, this`owner, this`free
      ensures Valid() && SameData(old(mem), mem, old(owner))
      ensures ok <==> |old(free)| >= Lacks(old(mem), d, v, v + 1)
      ensures ok ==> Lookup(mem, d, v) == Some(Entry(v, page, perm, v)) && SameBut(old(mem), mem, dirs, d, v, v + 1)
      ensures ok ==> Mapped(old(owner), owner, d, v, v + 1, page) && Tabled(old(mem), mem, d, v, v + 1)
      ensures ok ==> |free| == |old(free)| - Lacks(old(mem), d, v, v + 1)
      ensures !ok ==> mem == old(mem) && owner == old(owner) && free == old(free) == []
    {
      hide TabInv, FreeInv, Lookup, Of, Lacks, HasTable, SameSpaces, SameData, SameBut, Grew, Mapped, Tabled, Offered,
           At;
      LacksOne(mem, d, v);
      var t := Walk(d, v, true);
      if t.None? {
        return false;
      }
      ghost var mem1, owner1 := mem, owner;
      WalkedTo(old(mem), old(owner), mem, owner, dirs, d, v, page);
      SetPte(d, v, t.value, page, perm);
      MappedOne(old(mem), old(owner), mem1, owner1, mem, owner, dirs, d, v, page);
      return true;
    }

    /** Writing a frame and its flags at the entry of an unmapped page, in table t. */
    method SetPte(d: int, v: int, t: int, page: int, perm: nat)
      requires Valid() && d in dirs && At(mem, d, v, t) && Lookup(mem, d, v) == None && Offered(mem, owner, v, page, v)
      modifies this`mem, this`owner
      ensures Valid() && Lookup(mem, d, v) == Some(Entry(v, page, perm, v)) && SameBut(old(mem), mem, dirs, d, v, v + 1)
      ensures owner == MappedOwner(old(owner), d, v, page) && SameData(old(mem), mem, old(owner))
      ensures Tabled(old(mem), mem, d, v, v)
    {
      hide TabInv, FreeInv, Lookup, Of, HasTable;
      Split(v);
      FreeParts(mem, owner, free, freelist);
      ghost var f := Entry(v, page, perm, v);
      ghost var mem1 := SetEnt(mem, t, Ptx(v), f);
      SetLookup(mem, owner, dirs, d, v, t, f);
      SetEntIs(mem, t, Ptx(v), f);
      TableFacts(mem, owner, dirs, d, v, t);
      KeepsTables(mem, owner, dirs, d, v, t, f);
      if v < USER_PAGES {
        MapUserTab(mem, owner, dirs, d, v, t, f);
      } else {
        MapKernelTab(mem, owner, dirs, d, v, t, f);
      }
      FreeFrame(mem, owner, mem1, MappedOwner(owner, d, v, page), free, freelist);
      mem := mem[t := TablePage(mem[t].ptes[Ptx(v) := Pte(page, OrPresent(perm))])];
      owner := MappedOwner(owner, d, v, page);
    }

    /** mappages, on n pages from v. The pages from v up to m are mapped: all of them exactly if
        there are as many free pages as tables to make. */
    method MapPages(d: int, v: int, n: nat, page: int, perm: nat) returns (ok: bool, ghost m: int)
      requires Valid() && d in dirs && n >= 1 && 0 <= v && v + n <= PAGES
      requires forall w | v <= w < v + n :: Lookup(mem, d, w) == None
      requires forall w | v <= w < v + n :: Offered(mem, owner, v, page, w)
      modifies this`mem, this`freelist, this`owner, this`free
      ensures Valid() && SameData(old(mem), mem, old(owner)) && v <= m <= v + n
      ensures SameBut(old(mem), mem, dirs, d, v, m) && Mapped(old(owner), owner, d, v, m, page)
      ensures forall w | v <= w < m :: Lookup(mem, d, w) == Some(Entry(v, page, perm, w))
      ensures ok <==> m == v + n
      ensures ok <==> |old(free)| >= Lacks(old(mem), d, v, v + n)
      ensures Tabled(old(mem), mem, d, v, m) && |free| == |old(free)| - Lacks(old(mem), d, v, m)
      ensures !ok ==> free == []
      ensures m == v ==> mem == old(mem) && owner == old(owner)
    {
      hide TabInv, FreeInv, Lookup, Of, Lacks, Tabled, Mapped, SameBut, SameData;
      var a, pa, last := v, page, v + n - 1;
      MapNone(mem, owner, dirs, d, v, page);
      while true
        invariant v <= a <= last && pa == page + (a - v) && Valid()
        invariant SameBut(old(mem), mem, dirs, d, v, a) && SameData(old(mem), mem, old(owner))
        invariant Mapped(old(owner), owner, d, v, a, page)
        invariant forall w | v <= w < a :: Lookup(mem, d, w) == Some(Entry(v, page, perm, w))
        invariant forall w | a <= w < v + n :: Offered(mem, owner, v, page, w)
        invariant Tabled(old(mem), mem, d, v, a) && |free| == |old(free)| - Lacks(old(mem), d, v, a)
        invariant a == v ==> mem == old(mem) && owner == old(owner)
        decreases last - a
      {
        ghost var mem1, owner1 := mem, owner;
        assert Lookup(mem, d, a) == None by { SameButAt(old(mem), mem, dirs, d, v, a, d, a); }
        LacksNext(old(mem), mem, d, v, a);
        LacksGrows(old(mem), d, v, a + 1, v + n);
        assert Offered(mem, owner, v, page, a);
        ok := MapOne(d, a, pa, perm);
        if !ok {
          m := a;
          return;
        }
        MapOn(old(mem), old(owner), mem1, owner1, mem, owner, dirs, d, v, n, page, perm, a);
        if a == last {
          m := v + n;
          return;
        }
        a, pa := a + 1, pa + 1;
      }
    }

    /** Freeing the frame at a mapped user page, and clearing its entry in table t. */
    method UnmapOne(d: int, v: int, t: int)
      requires Valid() && d in dirs && At(mem, d, v, t) && 0 <= v < USER_PAGES && Lookup(mem, d, v).Some?
      modifies this`mem, this`freelist, this`owner, this`free
      ensures Valid() && Lookup(mem, d, v) == None && SameBut(old(mem), mem, dirs, d, v, v + 1)
      ensures Unmapped(old(owner), owner, d, v, v + 1) && SameData(old(mem), mem, owner)
    {
      hide TabInv, FreeInv, Of;
      Split(v);
      var pa := mem[t].ptes[Ptx(v)].page;
      ghost var mem0, owner0 := mem, owner;
      FreeParts(mem, owner, free, freelist);
      UnmapTab(mem, owner, dirs, d, v, t);
      SetLookup(mem, owner, dirs, d, v, t, Zero());
      SetEntIs(mem, t, Ptx(v), Zero());
      OnlyUser(mem, owner, dirs, d, v);
      ghost var mem1 := SetEnt(mem, t, Ptx(v), Zero());
      TableFacts(mem, owner, dirs, d, v, t);
      Kfree(pa);
      ghost var mem2 := mem1[pa := mem[pa]];
      FreeFrame(mem, owner, mem2, owner, free, freelist);
      TabFrame(mem1, owner0[pa := Other], mem2, owner, dirs);
      mem := mem[t := TablePage(mem[t].ptes[Ptx(v) := Zero()])];
      assert mem == mem2;
    }

    /** The body of deallocuvm's loop on page v: with no table there is nothing up to the next table. */
    method DeallocAt(d: int, v: int, ghost hi: int) returns (absent: bool)
      requires Valid() && d in dirs && 0 <= v < hi <= USER_PAGES
      modifies this`mem, this`freelist, this`owner, this`free
      ensures Valid()
      ensures var w := if absent then Min(ENTRIES * (Pdx(v) + 1), hi) else v + 1;
              && v < w <= hi && SameBut(old(mem), mem, dirs, d, v, w) && Unmapped(old(owner), owner, d, v, w)
              && SameData(old(mem), mem, owner) && forall u | v <= u < w :: Lookup(mem, d, u) == None
    {
      hide TabInv, FreeInv, Of, Lookup, SameBut, SameData, Unmapped;
      var t := Walk(d, v, false);
      if t.None? {
        NoTable(mem, d, v);
        StillUnmapped(mem, owner, dirs, d, v, Min(ENTRIES * (Pdx(v) + 1), hi));
        return true;
      }
      Split(v);
      EntryAt(mem, d, v, t.value);
      if Present(mem[t.value].ptes[Ptx(v)]) {
        UnmapOne(d, v, t.value);
      } else {
        StillUnmapped(mem, owner, dirs, d, v, v + 1);
      }
      return false;
    }

    /** deallocuvm, which steps over absent tables: the frames it frees are those of a scan of every
        page from newsz up to oldsz. */
    method Deallocuvm(d: int, oldsz: nat, newsz: nat) returns (r: nat)
      requires Valid() && d in dirs && oldsz <= KERNBASE
      modifies this`mem, this`freelist, this`owner, this`free
      ensures Valid() && r == if newsz >= oldsz then oldsz else newsz
      ensures Freed(old(mem), old(owner), mem, owner, dirs, d, FirstPage(newsz), FirstPage(oldsz))
    {
      hide TabInv, FreeInv, Of, Lookup, SameBut, SameData, Unmapped, Freed, Pdx;
      ghost var lo, hi := FirstPage(newsz), FirstPage(oldsz);
      if newsz >= oldsz {
        FreedNone(mem, owner, dirs, d, lo, hi);
        return oldsz;
      }
      FreeParts(mem, owner, free, freelist);
      FreedNone(mem, owner, dirs, d, lo, lo);
      var a := (newsz + PGSIZE - 1) / PGSIZE * PGSIZE;
      ghost var v := lo;
      while a < oldsz
        invariant a == PGSIZE * v && lo <= v
        invariant Valid() && Freed(old(mem), old(owner), mem, owner, dirs, d, lo, Min(v, hi))
        decreases KERNBASE + PGSIZE * ENTRIES - a
      {
        PageBelow(a, v, oldsz);
        ghost var mem', owner' := mem, owner;
        var absent := DeallocAt(d, a / PGSIZE, hi);
        ghost var w := v + 1;
        if absent {
          TableAfter(v);
          a := PGSIZE * ENTRIES * (Pdx(a / PGSIZE) + 1) - PGSIZE;
          w := ENTRIES * (Pdx(v) + 1);
        }
        FreedOn(old(mem), old(owner), mem', owner', mem, owner, dirs, d, lo, v, Min(w, hi));
        a := a + PGSIZE;
        v := w;
      }
      PagesDone(a, v, oldsz);
      return newsz;
    }

    /** kfree of a page in the caller's hands. */
    method FreeOther(p: int)
      requires Valid() && p in owner && owner[p] == Other
      modifies this`mem, this`freelist, this`owner, this`free
      ensures Valid() && owner == old(owner)[p := Free] && mem == old(mem)[p := FreePage(old(freelist))]
      ensures SameSpaces(old(mem), mem, dirs) && SameData(old(mem), mem, owner)
    {
      hide TabInv, FreeInv, Lookup;
      FreeParts(mem, owner, free, freelist);
      Kfree(p);
      FreeParts(mem, owner, free, freelist);
      TabFrame(old(mem), old(owner), mem, owner, dirs);
    }

    /** freevm: every page of directory d goes back to the free list. */
    method Freevm(d: int)
      requires Valid() && d in dirs
      modifies this
      ensures Valid() && dirs == old(dirs) - {d} && Reclaimed(old(owner), owner, d)
      ensures SameSpaces(old(mem), mem, dirs) && SameData(old(mem), mem, owner)
    {
      hide TabInv, FreeInv, Lookup, SameBut, SameData, Unmapped, SameSpaces, Freed, Reclaimed;
      FreeParts(mem, owner, free, freelist);
      var z := Deallocuvm(d, KERNBASE, 0);
      ghost var owner1, mem1 := owner, mem;
      NoUsersLeft(old(mem), old(owner), mem, owner, dirs, d);
      PdeFacts(mem, owner, dirs, d, 0);
      RetireAll(d);
      NothingYet(mem1, owner, dirs);
      for i := 0 to ENTRIES
        invariant Valid() && dirs == old(dirs) - {d} && owner == RetiredUpto(owner1, d, i)
        invariant d in mem && mem[d] == mem1[d] && SameSpaces(mem1, mem, dirs) && SameData(mem1, mem, owner)
      {
        RetiredNext(mem1, owner1, old(dirs), d, i);
        var pde := mem[d].ptes[i];
        ghost var mem', owner' := mem, owner;
        if Present(pde) {
          FreeOther(pde.page);
          SameOn(mem1, mem', mem, owner', owner, dirs);
        }
      }
      RetiredEnd(mem1, owner1, old(dirs), d);
      ghost var mem', owner' := mem, owner;
      FreeOther(d);
      SameOn(mem1, mem', mem, owner', owner, dirs);
      FreedAll(old(mem), old(owner), mem1, owner1, mem, owner, old(dirs), d);
    }

    /** kalloc, and filling the page. */
    method NewPage(content: Page) returns (r: Option<int>)
      requires Valid()
      modifies this`mem, this`freelist, this`owner, this`free
      ensures Valid() && SameSpaces(old(mem), mem, dirs) && SameData(old(mem), mem, old(owner))
      ensures r.None? ==> mem == old(mem) && owner == old(owner) && old(free) == []
      ensures r.Some? ==> r.value in old(owner) && old(owner)[r.value] == Free
                          && owner == old(owner)[r.value := Other] && mem == old(mem)[r.value := content]
                          && |free| == |old(free)| - 1
    {
      hide TabInv, FreeInv, Lookup;
      r := Kalloc();
      if r.None? {
        return;
      }
      var p := r.value;
      FreeParts(mem, owner, free, freelist);
      FreeFrame(mem, owner, mem[p := content], owner, free, freelist);
      TabFrame(mem, owner, mem[p := content], owner, dirs);
      mem := mem[p := content];
    }

    /** setupkvm: a directory with the kernel's mappings and no user page, or nothing changed. It
        takes the directory and 64 tables, and fails exactly if there are not that many free pages. */
    method Setupkvm(data: int) returns (r: Option<int>)
      requires Valid() && 0x100 < data < 0xE000
      modifies this
      ensures Valid()
      ensures r.Some? <==> |old(free)| >= KERNEL_PAGES
      ensures r.None? ==> owner == old(owner) && dirs == old(dirs)
      ensures r.Some? ==> r.value !in old(dirs) && dirs == old(dirs) + {r.value} && Took(old(owner), owner, r.value)
      ensures r.Some? ==> forall v | 0 <= v < PAGES :: Lookup(mem, r.value, v) == KernelPage(data, v)
      ensures r.Some? ==> |free| == |old(free)| - KERNEL_PAGES
      ensures r.Some? ==> forall i | 0 <= i < USER_TABLES :: !HasTable(mem, r.value, i)
      ensures SameSpaces(old(mem), mem, old(dirs)) && SameData(old(mem), mem, old(owner))
    {
      hide TabInv, FreeInv, Lookup, SameBut, SameData, SameSpaces, Took, Mapped, Lacks, HasTable, KernelTables,
           KernelCount, KernelRange, Tabled;
      NothingYet(mem, owner, dirs);
      KernelCounts(data);
      r := NewPage(ZeroTable());
      if r.None? {
        return;
      }
      var d := r.value;
      AddDir(d, old(mem), old(owner), old(dirs));
      KernelStart(mem, d, data);
      for k := 0 to 4
        invariant Valid() && dirs == old(dirs) + {d} && d !in old(dirs) && Took(old(owner), owner, d)
        invariant forall v | 0 <= v < PAGES :: Lookup(mem, d, v) == KernelEntry(data, k, v)
        invariant SameSpaces(old(mem), mem, old(dirs)) && SameData(old(mem), mem, old(owner))
        invariant KernelTables(mem, d, data, k) && |free| == |old(free)| - 1 - KernelCount(data, k)
      {
        var m := Kmap(data)[k];
        KmapDisjoint(data, k);
        KmapRange(data, k);
        KernelLacks(mem, d, data, k, m.virt, m.virt + m.n);
        ghost var mem', owner' := mem, owner;
        ghost var done: int;
        var ok;
        ok, done := MapPages(d, m.virt, m.n, m.phys, m.perm);
        TookMore(old(mem), old(owner), mem', owner', mem, owner, old(dirs), d, m.virt, done, m.phys);
        if !ok {
          ghost var mem2, owner2 := mem, owner;
          Freevm(d);
          Restored(old(mem), old(owner), mem2, owner2, mem, owner, old(dirs), d);
          return None;
        }
        KernelNext(mem', mem, dirs, d, data, k);
        KernelStep(mem', mem, d, data, k, m.virt, m.virt + m.n);
      }
      NoUserTables(mem, d, data);
      KernelPages(data);
    }

    /** allocuvm: zeroed frames at every page from oldsz up to newsz, or no new frame at all. On a
        legal range it fails exactly if there are fewer free pages than frames and tables to make. */
    method Allocuvm(d: int, oldsz: nat, newsz: nat) returns (r: nat, ghost done: bool)
      requires Valid() && d in dirs
      requires oldsz <= newsz < KERNBASE ==>
                 forall v | FirstPage(oldsz) <= v < FirstPage(newsz) :: Lookup(mem, d, v) == None
      modifies this`mem, this`freelist, this`owner, this`free
      ensures Valid() && SameData(old(mem), mem, old(owner))
      ensures newsz >= KERNBASE ==> r == 0 && !done && mem == old(mem) && owner == old(owner)
      ensures newsz < KERNBASE && newsz < oldsz ==> r == oldsz && !done && mem == old(mem) && owner == old(owner)
      ensures oldsz <= newsz < KERNBASE ==> r == if done then newsz else 0
      ensures oldsz <= newsz < KERNBASE ==>
                (done <==> |old(free)| >= GrowthNeed(old(mem), d, FirstPage(oldsz), FirstPage(newsz)))
      ensures done ==> |free| == |old(free)| - GrowthNeed(old(mem), d, FirstPage(oldsz), FirstPage(newsz))
      ensures done ==> Extended(old(mem), old(owner), mem, owner, dirs, d, FirstPage(oldsz), FirstPage(newsz))
      ensures !done ==> SameSpaces(old(mem), mem, dirs) && Grew(old(owner), owner, d)
    {
      hide TabInv, FreeInv, Lookup, SameBut, SameData, SameSpaces, Extended, Mapped, Grew, Freed, Lacks, HasTable,
           Tabled;
      NothingYet(mem, owner, dirs);
      GrewNone(owner, d);
      if newsz >= KERNBASE {
        return 0, false;
      }
      if newsz < oldsz {
        return oldsz, false;
      }
      ghost var lo, hi := FirstPage(oldsz), FirstPage(newsz);
      FirstPageOrder(oldsz, newsz);
      FreeParts(mem, owner, free, freelist);
      ExtendedNone(mem, owner, dirs, d, lo);
      TabledNone(mem, d, lo);
      var a := (oldsz + PGSIZE - 1) / PGSIZE * PGSIZE;
      while a < newsz
        invariant a % PGSIZE == 0 && lo <= a / PGSIZE <= hi
        invariant Valid() && SameData(old(mem), mem, old(owner))
        invariant Extended(old(mem), old(owner), mem, owner, dirs, d, lo, a / PGSIZE)
        invariant Tabled(old(mem), mem, d, lo, a / PGSIZE)
        invariant |free| == |old(free)| - GrowthNeed(old(mem), d, lo, a / PGSIZE)
        decreases newsz - a
      {
        var v := a / PGSIZE;
        assert v < hi <= USER_PAGES;
        FreeParts(mem, owner, free, freelist);
        ghost var mem1, owner1 := mem, owner;
        GrowthNext(old(mem), mem1, d, lo, v, hi);
        var f := NewPage(ZeroData());
        if f.None? {
          var z := Deallocuvm(d, newsz, oldsz);
          Withdrawn(old(mem), old(owner), mem1, owner1, mem1, owner1, mem, owner, dirs, d, lo, v, hi);
          return 0, false;
        }
        ghost var mem2, owner2 := mem, owner;
        assert Lookup(mem, d, v) == None by {
          StillNone(old(mem), old(owner), mem1, owner1, mem2, dirs, d, lo, v);
        }
        SameTables(mem1, owner1, dirs, d, f.value, ZeroData(), v);
        ghost var m: int;
        var ok;
        ok, m := MapPages(d, v, 1, f.value, PTE_W + PTE_U);
        if !ok {
          var z := Deallocuvm(d, newsz, oldsz);
          ghost var mem3, owner3 := mem, owner;
          HeldThrough(mem2, owner2, mem3, owner3, dirs, d, lo, hi, f.value);
          FreeOther(f.value);
          WithdrawnOther(old(mem), old(owner), mem1, owner1, mem2, owner2, mem3, owner3, mem, owner, dirs, d,
                         lo, v, hi, f.value);
          return 0, false;
        }
        ExtendedOn(old(mem), old(owner), mem1, owner1, mem2, owner2, mem, owner, dirs, d, lo, v, f.value);
        ExtendedData(old(mem), old(owner), mem1, owner1, mem2, owner2, mem, dirs, d, lo, v, f.value);
        TabledAfter(old(mem), mem1, mem2, mem, d, lo, v);
        a := a + PGSIZE;
      }
      assert a / PGSIZE == hi;
      return newsz, true;
    }

    /** copyuvm: a second address space whose user pages hold the same bytes with the same flags in
        frames that were free, or nothing changed. It fails exactly if the free pages do not suffice
        for the kernel's half, the frames and the tables over them. */
    method Copyuvm(s: int, sz: nat, data: int) returns (r: Option<int>)
      requires Valid() && s in dirs && sz <= KERNBASE && 0x100 < data < 0xE000
      requires forall v | 0 <= v < FirstPage(sz) :: Lookup(mem, s, v).Some?
      modifies this
      ensures Valid() && SameSpaces(old(mem), mem, old(dirs)) && SameData(old(mem), mem, old(owner))
      ensures r.Some? <==> |old(free)| >= CopyNeed(FirstPage(sz))
      ensures r.None? ==> owner == old(owner) && dirs == old(dirs)
      ensures r.Some? ==> r.value !in old(dirs) && dirs == old(dirs) + {r.value}
                          && CopyOf(old(mem), old(owner), mem, owner, s, r.value, data, FirstPage(sz))
      ensures r.Some? ==> |free| == |old(free)| - CopyNeed(FirstPage(sz))
    {
      hide TabInv, FreeInv, Lookup, SameBut, SameData, SameSpaces, Took, Mapped, Grew, CopyOf, KernelEntry, Reclaimed,
           Of, Lacks, HasTable, Tabled, Pdx, FirstPage;
      FreeParts(mem, owner, free, freelist);
      ghost var n := FirstPage(sz);
      r := Setupkvm(data);
      if r.None? {
        return;
      }
      var d := r.value;
      ghost var mem0 := mem;
      CopyNone(old(mem), old(owner), mem, owner, s, d, data);
      TabledNone(mem, d, 0);
      UserSize(sz);
      LacksAll(mem, d, n);
      var i := 0;
      ghost var done := 0;
      while i < sz
        invariant i == PGSIZE * done && done <= n
        invariant Valid() && d !in old(dirs) && dirs == old(dirs) + {d}
        invariant SameSpaces(old(mem), mem, old(dirs)) && SameData(old(mem), mem, old(owner))
        invariant CopyOf(old(mem), old(owner), mem, owner, s, d, data, done)
        invariant Tabled(mem0, mem, d, 0, done)
        invariant |free| == |old(free)| - KERNEL_PAGES - GrowthNeed(mem0, d, 0, done)
        decreases PGSIZE * FirstPage(sz) - i
      {
        PageBelow(i, done, sz);
        var v := i / PGSIZE;
        var t := Walk(s, v, false);
        SourceAt(old(mem), mem, owner, old(dirs), dirs, s, v, t);
        EntryAt(mem, s, v, t.value);
        var pte := mem[t.value].ptes[Ptx(v)];
        ghost var mem1, owner1 := mem, owner;
        FreeParts(mem, owner, free, freelist);
        GrowthNext(mem0, mem1, d, 0, v, n);
        var f := NewPage(mem[pte.page]);
        if f.None? {
          Freevm(d);
          NothingYet(mem1, owner1, old(dirs));
          CopyUndone(old(mem), old(owner), mem1, owner1, mem1, owner1, mem, owner, old(dirs), s, d, data, v);
          return None;
        }
        ghost var mem2, owner2 := mem, owner;
        assert Lookup(mem, d, v) == None by {
          NotYetCopied(old(mem), old(owner), mem1, owner1, mem2, dirs, s, d, data, v);
        }
        SameTables(mem1, owner1, dirs, d, f.value, mem1[pte.page], v);
        ghost var m: int;
        var ok;
        ok, m := MapPages(d, v, 1, f.value, pte.flags);
        if !ok {
          FreeOther(f.value);
          ghost var mem3, owner3 := mem, owner;
          PageUndone(mem1, owner1, mem2, mem3, owner3, old(dirs), dirs);
          Freevm(d);
          CopyUndone(old(mem), old(owner), mem1, owner1, mem3, owner3, mem, owner, old(dirs), s, d, data, v);
          return None;
        }
        CopyOn(old(mem), old(owner), mem1, owner1, mem2, owner2, mem, owner, old(dirs), s, d, data, v, f.value, pte);
        TabledAfter(mem0, mem1, mem2, mem, d, 0, v);
        i := i + PGSIZE;
        done := done + 1;
      }
      PagesDone(i, done, sz);
    }

    /** A zeroed page becomes a directory. */
    ghost method AddDir(d: int, mem0: Mem, owner0: Owners, dirs0: set<int>)
      requires Valid() && d in owner && owner[d] == Other && d in mem && mem[d] == ZeroTable() && dirs == dirs0
      requires d in owner0 && owner0[d] == Free && owner == owner0[d := Other] && TabInv(mem0, owner0, dirs0)
      requires SameSpaces(mem0, mem, dirs0)
      modifies this`owner, this`dirs
      ensures Valid() && dirs == dirs0 + {d} && d !in dirs0 && Took(owner0, owner, d)
      ensures forall v | 0 <= v < PAGES :: Lookup(mem, d, v) == None
      ensures forall i | 0 <= i < ENTRIES :: !HasTable(mem, d, i)
    {
      hide TabInv, FreeInv, Lookup, Of;
      FreeParts(mem, owner, free, freelist);
      NewDirTab(mem, owner, dirs, d);
      assert mem == mem[d := ZeroTable()];
      FreeFrame(mem, owner, mem, owner[d := Dir(d)], free, freelist);
      owner := owner[d := Dir(d)];
      dirs := dirs + {d};
      assert Of(Dir(d), d) by { OfDir(d); }
    }

    /** From here on the directory and its tables are the caller's pages. */
    ghost method RetireAll(d: int)
      requires Valid() && d in dirs && forall p | p in owner :: !(owner[p].User? && owner[p].d == d)
      modifies this`owner, this`dirs
      ensures Valid() && owner == RetiredUpto(old(owner), d, 0) && dirs == old(dirs) - {d}
    {
      hide FreeInv, Lookup;
      FreeParts(mem, owner, free, freelist);
      RetireTab(mem, owner, dirs, d);
      ghost var o := RetiredUpto(owner, d, 0);
      RetiredStart(mem, owner, dirs, d);
      FreeFrame(mem, owner, mem, o, free, freelist);
      owner := o;
      dirs := dirs - {d};
    }
  }

  /** Everything that belonged to d is free, everything else is as it was. */
  ghost predicate Reclaimed(owner: Owners, owner': Owners, d: int) {
    && owner.Keys == owner'.Keys
    && forall p | p in owner :: owner'[p] == if Of(owner[p], d) then Free else owner[p]
  }

  predicate TableBelow(o: Owner, d: int, i: int) { o.Table? && o.d == d && o.i < i }

  /** The first i tables of a retired directory are free, the rest of it is the caller's. */
  function RetiredUpto(owner: Owners, d: int, i: int): Owners {
    map p | p in owner :: if TableBelow(owner[p], d, i) then Free else if Of(owner[p], d) then Other else owner[p]
  }

  lemma RetiredStart(mem: Mem, owner: Owners, dirs: set<int>, d: int)
    requires TabInv(mem, owner, dirs)
    ensures RetiredUpto(owner, d, 0) == Retired(owner, d)
  {
    forall p | p in owner ensures !TableBelow(owner[p], d, 0) {
      assert OwnOk(mem, owner, dirs, p);
    }
  }

  lemma RetiredNext(mem: Mem, owner: Owners, dirs: set<int>, d: int, i: int)
    requires TabInv(mem, owner, dirs) && d in dirs && 0 <= i < ENTRIES
    ensures IsTable(mem, d)
    ensures var e := mem[d].ptes[i];
            var o := RetiredUpto(owner, d, i);
            && (Present(e) ==> e.page in o && o[e.page] == Other && e.page != d)
            && RetiredUpto(owner, d, i + 1) == if Present(e) then o[e.page := Free] else o
  {
    assert DirOk(mem, owner, d) && PdeOk(mem, owner, d, i);
    forall p | p in owner ensures TableBelow(owner[p], d, i + 1) <==>
                                  TableBelow(owner[p], d, i) || (Present(Ent(mem, d, i)) && p == Ent(mem, d, i).page)
    {
      assert OwnOk(mem, owner, dirs, p);
    }
  }

  lemma RetiredEnd(mem: Mem, owner: Owners, dirs: set<int>, d: int)
    requires TabInv(mem, owner, dirs) && d in dirs
    ensures d in owner && RetiredUpto(owner, d, ENTRIES)[d] == Other
  {
    assert DirOk(mem, owner, d);
  }

  /** After deallocuvm of the whole user half no frame belongs to d. */
  lemma NoUsersLeft(mem: Mem, owner: Owners, mem': Mem, owner': Owners, dirs: set<int>, d: int)
    requires TabInv(mem, owner, dirs) && Freed(mem, owner, mem', owner', dirs, d, FirstPage(0), FirstPage(KERNBASE))
    ensures forall p | p in owner' :: !(owner'[p].User? && owner'[p].d == d)
  {
    forall p | p in owner' ensures !(owner'[p].User? && owner'[p].d == d) {
      assert OwnOk(mem, owner, dirs, p);
    }
  }

  lemma NothingYet(mem: Mem, owner: Owners, dirs: set<int>)
    ensures SameSpaces(mem, mem, dirs) && SameData(mem, mem, owner)
  {
  }

  lemma SameOn(a: Mem, b: Mem, c: Mem, o: Owners, o': Owners, dirs: set<int>)
    requires SameSpaces(a, b, dirs) && SameSpaces(b, c, dirs) && SameData(a, b, o) && SameData(b, c, o')
    requires forall p | p in o' && Holds(o'[p]) :: p in o && Holds(o[p])
    ensures SameSpaces(a, c, dirs) && SameData(a, c, o')
  {
    hide Lookup;
  }

  lemma FreedAll(mem: Mem, owner: Owners, mem1: Mem, owner1: Owners, mem': Mem, owner': Owners, dirs: set<int>, d: int)
    requires TabInv(mem, owner, dirs) && TabInv(mem1, owner1, dirs) && SameKeys(mem, owner) && d in dirs && d in owner1
    requires Freed(mem, owner, mem1, owner1, dirs, d, FirstPage(0), FirstPage(KERNBASE))
    requires owner' == RetiredUpto(owner1, d, ENTRIES)[d := Free]
    requires SameSpaces(mem1, mem', dirs - {d}) && SameData(mem1, mem', owner')
    ensures Reclaimed(owner, owner', d) && SameSpaces(mem, mem', dirs - {d}) && SameData(mem, mem', owner')
  {
    hide Lookup;
    forall p | p in owner ensures owner'[p] == if Of(owner[p], d) then Free else owner[p] {
      assert OwnOk(mem, owner, dirs, p) && OwnOk(mem1, owner1, dirs, p);
    }
    forall p | p in owner' && Holds(owner'[p]) ensures p in owner1 && Holds(owner1[p]) {
      assert OwnOk(mem1, owner1, dirs, p);
    }
  }

  lemma OfDir(d: int)
    ensures Of(Dir(d), d)
  {
  }

  // The kernel's mappings.

  /** An entry of kmap, in pages. */
  datatype Region = Region(virt: int, n: nat, phys: int, perm: nat)

  /** kmap, for kernel data starting at physical page data. */
  function Kmap(data: int): (r: seq<Region>)
    requires 0x100 < data < 0xE000
  {
    [Region(0x80000, 0x100, 0, PTE_W),
     Region(0x80100, data - 0x100, 0x100, 0),
     Region(0x80000 + data, 0xE000 - data, data, PTE_W),
     Region(0xFE000, 0x2000, 0xFE000, PTE_W)]
  }

  /** What the first k entries of kmap say of virtual page v. */
  function KernelEntry(data: int, k: nat, v: int): Option<Pte>
    requires 0x100 < data < 0xE000 && k <= 4
  {
    if k == 0 then None
    else
      var m := Kmap(data)[k - 1];
      if m.virt <= v < m.virt + m.n then Some(Entry(m.virt, m.phys, m.perm, v)) else KernelEntry(data, k - 1, v)
  }

  /** The kernel's half of every address space: physical memory up to 0xE000000 from virtual address
      KERNBASE on, writable except for the kernel's own text, and the devices at their own addresses;
      nothing is open to users. */
  function KernelPage(data: int, v: int): Option<Pte> {
    if 0x80000 <= v < 0x80000 + 0xE000 then
      Some(Pte(v - 0x80000, if 0x80100 <= v < 0x80000 + data then PTE_P else PTE_P + PTE_W))
    else if 0xFE000 <= v then Some(Pte(v, PTE_P + PTE_W))
    else None
  }

  /** The four entries of kmap together say just that. */
  lemma KernelPages(data: int)
    requires 0x100 < data < 0xE000
    ensures forall v | 0 <= v < PAGES :: KernelEntry(data, 4, v) == KernelPage(data, v)
  {
    forall v | 0 <= v < PAGES ensures KernelEntry(data, 4, v) == KernelPage(data, v) {
      FirstEntries(data, v);
    }
  }

  lemma FirstEntries(data: int, v: int)
    requires 0x100 < data < 0xE000
    ensures KernelEntry(data, 2, v) == if 0x80000 <= v < 0x80000 + data then KernelPage(data, v) else None
  {
    assert KernelEntry(data, 1, v) == if 0x80000 <= v < 0x80100 then Some(Pte(v - 0x80000, PTE_P + PTE_W)) else None;
  }

  lemma KmapDisjoint(data: int, k: nat)
    requires 0x100 < data < 0xE000 && k < 4
    ensures var m := Kmap(data)[k];
            && m.n >= 1 && USER_PAGES <= m.virt && m.virt + m.n <= PAGES
            && forall v | m.virt <= v < m.virt + m.n :: KernelEntry(data, k, v) == None
  {
    var m := Kmap(data)[k];
    forall v | m.virt <= v < m.virt + m.n ensures KernelEntry(data, k, v) == None {
      if k >= 1 {
        assert KernelEntry(data, 1, v) == None;
      }
      if k >= 2 {
        assert KernelEntry(data, 2, v) == None;
      }
    }
  }

  lemma KmapRange(data: int, k: nat)
    requires 0x100 < data < 0xE000 && k < 4
    ensures KernelRange(data, k, Kmap(data)[k].virt, Kmap(data)[k].virt + Kmap(data)[k].n)
  {
  }

  lemma KernelStart(mem: Mem, d: int, data: int)
    requires forall i | 0 <= i < ENTRIES :: !HasTable(mem, d, i)
    ensures KernelTables(mem, d, data, 0)
  {
  }

  lemma NoUserTables(mem: Mem, d: int, data: int)
    requires 0x100 < data < 0xE000 && KernelTables(mem, d, data, 4)
    ensures forall i | 0 <= i < USER_TABLES :: !HasTable(mem, d, i)
  {
  }

  lemma KernelNext(mem: Mem, mem': Mem, dirs: set<int>, d: int, data: int, k: nat)
    requires 0x100 < data < 0xE000 && k < 4 && d in dirs
    requires forall v | 0 <= v < PAGES :: Lookup(mem, d, v) == KernelEntry(data, k, v)
    requires var m := Kmap(data)[k];
             && SameBut(mem, mem', dirs, d, m.virt, m.virt + m.n)
             && forall v | m.virt <= v < m.virt + m.n :: Lookup(mem', d, v) == Some(Entry(m.virt, m.phys, m.perm, v))
    ensures forall v | 0 <= v < PAGES :: Lookup(mem', d, v) == KernelEntry(data, k + 1, v)
  {
    hide Lookup;
  }

  // Taking pages and giving them back.

  /** Nothing changed hands but free pages that now belong to d. */
  ghost predicate Took(owner: Owners, owner': Owners, d: int) {
    && owner.Keys == owner'.Keys
    && forall p | p in owner :: owner'[p] == owner[p] || (owner[p] == Free && Of(owner'[p], d))
  }

  lemma TookMore(mem: Mem, owner: Owners, mem1: Mem, owner1: Owners, mem2: Mem, owner2: Owners, dirs: set<int>, d: int,
                 v: int, w: int,
                 page: int)
    requires Took(owner, owner1, d) && SameSpaces(mem, mem1, dirs) && SameData(mem, mem1, owner) && d !in dirs
    requires SameBut(mem1, mem2, dirs + {d}, d, v, w) && SameData(mem1, mem2, owner1)
    requires v >= USER_PAGES && Mapped(owner1, owner2, d, v, w, page)
    ensures Took(owner, owner2, d) && SameSpaces(mem, mem2, dirs) && SameData(mem, mem2, owner)
  {
    hide Lookup;
  }

  /** Giving back all that d took restores the owners. */
  lemma Restored(mem: Mem, owner: Owners, mem1: Mem, owner1: Owners, mem2: Mem, owner2: Owners, dirs: set<int>, d: int)
    requires TabInv(mem, owner, dirs) && d !in dirs && Took(owner, owner1, d) && Reclaimed(owner1, owner2, d)
    requires SameSpaces(mem, mem1, dirs) && SameSpaces(mem1, mem2, dirs) && SameData(mem, mem1, owner)
             && SameData(mem1, mem2, owner2)
    ensures owner2 == owner && SameSpaces(mem, mem2, dirs) && SameData(mem, mem2, owner)
  {
    hide Lookup;
    forall p | p in owner ensures owner2[p] == owner[p] {
      assert OwnOk(mem, owner, dirs, p);
    }
  }

  // Growing a process.

  /** allocuvm has mapped a fresh zeroed frame at each page from lo up to v. */
  ghost predicate Extended(mem: Mem, owner: Owners, mem': Mem, owner': Owners, dirs: set<int>, d: int, lo: int,
                           v: int) {
    && SameBut(mem, mem', dirs, d, lo, v) && owner.Keys == owner'.Keys
    && (forall u | lo <= u < v && 0 <= u < PAGES :: FreshAt(owner, mem', d, u))
    && (forall p | p in owner :: owner'[p] == owner[p]
          || (owner[p] == Free && ((owner'[p].Table? && owner'[p].d == d) || UserIn(owner'[p], d, lo, v))))
  }

  /** Page u of d maps a zeroed frame that was free. */
  ghost predicate FreshAt(owner: Owners, mem: Mem, d: int, u: int) {
    var e := Lookup(mem, d, u);
    e.Some? && e.value.flags == PTE_P + PTE_W + PTE_U && e.value.page in owner && owner[e.value.page] == Free
    && e.value.page in mem && mem[e.value.page] == ZeroData()
  }

  lemma ExtendedNone(mem: Mem, owner: Owners, dirs: set<int>, d: int, lo: int)
    ensures Extended(mem, owner, mem, owner, dirs, d, lo, lo)
  {
  }

  lemma GrewNone(owner: Owners, d: int)
    ensures Grew(owner, owner, d)
  {
  }

  lemma StillNone(mem: Mem, owner: Owners, mem1: Mem, owner1: Owners, mem2: Mem, dirs: set<int>, d: int, lo: int,
                  v: int)
    requires Extended(mem, owner, mem1, owner1, dirs, d, lo, v) && SameSpaces(mem1, mem2, dirs) && d in dirs
             && 0 <= lo <= v < PAGES
    requires Lookup(mem, d, v) == None
    ensures Lookup(mem2, d, v) == None
  {
    hide Lookup;
  }

  lemma ExtendedOn(mem: Mem, owner: Owners, mem1: Mem, owner1: Owners, mem2: Mem, owner2: Owners, mem3: Mem,
                   owner3: Owners,
                   dirs: set<int>, d: int, lo: int, v: int, f: int)
    requires TabInv(mem1, owner1, dirs) && d in dirs && 0 <= lo <= v < USER_PAGES && SameKeys(mem1, owner1)
    requires Extended(mem, owner, mem1, owner1, dirs, d, lo, v) && SameSpaces(mem1, mem2, dirs)
    requires f in owner1 && owner1[f] == Free && owner2 == owner1[f := Other] && mem2 == mem1[f := ZeroData()]
    requires SameBut(mem2, mem3, dirs, d, v, v + 1) && SameData(mem2, mem3, owner2)
             && Mapped(owner2, owner3, d, v, v + 1, f)
    requires Lookup(mem3, d, v) == Some(Entry(v, f, PTE_W + PTE_U, v))
    ensures Extended(mem, owner, mem3, owner3, dirs, d, lo, v + 1)
  {
    hide TabInv, Lookup, FreshAt, Mapped;
    forall u | lo <= u < v ensures FreshAt(owner, mem3, d, u) {
      FreshStays(mem, owner, mem1, owner1, mem2, owner2, mem3, dirs, d, lo, v, f, u);
    }
    assert FreshAt(owner, mem3, d, v) by { FreshNew(mem, owner, mem1, owner1, mem2, owner2, mem3, dirs, d, lo, v, f); }
    assert SameBut(mem, mem3, dirs, d, lo, v + 1);
    ExtendedOwners(mem, owner, mem1, owner1, owner2, owner3, dirs, d, lo, v, f);
  }

  lemma FreshStays(mem: Mem, owner: Owners, mem1: Mem, owner1: Owners, mem2: Mem, owner2: Owners, mem3: Mem,
                   dirs: set<int>, d: int, lo: int, v: int, f: int, u: int)
    requires TabInv(mem1, owner1, dirs) && d in dirs && 0 <= lo <= u < v < USER_PAGES && SameKeys(mem1, owner1)
    requires FreshAt(owner, mem1, d, u) && SameSpaces(mem1, mem2, dirs)
    requires f in owner1 && owner1[f] == Free && owner2 == owner1[f := Other] && mem2 == mem1[f := ZeroData()]
    requires SameBut(mem2, mem3, dirs, d, v, v + 1) && SameData(mem2, mem3, owner2)
    ensures FreshAt(owner, mem3, d, u)
  {
    hide TabInv, Lookup;
    UserFacts(mem1, owner1, dirs, d, u);
    assert Lookup(mem3, d, u) == Lookup(mem1, d, u);
  }

  lemma FreshNew(mem: Mem, owner: Owners, mem1: Mem, owner1: Owners, mem2: Mem, owner2: Owners, mem3: Mem,
                 dirs: set<int>, d: int, lo: int, v: int, f: int)
    requires Extended(mem, owner, mem1, owner1, dirs, d, lo, v)
    requires f in owner1 && owner1[f] == Free && owner2 == owner1[f := Other] && mem2 == mem1[f := ZeroData()]
    requires SameData(mem2, mem3, owner2) && Lookup(mem3, d, v) == Some(Entry(v, f, PTE_W + PTE_U, v))
    ensures FreshAt(owner, mem3, d, v)
  {
    hide Lookup, SameBut;
    assert Holds(owner2[f]) && f in mem2;
  }

  lemma ExtendedOwners(mem: Mem, owner: Owners, mem1: Mem, owner1: Owners, owner2: Owners, owner3: Owners,
                       dirs: set<int>, d: int, lo: int, v: int, f: int)
    requires Extended(mem, owner, mem1, owner1, dirs, d, lo, v) && 0 <= lo <= v < USER_PAGES
    requires f in owner1 && owner1[f] == Free && owner2 == owner1[f := Other] && Mapped(owner2, owner3, d, v, v + 1, f)
    ensures owner.Keys == owner3.Keys
    ensures forall p | p in owner :: owner3[p] == owner[p]
              || (owner[p] == Free && ((owner3[p].Table? && owner3[p].d == d) || UserIn(owner3[p], d, lo, v + 1)))
  {
    hide Lookup, SameBut, FreshAt;
    Split(v);
  }

  lemma ExtendedData(mem: Mem, owner: Owners, mem1: Mem, owner1: Owners, mem2: Mem, owner2: Owners, mem3: Mem,
                     dirs: set<int>, d: int, lo: int, v: int, f: int)
    requires Extended(mem, owner, mem1, owner1, dirs, d, lo, v) && SameKeys(mem1, owner1)
    requires f in owner1 && owner1[f] == Free && owner2 == owner1[f := Other] && mem2 == mem1[f := ZeroData()]
    requires SameData(mem, mem1, owner) && SameData(mem2, mem3, owner2)
    ensures SameData(mem, mem3, owner)
  {
    hide Lookup, SameBut, FreshAt;
  }

  lemma UserFacts(mem: Mem, owner: Owners, dirs: set<int>, d: int, u: int)
    requires TabInv(mem, owner, dirs) && d in dirs && 0 <= u < USER_PAGES && Lookup(mem, d, u).Some?
    ensures var p := Lookup(mem, d, u).value.page;
            p in owner && owner[p] == User(d, Pdx(u), Ptx(u)) && IsData(mem, p) && Present(Lookup(mem, d, u).value)
  {
    Split(u);
    assert PteOk(mem, owner, d, Pdx(u), Ptx(u));
  }

  /** When allocuvm gives up, deallocuvm takes back every frame it had mapped. */
  lemma Withdrawn(mem: Mem, owner: Owners, mem1: Mem, owner1: Owners, mem2: Mem, owner2: Owners, mem3: Mem,
                  owner3: Owners,
                  dirs: set<int>, d: int, lo: int, v: int, hi: int)
    requires Extended(mem, owner, mem1, owner1, dirs, d, lo, v) && 0 <= lo <= v <= hi <= USER_PAGES && d in dirs
             && SameKeys(mem, owner)
    requires TabInv(mem, owner, dirs) && SameData(mem, mem1, owner) && SameSpaces(mem1, mem2, dirs)
             && SameData(mem1, mem2, owner1)
    requires owner2.Keys == owner1.Keys && (forall p | p in owner1 && owner1[p] != Free :: owner2[p] == owner1[p])
    requires Freed(mem2, owner2, mem3, owner3, dirs, d, lo, hi)
    requires forall u | lo <= u < hi :: Lookup(mem, d, u) == None
    ensures SameSpaces(mem, mem3, dirs) && SameData(mem, mem3, owner)
    ensures owner3.Keys == owner.Keys
    ensures forall p | p in owner && owner2[p] == owner1[p] ::
              owner3[p] == owner[p] || (owner[p] == Free && owner3[p].Table? && owner3[p].d == d)
    ensures owner2 == owner1 ==> Grew(owner, owner3, d)
  {
    hide Lookup;
    NothingMapped(mem, owner, dirs, d, lo, hi);
    forall p | p in owner && Holds(owner[p]) ensures Holds(owner3[p]) && owner3[p] == owner[p] {
    }
  }

  /** And the frame it had not mapped yet. */
  lemma WithdrawnOther(mem: Mem, owner: Owners, mem1: Mem, owner1: Owners, mem2: Mem, owner2: Owners, mem3: Mem,
                       owner3: Owners,
                       mem4: Mem, owner4: Owners, dirs: set<int>, d: int, lo: int, v: int, hi: int, f: int)
    requires Extended(mem, owner, mem1, owner1, dirs, d, lo, v) && 0 <= lo <= v <= hi <= USER_PAGES && d in dirs
             && SameKeys(mem, owner)
    requires TabInv(mem, owner, dirs) && SameData(mem, mem1, owner) && SameSpaces(mem1, mem2, dirs)
             && SameData(mem1, mem2, owner1)
    requires f in owner1 && owner1[f] == Free && owner2 == owner1[f := Other]
    requires Freed(mem2, owner2, mem3, owner3, dirs, d, lo, hi)
    requires forall u | lo <= u < hi :: Lookup(mem, d, u) == None
    requires f in owner3 && owner4 == owner3[f := Free] && SameSpaces(mem3, mem4, dirs) && SameData(mem3, mem4, owner4)
    ensures SameSpaces(mem, mem4, dirs) && SameData(mem, mem4, owner) && Grew(owner, owner4, d)
  {
    hide Lookup, Freed;
    Withdrawn(mem, owner, mem1, owner1, mem2, owner2, mem3, owner3, dirs, d, lo, v, hi);
    assert f in owner && owner[f] == Free;
    forall p | p in owner && Holds(owner[p]) ensures Holds(owner4[p]) {
      assert p != f && owner1[p] == owner[p] && owner2[p] == owner1[p];
    }
  }

  lemma HeldThrough(mem: Mem, owner: Owners, mem': Mem, owner': Owners, dirs: set<int>, d: int, lo: int, hi: int,
                    f: int)
    requires Freed(mem, owner, mem', owner', dirs, d, lo, hi) && f in owner && owner[f] == Other
    ensures f in owner' && owner'[f] == Other
  {
  }

  // Copying an address space.

  /** Page u of d holds what page u of s held, with the same flags, in a frame that was free. */
  ghost predicate Copied(mem: Mem, owner: Owners, mem': Mem, s: int, d: int, u: int) {
    var e, g := Lookup(mem, s, u), Lookup(mem', d, u);
    && e.Some? && g.Some? && g.value.flags == e.value.flags
    && g.value.page in owner && owner[g.value.page] == Free
    && e.value.page in mem && g.value.page in mem' && mem'[g.value.page] == mem[e.value.page]
  }

  /** d holds a copy of the first n pages of s, and the kernel's mappings. */
  ghost predicate CopyOf(mem: Mem, owner: Owners, mem': Mem, owner': Owners, s: int, d: int, data: int, n: int)
    requires 0x100 < data < 0xE000
  {
    && Took(owner, owner', d)
    && (forall u | 0 <= u < n :: Copied(mem, owner, mem', s, d, u))
    && (forall u | n <= u < PAGES :: Lookup(mem', d, u) == KernelPage(data, u))
  }

  lemma CopyNone(mem: Mem, owner: Owners, mem': Mem, owner': Owners, s: int, d: int, data: int)
    requires 0x100 < data < 0xE000 && Took(owner, owner', d) && forall v | 0 <= v < PAGES ::
               Lookup(mem', d, v) == KernelPage(data, v)
    ensures CopyOf(mem, owner, mem', owner', s, d, data, 0)
  {
  }

  lemma SourceAt(mem: Mem, mem': Mem, owner': Owners, dirs: set<int>, dirs': set<int>, s: int, v: int, t: Option<int>)
    requires s in dirs && dirs <= dirs' && 0 <= v < USER_PAGES && SameSpaces(mem, mem', dirs) && Lookup(mem, s, v).Some?
    requires TabInv(mem', owner', dirs') && (t.None? ==> !HasTable(mem', s, Pdx(v)))
    ensures t.Some?
    ensures Lookup(mem', s, v) == Lookup(mem, s, v)
    ensures var p := Lookup(mem', s, v).value.page;
            p in owner' && owner'[p] == User(s, Pdx(v), Ptx(v)) && IsData(mem', p) && Present(Lookup(mem', s, v).value)
  {
    UserFacts(mem', owner', dirs', s, v);
  }

  lemma NotYetCopied(mem: Mem, owner: Owners, mem1: Mem, owner1: Owners, mem2: Mem, dirs: set<int>, s: int, d: int,
                     data: int, v: int)
    requires 0x100 < data < 0xE000 && 0 <= v < USER_PAGES && CopyOf(mem, owner, mem1, owner1, s, d, data, v)
    requires d in dirs && SameSpaces(mem1, mem2, dirs)
    ensures Lookup(mem2, d, v) == None
  {
    hide Lookup;
  }

  lemma CopyOn(mem: Mem, owner: Owners, mem1: Mem, owner1: Owners, mem2: Mem, owner2: Owners, mem3: Mem, owner3: Owners,
               dirs: set<int>, s: int, d: int, data: int, v: int, f: int, pte: Pte)
    requires 0x100 < data < 0xE000 && 0 <= v < USER_PAGES && d !in dirs && s in dirs && SameKeys(mem1, owner1)
             && SameKeys(mem, owner)
    requires TabInv(mem, owner, dirs) && TabInv(mem1, owner1, dirs + {d})
             && CopyOf(mem, owner, mem1, owner1, s, d, data, v)
    requires SameSpaces(mem, mem1, dirs) && SameData(mem, mem1, owner)
    requires Lookup(mem, s, v) == Some(pte) && pte.page in mem1
    requires f in owner1 && owner1[f] == Free && owner2 == owner1[f := Other] && mem2 == mem1[f := mem1[pte.page]]
             && SameSpaces(mem1, mem2, dirs + {d})
    requires SameBut(mem2, mem3, dirs + {d}, d, v, v + 1) && SameData(mem2, mem3, owner2)
             && Mapped(owner2, owner3, d, v, v + 1, f)
    requires Lookup(mem3, d, v) == Some(Entry(v, f, pte.flags, v))
    ensures CopyOf(mem, owner, mem3, owner3, s, d, data, v + 1)
    ensures SameSpaces(mem, mem3, dirs) && SameData(mem, mem3, owner)
  {
    hide TabInv, Mapped, KernelEntry;
    UserFacts(mem, owner, dirs, s, v);
    forall u | 0 <= u < v ensures Copied(mem, owner, mem3, s, d, u) {
      assert Copied(mem, owner, mem1, s, d, u);
      UserFacts(mem1, owner1, dirs + {d}, d, u);
      CopiedStays(mem, owner, mem1, owner1, mem2, owner2, mem3, dirs, s, d, v, f, u);
    }
    hide Lookup;
    assert mem1[pte.page] == mem[pte.page];
    assert Copied(mem, owner, mem3, s, d, v);
    CopyFrame(mem, owner, mem1, owner1, mem2, owner2, mem3, owner3, dirs, d, v, f, pte.page);
    forall u | v + 1 <= u < PAGES ensures Lookup(mem3, d, u) == KernelPage(data, u) {
    }
  }

  lemma CopiedStays(mem: Mem, owner: Owners, mem1: Mem, owner1: Owners, mem2: Mem, owner2: Owners, mem3: Mem,
                    dirs: set<int>, s: int, d: int, v: int, f: int, u: int)
    requires 0 <= u < v < USER_PAGES && Copied(mem, owner, mem1, s, d, u)
    requires Lookup(mem1, d, u).value.page in owner1 && owner1[Lookup(mem1, d, u).value.page].User?
    requires f in owner1 && owner1[f] == Free && owner2 == owner1[f := Other] && mem1.Keys <= mem2.Keys
    requires forall p | p in mem1 && p != f :: p in mem2 && mem2[p] == mem1[p]
    requires SameSpaces(mem1, mem2, dirs + {d}) && SameBut(mem2, mem3, dirs + {d}, d, v, v + 1)
             && SameData(mem2, mem3, owner2)
    ensures Copied(mem, owner, mem3, s, d, u)
  {
    hide Lookup;
    assert Lookup(mem3, d, u) == Lookup(mem1, d, u);
  }

  lemma CopyFrame(mem: Mem, owner: Owners, mem1: Mem, owner1: Owners, mem2: Mem, owner2: Owners, mem3: Mem,
                  owner3: Owners,
                  dirs: set<int>, d: int, v: int, f: int, page: int)
    requires d !in dirs && SameKeys(mem1, owner1) && 0 <= v < USER_PAGES && Took(owner, owner1, d)
    requires SameSpaces(mem, mem1, dirs) && SameData(mem, mem1, owner) && page in mem1
    requires f in owner1 && owner1[f] == Free && owner2 == owner1[f := Other] && mem2 == mem1[f := mem1[page]]
             && SameSpaces(mem1, mem2, dirs + {d})
    requires SameBut(mem2, mem3, dirs + {d}, d, v, v + 1) && SameData(mem2, mem3, owner2)
             && Mapped(owner2, owner3, d, v, v + 1, f)
    ensures Took(owner, owner3, d) && SameSpaces(mem, mem3, dirs) && SameData(mem, mem3, owner)
  {
    hide Lookup;
  }

  lemma PageUndone(mem1: Mem, owner1: Owners, mem2: Mem, mem3: Mem, owner3: Owners, dirs: set<int>, dirs': set<int>)
    requires dirs <= dirs' && owner3 == owner1 && SameSpaces(mem1, mem2, dirs') && SameSpaces(mem2, mem3, dirs')
    requires SameData(mem1, mem2, owner1) && SameData(mem2, mem3, owner3)
    ensures SameSpaces(mem1, mem3, dirs) && SameData(mem1, mem3, owner3)
  {
    hide Lookup;
  }

  lemma CopyUndone(mem: Mem, owner: Owners, mem1: Mem, owner1: Owners, mem2: Mem, owner2: Owners, mem3: Mem,
                   owner3: Owners,
                   dirs: set<int>, s: int, d: int, data: int, v: int)
    requires 0x100 < data < 0xE000 && d !in dirs && TabInv(mem, owner, dirs)
             && CopyOf(mem, owner, mem1, owner1, s, d, data, v)
    requires SameSpaces(mem, mem1, dirs) && SameData(mem, mem1, owner) && owner2 == owner1
    requires SameSpaces(mem1, mem2, dirs) && SameData(mem1, mem2, owner2)
    requires Reclaimed(owner2, owner3, d) && SameSpaces(mem2, mem3, dirs) && SameData(mem2, mem3, owner3)
    ensures owner3 == owner && SameSpaces(mem, mem3, dirs) && SameData(mem, mem3, owner)
  {
    hide Lookup;
    assert SameData(mem, mem2, owner);
    assert SameSpaces(mem, mem2, dirs);
    Restored(mem, owner, mem2, owner2, mem3, owner3, dirs, d);
  }

  /** Pages lo up to hi, those below p free. */
  function FreeUpto(lo: int, hi: int, p: int): Owners {
    var all := Fill(lo, hi, Other);
    map q | q in all :: if q < p then Free else Other
  }

  function Fill<T>(lo: int, hi: int, x: T): (r: map<int, T>)
    ensures forall p :: p in r <==> lo <= p < hi
    ensures forall p | p in r :: r[p] == x
    decreases hi - lo
  {
    if lo >= hi then map[] else Fill(lo, hi - 1, x)[hi - 1 := x]
  }

  lemma StartEmpty(mem: Mem, owner: Owners, lo: int, hi: int)
    requires owner == FreeUpto(lo, hi, lo) && forall p :: p in mem <==> lo <= p < hi
    ensures TabInv(mem, owner, {}) && FreeInv(mem, owner, [], None)
  {
  }

  // What the invariants come to.

  /** No page is used twice: two directory entries never name the same table, two user pages of any
      two processes never name the same frame, and no page in use is free or in another's hands. */
  lemma NoSharing(mem: Mem, owner: Owners, dirs: set<int>, free: seq<int>, head: Option<int>)
    requires TabInv(mem, owner, dirs) && FreeInv(mem, owner, free, head)
    ensures forall d, i, e, k | d in dirs && e in dirs && 0 <= i < ENTRIES && 0 <= k < ENTRIES
              && Present(Ent(mem, d, i)) && Present(Ent(mem, e, k)) && Ent(mem, d, i).page == Ent(mem, e, k).page ::
                   d == e && i == k
    ensures forall d, v, e, w | d in dirs && e in dirs && 0 <= v < USER_PAGES && 0 <= w < USER_PAGES
              && Lookup(mem, d, v).Some? && Lookup(mem, e, w).Some?
              && Lookup(mem, d, v).value.page == Lookup(mem, e, w).value.page :: d == e && v == w
    ensures forall d | d in dirs :: d !in free
    ensures forall d, i | d in dirs && 0 <= i < ENTRIES && Present(Ent(mem, d, i)) ::
              Ent(mem, d, i).page !in free && Ent(mem, d, i).page !in dirs
    ensures forall d, v | d in dirs && 0 <= v < USER_PAGES && Lookup(mem, d, v).Some? ::
              Lookup(mem, d, v).value.page !in free && Lookup(mem, d, v).value.page !in dirs
  {
    forall d, i | d in dirs && 0 <= i < ENTRIES && Present(Ent(mem, d, i))
      ensures Ent(mem, d, i).page in owner && owner[Ent(mem, d, i).page] == Table(d, i)
    {
      assert PdeOk(mem, owner, d, i);
    }
    forall d | d in dirs ensures d in owner && owner[d] == Dir(d) {
      assert DirOk(mem, owner, d);
    }
    forall d, v | d in dirs && 0 <= v < USER_PAGES && Lookup(mem, d, v).Some?
      ensures Lookup(mem, d, v).value.page in owner && owner[Lookup(mem, d, v).value.page] == User(d, Pdx(v), Ptx(v))
    {
      UserFacts(mem, owner, dirs, d, v);
    }
    hide Lookup, Pdx, Ptx;
    forall v, w | Pdx(v) == Pdx(w) && Ptx(v) == Ptx(w) ensures v == w {
      SplitUnique(v, w);
    }
  }

  lemma FreedNone(mem: Mem, owner: Owners, dirs: set<int>, d: int, lo: int, hi: int)
    requires hi <= lo
    ensures Freed(mem, owner, mem, owner, dirs, d, lo, hi)
  {
  }

  lemma StillUnmapped(mem: Mem, owner: Owners, dirs: set<int>, d: int, v: int, w: int)
    requires TabInv(mem, owner, dirs) && d in dirs && 0 <= v <= w <= USER_PAGES
    requires forall u | v <= u < w :: Lookup(mem, d, u) == None
    ensures SameBut(mem, mem, dirs, d, v, w) && Unmapped(owner, owner, d, v, w) && SameData(mem, mem, owner)
  {
    NothingMapped(mem, owner, dirs, d, v, w);
  }

  lemma EntryAt(mem: Mem, d: int, v: int, t: int)
    requires At(mem, d, v, t)
    ensures 0 <= Ptx(v) < ENTRIES
    ensures Lookup(mem, d, v) == if Present(mem[t].ptes[Ptx(v)]) then Some(mem[t].ptes[Ptx(v)]) else None
  {
    Split(v);
  }

  /** The frame at a mapped user page is owned by that page, and no other frame is. */
  lemma OnlyUser(mem: Mem, owner: Owners, dirs: set<int>, d: int, v: int)
    requires TabInv(mem, owner, dirs) && d in dirs && 0 <= v < USER_PAGES
    ensures forall p | p in owner :: UserIn(owner[p], d, v, v + 1) <==>
              Lookup(mem, d, v).Some? && Lookup(mem, d, v).value.page == p
  {
    Split(v);
    assert PteOk(mem, owner, d, Pdx(v), Ptx(v)) && PdeOk(mem, owner, d, Pdx(v));
    forall p | p in owner && UserIn(owner[p], d, v, v + 1)
      ensures Lookup(mem, d, v).Some? && Lookup(mem, d, v).value.page == p
    {
      assert OwnOk(mem, owner, dirs, p);
      SplitJoin(owner[p].i, owner[p].j);
    }
  }

  /** The table a walk ends at is a table of that directory. */
  lemma TableFacts(mem: Mem, owner: Owners, dirs: set<int>, d: int, v: int, t: int)
    requires TabInv(mem, owner, dirs) && d in dirs && At(mem, d, v, t)
    ensures t in owner && owner[t].Table? && owner[t].d == d
  {
    Split(v);
    assert PdeOk(mem, owner, d, Pdx(v));
  }

  lemma FreeParts(mem: Mem, owner: Owners, free: seq<int>, head: Option<int>)
    requires FreeInv(mem, owner, free, head)
    ensures SameKeys(mem, owner) && (head.None? <==> free == [])
    ensures head.Some? ==> head.value == free[0] && head.value in owner && owner[head.value] == Free
                           && head.value in mem && mem[head.value] == FreePage(NextOf(free, 0))
    ensures head.None? ==> forall p | p in owner :: owner[p] != Free
  {
  }

  lemma PdeFacts(mem: Mem, owner: Owners, dirs: set<int>, d: int, i: int)
    requires TabInv(mem, owner, dirs) && d in dirs && 0 <= i < ENTRIES
    ensures IsTable(mem, d) && d in owner && owner[d] == Dir(d)
    ensures Present(Ent(mem, d, i)) ==>
              IsTable(mem, Ent(mem, d, i).page) && Ent(mem, d, i).page in owner
                && owner[Ent(mem, d, i).page] == Table(d, i)
  {
    assert DirOk(mem, owner, d) && PdeOk(mem, owner, d, i);
  }
}
