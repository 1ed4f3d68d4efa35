/** Physical pages and who owns them: the free list, page directories, page tables and user frames
    of kernel/kalloc.c and kernel/vm.c. */
module PageSpec {
  import opened Basics
  import opened Counting

  const PGSIZE := 4096
  const ENTRIES := 1024
  const USER_TABLES := 512       // directory entries below KERNBASE
  const PAGES := 0x10_0000       // virtual pages

  /** A directory or table entry: PTE_ADDR as a page number and PTE_FLAGS. */
  datatype Pte = Pte(page: int, flags: nat)

  const PTE_P := 1
  const PTE_W := 2
  const PTE_U := 4

  predicate Present(e: Pte) { e.flags % 2 == 1 }

  /** flags | PTE_P */
  function OrPresent(flags: nat): (r: nat)
    ensures r % 2 == 1
  {
    if flags % 2 == 1 then flags else flags + 1
  }

  function Zero(): Pte { Pte(0, 0) }

  /** What a page holds: the link of a free page, a table of entries, or bytes. */
  datatype Page = FreePage(next: Option<int>) | TablePage(ptes: seq<Pte>) | DataPage(bytes: seq<byte>)

  function ZeroTable(): (r: Page)
    ensures r.TablePage? && |r.ptes| == ENTRIES && forall i | 0 <= i < ENTRIES :: r.ptes[i] == Zero()
  {
    TablePage(seq(ENTRIES, i => Zero()))
  }

  function ZeroData(): (r: Page)
    ensures r.DataPage? && |r.bytes| == PGSIZE && forall i | 0 <= i < PGSIZE :: r.bytes[i] == 0
  {
    DataPage(seq(PGSIZE, i => 0))
  }

  /** The one owner of a page: Other is a page in the hands of a caller of kalloc. */
  datatype Owner = Free | Other | Dir(d: int) | Table(d: int, i: int) | User(d: int, i: int, j: int)

  type Mem = map<int, Page>
  type Owners = map<int, Owner>

  // Entries and virtual pages.

  predicate IsTable(mem: Mem, p: int) { p in mem && mem[p].TablePage? && |mem[p].ptes| == ENTRIES }

  predicate IsData(mem: Mem, p: int) { p in mem && mem[p].DataPage? }

  function Ent(mem: Mem, p: int, i: int): Pte {
    if IsTable(mem, p) && 0 <= i < ENTRIES then mem[p].ptes[i] else Zero()
  }

  function SetEnt(mem: Mem, p: int, i: int, e: Pte): Mem
    requires IsTable(mem, p) && 0 <= i < ENTRIES
  {
    mem[p := TablePage(mem[p].ptes[i := e])]
  }

  lemma SetEntIs(mem: Mem, p: int, i: int, e: Pte)
    requires IsTable(mem, p) && 0 <= i < ENTRIES
    ensures forall q, k :: Ent(SetEnt(mem, p, i, e), q, k) == if q == p && k == i then e else Ent(mem, q, k)
    ensures forall q :: IsTable(SetEnt(mem, p, i, e), q) == IsTable(mem, q)
    ensures forall q :: IsData(SetEnt(mem, p, i, e), q) == IsData(mem, q)
  {
  }

  function Pdx(v: int): int { v / ENTRIES }

  function Ptx(v: int): int { v % ENTRIES }

  lemma Split(v: int)
    requires 0 <= v < PAGES
    ensures 0 <= Pdx(v) < ENTRIES && 0 <= Ptx(v) < ENTRIES && v == ENTRIES * Pdx(v) + Ptx(v)
    ensures Pdx(v) < USER_TABLES <==> v < USER_TABLES * ENTRIES
  {
  }

  lemma SplitUnique(v: int, w: int)
    ensures Pdx(v) == Pdx(w) && Ptx(v) == Ptx(w) ==> v == w
  {
  }

  lemma SplitJoin(i: int, j: int)
    requires 0 <= i < ENTRIES && 0 <= j < ENTRIES
    ensures Pdx(ENTRIES * i + j) == i && Ptx(ENTRIES * i + j) == j && 0 <= ENTRIES * i + j < PAGES
  {
  }

  /** The entry a directory gives for a virtual page, through its two levels. */
  function Lookup(mem: Mem, d: int, v: int): Option<Pte> {
    var e := Ent(mem, d, Pdx(v));
    if !Present(e) then None
    else
      var f := Ent(mem, e.page, Ptx(v));
      if Present(f) then Some(f) else None
  }

  // The invariants.

  ghost predicate DirOk(mem: Mem, owner: Owners, d: int) {
    IsTable(mem, d) && d in owner && owner[d] == Dir(d)
  }

  ghost predicate PdeOk(mem: Mem, owner: Owners, d: int, i: int) {
    var e := Ent(mem, d, i);
    Present(e) ==>
      && e.page in owner && owner[e.page] == Table(d, i) && IsTable(mem, e.page)
      && e.flags == PTE_P + PTE_W + PTE_U
  }

  ghost predicate PteOk(mem: Mem, owner: Owners, d: int, i: int, j: int) {
    var e := Ent(mem, d, i);
    Present(e) ==>
      var f := Ent(mem, e.page, j);
      Present(f) ==> f.page in owner && owner[f.page] == User(d, i, j) && IsData(mem, f.page)
  }

  ghost predicate OwnOk(mem: Mem, owner: Owners, dirs: set<int>, p: int)
    requires p in owner
  {
    match owner[p]
    case Dir(d) => d == p && p in dirs
    case Table(d, i) => d in dirs && 0 <= i < ENTRIES && Present(Ent(mem, d, i)) && Ent(mem, d, i).page == p
    case User(d, i, j) =>
      && d in dirs && 0 <= i < USER_TABLES && 0 <= j < ENTRIES && Present(Ent(mem, d, i))
      && Present(Ent(mem, Ent(mem, d, i).page, j)) && Ent(mem, Ent(mem, d, i).page, j).page == p
    case _ => true
  }

  /** Directories, tables and user frames are exactly the pages reached through the directories, each
      reached once. */
  ghost predicate TabInv(mem: Mem, owner: Owners, dirs: set<int>) {
    && (forall d | d in dirs :: DirOk(mem, owner, d))
    && (forall d, i | d in dirs && 0 <= i < ENTRIES :: PdeOk(mem, owner, d, i))
    && (forall d, i, j | d in dirs && 0 <= i < USER_TABLES && 0 <= j < ENTRIES :: PteOk(mem, owner, d, i, j))
    && (forall p | p in owner :: OwnOk(mem, owner, dirs, p))
  }

  ghost predicate SameKeys(mem: Mem, owner: Owners) { forall p :: p in mem <==> p in owner }

  function NextOf(free: seq<int>, k: nat): Option<int> { if k + 1 < |free| then Some(free[k + 1]) else None }

  /** The free list links exactly the pages nobody owns. */
  ghost predicate FreeInv(mem: Mem, owner: Owners, free: seq<int>, head: Option<int>) {
    && SameKeys(mem, owner) && NoRepeats(free)
    && head == (if free == [] then None else Some(free[0]))
    && Linked(mem, owner, free)
    && (forall p | p in owner && owner[p] == Free :: p in free)
  }

  predicate Used(o: Owner) { !o.Free? && !o.Other? }

  predicate Of(o: Owner, d: int) { Used(o) && o.d == d }

  // The free list.

  lemma PopFree(mem: Mem, owner: Owners, free: seq<int>, head: Option<int>)
    requires FreeInv(mem, owner, free, head) && free != []
    ensures free[0] in owner && FreeInv(mem, owner[free[0] := Other], free[1..], NextOf(free, 0))
  {
  }

  ghost predicate Linked(mem: Mem, owner: Owners, free: seq<int>) {
    forall k | 0 <= k < |free| ::
      free[k] in owner && free[k] in mem && owner[free[k]] == Free && mem[free[k]] == FreePage(NextOf(free, k))
  }

  lemma PushLinks(mem: Mem, owner: Owners, free: seq<int>, head: Option<int>, p: int)
    requires Linked(mem, owner, free) && p !in free && head == if free == [] then None else Some(free[0])
    ensures Linked(mem[p := FreePage(head)], owner[p := Free], [p] + free)
  {
    var f := [p] + free;
    forall k | 0 <= k < |f|
      ensures f[k] == if k == 0 then p else free[k - 1]
      ensures NextOf(f, k) == if k == 0 then head else NextOf(free, k - 1)
    {
    }
  }

  lemma PushFree(mem: Mem, owner: Owners, free: seq<int>, head: Option<int>, p: int)
    requires FreeInv(mem, owner, free, head) && p in owner && owner[p] != Free
    ensures FreeInv(mem[p := FreePage(head)], owner[p := Free], [p] + free, Some(p))
  {
    hide NoRepeats, Linked;
    assert p !in free by { NotLinked(mem, owner, free, p); }
    PushLinks(mem, owner, free, head, p);
    PushNew(free, p);
    forall q | q in free ensures q in [p] + free {}
  }

  lemma NotLinked(mem: Mem, owner: Owners, free: seq<int>, p: int)
    requires Linked(mem, owner, free) && p in owner && owner[p] != Free
    ensures p !in free
  {
  }

  lemma PushNew(free: seq<int>, p: int)
    requires NoRepeats(free) && p !in free
    ensures NoRepeats([p] + free)
  {
  }

  /** Changing pages that are not free leaves the free list alone. */
  lemma FreeFrame(mem: Mem, owner: Owners, mem': Mem, owner': Owners, free: seq<int>, head: Option<int>)
    requires FreeInv(mem, owner, free, head) && SameKeys(mem', owner') && SameKeys(mem, owner')
    requires forall p | p in owner ::
               (owner'[p] == Free <==> owner[p] == Free) && (owner[p] == Free ==> mem'[p] == mem[p])
    ensures FreeInv(mem', owner', free, head)
  {
  }

  // Steps on the tables.

  /** Pages passing between Free and Other leave the tables alone. */
  lemma TabFrame(mem: Mem, owner: Owners, mem': Mem, owner': Owners, dirs: set<int>)
    requires TabInv(mem, owner, dirs) && SameKeys(mem, owner) && SameKeys(mem', owner') && SameKeys(mem, owner')
    requires forall p | p in owner ::
               if Used(owner[p]) then owner'[p] == owner[p] && mem'[p] == mem[p] else !Used(owner'[p])
    ensures TabInv(mem', owner', dirs)
    ensures forall d, v | d in dirs && 0 <= v < PAGES :: Lookup(mem', d, v) == Lookup(mem, d, v)
  {
    forall d | d in dirs ensures DirOk(mem', owner', d) {
      assert DirOk(mem, owner, d);
    }
    forall d, i | d in dirs && 0 <= i < ENTRIES ensures PdeOk(mem', owner', d, i) && Ent(mem', d, i) == Ent(mem, d, i) {
      assert DirOk(mem, owner, d) && PdeOk(mem, owner, d, i);
    }
    forall d, i, j | d in dirs && 0 <= i < USER_TABLES && 0 <= j < ENTRIES ensures PteOk(mem', owner', d, i, j) {
      assert PdeOk(mem, owner, d, i) && PteOk(mem, owner, d, i, j) && PdeOk(mem', owner', d, i);
    }
    forall p | p in owner' ensures OwnOk(mem', owner', dirs, p) {
      assert OwnOk(mem, owner, dirs, p);
      match owner[p] {
        case Table(d, i) => assert PdeOk(mem, owner, d, i);
        case User(d, i, j) => assert PdeOk(mem, owner, d, i) && PteOk(mem, owner, d, i, j);
        case _ =>
      }
    }
    forall d, v | d in dirs && 0 <= v < PAGES ensures Lookup(mem', d, v) == Lookup(mem, d, v) {
      Split(v);
      assert PdeOk(mem, owner, d, Pdx(v));
    }
  }
}
