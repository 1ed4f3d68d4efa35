/** How many pages the calls of vm.c take: the page tables a range of virtual pages still lacks, and
    the length of the free list. */
module PageCount {
  import opened Basics
  import opened Counting
  import opened PageSpec

  predicate HasTable(mem: Mem, d: int, i: int) { Present(Ent(mem, d, i)) }

  /** Entries i up to j of directory d with no table. */
  ghost function Missing(mem: Mem, d: int, i: int, j: int): (n: nat)
    ensures i <= j ==> n <= j - i
    decreases j - i
  {
    if i >= j then 0 else Missing(mem, d, i, j - 1) + if HasTable(mem, d, j - 1) then 0 else 1
  }

  /** The tables d lacks for virtual pages v up to w. */
  ghost function Lacks(mem: Mem, d: int, v: int, w: int): nat {
    if v >= w then 0 else Missing(mem, d, Pdx(v), Pdx(w - 1) + 1)
  }

  /** d has got the tables for virtual pages v up to w, and no others. */
  ghost predicate Tabled(mem: Mem, mem': Mem, d: int, v: int, w: int) {
    forall i | 0 <= i < ENTRIES ::
      HasTable(mem', d, i) <==> HasTable(mem, d, i) || (v < w && Pdx(v) <= i <= Pdx(w - 1))
  }

  lemma TabledNone(mem: Mem, d: int, v: int)
    ensures Tabled(mem, mem, d, v, v) && Lacks(mem, d, v, v) == 0
  {
  }

  lemma LacksOne(mem: Mem, d: int, v: int)
    ensures Lacks(mem, d, v, v + 1) == if HasTable(mem, d, Pdx(v)) then 0 else 1
  {
    assert Missing(mem, d, Pdx(v), Pdx(v)) == 0;
  }

  lemma PdxNext(w: int)
    requires 1 <= w < PAGES
    ensures Pdx(w) == Pdx(w - 1) || Pdx(w) == Pdx(w - 1) + 1
    ensures 0 <= Pdx(w - 1) && Pdx(w) < ENTRIES
  {
  }

  lemma PdxOrder(v: int, w: int)
    requires 0 <= v <= w
    ensures 0 <= Pdx(v) <= Pdx(w)
  {
  }

  /** One more page needs a table exactly if the tables made so far do not include it. */
  lemma LacksNext(mem: Mem, mem1: Mem, d: int, v: int, w: int)
    requires 0 <= v <= w < PAGES && Tabled(mem, mem1, d, v, w)
    ensures Lacks(mem, d, v, w + 1) == Lacks(mem, d, v, w) + Lacks(mem1, d, w, w + 1)
  {
    hide HasTable;
    LacksOne(mem1, d, w);
    Split(w);
    if v == w {
      LacksOne(mem, d, w);
    } else {
      PdxNext(w);
      PdxOrder(v, w - 1);
      hide Pdx;
    }
  }

  lemma TabledNext(mem: Mem, mem1: Mem, mem2: Mem, d: int, v: int, w: int)
    requires 0 <= v <= w < PAGES && Tabled(mem, mem1, d, v, w) && Tabled(mem1, mem2, d, w, w + 1)
    ensures Tabled(mem, mem2, d, v, w + 1)
  {
    hide HasTable;
    if v < w {
      PdxNext(w);
      PdxOrder(v, w - 1);
    }
    hide Pdx;
  }

  lemma {:induction false} MissingGrows(mem: Mem, d: int, i: int, j: int, k: int)
    requires i <= j <= k
    ensures Missing(mem, d, i, j) <= Missing(mem, d, i, k)
    decreases k - j
  {
    if j < k {
      MissingGrows(mem, d, i, j, k - 1);
    }
  }

  lemma LacksGrows(mem: Mem, d: int, v: int, w: int, x: int)
    requires 0 <= v <= w <= x
    ensures Lacks(mem, d, v, w) <= Lacks(mem, d, v, x)
  {
    if v < w {
      PdxOrder(v, w - 1);
      PdxOrder(w - 1, x - 1);
      MissingGrows(mem, d, Pdx(v), Pdx(w - 1) + 1, Pdx(x - 1) + 1);
    }
  }

  /** If the tables from i on are missing exactly from m on, that is how many are. */
  lemma {:induction false} MissingFrom(mem: Mem, d: int, i: int, m: int, j: int)
    requires i <= m <= j && forall k | i <= k < j :: HasTable(mem, d, k) <==> k < m
    ensures Missing(mem, d, i, j) == j - m
    decreases j - i
  {
    if m < j {
      MissingFrom(mem, d, i, m, j - 1);
    } else if i < j {
      MissingFrom(mem, d, i, j - 1, j - 1);
    }
  }

  /** Writing a page other than the directory leaves its tables. */
  lemma TablesElsewhere(mem: Mem, d: int, p: int, x: Page)
    requires p != d
    ensures forall i :: HasTable(mem[p := x], d, i) == HasTable(mem, d, i)
  {
  }

  /** The tables for the first n user pages. */
  function TablesFor(n: nat): nat { (n + ENTRIES - 1) / ENTRIES }

  lemma LacksAll(mem: Mem, d: int, n: nat)
    requires n <= USER_TABLES * ENTRIES && forall i | 0 <= i < USER_TABLES :: !HasTable(mem, d, i)
    ensures Lacks(mem, d, 0, n) == TablesFor(n)
  {
    if n > 0 {
      Split(n - 1);
      MissingFrom(mem, d, 0, 0, Pdx(n - 1) + 1);
    }
  }

  /** The free list is as long as there are free pages. */
  lemma FreeCount(mem: Mem, owner: Owners, free: seq<int>, head: Option<int>)
    requires FreeInv(mem, owner, free, head)
    ensures |free| == |set p | p in owner && owner[p] == Free|
  {
    NoRepeatsSize(free);
    var all := set p | p in owner && owner[p] == Free;
    assert Linked(mem, owner, free);
    forall p ensures p in Elements(free) <==> p in all {
      if p in free {
        var k :| 0 <= k < |free| && free[k] == p;
      }
    }
    assert Elements(free) == all;
  }

  // The kernel's half of a directory.

  /** The first entry of a new directory with no table once k entries of kmap are mapped. */
  function KernelBound(data: int, k: nat): int {
    if k == 0 then USER_TABLES
    else if k == 1 then USER_TABLES + 1
    else if k == 2 then Pdx(0x80000 + data - 1) + 1
    else 568
  }

  ghost predicate KernelTables(mem: Mem, d: int, data: int, k: nat) {
    forall i | 0 <= i < ENTRIES ::
      HasTable(mem, d, i) <==> USER_TABLES <= i < KernelBound(data, k) || (k == 4 && 1016 <= i)
  }

  /** Tables of a new directory once k entries of kmap are mapped: 64 in all. */
  function KernelCount(data: int, k: nat): int {
    KernelBound(data, k) - USER_TABLES + if k == 4 then 8 else 0
  }

  lemma KernelCounts(data: int)
    requires 0x100 < data < 0xE000
    ensures KernelCount(data, 0) == 0 <= KernelCount(data, 1) <= KernelCount(data, 2)
    ensures KernelCount(data, 2) <= KernelCount(data, 3) <= KernelCount(data, 4) == 64
  {
  }

  /** Pages v up to w lie in the directory entries that entry k of kmap adds to. */
  predicate KernelRange(data: int, k: nat, v: int, w: int) {
    v < w &&
    if k == 3 then Pdx(v) == 1016 && Pdx(w - 1) == 1023
    else USER_TABLES <= Pdx(v) <= KernelBound(data, k) && Pdx(w - 1) + 1 == KernelBound(data, k + 1)
  }

  lemma KernelLacks(mem: Mem, d: int, data: int, k: nat, v: int, w: int)
    requires 0x100 < data < 0xE000 && k < 4 && KernelTables(mem, d, data, k) && KernelRange(data, k, v, w)
    ensures Lacks(mem, d, v, w) == KernelCount(data, k + 1) - KernelCount(data, k)
  {
    hide HasTable, Pdx;
    KernelCounts(data);
    if k == 3 {
      MissingFrom(mem, d, 1016, 1016, 1024);
    } else {
      MissingFrom(mem, d, Pdx(v), KernelBound(data, k), KernelBound(data, k + 1));
    }
  }

  lemma KernelStep(mem: Mem, mem': Mem, d: int, data: int, k: nat, v: int, w: int)
    requires 0x100 < data < 0xE000 && k < 4 && KernelTables(mem, d, data, k) && KernelRange(data, k, v, w)
    requires Tabled(mem, mem', d, v, w)
    ensures KernelTables(mem', d, data, k + 1)
  {
    hide HasTable, Pdx;
    KernelCounts(data);
  }
}
