/** Each change vm.c makes to directories and tables keeps the ownership of pages exact. */
module PageSteps {
  import opened Basics
  import opened PageSpec

  // A new directory.

  ghost predicate EmptySpace(mem: Mem, d: int) { forall v | 0 <= v < PAGES :: Lookup(mem, d, v) == None }

  lemma NewDirTab(mem: Mem, owner: Owners, dirs: set<int>, p: int)
    requires TabInv(mem, owner, dirs) && SameKeys(mem, owner) && p in owner && owner[p] == Other
    ensures p !in dirs
    ensures TabInv(mem[p := ZeroTable()], owner[p := Dir(p)], dirs + {p})
    ensures forall d, v | d in dirs && 0 <= v < PAGES :: Lookup(mem[p := ZeroTable()], d, v) == Lookup(mem, d, v)
    ensures EmptySpace(mem[p := ZeroTable()], p)
  {
    var mem', owner', dirs' := mem[p := ZeroTable()], owner[p := Dir(p)], dirs + {p};
    assert p in dirs ==> DirOk(mem, owner, p);
    forall d, i | d in dirs && 0 <= i < ENTRIES ensures Ent(mem', d, i) == Ent(mem, d, i) && PdeOk(mem', owner', d, i) {
      assert DirOk(mem, owner, d) && PdeOk(mem, owner, d, i);
    }
    forall d, i, j | d in dirs && 0 <= i < USER_TABLES && 0 <= j < ENTRIES ensures PteOk(mem', owner', d, i, j) {
      assert PdeOk(mem, owner, d, i) && PteOk(mem, owner, d, i, j);
    }
    forall d | d in dirs' ensures DirOk(mem', owner', d) {
      assert d == p || DirOk(mem, owner, d);
    }
    forall q | q in owner' ensures OwnOk(mem', owner', dirs', q) {
      assert OwnOk(mem, owner, dirs, q);
      match owner[q] {
        case User(d, i, j) => assert PdeOk(mem, owner, d, i);
        case _ =>
      }
    }
    forall d, v | d in dirs && 0 <= v < PAGES ensures Lookup(mem', d, v) == Lookup(mem, d, v) {
      Split(v);
      assert PdeOk(mem, owner, d, Pdx(v));
    }
  }

  // A new table.

  function WithTable(mem: Mem, d: int, i: int, t: int): Mem
    requires IsTable(mem, d) && 0 <= i < ENTRIES && t != d
  {
    SetEnt(mem[t := ZeroTable()], d, i, Pte(t, PTE_P + PTE_W + PTE_U))
  }

  lemma WithTableIs(mem: Mem, d: int, i: int, t: int)
    requires IsTable(mem, d) && 0 <= i < ENTRIES && t != d && t in mem
    ensures var mem' := WithTable(mem, d, i, t);
            && (forall p, k ::
                  Ent(mem', p, k) == if p == d && k == i then Pte(t, 7) else if p == t then Zero() else Ent(mem, p, k))
            && (forall p :: p in mem' <==> p in mem)
            && (forall p :: IsTable(mem', p) == (p == t || IsTable(mem, p)))
            && (forall p :: IsData(mem', p) == (p != t && IsData(mem, p)))
            && (forall p | p in mem && p != d && p != t :: mem'[p] == mem[p])
  {
    SetEntIs(mem[t := ZeroTable()], d, i, Pte(t, 7));
  }

  lemma NewTableTab(mem: Mem, owner: Owners, dirs: set<int>, d: int, i: int, t: int)
    requires TabInv(mem, owner, dirs) && SameKeys(mem, owner) && d in dirs && 0 <= i < ENTRIES
             && !Present(Ent(mem, d, i))
    requires t in owner && owner[t] == Other
    ensures t != d && IsTable(mem, d) && TabInv(WithTable(mem, d, i, t), owner[t := Table(d, i)], dirs)
    ensures forall e, v | e in dirs && 0 <= v < PAGES :: Lookup(WithTable(mem, d, i, t), e, v) == Lookup(mem, e, v)
  {
    hide Lookup;
    assert DirOk(mem, owner, d);
    var mem', owner' := WithTable(mem, d, i, t), owner[t := Table(d, i)];
    WithTableIs(mem, d, i, t);
    hide WithTable;
    forall e | e in dirs ensures DirOk(mem', owner', e) && e != t {
      assert DirOk(mem, owner, e);
    }
    forall e, k | e in dirs && 0 <= k < ENTRIES ensures PdeOk(mem', owner', e, k) {
      assert PdeOk(mem, owner, e, k);
    }
    forall e, k, j | e in dirs && 0 <= k < USER_TABLES && 0 <= j < ENTRIES ensures PteOk(mem', owner', e, k, j) {
      NewTablePte(mem, owner, dirs, d, i, t, e, k, j);
    }
    forall p | p in owner' ensures OwnOk(mem', owner', dirs, p) {
      NewTableOwn(mem, owner, dirs, d, i, t, p);
    }
    forall e, v | e in dirs && 0 <= v < PAGES ensures Lookup(mem', e, v) == Lookup(mem, e, v) {
      NewTableLookup(mem, owner, dirs, d, i, t, e, v);
    }
  }

  lemma NewTablePte(mem: Mem, owner: Owners, dirs: set<int>, d: int, i: int, t: int, e: int, k: int, j: int)
    requires TabInv(mem, owner, dirs) && SameKeys(mem, owner) && d in dirs && 0 <= i < ENTRIES
             && !Present(Ent(mem, d, i))
    requires t in owner && owner[t] == Other && t != d && IsTable(mem, d) && e in dirs && 0 <= k < USER_TABLES
             && 0 <= j < ENTRIES
    ensures PteOk(WithTable(mem, d, i, t), owner[t := Table(d, i)], e, k, j)
  {
    WithTableIs(mem, d, i, t);
    hide WithTable;
    assert DirOk(mem, owner, e) && PdeOk(mem, owner, e, k) && PteOk(mem, owner, e, k, j) && DirOk(mem, owner, d);
  }

  lemma NewTableOwn(mem: Mem, owner: Owners, dirs: set<int>, d: int, i: int, t: int, p: int)
    requires TabInv(mem, owner, dirs) && SameKeys(mem, owner) && d in dirs && 0 <= i < ENTRIES
             && !Present(Ent(mem, d, i))
    requires t in owner && owner[t] == Other && t != d && IsTable(mem, d) && p in owner
    ensures OwnOk(WithTable(mem, d, i, t), owner[t := Table(d, i)], dirs, p)
  {
    WithTableIs(mem, d, i, t);
    hide WithTable;
    assert OwnOk(mem, owner, dirs, p) && DirOk(mem, owner, d);
    match owner[p] {
      case Table(e, k) => assert DirOk(mem, owner, e);
      case User(e, k, j) => assert DirOk(mem, owner, e) && PdeOk(mem, owner, e, k);
      case _ =>
    }
  }

  lemma NewTableLookup(mem: Mem, owner: Owners, dirs: set<int>, d: int, i: int, t: int, e: int, v: int)
    requires TabInv(mem, owner, dirs) && SameKeys(mem, owner) && d in dirs && 0 <= i < ENTRIES
             && !Present(Ent(mem, d, i))
    requires t in owner && owner[t] == Other && t != d && IsTable(mem, d) && e in dirs && 0 <= v < PAGES
    ensures Lookup(WithTable(mem, d, i, t), e, v) == Lookup(mem, e, v)
  {
    WithTableIs(mem, d, i, t);
    hide WithTable;
    Split(v);
    assert DirOk(mem, owner, e) && PdeOk(mem, owner, e, Pdx(v)) && DirOk(mem, owner, d);
  }

  // Writing an entry of a table.

  /** Entry v of directory d is at (t, Ptx(v)). */
  ghost predicate At(mem: Mem, d: int, v: int, t: int) {
    0 <= v < PAGES && Present(Ent(mem, d, Pdx(v))) && Ent(mem, d, Pdx(v)).page == t && IsTable(mem, t)
  }

  /** Writing that entry changes what d says of page v and nothing else. */
  lemma SetLookup(mem: Mem, owner: Owners, dirs: set<int>, d: int, v: int, t: int, f: Pte)
    requires TabInv(mem, owner, dirs) && d in dirs && At(mem, d, v, t)
    ensures 0 <= Ptx(v) < ENTRIES
    ensures var mem' := SetEnt(mem, t, Ptx(v), f);
            && Lookup(mem', d, v) == (if Present(f) then Some(f) else None)
            && forall e, w | e in dirs && 0 <= w < PAGES && (e != d || w != v) ::
                 Lookup(mem', e, w) == Lookup(mem, e, w)
  {
    Split(v);
    var mem' := SetEnt(mem, t, Ptx(v), f);
    SetEntIs(mem, t, Ptx(v), f);
    hide SetEnt;
    assert PdeOk(mem, owner, d, Pdx(v)) && DirOk(mem, owner, d);
    forall e, w | e in dirs && 0 <= w < PAGES && (e != d || w != v) ensures Lookup(mem', e, w) == Lookup(mem, e, w) {
      Split(w);
      SplitUnique(v, w);
      assert DirOk(mem, owner, e) && PdeOk(mem, owner, e, Pdx(w));
    }
  }

  /** What an entry write keeps: directories, their entries, and the other tables' entries. */
  lemma SetTables(mem: Mem, owner: Owners, dirs: set<int>, d: int, v: int, t: int, f: Pte)
    requires TabInv(mem, owner, dirs) && d in dirs && At(mem, d, v, t)
    ensures 0 <= Ptx(v) < ENTRIES && 0 <= Pdx(v) < ENTRIES
    ensures var mem' := SetEnt(mem, t, Ptx(v), f);
            && (forall e | e in dirs :: DirOk(mem', owner, e))
            && (forall e, i | e in dirs && 0 <= i < ENTRIES ::
                 Ent(mem', e, i) == Ent(mem, e, i) && PdeOk(mem', owner, e, i))
            && (forall e, i, j | e in dirs && 0 <= i < ENTRIES && 0 <= j < ENTRIES && Present(Ent(mem, e, i)) ::
                  Ent(mem', Ent(mem, e, i).page, j) == if e == d && i == Pdx(v) && j == Ptx(v) then f
                  else Ent(mem, Ent(mem, e, i).page, j))
  {
    Split(v);
    SetEntIs(mem, t, Ptx(v), f);
    var mem' := SetEnt(mem, t, Ptx(v), f);
    hide SetEnt;
    assert PdeOk(mem, owner, d, Pdx(v));
    forall e | e in dirs ensures DirOk(mem', owner, e) && e != t {
      assert DirOk(mem, owner, e);
    }
    forall e, i | e in dirs && 0 <= i < ENTRIES ensures Ent(mem', e, i) == Ent(mem, e, i) && PdeOk(mem', owner, e, i) {
      assert PdeOk(mem, owner, e, i);
    }
    forall e, i, j | e in dirs && 0 <= i < ENTRIES && 0 <= j < ENTRIES && Present(Ent(mem, e, i))
      ensures Ent(mem', Ent(mem, e, i).page, j) == if e == d && i == Pdx(v) && j == Ptx(v) then f
              else Ent(mem, Ent(mem, e, i).page, j)
    {
      assert PdeOk(mem, owner, e, i);
    }
  }

  /** A kernel mapping owns nothing. */
  lemma MapKernelTab(mem: Mem, owner: Owners, dirs: set<int>, d: int, v: int, t: int, f: Pte)
    requires TabInv(mem, owner, dirs) && SameKeys(mem, owner) && d in dirs && At(mem, d, v, t) && Pdx(v) >= USER_TABLES
    ensures 0 <= Ptx(v) < ENTRIES && TabInv(SetEnt(mem, t, Ptx(v), f), owner, dirs)
  {
    SetTables(mem, owner, dirs, d, v, t, f);
    SetEntIs(mem, t, Ptx(v), f);
    var mem' := SetEnt(mem, t, Ptx(v), f);
    hide SetEnt;
    forall e, i, j | e in dirs && 0 <= i < USER_TABLES && 0 <= j < ENTRIES ensures PteOk(mem', owner, e, i, j) {
      assert PteOk(mem, owner, e, i, j) && PdeOk(mem, owner, e, i);
    }
    forall p | p in owner ensures OwnOk(mem', owner, dirs, p) {
      assert OwnOk(mem, owner, dirs, p);
    }
  }

  /** Mapping a frame at a user page that had none makes that page its owner. */
  lemma MapUserTab(mem: Mem, owner: Owners, dirs: set<int>, d: int, v: int, t: int, f: Pte)
    requires TabInv(mem, owner, dirs) && SameKeys(mem, owner) && d in dirs && At(mem, d, v, t) && Pdx(v) < USER_TABLES
    requires Lookup(mem, d, v) == None && Present(f) && f.page in owner && owner[f.page] == Other && IsData(mem, f.page)
    ensures 0 <= Ptx(v) < ENTRIES
    ensures TabInv(SetEnt(mem, t, Ptx(v), f), owner[f.page := User(d, Pdx(v), Ptx(v))], dirs)
  {
    SetTables(mem, owner, dirs, d, v, t, f);
    SetEntIs(mem, t, Ptx(v), f);
    Split(v);
    var mem', owner' := SetEnt(mem, t, Ptx(v), f), owner[f.page := User(d, Pdx(v), Ptx(v))];
    hide SetEnt;
    forall e | e in dirs ensures DirOk(mem', owner', e) {
      assert DirOk(mem, owner, e) && DirOk(mem', owner, e);
    }
    forall e, i | e in dirs && 0 <= i < ENTRIES ensures PdeOk(mem', owner', e, i) {
      assert PdeOk(mem, owner, e, i) && PdeOk(mem', owner, e, i);
    }
    forall e, i, j | e in dirs && 0 <= i < USER_TABLES && 0 <= j < ENTRIES ensures PteOk(mem', owner', e, i, j) {
      assert PteOk(mem, owner, e, i, j) && PdeOk(mem, owner, e, i);
    }
    forall p | p in owner' ensures OwnOk(mem', owner', dirs, p) {
      assert OwnOk(mem, owner, dirs, p);
    }
  }

  /** Clearing the entry of a mapped user page leaves its frame without an owner. */
  lemma UnmapTab(mem: Mem, owner: Owners, dirs: set<int>, d: int, v: int, t: int)
    requires TabInv(mem, owner, dirs) && SameKeys(mem, owner) && d in dirs && At(mem, d, v, t) && Pdx(v) < USER_TABLES
    requires Lookup(mem, d, v).Some?
    ensures 0 <= Ptx(v) < ENTRIES
    ensures var p := Lookup(mem, d, v).value.page;
            && p in owner && owner[p] == User(d, Pdx(v), Ptx(v)) && p != t && IsData(mem, p)
            && TabInv(SetEnt(mem, t, Ptx(v), Zero()), owner[p := Other], dirs)
  {
    var f := Zero();
    SetTables(mem, owner, dirs, d, v, t, f);
    SetEntIs(mem, t, Ptx(v), f);
    Split(v);
    assert PteOk(mem, owner, d, Pdx(v), Ptx(v)) && PdeOk(mem, owner, d, Pdx(v));
    var p := Lookup(mem, d, v).value.page;
    var mem', owner' := SetEnt(mem, t, Ptx(v), f), owner[p := Other];
    hide SetEnt;
    forall e | e in dirs ensures DirOk(mem', owner', e) {
      assert DirOk(mem, owner, e) && DirOk(mem', owner, e);
    }
    forall e, i | e in dirs && 0 <= i < ENTRIES ensures PdeOk(mem', owner', e, i) {
      assert PdeOk(mem, owner, e, i) && PdeOk(mem', owner, e, i);
    }
    forall e, i, j | e in dirs && 0 <= i < USER_TABLES && 0 <= j < ENTRIES ensures PteOk(mem', owner', e, i, j) {
      assert PteOk(mem, owner, e, i, j) && PdeOk(mem, owner, e, i);
    }
    forall q | q in owner' ensures OwnOk(mem', owner', dirs, q) {
      assert OwnOk(mem, owner, dirs, q);
    }
  }

  // Giving up a directory.

  function Retired(owner: Owners, d: int): Owners { map p | p in owner :: if Of(owner[p], d) then Other else owner[p] }

  /** A directory with no user frames left can be given up, tables and all. */
  lemma RetireTab(mem: Mem, owner: Owners, dirs: set<int>, d: int)
    requires TabInv(mem, owner, dirs) && SameKeys(mem, owner) && d in dirs
    requires forall p | p in owner :: !(owner[p].User? && owner[p].d == d)
    ensures TabInv(mem, Retired(owner, d), dirs - {d})
  {
    var owner', dirs' := Retired(owner, d), dirs - {d};
    forall e | e in dirs' ensures DirOk(mem, owner', e) {
      assert DirOk(mem, owner, e);
    }
    forall e, i | e in dirs' && 0 <= i < ENTRIES ensures PdeOk(mem, owner', e, i) {
      assert PdeOk(mem, owner, e, i);
    }
    forall e, i, j | e in dirs' && 0 <= i < USER_TABLES && 0 <= j < ENTRIES ensures PteOk(mem, owner', e, i, j) {
      assert PteOk(mem, owner, e, i, j);
    }
    forall p | p in owner' ensures OwnOk(mem, owner', dirs', p) {
      assert OwnOk(mem, owner, dirs, p);
    }
  }
}
