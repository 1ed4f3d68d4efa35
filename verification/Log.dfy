/** kernel/log.c as the kernel runs it, over the buffer cache: fields updated in place, one loop per
    loop of the source, every block read and written through a buffer. Each block write and each
    region under log.lock is a step of LogMachine, recorded in a ghost action list, so everything
    proved of runs holds of this code. */
module Log {
  import opened Basics
  import opened Blocks
  import opened Ring
  import opened Bcache
  import opened LogMachine
  import opened LogCrash
  import LogOps

  // The log area and the cache.

  predicate InLog(g: Geometry, bn: nat) { g.logStart <= bn < g.logStart + g.logSize }

  /** Nobody holds a buffer of the log area: only the log reads it, and lets go each time. */
  ghost predicate LogUnheld(g: Geometry, t: Table) {
    forall i | 0 <= i < NBUF && t[i].refcnt > 0 :: !InLog(g, t[i].blockno)
  }

  lemma CalmTrans(g: Geometry, t: Table, u: Table, v: Table)
    requires Calm(t, u) && Calm(u, v)
    ensures Calm(t, v) && (LogUnheld(g, t) ==> LogUnheld(g, v))
    ensures Roomy(t) ==> Roomy(v)
    ensures Unheld(t) ==> Unheld(v)
  {
    if Roomy(t) {
      CalmRoomy(t, v);
    }
  }

  lemma CalmSame(t: Table)
    ensures Calm(t, t)
  {
  }

  /** The log area never waits in a dirty buffer, so a log block can be read exactly if some buffer
      can be taken over. */
  lemma LogReadable(g: Geometry, t: Table, pending: map<uint, Block>, bn: uint)
    requires Pends(t, pending) && bn !in pending && InLog(g, bn) && LogUnheld(g, t)
    ensures Readable(t, bn) <==> Roomy(t)
  {
    if i :| 0 <= i < NBUF && (HasKey(t[i], ROOTDEV, bn) || Recyclable(t[i])) {
      assert Recyclable(t[i]);
    }
  }

  lemma PendingReadable(t: Table, pending: map<uint, Block>, disk: seq<Block>, bn: uint)
    requires Pends(t, pending) && Coherent(t, disk) && bn in pending
    ensures Readable(t, bn)
  {
    var i :| HoldsDirty(t, i, bn);
    assert HasKey(t[i], ROOTDEV, bn);
  }

  /** With nothing dirty and nobody holding a buffer, any block can be read while another is held. */
  lemma SecondReadable(t: Table, u: Table, b: nat, bn: uint, cn: uint)
    requires Unheld(t) && Pends(t, map[]) && Gets(t, u, b, bn)
    ensures Roomy(t) && Readable(u, cn)
  {
    var i := if b == 0 then 1 else 0;
    assert Recyclable(t[i]) && u[i] == t[i];
  }

  lemma FirstReadable(t: Table, bn: uint)
    requires Unheld(t) && Pends(t, map[])
    ensures Roomy(t) && Readable(t, bn)
  {
    assert Recyclable(t[0]);
  }

  lemma GetsHeld(t: Table, u: Table, b: nat, bn: uint)
    requires Gets(t, u, b, bn)
    ensures b < NBUF && u[b].refcnt > 0 && u[b].valid && u[b].blockno == bn
  {
  }

  lemma BothHeld(t: Table, u: Table, v: Table, b: nat, bn: uint, c: nat, cn: uint)
    requires Gets(t, u, b, bn) && Gets(u, v, c, cn) && bn != cn
    ensures b < NBUF && c < NBUF && b != c && v[b] == u[b] && v[b].blockno == bn && v[c].blockno == cn
    ensures v[b].refcnt > 0 && v[b].valid && v[c].refcnt > 0 && v[c].valid
  {
  }

  /** After a write and the release of one of the two, the other is still held. */
  lemma OtherHeld(v: Table, w: Table, x: Table, b: nat, c: nat, data: Block)
    requires b < NBUF && c < NBUF && b != c && v[b].refcnt > 0 && v[c].refcnt > 0
    requires (Wrote(v, w, b, data) || Wrote(v, w, c, data)) && Releases(w, x, c)
    ensures x[b].refcnt > 0
  {
  }

  lemma WroteHeld(v: Table, w: Table, b: nat, c: nat, data: Block)
    requires Wrote(v, w, b, data) && c < NBUF && v[c].refcnt > 0
    ensures w[c].refcnt > 0
  {
  }

  lemma ViewClean(t: Table, disk: seq<Block>, pending: map<uint, Block>, bn: uint)
    requires Pends(t, pending) && bn < |disk| && bn !in pending
    ensures CacheView(t, disk, bn) == disk[bn]
  {
  }

  /** What is pending is listed in the header, so it is no block of the log area. */
  lemma PendingListed(g: Geometry, h: Disk, s: State)
    requires InvWith(g, h, s)
    ensures forall bn: uint | bn in s.pending :: bn in s.lh && IsHome(g, bn)
    ensures s.phase.Boot? || (s.phase.Install? && s.phase.recovering) ==> s.pending == map[]
    ensures s.phase.Running? || s.phase.LogCopy? ==> forall bn: uint | bn in s.lh :: bn in s.pending
    ensures s.phase.Install? && !s.phase.recovering && s.phase.tail < |s.lh| ==> s.lh[s.phase.tail] in s.pending
  {
    hide Restores, Shows, Replay, Copied, HomeHas, Header;
    if s.phase.Install? && !s.phase.recovering && s.phase.tail < |s.lh| {
      assert s.lh[s.phase.tail] == s.lh[s.phase.tail..][0];
    }
  }

  /** While a transaction is being built, as many blocks are pending as the header lists. */
  lemma PendingCount(g: Geometry, h: Disk, s: State)
    requires InvWith(g, h, s) && s.phase.Running?
    ensures |s.pending| == |s.lh|
  {
    hide Restores, Shows, Replay, Header;
    assert s.pending.Keys == set bn: uint | bn in s.lh;
    ListSize(s.lh);
  }

  lemma {:induction false} ListSize(lh: seq<uint>)
    requires forall i, j | 0 <= i < j < |lh| :: lh[i] != lh[j]
    ensures |set bn: uint | bn in lh| == |lh|
  {
    if lh != [] {
      var m := |lh| - 1;
      ListSize(lh[..m]);
      assert lh == lh[..m] + [lh[m]];
      assert (set bn: uint | bn in lh) == (set bn: uint | bn in lh[..m]) + {lh[m]};
    }
  }

  class Log {
    const g: Geometry
    ghost const powerOnDisk: Disk

    var cache: Bcache
    var outstanding: nat
    var committing: bool
    var n: nat                      // lh.n
    const block: array<uint>        // lh.block

    ghost var st: State
    ghost var acts: seq<Action>

    /** The recorded actions are a run from power-on that leads to st. */
    ghost predicate Recorded()
      reads this
    {
      && HeaderOk(g, powerOnDisk)
      && IsRun(g, PowerOn(powerOnDisk), acts)
      && After(g, PowerOn(powerOnDisk), acts) == st
      && Shape(g, st)
    }

    lemma RecordedInv()
      requires Recorded()
      ensures Inv(g, Recover(g, powerOnDisk), st)
    {
      InvRun(g, powerOnDisk, acts);
    }

    /** The table of buffers. */
    ghost function T(): Table
      reads this, cache, cache.bufs
      requires cache.Valid()
    {
      cache.T()
    }

    /** The cache holds the disk of the machine, and its dirty buffers are the pending blocks. */
    ghost predicate Cached()
      reads this, cache, cache.bufs
    {
      cache.Valid() && cache.disk == st.disk && cache.pending == st.pending && LogUnheld(g, T())
    }

    ghost predicate Fields()
      reads this, block
    {
      && block.Length == LOGSIZE
      && n <= LOGSIZE
      && outstanding == |st.ops|
      && committing == (st.phase.LogCopy? || st.phase.Done? || (st.phase.Install? && !st.phase.recovering))
      && block[..n] == st.lh
    }

    ghost predicate Valid()
      reads this, block, cache, cache.bufs
    {
      Recorded() && Fields() && Cached()
    }

    constructor (geometry: Geometry, d: Disk)
      requires HeaderOk(geometry, d)
      ensures g == geometry && powerOnDisk == d && cache.disk == d
      ensures Valid() && Unheld(T()) && st == PowerOn(d) && acts == []
      ensures fresh(block) && fresh(cache) && fresh(cache.bufs)
    {
      g := geometry;
      powerOnDisk := d;
      outstanding, committing, n := 0, false, 0;
      block := new uint[LOGSIZE](i => 0);
      cache := new Bcache(d);
      st := PowerOn(d);
      acts := [];
    }

    /** Record one step of the machine. */
    ghost method Step(a: Action)
      requires Recorded() && Enabled(g, st, a)
      modifies this`st, this`acts
      ensures Recorded()
      ensures acts == old(acts) + [a] && st == Do(g, old(st), a)
    {
      RunSnoc(g, PowerOn(powerOnDisk), acts, a);
      InvRun(g, powerOnDisk, acts + [a]);
      st := Do(g, st, a);
      acts := acts + [a];
    }

    /** What the run says of the pending blocks. */
    lemma PendingFacts()
      requires Recorded()
      ensures forall bn: uint | bn in st.pending :: bn in st.lh && IsHome(g, bn)
      ensures st.phase.Boot? || (st.phase.Install? && st.phase.recovering) ==> st.pending == map[]
      ensures st.phase.Running? || st.phase.LogCopy? ==> forall bn: uint | bn in st.lh :: bn in st.pending
      ensures st.phase.Install? && !st.phase.recovering && st.phase.tail < |st.lh| ==>
                st.lh[st.phase.tail] in st.pending
      ensures |st.disk| == g.size && ValidGeometry(g)
    {
      hide InvWith, IsRun, After;
      RecordedInv();
      PendingListed(g, ReplayAll(Recover(g, powerOnDisk), st.groups), st);
    }

    /** Until it is installed, a block listed in the header is in a dirty buffer: it cannot be
        recycled, and write_log finds the modified contents. */
    lemma HeaderPinned(i: nat)
      requires Valid() && (st.phase.Running? || st.phase.LogCopy?) && i < n
      ensures exists j :: HoldsDirty(T(), j, block[i]) && T()[j].data == View(st, block[i])
    {
      PendingFacts();
      assert st.lh[i] == block[i];
    }

    /** begin_op, up to the point where it sleeps or returns: admitted is false where the source
        sleeps (and will look again). */
    method BeginOp() returns (admitted: bool)
      requires Valid() && (st.phase.Running? || committing)
      modifies this`outstanding, this`st, this`acts
      ensures Valid()
      ensures admitted <==> old(st.phase.Running? && n + (outstanding + 1) * MAXOPBLOCKS <= LOGSIZE)
      ensures acts == old(acts) + (if admitted then [Begin] else [])
    {
      hide IsRun, After, Shape, LogUnheld;
      if committing {
        return false;
      } else if n + (outstanding + 1) * MAXOPBLOCKS > LOGSIZE {
        return false;
      } else {
        Step(Begin);
        outstanding := outstanding + 1;
        return true;
      }
    }

    /** log_write of held buffer b, whose contents the caller has made data, by the k-th outstanding
        operation. ok is false where the source panics; the state is then left alone. */
    method LogWrite(ghost k: nat, b: Link, data: Block) returns (ok: bool)
      requires Valid() && b < NBUF && cache.bufs[b].valid && cache.bufs[b].refcnt > 0
      requires IsHome(g, cache.bufs[b].blockno)
      requires outstanding > 0 ==> k < |st.ops|
      modifies this`n, this`st, this`acts, block, cache`pending, cache.bufs
      ensures Valid()
      ensures ok <==> old(outstanding) >= 1 && !SizeGuard(g, old(st))
      ensures acts == old(acts) + (if ok then [Action.LogWrite(k, old(cache.bufs[b].blockno), data)] else [])
      ensures T() == if ok then old(T())[b := old(cache.bufs[b]).(data := data, dirty := true)] else old(T())
    {
      hide IsRun, After, Shape, Pends, Coherent, RingOf;
      if n >= LOGSIZE || n >= g.logSize - 1 {
        return false;
      }
      if outstanding < 1 {
        return false;
      }
      var bn := cache.bufs[b].blockno;
      ghost var lh := st.lh;
      Step(Action.LogWrite(k, bn, data));
      AddEntry(bn, lh);
      cache.MarkDirty(b, data);
      return true;
    }

    /** log_write's search of the header, with absorption. */
    method AddEntry(bn: uint, ghost lh: seq<uint>)
      requires block.Length == LOGSIZE && n < LOGSIZE && block[..n] == lh
      modifies this`n, block
      ensures n <= LOGSIZE && block[..n] == if bn in lh then lh else lh + [bn]
    {
      var i := 0;
      while i < n && block[i] != bn
        invariant 0 <= i <= n
        invariant bn !in block[..i]
      {
        i := i + 1;
      }
      assert bn in lh <==> i < n by {
        if i < n {
          assert block[..n][i] == bn;
        }
      }
      block[i] := bn;
      if i == n {
        n := n + 1;
      }
    }

    /** The body of write_log's loop: the buffer of block home into block slot of the log. */
    method CopyToLog(slot: uint, home: uint) returns (ok: bool)
      requires cache.Valid() && slot < |cache.disk| && home < |cache.disk| && slot != home
      requires slot !in cache.pending && home in cache.pending
      modifies cache, cache.bufs
      ensures cache.Valid() && cache.pending == old(cache.pending) && Calm(old(T()), T())
      ensures ok <==> Readable(old(T()), slot)
      ensures cache.disk == if ok then old(cache.disk)[slot := old(CacheView(T(), cache.disk, home))]
              else old(cache.disk)
      ensures !ok ==> T() == old(T())
    {
      hide Coherent, RingOf, Pends, CacheView, Readable, Calm, Gets, Wrote, Releases;
      ghost var t := T();
      var to := cache.Bread(ROOTDEV, slot);
      if to.None? {
        CalmSame(t);
        return false;
      }
      ghost var t1 := T();
      PendingReadable(t1, cache.pending, cache.disk, home);
      var from := cache.Bread(ROOTDEV, home);
      ghost var t2 := T();
      BothHeld(t, t1, t2, to.value, slot, from.value, home);
      var data := cache.bufs[from.value].data;
      cache.Bwrite(to.value, data);
      ghost var t3 := T();
      WroteHeld(t2, t3, to.value, from.value, data);
      cache.Brelse(from.value);
      ghost var t4 := T();
      OtherHeld(t2, t3, t4, to.value, from.value, data);
      cache.Brelse(to.value);
      CalmTwo(t, t1, t2, t3, t4, T(), to.value, slot, from.value, home, data);
      return true;
    }

    /** One iteration of write_log: the buffer of header entry tail into the log. It fails, on the
        "no buffers" panic, exactly if every buffer is dirty or held. */
    method CopyOne(tail: nat) returns (ok: bool)
      requires Valid() && st.phase == LogCopy(tail) && tail < n
      modifies this`st, this`acts, cache, cache.bufs
      ensures Valid() && Calm(old(T()), T())
      ensures ok <==> Roomy(old(T()))
      ensures acts == old(acts) + (if ok then [CopyBlock] else [])
      ensures ok ==> st == Do(g, old(st), CopyBlock)
      ensures !ok ==> st == old(st)
    {
      hide IsRun, After, Shape, Coherent, RingOf, Pends, CacheView, Roomy, Readable, LogUnheld, Calm, View, IsHome;
      PendingFacts();
      ghost var t := T();
      EntryFacts(g, st, tail);
      var home, slot := block[tail], g.logStart + 1 + tail;
      assert st.lh[tail] == home;
      LogReadable(g, t, st.pending, slot);
      CacheIsLogView(t, st, home);
      ok := CopyToLog(slot, home);
      CalmTrans(g, t, t, T());
      if ok {
        Step(CopyBlock);
      }
    }

    lemma AllCopied()
      requires Valid() && st.phase == LogCopy(n)
      ensures Copied(g, st, n)
    {
      RecordedInv();
    }

    /** write_log: copy every dirty block into the log, one block write after another. One buffer to
        take over is enough for any number of blocks; without one it panics before writing any. */
    method WriteLog() returns (ok: bool)
      requires Valid() && st.phase == LogCopy(0)
      modifies this`st, this`acts, cache, cache.bufs
      ensures Valid() && Calm(old(T()), T())
      ensures ok <==> n == 0 || Roomy(old(T()))
      ensures ok ==> st.phase == LogCopy(n) && st.cur == old(st.cur) && st.groups == old(st.groups) && Copied(g, st, n)
      ensures !ok ==> st == old(st) && acts == old(acts)
    {
      hide Recorded, Roomy, Calm, Copied;
      ghost var t := T();
      CalmSame(t);
      var tail := 0;
      while tail < n
        invariant 0 <= tail <= n
        invariant Valid() && st.phase == LogCopy(tail) && Calm(t, T()) && (tail > 0 ==> Roomy(t))
        invariant st.cur == old(st.cur) && st.groups == old(st.groups)
        invariant tail == 0 ==> st == old(st) && acts == old(acts) && T() == t
      {
        ghost var u := T();
        ok := CopyOne(tail);
        CalmTrans(g, t, t, u);
        CalmTrans(g, t, u, T());
        if !ok {
          return;
        }
        tail := tail + 1;
      }
      AllCopied();
      return true;
    }

    /** write_head: the in-memory header into the header block, in one block write. */
    method WriteHead()
      requires block.Length == LOGSIZE && n <= LOGSIZE && g.logStart < |cache.disk| && g.logStart < UINT_LIMIT
      requires cache.Valid() && g.logStart !in cache.pending && Readable(T(), g.logStart)
      modifies cache, cache.bufs
      ensures cache.Valid() && cache.pending == old(cache.pending) && Calm(old(T()), T())
      ensures cache.disk == old(cache.disk)[g.logStart := EncodeHeader(old(cache.disk)[g.logStart], block[..n])]
    {
      hide Coherent, RingOf, Pends, CacheView, Readable, Calm;
      ghost var t := T();
      var r := cache.Bread(ROOTDEV, g.logStart);
      ghost var u := T();
      ViewClean(u, cache.disk, cache.pending, g.logStart);
      var hb := PutWord(cache.bufs[r.value].data, 0, n);
      var i := 0;
      while i < n
        invariant 0 <= i <= n
        invariant hb == PutEntries(PutWord(cache.disk[g.logStart], 0, n), block[..n], i)
      {
        hb := PutWord(hb, 1 + i, block[i]);
        i := i + 1;
      }
      cache.Bwrite(r.value, hb);
      ghost var v := T();
      cache.Brelse(r.value);
      CalmOne(t, u, v, T(), r.value, g.logStart, hb);
    }

    /** The body of install_trans' loop: block slot of the log to block home. In a commit the home
        block is in its dirty buffer and needs no other; in recovery both blocks need a buffer. */
    method CopyHome(slot: uint, home: uint)
      requires cache.Valid() && slot < |cache.disk| && home < |cache.disk| && slot != home && slot !in cache.pending
      requires Readable(T(), slot) && (home in cache.pending || (Unheld(T()) && cache.pending == map[]))
      modifies cache, cache.bufs
      ensures cache.Valid() && cache.pending == old(cache.pending) - {home} && Calm(old(T()), T())
      ensures cache.disk == old(cache.disk)[home := old(cache.disk)[slot]]
    {
      hide Coherent, RingOf, Pends, CacheView, Readable, Calm, Unheld, Roomy, Gets, Wrote, Releases;
      ghost var t := T();
      var lbuf := cache.Bread(ROOTDEV, slot);
      ghost var t1 := T();
      if home in cache.pending {
        PendingReadable(t1, cache.pending, cache.disk, home);
      } else {
        SecondReadable(t, t1, lbuf.value, slot, home);
      }
      var dbuf := cache.Bread(ROOTDEV, home);
      ghost var t2 := T();
      ViewClean(t1, cache.disk, cache.pending, slot);
      BothHeld(t, t1, t2, lbuf.value, slot, dbuf.value, home);
      var data := cache.bufs[lbuf.value].data;
      cache.Bwrite(dbuf.value, data);
      ghost var t3 := T();
      WroteHeld(t2, t3, dbuf.value, lbuf.value, data);
      cache.Brelse(lbuf.value);
      ghost var t4 := T();
      OtherHeld(t2, t3, t4, dbuf.value, lbuf.value, data);
      cache.Brelse(dbuf.value);
      CalmTwo(t, t1, t2, t3, t4, T(), lbuf.value, slot, dbuf.value, home, data);
    }

    /** One iteration of install_trans: log block number tail to its home. */
    method InstallOne(tail: nat)
      requires Valid() && st.phase.Install? && st.phase.tail == tail < n
      requires if st.phase.recovering then Unheld(T()) else Roomy(T())
      modifies this`st, this`acts, cache, cache.bufs
      ensures Valid() && Calm(old(T()), T())
      ensures st == Do(g, old(st), InstallBlock) && acts == old(acts) + [InstallBlock]
    {
      hide IsRun, After, Shape, Coherent, RingOf, Pends, CacheView, Roomy, Readable, LogUnheld, Calm, IsHome, Unheld;
      PendingFacts();
      ghost var t := T();
      EntryFacts(g, st, tail);
      var home, slot := block[tail], g.logStart + tail + 1;
      assert st.lh[tail] == home;
      LogReadable(g, t, st.pending, slot);
      if st.phase.recovering {
        FirstReadable(t, slot);
      }
      CopyHome(slot, home);
      CalmTrans(g, t, t, T());
      Step(InstallBlock);
    }

    /** install_trans: copy the logged blocks home, one block write after another. */
    method InstallTrans()
      requires Valid() && st.phase.Install? && st.phase.tail == 0
      requires if st.phase.recovering then Unheld(T()) else Roomy(T())
      modifies this`st, this`acts, cache, cache.bufs
      ensures Valid() && Calm(old(T()), T())
      ensures st.phase == Install(n, old(st.phase.recovering)) && st.lh == old(st.lh) && st.groups == old(st.groups)
      ensures cache.disk == Installed(g, old(cache.disk), st.lh, n)
    {
      hide IsRun, After, Calm, Unheld, Roomy, LogUnheld, Coherent, Pends, RingOf;
      ghost var t := T();
      CalmSame(t);
      var tail := 0;
      while tail < n
        invariant 0 <= tail <= n
        invariant Valid() && st.phase == Install(tail, old(st.phase.recovering)) && Calm(t, T())
        invariant st.lh == old(st.lh) && st.groups == old(st.groups)
        invariant cache.disk == Installed(g, old(cache.disk), st.lh, tail)
      {
        ghost var u := T();
        assert st.lh[tail] == block[tail];
        CalmTrans(g, t, t, u);
        InstallOne(tail);
        CalmTrans(g, t, u, T());
        tail := tail + 1;
      }
    }

    /** The header block can be read whenever some buffer can be taken over. */
    lemma HeadReadable()
      requires Recorded() && Cached() && Roomy(T())
      ensures g.logStart < |st.disk| && g.logStart < UINT_LIMIT && g.logStart !in st.pending
              && Readable(T(), g.logStart)
    {
      PendingFacts();
      LogReadable(g, T(), st.pending, g.logStart);
    }

    /** The tail end of a commit and of recovery: erase the header. */
    method EraseHead()
      requires Valid() && st.phase.Install? && st.phase.tail == n && Roomy(T())
      modifies this`n, this`st, this`acts, cache, cache.bufs
      ensures Valid() && Calm(old(T()), T())
      ensures st == Do(g, old(st), ClearHead) && acts == old(acts) + [ClearHead]
      ensures n == 0
    {
      hide IsRun, After, Calm, Roomy, LogUnheld, Coherent, Pends, RingOf, EncodeHeader, Readable;
      ghost var t := T();
      HeadReadable();
      n := 0;
      WriteHead();
      assert block[..n] == [];
      CalmTrans(g, t, t, T());
      Step(ClearHead);
    }

    /** The header write that commits the transaction. */
    method CommitHead()
      requires Valid() && st.phase == LogCopy(n) && Roomy(T())
      modifies this`st, this`acts, cache, cache.bufs
      ensures Valid() && Calm(old(T()), T())
      ensures st == Do(g, old(st), Action.WriteHead) && acts == old(acts) + [Action.WriteHead]
    {
      hide IsRun, After, Calm, Roomy, LogUnheld, Coherent, Pends, RingOf, EncodeHeader, Readable;
      ghost var t := T();
      HeadReadable();
      WriteHead();
      CalmTrans(g, t, t, T());
      Step(Action.WriteHead);
    }

    /** commit: the five-part sequence, as a list of block writes. It panics, before any of them,
        exactly if there is something to commit and every buffer is dirty or held. */
    method Commit() returns (ok: bool)
      requires Valid() && (if n > 0 then st.phase == LogCopy(0) else st.phase.Done?)
      modifies this`n, this`st, this`acts, cache, cache.bufs
      ensures Valid() && Calm(old(T()), T())
      ensures ok <==> old(n) == 0 || Roomy(old(T()))
      ensures ok ==> st.phase.Done? && n == 0
      ensures ok ==> st.groups == old(st.groups) + (if old(n) > 0 then [old(st.cur)] else [])
      ensures !ok ==> st == old(st) && acts == old(acts)
    {
      hide Recorded, Roomy, Calm, Copied, LogUnheld, Coherent, Pends, RingOf, EncodeHeader, Installed;
      ghost var t := T();
      CalmSame(t);
      if n > 0 {
        ok := WriteLog();
        if !ok {
          return;
        }
        ghost var t1 := T();
        CalmTrans(g, t, t, t1);
        CommitHead();
        ghost var t2 := T();
        CalmTrans(g, t, t1, t2);
        InstallTrans();
        ghost var t3 := T();
        CalmTrans(g, t, t2, t3);
        EraseHead();
        CalmTrans(g, t, t3, T());
      }
      return true;
    }

    /** end_op by the k-th outstanding operation. The "log.committing" panic cannot occur: it would
        need an operation outstanding during a commit. ok is false where the commit finds no buffer. */
    method EndOp(ghost k: nat) returns (ok: bool)
      requires Valid() && k < |st.ops|
      modifies this`outstanding, this`committing, this`n, this`st, this`acts, cache, cache.bufs
      ensures Valid() && Calm(old(T()), T())
      ensures ok <==> old(outstanding) > 1 || old(n) == 0 || Roomy(old(T()))
      ensures outstanding == old(outstanding) - 1 && st.ops == RemoveAt(old(st.ops), k)
      ensures ok ==> st.phase.Running?
      ensures st.groups == old(st.groups) + (if ok && old(outstanding) == 1 && old(n) > 0 then [old(st.cur)] else [])
      ensures ok && old(outstanding) == 1 ==> n == 0
      ensures !ok || old(outstanding) > 1 ==> cache.disk == old(cache.disk) && n == old(n)
    {
      hide IsRun, After, Shape, Roomy, Calm, LogUnheld, Coherent, Pends, RingOf;
      CalmSame(T());
      assert st.phase.Running? by { RunningOps(); }
      Step(End(k));
      outstanding := outstanding - 1;
      if outstanding == 0 {
        committing := true;
        ok := Commit();
        if !ok {
          return;
        }
        assert st.ops == [] by { DoneOps(); }
        Step(FinishCommit);
        committing := false;
      }
      return true;
    }

    lemma RunningOps()
      requires Recorded() && |st.ops| > 0
      ensures st.phase.Running?
    {
      RecordedInv();
    }

    lemma DoneOps()
      requires Recorded() && st.phase.Done?
      ensures st.ops == []
    {
      RecordedInv();
    }

    /** With nobody holding a buffer, the commit of a full transaction goes through exactly if the
        header lists fewer blocks than there are buffers. */
    lemma CommitRoom()
      requires Valid() && st.phase.Running? && Unheld(T())
      ensures Roomy(T()) <==> n < NBUF
    {
      hide InvWith;
      RecordedInv();
      PendingCount(g, ReplayAll(Recover(g, powerOnDisk), st.groups), st);
      RoomyExactly(T(), cache.disk, cache.pending);
      assert |block[..n]| == n;
    }

    /** Loss of power: only the disk is left. */
    method LosePower()
      requires Valid()
      modifies this`cache, this`outstanding, this`committing, this`n, this`st, this`acts
      ensures Valid() && Unheld(T()) && fresh(cache) && fresh(cache.bufs)
      ensures cache.disk == old(cache.disk) && st.phase.Boot? && acts == old(acts) + [Crash]
      ensures st.groups == old(st.groups)
    {
      hide IsRun, After, Coherent, Pends, RingOf, HeaderOk;
      Step(Crash);
      cache := new Bcache(cache.disk);
      outstanding, committing, n := 0, false, 0;
    }

    /** read_head. */
    method ReadHead()
      requires Valid() && st.phase.Boot? && Unheld(T())
      modifies this`n, this`st, this`acts, block, cache, cache.bufs
      ensures Valid() && Unheld(T()) && cache.disk == old(cache.disk)
      ensures st == Do(g, old(st), Action.ReadHead) && acts == old(acts) + [Action.ReadHead]
    {
      hide IsRun, EncodeHeader, PutEntries, IsHome, Coherent, Pends, RingOf, CacheView, Calm, Unheld, LogUnheld,
           Readable, Gets, Releases,
           Roomy, After;
      PendingFacts();
      ghost var t := T();
      FirstReadable(t, g.logStart);
      var r := cache.Bread(ROOTDEV, g.logStart);
      ghost var u := T();
      ViewClean(u, cache.disk, cache.pending, g.logStart);
      GetsHeld(t, u, r.value, g.logStart);
      ReadEntries(cache.bufs[r.value].data);
      cache.Brelse(r.value);
      CalmRead(t, u, T(), r.value, g.logStart);
      CalmTrans(g, t, t, T());
      Step(Action.ReadHead);
    }

    method ReadEntries(hb: Block)
      requires block.Length == LOGSIZE && Word(hb, 0) <= LOGSIZE
      modifies this`n, block
      ensures n == Word(hb, 0) && block[..n] == DecodeHeader(hb)
    {
      n := Word(hb, 0);
      var i := 0;
      while i < n
        modifies block
        invariant 0 <= i <= n
        invariant forall j | 0 <= j < i :: block[j] == Word(hb, 1 + j)
      {
        block[i] := Word(hb, 1 + i);
        i := i + 1;
      }
    }

    /** recover_from_log, before anyone else uses the cache. Every block write on the way is a step,
        so a crash in the middle is covered by CrashSafety; run to the end, it computes Recover. */
    method RecoverFromLog()
      requires Valid() && st.phase.Boot? && Unheld(T())
      modifies this`n, this`st, this`acts, block, cache, cache.bufs
      ensures Valid() && Unheld(T()) && st.phase.Running?
      ensures HeaderOk(g, old(cache.disk)) && cache.disk == Recover(g, old(cache.disk))
      ensures st.groups == old(st.groups)
    {
      hide IsRun, After, Calm, Unheld, LogUnheld, Coherent, Pends, RingOf, Roomy, EncodeHeader, Installed;
      ReadHead();
      ghost var t := T();
      InstallTrans();
      CalmTrans(g, t, t, T());
      ghost var u := T();
      PendingFacts();
      FirstReadable(u, g.logStart);
      EraseHead();
      CalmTrans(g, u, u, T());
    }
  }

  lemma EntryFacts(g: Geometry, s: State, tail: nat)
    requires Shape(g, s) && tail < |s.lh| && forall bn: uint | bn in s.pending :: IsHome(g, bn)
    ensures s.lh[tail] < g.size == |s.disk| && g.logStart + 1 + tail < g.size
    ensures InLog(g, g.logStart + 1 + tail) && s.lh[tail] != g.logStart + 1 + tail
    ensures g.logStart + 1 + tail < UINT_LIMIT && (g.logStart + 1 + tail) as uint !in s.pending
  {
  }

  /** A log area big enough for every operation's share (AppendsFitExactly) admits a run within budget
      that fills the header, and then no cache has a buffer left for write_log's first read. */
  lemma FullHeaderNoBuffer(g: Geometry, d: Disk, blocks: seq<uint>) returns (acts: seq<Action>)
    requires LogOps.EmptyLog(g, d) && g.logSize > LOGSIZE
    requires |blocks| == LOGSIZE && LogOps.DistinctHomes(g, blocks)
    ensures LogOps.BudgetRunFrom(g, d, acts)
    ensures var s := After(g, PowerOn(d), acts);
            && s.phase.Running? && |s.ops| == 3 && |s.lh| == LOGSIZE
            && forall t: Table | Pends(t, s.pending) :: !Roomy(t)
  {
    acts := LogOps.Fill(g, d, blocks, LOGSIZE);
    var s := After(g, PowerOn(d), acts);
    assert |s.lh| == LOGSIZE;
    EmptyLogOk(g, d);
    InvRun(g, d, acts);
    PendingCount(g, ReplayAll(Recover(g, d), s.groups), s);
    forall t: Table | Pends(t, s.pending) ensures !Roomy(t) {
      FullHasNoRoom(t, s.pending);
    }
  }

  lemma EmptyLogOk(g: Geometry, d: Disk)
    requires LogOps.EmptyLog(g, d)
    ensures HeaderOk(g, d)
  {
  }
}
