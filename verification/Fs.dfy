/** kernel/fs.c and the chunk loop of kernel/file.c: blocks and in-core inodes updated in place.
    `logged` collects the block numbers handed to log_write. A panic is reported by an ok flag that
    is false; nothing is promised after one, since the kernel stops. */
module Fs {
  import opened Basics
  import opened Blocks
  import opened Volume
  import opened VolumeOps
  import opened BlockMap
  import opened FileBytes
  import opened WriteSpec
  import opened Truncate
  import opened FsCrash
  import L = LogMachine

  class Fs {
    const sb: Super
    var blocks: seq<Block>
    var inodes: seq<Inode>
    var logged: set<uint>
    ghost var owner: map<uint, Slot>

    ghost var start: seq<Block>             // the blocks at begin_op
    ghost var writes: seq<L.Write>          // handed to log_write since
    ghost const first: seq<Block>           // the blocks recovery left
    ghost var done: seq<seq<L.Write>>       // the writes of each finished transaction

    ghost function V(): Vol
      reads this
    {
      Vol(blocks, inodes)
    }

    /** Blocks change by log_write only. */
    ghost predicate Tracked()
      reads this
    {
      Journal(start, writes, blocks, |done|)
    }

    /** Holds throughout an operation: block ownership. */
    ghost predicate Core()
      reads this
    {
      Shape(sb, V()) && Links(sb, V(), owner) && BitmapIs(sb, blocks, owner.Keys) && Tracked()
    }

    /** Holds at both ends of an operation. */
    ghost predicate Valid()
      reads this
    {
      FsInv(sb, V(), owner) && Tracked()
    }

    /** The finished transactions lead from the first blocks to those at begin_op, through good disks
        only. */
    ghost predicate History()
      reads this
    {
      && start == L.ReplayAll(first, done) && GoodHistory(sb, first, done)
      && forall i, x | 0 <= i < |done| && 0 <= x < |done[i]| :: done[i][x].op == i
    }

    /** Holds between transactions. */
    ghost predicate Settled()
      reads this
    {
      Valid() && History() && writes == []
    }

    /** A volume as mkfs leaves it: inode 0 and the free inodes empty, everything on disk. */
    constructor (super: Super, disk: seq<Block>, incore: seq<Inode>, ghost own: map<uint, Slot>)
      requires FsInv(super, Vol(disk, incore), own)
      ensures Settled() && sb == super && blocks == disk && inodes == incore && logged == {} && owner == own
      ensures first == disk && done == []
    {
      sb, blocks, inodes, logged, owner := super, disk, incore, {}, own;
      start, writes, first, done := disk, [], disk, [];
    }

    /** end_op: the transaction joins the finished ones. */
    ghost method End()
      requires Valid() && History()
      modifies this`done, this`start, this`writes
      ensures Settled() && done == old(done) + [old(writes)]
    {
      hide FsInv;
      assert GoodDisk(sb, blocks) by { assert FsInv(sb, Vol(blocks, inodes), owner); }
      GoodHistorySnoc(sb, first, done, writes);
      done := done + [writes];
      start, writes := blocks, [];
    }

    /** Lose power at any point of a run of the log that is handed these transactions, in the middle of
        one or between two: what recovery finds is a good volume. */
    lemma SurvivesCrash(g: L.Geometry, d: L.Disk, acts: seq<L.Action>)
      requires Tracked() && History() && L.HeaderOk(g, d) && LogBelow(g, sb) && first == L.Recover(g, d)
      requires L.IsRun(g, L.PowerOn(d), acts) && NoCrash(acts)
      requires Plays(L.After(g, L.PowerOn(d), acts), done + [writes])
      requires Unfinished(L.After(g, L.PowerOn(d), acts), writes)
      ensures L.HeaderOk(g, L.After(g, L.PowerOn(d), acts).disk)
      ensures GoodDisk(sb, L.Recover(g, L.After(g, L.PowerOn(d), acts).disk))
    {
      hide GoodHistory, L.Replay, L.ReplayAll, L.Recover, L.HeaderOk, Plays, Unfinished;
      assert Marked(done + [writes]);
      CrashKeepsVolume(g, sb, d, acts, done, writes);
    }

    /** bread, change, log_write, brelse. */
    method LogWrite(b: uint, data: Block)
      requires b < |blocks| && Tracked()
      modifies this`blocks, this`logged, this`writes
      ensures blocks == old(blocks)[b := data] && logged == old(logged) + {b}
      ensures Tracked() && writes == old(writes) + [L.Write(|done|, b, data)]
    {
      assert (writes + [L.Write(|done|, b, data)])[..|writes|] == writes;
      writes := writes + [L.Write(|done|, b, data)];
      blocks := blocks[b := data];
      logged := logged + {b};
    }

    /** The end of balloc on the block it found: mark its bit, and bzero. */
    method Claim(a: uint)
      requires Shape(sb, V()) && Tracked() && a < sb.size
      modifies this`blocks, this`logged, this`writes
      ensures Tracked() && BBlock(sb, a) < sb.size && blocks == Allocated(sb, old(blocks), a)
      ensures logged == old(logged) + {BBlock(sb, a), a}
    {
      hide Journal, SetBit;
      BBlockRange(sb, a);
      LogWrite(BBlock(sb, a), SetBit(blocks[BBlock(sb, a)], a % BPB));
      LogWrite(a, ZERO);
    }

    /** balloc: the first block whose bit is clear, marked and zeroed. ok is false, and nothing is
        changed, only if every block is in use. */
    method Balloc() returns (ok: bool, a: uint)
      requires Shape(sb, V()) && Tracked()
      modifies this`blocks, this`logged, this`writes
      ensures Tracked()
      ensures ok <==> !AllUsed(sb, old(blocks))
      ensures ok ==>
                && a < sb.size && !Used(sb, old(blocks), a)
                && (forall x: nat | x < a :: Used(sb, old(blocks), x))
                && BBlock(sb, a) < sb.size
                && blocks == Allocated(sb, old(blocks), a)
                && logged == old(logged) + {BBlock(sb, a), a}
      ensures !ok ==> blocks == old(blocks) && logged == old(logged) && AllUsed(sb, blocks)
    {
      hide Journal, Bit, SetBit;
      var b := 0;
      a := 0;
      while b < sb.size
        invariant 0 <= b && b % BPB == 0
        invariant blocks == old(blocks) && logged == old(logged) && writes == old(writes)
        invariant forall x: nat | x < b && x < sb.size :: Used(sb, blocks, x)
        decreases sb.size - b
      {
        BBlockRange(sb, b);
        var bp := blocks[BBlock(sb, b)];
        var bi := 0;
        while bi < BPB && b + bi < sb.size
          invariant 0 <= bi <= BPB
          invariant forall x: nat | x < b + bi && x < sb.size :: Used(sb, blocks, x)
        {
          assert (b + bi) / BPB == b / BPB && (b + bi) % BPB == bi;
          if !Bit(bp, bi) {
            a := b + bi;
            assert !Used(sb, blocks, a);
            Claim(a);
            return true, a;
          }
          bi := bi + 1;
        }
        b := b + BPB;
      }
      return false, 0;
    }

    /** Balloc, with the block put into an empty place of an in-core inode. */
    method BallocInto(n: nat, i: nat) returns (ok: bool, a: uint)
      requires Core() && n < sb.ninodes && i <= NDIRECT && inodes[n].addrs[i] == 0
      modifies this`blocks, this`inodes, this`logged, this`writes, this`owner
      ensures ok <==> |old(owner)| < Room(sb)
      ensures ok ==> Core() && Grew(sb, old(V()), old(owner), V(), owner, n, AddrSlot(n, i), a)
      ensures ok ==> logged <= old(logged) + BitmapBlocks(sb) + {a}
      ensures ok ==> |owner| == |old(owner)| + 1
      ensures !ok ==> Core() && V() == old(V()) && owner == old(owner) && AllUsed(sb, blocks)
    {
      hide Journal, AllUsed, Links, BitmapIs, Grew, Used, Word, Bit;
      AllUsedIff(sb, V(), owner);
      ok, a := Balloc();
      if ok {
        BBlockRange(sb, a);
        GrowInode(sb, old(V()), owner, n, i, a);
        inodes := inodes[n := inodes[n].(addrs := inodes[n].addrs[i := a])];
        owner := owner[a := AddrSlot(n, i)];
        GrewParts(sb, old(V()), old(owner), V(), owner, n, AddrSlot(n, i), a);
      }
    }

    /** Balloc, with the block put into an empty entry of an existing table. */
    method BallocEntry(n: nat, j: nat) returns (ok: bool, a: uint)
      requires Core() && n < sb.ninodes && j < NINDIRECT
      requires inodes[n].addrs[NDIRECT] != 0 && At(sb, V(), Entry(n, j)) == 0
      modifies this`blocks, this`inodes, this`logged, this`writes, this`owner
      ensures ok <==> |old(owner)| < Room(sb)
      ensures ok ==> Core() && Grew(sb, old(V()), old(owner), V(), owner, n, Entry(n, j), a)
      ensures ok ==> inodes == old(inodes) && logged <= old(logged) + BitmapBlocks(sb) + {a, inodes[n].addrs[NDIRECT]}
      ensures ok ==> |owner| == |old(owner)| + 1
      ensures !ok ==> Core() && V() == old(V()) && owner == old(owner) && AllUsed(sb, blocks)
    {
      hide Journal, AllUsed, Links, BitmapIs, Grew, Used, Word, PutWord, Bit, At;
      AllUsedIff(sb, V(), owner);
      ok, a := Balloc();
      if ok {
        BBlockRange(sb, a);
        GrowEntry(sb, old(V()), owner, n, j, a);
        var t := inodes[n].addrs[NDIRECT];
        LogWrite(t, PutWord(blocks[t], j, a));
        owner := owner[a := Entry(n, j)];
        GrewParts(sb, old(V()), old(owner), V(), owner, n, Entry(n, j), a);
      } else {
        assert AllUsed(sb, blocks);
      }
    }

    /** bmap: the address of block bn of inode n, allocated if absent. ok is false exactly where the
        source panics: bn out of range, or fewer free blocks than the block and its table need. */
    method Bmap(n: nat, bn: nat) returns (ok: bool, a: uint)
      requires Core() && n < sb.ninodes
      modifies this`blocks, this`inodes, this`logged, this`writes, this`owner
      ensures ok <==> bn < MAXFILE && |old(owner)| + BmapNeed(sb, old(V()), n, bn) <= Room(sb)
      ensures ok ==> |owner| == |old(owner)| + BmapNeed(sb, old(V()), n, bn)
      ensures !ok && bn < MAXFILE ==> Core() && AllUsed(sb, blocks)
      ensures ok ==> bn < MAXFILE && Core() && BmapPost(sb, old(V()), V(), owner, n, bn, a)
      ensures ok ==> logged <= old(logged) + BmapLogs(sb, V(), n, bn)
      ensures bn < MAXFILE && AddrOf(sb, old(V()), n, bn) != 0 ==>
                ok && V() == old(V()) && owner == old(owner) && logged == old(logged) && writes == old(writes)
    {
      hide Journal, Links, BitmapIs, Grew, AllUsed, Word;
      AllUsedIff(sb, V(), owner);
      if bn < NDIRECT {
        a := inodes[n].addrs[bn];
        ok := true;
        if a == 0 {
          ok, a := BallocInto(n, bn);
          if ok {
            BmapGrew(sb, old(V()), old(owner), V(), owner, n, bn, a);
          }
        }
        return;
      }
      if bn - NDIRECT < NINDIRECT {
        ok, a := BmapIndirect(n, bn);
        return;
      }
      return false, 0;
    }

    /** The entry half of the indirect case: look up, or create, an entry of an existing table. */
    method BmapEntry(n: nat, bn: nat) returns (ok: bool, a: uint)
      requires Core() && n < sb.ninodes && NDIRECT <= bn < MAXFILE && inodes[n].addrs[NDIRECT] != 0
      modifies this`blocks, this`inodes, this`logged, this`writes, this`owner
      ensures ok <==> |old(owner)| + BmapNeed(sb, old(V()), n, bn) <= Room(sb)
      ensures ok ==> |owner| == |old(owner)| + BmapNeed(sb, old(V()), n, bn)
      ensures !ok ==> Core() && AllUsed(sb, blocks)
      ensures ok ==> Core() && BmapPost(sb, old(V()), V(), owner, n, bn, a)
      ensures ok ==> inodes == old(inodes)
      ensures ok ==> logged <= old(logged) + BitmapBlocks(sb) + {a, inodes[n].addrs[NDIRECT]}
      ensures AddrOf(sb, old(V()), n, bn) != 0 ==>
                ok && V() == old(V()) && owner == old(owner) && logged == old(logged) && writes == old(writes)
    {
      hide Journal, Links, BitmapIs, Grew, AllUsed, Word;
      AllUsedIff(sb, V(), owner);
      var t := inodes[n].addrs[NDIRECT];
      assert 0 < t < sb.size by { TableOwned(sb, V(), owner, n); }
      a := Word(blocks[t], bn - NDIRECT);
      ok := true;
      assert a == AddrOf(sb, V(), n, bn);
      if a == 0 {
        ok, a := BallocEntry(n, bn - NDIRECT);
        if ok {
          BmapGrew(sb, old(V()), old(owner), V(), owner, n, bn, a);
        }
      }
    }

    /** The indirect half of bmap: load or create the table, then the entry. */
    method BmapIndirect(n: nat, bn: nat) returns (ok: bool, a: uint)
      requires Core() && n < sb.ninodes && NDIRECT <= bn < MAXFILE
      modifies this`blocks, this`inodes, this`logged, this`writes, this`owner
      ensures ok <==> |old(owner)| + BmapNeed(sb, old(V()), n, bn) <= Room(sb)
      ensures ok ==> |owner| == |old(owner)| + BmapNeed(sb, old(V()), n, bn)
      ensures !ok ==> Core() && AllUsed(sb, blocks)
      ensures ok ==> Core() && BmapPost(sb, old(V()), V(), owner, n, bn, a)
      ensures ok ==> logged <= old(logged) + BmapLogs(sb, V(), n, bn)
      ensures AddrOf(sb, old(V()), n, bn) != 0 ==>
                ok && V() == old(V()) && owner == old(owner) && logged == old(logged) && writes == old(writes)
    {
      hide Journal, Links, BitmapIs, Word, AllUsed;
      AllUsedIff(sb, V(), owner);
      var t := inodes[n].addrs[NDIRECT];
      if t != 0 {
        ok, a := BmapEntry(n, bn);
        return;
      }
      ok, t := BallocInto(n, NDIRECT);
      if !ok {
        return false, 0;
      }
      ghost var u, owner1 := V(), owner;
      assert t == inodes[n].addrs[NDIRECT] by {
        assert ValidSlot(sb, Table(n)) && At(sb, u, Table(n)) == t;
      }
      ok, a := BmapEntry(n, bn);
      if ok {
        BmapAfterTable(sb, old(V()), old(owner), u, owner1, t, V(), owner, n, bn, a);
      }
    }

    /** iupdate: the in-core inode to disk. */
    method Iupdate(n: nat)
      requires Core() && n < sb.ninodes
      modifies this`blocks, this`logged, this`writes
      ensures Core() && IupdatePost(sb, old(V()), V(), owner, n) && logged == old(logged) + {IBlock(sb, n)}
    {
      hide Journal;
      UpdatedInv(sb, V(), owner, n);
      LogWrite(IBlock(sb, n), PutInode(blocks[IBlock(sb, n)], n, inodes[n], 16));
    }

    /** One round of readi's loop: m bytes at position at, within one mapped block. */
    method ReadRound(n: nat, at: nat, m: nat) returns (chunk: seq<byte>)
      requires Core() && n < sb.ninodes && NoHoles(sb, V(), n)
      requires 0 < m <= BSIZE - at % BSIZE && at + m <= inodes[n].size
      modifies this`blocks, this`inodes, this`logged, this`writes, this`owner
      ensures Core() && V() == old(V()) && owner == old(owner) && logged == old(logged) && writes == old(writes)
      ensures chunk == Content(sb, V(), n)[at..at + m]
    {
      hide Journal, Links, BitmapIs, Word, Content;
      BelowSize(sb, V(), n, at);
      ChunkOfContent(sb, V(), n, at, m);
      var ok, a := Bmap(n, at / BSIZE);
      MappedOwned(sb, V(), owner, n, at / BSIZE);
      var o := at % BSIZE;
      chunk := blocks[a][o..o + m];
    }

    /** readi's loop. */
    method ReadLoop(n: nat, off: nat, todo: nat) returns (dst: seq<byte>)
      requires Core() && n < sb.ninodes && NoHoles(sb, V(), n) && off + todo <= inodes[n].size
      modifies this`blocks, this`inodes, this`logged, this`writes, this`owner
      ensures Core() && V() == old(V()) && owner == old(owner) && logged == old(logged) && writes == old(writes)
      ensures dst == Content(sb, V(), n)[off..off + todo]
    {
      hide Journal, Links, BitmapIs, Mapped, OthersSame, Written, KeptBut, AddrsKept, Word, SamePlaces;
      dst := [];
      var tot := 0;
      ghost var v := V();
      ghost var file := Content(sb, v, n);
      while tot < todo
        invariant 0 <= tot <= todo
        invariant Core() && V() == v && owner == old(owner) && logged == old(logged) && writes == old(writes)
        invariant dst == file[off..off + tot]
      {
        var m := Min(todo - tot, BSIZE - (off + tot) % BSIZE);
        var chunk := ReadRound(n, off + tot, m);
        SliceConcat(file, off, off + tot, off + tot + m);
        dst := dst + chunk;
        tot := tot + m;
      }
    }

    /** readi on a file: the bytes at off, cut at the end of the file. It never allocates: the volume
        and the log are untouched. r is -1 exactly where the source returns -1. */
    method Readi(n: nat, off: uint, cnt: uint) returns (r: int, dst: seq<byte>)
      requires Core() && n < sb.ninodes && NoHoles(sb, V(), n)
      modifies this`blocks, this`inodes, this`logged, this`writes, this`owner
      ensures Core() && V() == old(V()) && owner == old(owner) && logged == old(logged) && writes == old(writes)
      ensures r == -1 <==> off > inodes[n].size || off + cnt >= UINT_LIMIT
      ensures r == -1 ==> dst == []
      ensures r != -1 ==> r == Min(cnt, inodes[n].size - off) && dst == Content(sb, V(), n)[off..off + r]
    {
      hide Journal, Links, BitmapIs, Mapped, OthersSame, Written, KeptBut, AddrsKept, Word, SamePlaces;
      if off > inodes[n].size || (off + cnt) % UINT_LIMIT < off {
        return -1, [];
      }
      var todo := cnt;
      if off + cnt > inodes[n].size {
        todo := inodes[n].size - off;
      }
      dst := ReadLoop(n, off, todo);
      return todo, dst;
    }

    /** One round of writei's loop: find the block, patch it, log it. */
    method WriteRound(n: nat, at: uint, chunk: seq<byte>, ghost k: nat) returns (ok: bool)
      requires Core() && n < sb.ninodes && Mapped(sb, V(), n, k)
      requires 0 < |chunk| <= BSIZE - at % BSIZE && at / BSIZE < MAXFILE && at / BSIZE <= k
      modifies this`blocks, this`inodes, this`logged, this`writes, this`owner
      ensures ok <==> |old(owner)| + RoundNeed(k, at / BSIZE) <= Room(sb)
      ensures ok ==> |owner| == |old(owner)| + RoundNeed(k, at / BSIZE)
      ensures !ok ==> Core() && AllUsed(sb, blocks)
      ensures ok ==> Tracked() && RoundPost(sb, old(V()), V(), owner, n, at / BSIZE,
                               Patch(OldBlock(sb, old(V()), n, at / BSIZE), at % BSIZE, chunk), k)
      ensures ok ==> logged <= old(logged) + BmapLogs(sb, V(), n, at / BSIZE)
    {
      hide Journal, Links, BitmapIs, OthersSame, Written, KeptBut, AddrsKept, Word, SamePlaces, AllUsed, BmapNeed,
           RoundNeed;
      var bn := at / BSIZE;
      var a;
      BmapGrows(sb, V(), n, k, bn);
      ok, a := Bmap(n, bn);
      if !ok {
        return;
      }
      MappedOwned(sb, V(), owner, n, bn);
      var data := Patch(blocks[a], at % BSIZE, chunk);
      RoundIs(sb, old(V()), V(), owner, n, bn, data, k);
      assert blocks[a] == OldBlock(sb, old(V()), n, bn);
      LogWrite(a, data);
    }

    /** One round of writei's loop, with its bookkeeping: tot bytes done, blocks below hi logged. */
    method WriteStep(n: nat, src: seq<byte>, off: uint, tot: nat, m: nat, ghost v0: Vol, ghost hi: nat,
                     ghost logs: set<uint>) returns (ok: bool)
      requires Core() && n < sb.ninodes && Shape(sb, v0) && off <= v0.inodes[n].size <= MAXFILE * BSIZE
      requires tot + m <= |src| && off + |src| <= MAXFILE * BSIZE && 0 < m <= BSIZE - (off + tot) % BSIZE
      requires Writing(sb, v0, V(), n, off, src, tot)
      requires off / BSIZE <= hi <= MappedSoFar(v0.inodes[n].size, off, tot) && hi <= (off + tot) / BSIZE + 1
      requires logged <= logs + WriteLogs(sb, V(), n, off / BSIZE, hi)
      modifies this`blocks, this`inodes, this`logged, this`writes, this`owner
      ensures ok <==> |old(owner)| + StepNeed(v0.inodes[n].size, off, tot, m) <= Room(sb)
      ensures ok ==> |owner| == |old(owner)| + StepNeed(v0.inodes[n].size, off, tot, m)
      ensures !ok ==> Core() && AllUsed(sb, blocks)
      ensures ok ==> Core() && Writing(sb, v0, V(), n, off, src, tot + m)
      ensures ok ==> logged <= logs + WriteLogs(sb, V(), n, off / BSIZE, (off + tot) / BSIZE + 1)
    {
      hide Journal, Links, BitmapIs, Mapped, Writing, RoundPost, AddrsKept, Patch, OldBlock, MappedSoFar, AllUsed,
           RoundNeed, StepNeed, WriteLogs, BmapLogs, Room;
      ghost var v, k := V(), MappedSoFar(v0.inodes[n].size, off, tot);
      RoundBounds(v0.inodes[n].size, off, tot, m);
      StepNeedIs(v0.inodes[n].size, off, tot, m);
      WritingMapped(sb, v0, v, n, off, src, tot);
      var at: uint := off + tot;
      PlaceBelow(at);
      var chunk := src[tot..tot + m];
      ghost var bn := at / BSIZE;
      ghost var data := Patch(OldBlock(sb, v, n, bn), at % BSIZE, chunk);
      ok := WriteRound(n, at, chunk, k);
      if ok {
        assert RoundPost(sb, v, V(), owner, n, bn, data, k);
        RoundParts(sb, v, V(), owner, n, bn, data, k);
        WritingStep(sb, v0, v, V(), owner, n, off, src, tot, m);
        WriteLogsStep(sb, v, V(), n, off / BSIZE, hi, bn, k);
      }
    }

    /** writei's loop: ok is false exactly if the disk has fewer free blocks than the write adds. */
    method WriteLoop(n: nat, src: seq<byte>, off: uint) returns (ok: bool)
      requires Core() && n < sb.ninodes && NoHoles(sb, V(), n)
      requires off <= inodes[n].size && off + |src| <= MAXFILE * BSIZE
      modifies this`blocks, this`inodes, this`logged, this`writes, this`owner
      ensures ok <==> |old(owner)| + WriteNeed(old(inodes[n].size), off, |src|) <= Room(sb)
      ensures ok ==> |owner| == |old(owner)| + WriteNeed(old(inodes[n].size), off, |src|)
      ensures !ok ==> Core() && AllUsed(sb, blocks)
      ensures ok ==> Core() && Writing(sb, old(V()), V(), n, off, src, |src|)
      ensures ok ==> inodes[n].size == old(inodes[n].size)
      ensures ok && |src| > 0 ==>
                logged <= old(logged) + WriteLogs(sb, V(), n, off / BSIZE, Ceil(off + |src|))
      ensures ok && src == [] ==> logged == old(logged)
    {
      hide Journal, Links, BitmapIs, Mapped, Writing, Word, WriteLogs, AllUsed, WriteNeed, StepNeed;
      ghost var v0, size := V(), inodes[n].size;
      WritingStart(sb, v0, n, off, src);
      NeedStart(size, off);
      var tot := 0;
      ghost var hi := off / BSIZE;
      while tot < |src|
        invariant 0 <= tot <= |src|
        invariant Core() && Writing(sb, v0, V(), n, off, src, tot)
        invariant hi == if tot == 0 then off / BSIZE else Ceil(off + tot)
        invariant off / BSIZE <= hi <= MappedSoFar(size, off, tot)
        invariant logged <= old(logged) + WriteLogs(sb, V(), n, off / BSIZE, hi)
        invariant tot == 0 ==> logged == old(logged)
        invariant |owner| == |old(owner)| + WriteNeed(size, off, tot)
      {
        var m := Min(|src| - tot, BSIZE - (off + tot) % BSIZE);
        RoundBounds(size, off, tot, m);
        NeedStep(size, off, tot, m);
        NeedGrows(size, off, tot + m, |src|);
        ok := WriteStep(n, src, off, tot, m, v0, hi, old(logged));
        if !ok {
          return false;
        }
        tot := tot + m;
        hi := Ceil(off + tot);
      }
      WritingSize(sb, v0, V(), n, off, src);
      AllUsedIff(sb, V(), owner);
      return true;
    }

    /** The end of a write past the end of the file: new size, iupdate. */
    method Grow(n: nat, size: uint, ghost src: seq<byte>, ghost off: nat, ghost v0: Vol, ghost owner0: map<uint, Slot>,
                ghost lo: nat, ghost hi: nat)
      requires Core() && lo <= hi <= MAXFILE && n < sb.ninodes && FsInv(sb, v0, owner0)
      requires off <= v0.inodes[n].size <= MAXFILE * BSIZE && size == off + |src| <= MAXFILE * BSIZE
      requires Writing(sb, v0, V(), n, off, src, |src|) && size > v0.inodes[n].size
      modifies this`blocks, this`inodes, this`logged, this`writes
      ensures Tracked() && WriteiPost(sb, v0, V(), owner, n, off, src)
      ensures logged == old(logged) + {IBlock(sb, n)}
      ensures WriteLogs(sb, V(), n, lo, hi) == WriteLogs(sb, old(V()), n, lo, hi)
    {
      hide Journal, Links, BitmapIs, Mapped, Writing, WriteiPost, Word, Synced, SamePlaces, WriteLogs;
      ghost var v := V();
      ResizedSame(sb, v, owner, n, size);
      inodes := inodes[n := inodes[n].(size := size)];
      Iupdate(n);
      DoneGrown(sb, v0, v, V(), owner0, owner, n, off, src);
      GrownLogs(sb, v, Resized(v, n, size), V(), n, lo, hi);
    }

    /** writei on a file. It returns -1 exactly when off is past the end, off + n wraps, or the file
        would be too big, and then changes nothing. Otherwise the bytes are spliced in at off, no
        other file changes, and FsInv holds again: ownership, no holes, and the inode on disk equal
        to the one in core even where iupdate was not called. ok is false exactly if the write adds
        more blocks than are free, so never for a write inside the blocks the file has. */
    method Writei(n: nat, src: seq<byte>, off: uint) returns (ok: bool, r: int)
      requires Valid() && n < sb.ninodes && |src| < UINT_LIMIT
      modifies this`blocks, this`inodes, this`logged, this`writes, this`owner
      ensures r == -1 <==> old(off > inodes[n].size) || off + |src| > MAXFILE * BSIZE
      ensures r == -1 ==>
                ok && Valid() && V() == old(V()) && owner == old(owner) && logged == old(logged)
                  && writes == old(writes)
      ensures ok <==> r == -1 || |old(owner)| + WriteNeed(old(inodes[n].size), off, |src|) <= Room(sb)
      ensures ok && r != -1 ==> |owner| == |old(owner)| + WriteNeed(old(inodes[n].size), off, |src|)
      ensures off + |src| <= Ceil(old(inodes[n].size)) * BSIZE ==> ok
      ensures !ok ==> Core() && AllUsed(sb, blocks)
      ensures ok && r != -1 ==> r == |src| && Tracked() && WriteiPost(sb, old(V()), V(), owner, n, off, src)
      ensures ok && r != -1 && |src| > 0 ==>
                logged <= old(logged) + WriteLogs(sb, V(), n, off / BSIZE, Ceil(off + |src|)) + {IBlock(sb, n)}
      ensures ok && src == [] ==> logged == old(logged)
    {
      hide Journal, Links, BitmapIs, Mapped, Writing, WriteiPost, Word, WriteLogs, AllUsed, WriteNeed;
      assert NoHoles(sb, V(), n);
      AllUsedIff(sb, V(), owner);
      NeedGrows(inodes[n].size, off, 0, |src|);
      if off > inodes[n].size || (off + |src|) % UINT_LIMIT < off {
        return true, -1;
      }
      if off + |src| > MAXFILE * BSIZE {
        return true, -1;
      }
      ok := WriteLoop(n, src, off);
      if !ok {
        return false, 0;
      }
      if |src| > 0 && off + |src| > inodes[n].size {
        Grow(n, off + |src|, src, off, old(V()), old(owner), off / BSIZE, Ceil(off + |src|));
      } else {
        DoneWithin(sb, old(V()), V(), old(owner), owner, n, off, src);
      }
      return true, |src|;
    }

    /** bfree. ok is false where the source panics with "freeing free block". */
    method Bfree(b: uint) returns (ok: bool)
      requires Shape(sb, V()) && Tracked() && b < sb.size
      modifies this`blocks, this`logged, this`writes
      ensures Tracked()
      ensures ok <==> Used(sb, old(blocks), b)
      ensures BBlock(sb, b) < sb.size
      ensures ok ==> blocks == SetFree(sb, old(blocks), b) && logged == old(logged) + {BBlock(sb, b)}
    {
      hide Journal;
      BBlockRange(sb, b);
      var bp := blocks[BBlock(sb, b)];
      if !Bit(bp, b % BPB) {
        return false;
      }
      LogWrite(BBlock(sb, b), ClearBit(bp, b % BPB));
      return true;
    }

    /** Between two frees of itrunc: the places of inode n below rank k are free, nothing else moved. */
    ghost predicate Freeing(v: Vol, own: map<uint, Slot>, n: nat, k: nat)
      reads this
    {
      && Shape(sb, v) && Shape(sb, V()) && n < sb.ninodes && Tracked()
      && BitmapIs(sb, blocks, Left(own, n, k))
      && SameRange(v.blocks, blocks, sb.inodestart, sb.bmapstart)
      && SameRange(v.blocks, blocks, sb.datastart, sb.size)
    }

    /** Free the block held at place s of v, if any. The panic does not occur. */
    method FreePlace(a: uint, ghost v: Vol, ghost own: map<uint, Slot>, ghost s: Slot)
      requires Shape(sb, v) && Links(sb, v, own) && ValidSlot(sb, s) && a == At(sb, v, s)
      requires Freeing(v, own, s.n, Rank(s))
      modifies this`blocks, this`logged, this`writes
      ensures Freeing(v, own, s.n, Rank(s) + 1)
    {
      hide Journal, Links, Left, Word;
      LeftStep(sb, v, own, s);
      if a != 0 {
        SetUsedBitmap(sb, blocks, a, Left(own, s.n, Rank(s)));
        BBlockRange(sb, a);
        var ok := Bfree(a);
        assert ok;
      }
    }

    /** itrunc: afterwards the inode is empty, exactly its blocks have become free, and every other
        file is as it was. */
    method Itrunc(n: nat)
      requires Valid() && n < sb.ninodes
      modifies this`blocks, this`inodes, this`logged, this`writes, this`owner
      ensures Tracked() && TruncPost(sb, old(V()), old(owner), V(), owner, n)
    {
      hide Journal, Links, Left, Word, BitmapIs, NoHoles, Synced, Used, SameRange, TruncPost;
      ghost var v, own := V(), owner;
      LeftAll(sb, v, own, n);
      SameRangeSelf(blocks, sb);
      var i := 0;
      while i < NDIRECT
        invariant 0 <= i <= NDIRECT && owner == own
        invariant Freeing(v, own, n, i)
        invariant inodes == v.inodes[n := v.inodes[n].(addrs := Zeroed(v.inodes[n].addrs, i))]
      {
        ZeroedAt(v.inodes[n].addrs, i);
        FreePlace(inodes[n].addrs[i], v, own, Direct(n, i));
        inodes := inodes[n := inodes[n].(addrs := inodes[n].addrs[i := 0])];
        i := i + 1;
      }
      FreeTable(n, v, own);
      inodes := inodes[n := inodes[n].(size := 0)];
      EmptiedIs(v.inodes[n]);
      LeftAll(sb, v, own, n);
      owner := OwnerWithout(own, n);
      EmptiedLinks(sb, v, V(), own, n);
      ghost var u := V();
      Iupdate(n);
      TruncDone(sb, v, u, V(), own, n);
    }

    /** The second half of itrunc: the entries of the table, then the table. */
    method FreeTable(n: nat, ghost v: Vol, ghost own: map<uint, Slot>)
      requires Shape(sb, v) && Links(sb, v, own) && n < sb.ninodes && Freeing(v, own, n, NDIRECT)
      requires inodes == v.inodes[n := v.inodes[n].(addrs := Zeroed(v.inodes[n].addrs, NDIRECT))]
      modifies this`blocks, this`logged, this`writes, this`inodes
      ensures Freeing(v, own, n, MAXFILE + 1)
      ensures inodes == v.inodes[n := v.inodes[n].(addrs := Zeroed(v.inodes[n].addrs, NDIRECT + 1))]
    {
      hide Journal, Links, Left, Word, BitmapIs, Used;
      ZeroedAt(v.inodes[n].addrs, NDIRECT);
      var t := inodes[n].addrs[NDIRECT];
      if t == 0 {
        LeftNoTable(sb, v, own, n);
        assert Zeroed(v.inodes[n].addrs, NDIRECT + 1) == inodes[n].addrs;
      } else {
        TableThere(sb, v, own, n);
        var table := blocks[t];
        var j := 0;
        while j < NINDIRECT
          modifies this`blocks, this`logged, this`writes
          invariant 0 <= j <= NINDIRECT
          invariant Freeing(v, own, n, NDIRECT + j)
        {
          FreePlace(Word(table, j), v, own, Entry(n, j));
          j := j + 1;
        }
        FreePlace(t, v, own, Table(n));
        inodes := inodes[n := inodes[n].(addrs := inodes[n].addrs[NDIRECT := 0])];
      }
    }

    /** The transaction that truncates a file: begin_op, itrunc, end_op. */
    method TruncOp(n: nat)
      requires Settled() && n < sb.ninodes
      modifies this
      ensures Settled() && |done| == |old(done)| + 1 && TruncPost(sb, old(V()), old(owner), V(), owner, n)
    {
      hide Journal, GoodHistory, Links, BitmapIs, NoHoles, Synced, Content, OthersUntouched;
      Itrunc(n);
      End();
    }

    /** One transaction of filewrite: begin_op, writei of a chunk, end_op. The block numbers logged
        since begin_op are at most 7 when one bitmap block covers the disk. */
    method WriteOp(f: File, chunk: seq<byte>) returns (ok: bool, r: int)
      requires Settled() && f.ip < sb.ninodes && 0 < |chunk| <= CHUNK
      modifies this, f
      ensures ok ==> Settled()
      ensures r == -1 <==> old(f.off > inodes[f.ip].size) || old(f.off) + |chunk| > MAXFILE * BSIZE
      ensures r == -1 ==> ok && V() == old(V()) && owner == old(owner) && f.off == old(f.off)
      ensures ok <==> r == -1 || |old(owner)| + WriteNeed(old(inodes[f.ip].size), old(f.off), |chunk|) <= Room(sb)
      ensures ok && r != -1 ==> |owner| == |old(owner)| + WriteNeed(old(inodes[f.ip].size), old(f.off), |chunk|)
      ensures !ok ==> Core() && AllUsed(sb, blocks)
      ensures ok && r != -1 ==>
                && r == |chunk| && f.off == old(f.off) + |chunk|
                && WriteiPost(sb, old(V()), V(), owner, f.ip, old(f.off), chunk)
      ensures ok && sb.size <= BPB ==> |logged| <= 7
    {
      hide Journal, Links, BitmapIs, NoHoles, Synced, Content, WriteLogs, OthersUntouched, AllUsed, WriteNeed,
           GoodHistory, L.ReplayAll, WriteiPost;
      logged := {};
      ok, r := Writei(f.ip, chunk, f.off);
      if ok {
        if r != -1 {
          WriteiKeeps(sb, old(V()), V(), owner, f.ip, f.off, chunk);
        }
        End();
      }
      if ok && r > 0 {
        if sb.size <= BPB {
          ChunkLogSize(sb, V(), f.ip, f.off, |chunk|, logged);
        }
        f.off := f.off + r;
      }
    }

    /** fileread on a file: the bytes at the offset, which moves past them. */
    method Fileread(f: File, cnt: uint) returns (r: int, dst: seq<byte>)
      requires Settled() && f.ip < sb.ninodes
      modifies this, f
      ensures Settled() && V() == old(V()) && owner == old(owner)
      ensures r == -1 <==> !f.readable || old(f.off) > inodes[f.ip].size || old(f.off) + cnt >= UINT_LIMIT
      ensures r == -1 ==> f.off == old(f.off) && dst == []
      ensures r != -1 ==> r == Min(cnt, inodes[f.ip].size - old(f.off)) && f.off == old(f.off) + r
                          && dst == Content(sb, V(), f.ip)[old(f.off)..f.off]
    {
      hide Journal, Links, BitmapIs, Content;
      if !f.readable {
        return -1, [];
      }
      r, dst := Readi(f.ip, f.off, cnt);
      if r > 0 {
        f.off := f.off + r;
      }
    }

    /** filewrite on a file: the bytes go in chunk by chunk, and together they are one splice. If
        a chunk is refused the earlier ones stay and the result is -1; the "short filewrite" panic
        does not occur. ok is false exactly if the bytes taken need more blocks than are free. */
    method Filewrite(f: File, addr: seq<byte>) returns (ok: bool, r: int)
      requires Settled() && f.ip < sb.ninodes
      modifies this, f
      ensures ok ==> Settled()
      ensures !f.writable ==> ok && r == -1 && V() == old(V()) && f.off == old(f.off)
      ensures ok <==> !f.writable || old(f.off > inodes[f.ip].size)
                      || |old(owner)| + WriteNeed(old(inodes[f.ip].size), old(f.off),
                                                  Taken(old(f.off), |addr|)) <= Room(sb)
      ensures !ok ==> Core() && AllUsed(sb, blocks)
      ensures ok && f.writable && old(f.off <= inodes[f.ip].size) ==> f.off == old(f.off) + Taken(old(f.off), |addr|)
      ensures ok && f.writable ==>
                && old(f.off) <= f.off <= old(f.off) + |addr|
                && r == (if f.off == old(f.off) + |addr| then |addr| else -1)
                && (if old(f.off > inodes[f.ip].size) then V() == old(V()) && f.off == old(f.off)
                    else WriteiPost(sb, old(V()), V(), owner, f.ip, old(f.off), addr[..f.off - old(f.off)]))
      ensures ok && r == -1 && f.writable ==>
                old(f.off > inodes[f.ip].size) || old(f.off) + |addr| > MAXFILE * BSIZE
    {
      hide Journal, Links, BitmapIs, NoHoles, Synced, Content, OthersUntouched, Splice, AllUsed, WriteNeed, Taken,
           GoodHistory, L.Replay, L.ReplayAll;
      if !f.writable {
        return true, -1;
      }
      ghost var v0, off0 := V(), f.off;
      ghost var size := inodes[f.ip].size;
      AllUsedIff(sb, V(), owner);
      NeedStart(size, off0);
      TakenNothing(off0, |addr|);
      if off0 <= inodes[f.ip].size {
        WriteiNothing(sb, v0, owner, f.ip, off0);
      }
      var i := 0;
      while i < |addr|
        invariant 0 <= i <= |addr| && f.off == off0 + i
        invariant Settled()
        invariant off0 > v0.inodes[f.ip].size ==> i == 0 && V() == v0
        invariant off0 <= v0.inodes[f.ip].size ==> WriteiPost(sb, v0, V(), owner, f.ip, off0, addr[..i])
        invariant off0 <= size ==> |owner| == |old(owner)| + WriteNeed(size, off0, i)
        invariant off0 <= size ==> i <= Taken(off0, |addr|) && (i % CHUNK == 0 || i == |addr|)
      {
        var n1 := Min(|addr| - i, CHUNK);
        ghost var v, own := V(), owner;
        ChunkTaken(off0, |addr|, i);
        if off0 <= size {
          NeedTwice(size, off0, i, n1);
          if off0 + i + n1 <= MAXFILE * BSIZE {
            NeedGrows(size, off0, i + n1, Taken(off0, |addr|));
          }
        }
        ok, r := WriteOp(f, addr[i..i + n1]);
        if !ok {
          return;
        }
        if r < 0 {
          assert addr[..f.off - off0] == addr[..i];
          if off0 <= size {
            AllUsedIff(sb, V(), owner);
          }
          return true, -1;
        }
        WriteiTwice(sb, v0, v, V(), own, owner, f.ip, off0, addr[..i], addr[i..i + n1]);
        assert addr[..i] + addr[i..i + n1] == addr[..i + n1];
        i := i + r;
      }
      assert addr[..|addr|] == addr;
      AllUsedIff(sb, V(), owner);
      return true, |addr|;
    }
  }

  /** The writes of operation op lead from start to blocks. */
  ghost predicate Journal(start: seq<Block>, writes: seq<L.Write>, blocks: seq<Block>, op: nat) {
    && |start| == |blocks| && L.Replay(start, writes) == blocks
    && forall x | 0 <= x < |writes| :: writes[x].op == op
  }

  /** filewrite's max: ((MAXOPBLOCKS - 1 - 1 - 2) / 2) * 512 */
  const CHUNK := 1536

  /** How many of n bytes filewrite takes at off: all, or the whole chunks below the largest size. */
  function Taken(off: nat, n: nat): nat {
    if off + n <= MAXFILE * BSIZE then n
    else if off > MAXFILE * BSIZE then 0
    else (MAXFILE * BSIZE - off) / CHUNK * CHUNK
  }

  lemma TakenNothing(off: nat, n: nat)
    ensures 0 <= Taken(off, n) <= n
  {
  }

  /** A chunk at a whole number of chunks is taken exactly if it ends below the largest size. */
  lemma ChunkTaken(off: nat, n: nat, i: nat)
    requires i < n && i % CHUNK == 0 && i <= Taken(off, n)
    ensures var m := Min(n - i, CHUNK);
            && (off + i + m <= MAXFILE * BSIZE ==> i + m <= Taken(off, n) && ((i + m) % CHUNK == 0 || i + m == n))
            && (off + i + m > MAXFILE * BSIZE ==> i == Taken(off, n))
  {
  }

  /** An open file on an inode. */
  class File {
    var off: uint
    const ip: nat
    const readable: bool
    const writable: bool

    constructor (inum: nat, r: bool, w: bool)
      ensures off == 0 && ip == inum && readable == r && writable == w
    {
      off, ip, readable, writable := 0, inum, r, w;
    }
  }
}
