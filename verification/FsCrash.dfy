/** Crashes and the file system together: whatever the kernel was doing, the volume found after
    recovery is one the file-system operations left, so every block has its one owner again. */
module FsCrash {
  import opened Blocks
  import opened Volume
  import M = LogMachine
  import LogCrash
  import LogOps

  /** The on-disk part of FsInv: some in-core inodes and owners go with these blocks. */
  ghost predicate GoodDisk(sb: Super, d: seq<Block>) {
    exists inodes: seq<Inode>, owner: map<uint, Slot> :: FsInv(sb, Vol(d, inodes), owner)
  }

  /** The log area ends before the inodes. */
  ghost predicate LogBelow(g: M.Geometry, sb: Super) {
    M.ValidGeometry(g) && ValidSuper(sb) && g.size == sb.size && g.logStart + g.logSize <= sb.inodestart
  }

  /** The invariant does not depend on the log area. */
  lemma FsInvHome(g: M.Geometry, sb: Super, x: seq<Block>, y: seq<Block>, inodes: seq<Inode>, owner: map<uint, Slot>)
    requires LogBelow(g, sb) && M.SameHome(g, x, y) && FsInv(sb, Vol(x, inodes), owner)
    ensures FsInv(sb, Vol(y, inodes), owner)
  {
    hide At, Word;
    var v, w := Vol(x, inodes), Vol(y, inodes);
    forall i | sb.inodestart <= i < sb.size ensures x[i] == y[i] {
      assert M.IsHome(g, i as uint);
    }
    BitmapFrame(sb, x, y, owner.Keys);
    LinksFrame(sb, v, w, owner);
    forall n | 0 <= n < sb.ninodes ensures Synced(sb, w, n) && NoHoles(sb, w, n) {
      SyncedFrame(sb, v, w, n);
      HolesFrame(sb, v, w, n);
    }
  }

  lemma HolesFrame(sb: Super, v: Vol, w: Vol, n: nat)
    requires Shape(sb, v) && Shape(sb, w) && v.inodes == w.inodes && n < sb.ninodes && NoHoles(sb, v, n)
    requires forall s: Slot | ValidSlot(sb, s) :: At(sb, w, s) == At(sb, v, s)
    ensures NoHoles(sb, w, n)
  {
    hide At;
    forall bn | 0 <= bn < MAXFILE ensures AddrOf(sb, w, n, bn) == AddrOf(sb, v, n, bn) {
      assert ValidSlot(sb, FileSlot(n, bn));
    }
  }

  // Operations one after another.

  /** done lists the writes of each finished operation; after every one of them the disk is good. */
  ghost predicate GoodHistory(sb: Super, first: seq<Block>, done: seq<seq<M.Write>>) {
    forall k | 0 <= k <= |done| :: GoodDisk(sb, M.ReplayAll(first, done[..k]))
  }

  lemma GoodHistorySnoc(sb: Super, first: seq<Block>, done: seq<seq<M.Write>>, ws: seq<M.Write>)
    requires GoodHistory(sb, first, done) && GoodDisk(sb, M.Replay(M.ReplayAll(first, done), ws))
    ensures GoodHistory(sb, first, done + [ws])
    ensures M.ReplayAll(first, done + [ws]) == M.Replay(M.ReplayAll(first, done), ws)
  {
    hide GoodDisk;
    var more := done + [ws];
    assert more[..|done|] == done;
    forall k | 0 <= k <= |more| ensures GoodDisk(sb, M.ReplayAll(first, more[..k])) {
      if k <= |done| {
        assert more[..k] == done[..k];
      } else {
        assert more[..k] == more;
      }
    }
  }

  /** The writes of a stretch of operations, in order. */
  ghost function Joined(ops: seq<seq<M.Write>>): seq<M.Write> {
    if ops == [] then [] else Joined(ops[..|ops| - 1]) + ops[|ops| - 1]
  }

  lemma {:induction false} ReplayConcat(d: seq<Block>, a: seq<M.Write>, b: seq<M.Write>)
    ensures M.Replay(d, a + b) == M.Replay(M.Replay(d, a), b)
  {
    if b == [] {
      assert a + b == a;
    } else {
      var n := |b| - 1;
      assert (a + b)[..|a + b| - 1] == a + b[..n];
      ReplayConcat(d, a, b[..n]);
    }
  }

  /** Grouping writes does not change where they lead. */
  lemma {:induction false} ReplayJoined(d: seq<Block>, ops: seq<seq<M.Write>>)
    ensures M.Replay(d, Joined(ops)) == M.ReplayAll(d, ops)
  {
    if ops != [] {
      var n := |ops| - 1;
      ReplayJoined(d, ops[..n]);
      ReplayConcat(d, Joined(ops[..n]), ops[n]);
    }
  }

  /** Each operation's writes carry its own number. */
  ghost predicate Marked(done: seq<seq<M.Write>>) {
    && (forall i, x | 0 <= i < |done| && 0 <= x < |done[i]| :: done[i][x].op == done[i][0].op)
    && (forall i, j | 0 <= i < j < |done| && done[i] != [] && done[j] != [] :: done[i][0].op != done[j][0].op)
  }

  /** The log is being handed operations, each one's writes in one piece: what has been logged is the
      beginning of their writes, and an operation that has called end_op has logged all it had. */
  ghost predicate Plays(s: M.State, ops: seq<seq<M.Write>>) {
    && s.issued <= Joined(ops)
    && forall i | 0 <= i < |ops| && ops[i] != [] && LogOps.Mentions(s.issued, ops[i][0].op)
                  && !LogOps.IsLive(s, ops[i][0].op) ::
         M.WritesOf(s.issued, ops[i][0].op) == ops[i]
  }

  /** An operation in the middle has not called end_op. */
  ghost predicate Unfinished(s: M.State, doing: seq<M.Write>) {
    doing != [] && LogOps.Mentions(s.issued, doing[0].op) ==> LogOps.IsLive(s, doing[0].op)
  }

  ghost predicate NoCrash(acts: seq<M.Action>) { forall i | 0 <= i < |acts| :: !acts[i].Crash? }

  lemma JoinedSnoc(ops: seq<seq<M.Write>>, ws: seq<M.Write>)
    ensures Joined(ops + [ws]) == Joined(ops) + ws
  {
    assert (ops + [ws])[..|ops|] == ops;
  }

  lemma IssuedStep(g: M.Geometry, s: M.State, a: M.Action)
    requires M.Shape(g, s) && M.Enabled(g, s, a) && !a.Crash? && s.issued == Joined(s.groups) + s.cur
    ensures M.Do(g, s, a).issued == Joined(M.Do(g, s, a).groups) + M.Do(g, s, a).cur
  {
    hide M.EncodeHeader, M.HeaderOk, M.View, M.DecodeHeader, M.GoodList, Joined;
    JoinedSnoc(s.groups, s.cur);
  }

  /** Until a crash everything logged is in a committed group or in the current transaction. */
  lemma {:induction false} IssuedSplit(g: M.Geometry, d: M.Disk, acts: seq<M.Action>)
    requires M.HeaderOk(g, d) && M.IsRun(g, M.PowerOn(d), acts) && NoCrash(acts)
    ensures var s := M.After(g, M.PowerOn(d), acts);
            s.issued == Joined(s.groups) + s.cur
  {
    hide M.Shape, M.Enabled, M.Do, M.HeaderOk;
    if acts != [] {
      var n := |acts| - 1;
      IssuedSplit(g, d, acts[..n]);
      IssuedStep(g, M.After(g, M.PowerOn(d), acts[..n]), acts[n]);
    }
  }

  lemma {:induction false} WritesConcat(a: seq<M.Write>, b: seq<M.Write>, id: nat)
    ensures M.WritesOf(a + b, id) == M.WritesOf(a, id) + M.WritesOf(b, id)
  {
    if b == [] {
      assert a + b == a;
    } else {
      var n := |b| - 1;
      assert (a + b)[..|a + b| - 1] == a + b[..n];
      WritesConcat(a, b[..n], id);
    }
  }

  lemma {:induction false} WritesAll(ws: seq<M.Write>, id: nat)
    requires forall x | 0 <= x < |ws| :: ws[x].op == id
    ensures M.WritesOf(ws, id) == ws
  {
    if ws != [] {
      WritesAll(ws[..|ws| - 1], id);
    }
  }

  lemma {:induction false} JoinedMentions(ops: seq<seq<M.Write>>, id: nat) returns (k: nat)
    requires LogOps.Mentions(Joined(ops), id)
    ensures k < |ops| && LogOps.Mentions(ops[k], id)
  {
    var n := |ops| - 1;
    var x :| 0 <= x < |Joined(ops)| && Joined(ops)[x].op == id;
    var rest := Joined(ops[..n]);
    if x < |rest| {
      assert rest[x].op == id;
      k := JoinedMentions(ops[..n], id);
    } else {
      assert ops[n][x - |rest|].op == id;
      k := n;
    }
  }

  lemma {:induction false} JoinedSilent(ops: seq<seq<M.Write>>, id: nat)
    requires forall k | 0 <= k < |ops| :: !LogOps.Mentions(ops[k], id)
    ensures !LogOps.Mentions(Joined(ops), id)
  {
    if ops != [] {
      var n := |ops| - 1;
      JoinedSilent(ops[..n], id);
      var rest := Joined(ops[..n]);
      forall x | 0 <= x < |Joined(ops)| ensures Joined(ops)[x].op != id {
        assert Joined(ops)[x] == if x < |rest| then rest[x] else ops[n][x - |rest|];
      }
    }
  }

  /** Position n falls in operation j. */
  lemma {:induction false} Locate(ops: seq<seq<M.Write>>, n: nat) returns (j: nat)
    requires n <= |Joined(ops)| && ops != []
    ensures j < |ops| && |Joined(ops[..j])| <= n <= |Joined(ops[..j])| + |ops[j]|
    ensures Joined(ops[..j]) + ops[j] <= Joined(ops)
  {
    var m := |ops| - 1;
    if n >= |Joined(ops[..m])| || m == 0 {
      j := m;
    } else {
      j := Locate(ops[..m], n);
      assert ops[..m][..j] == ops[..j];
    }
  }

  /** The writes of operation j in the part of the history that ends r writes into it. */
  lemma WritesSoFar(done: seq<seq<M.Write>>, j: nat, r: nat)
    requires Marked(done) && j < |done| && 0 < r <= |done[j]|
    ensures M.WritesOf(Joined(done[..j]) + done[j][..r], done[j][0].op) == done[j][..r]
  {
    var id := done[j][0].op;
    forall k | 0 <= k < j ensures !LogOps.Mentions(done[..j][k], id) {
      assert forall x | 0 <= x < |done[k]| :: done[k][x].op == done[k][0].op;
    }
    JoinedSilent(done[..j], id);
    LogOps.NoMention(Joined(done[..j]), id);
    WritesAll(done[j][..r], id);
    WritesConcat(Joined(done[..j]), done[j][..r], id);
  }

  /** A committed operation is committed whole: the groups end where an operation ends, and that
      operation is over. */
  lemma GroupsEndWhole(s: M.State, ops: seq<seq<M.Write>>, j: nat)
    requires LogOps.OpsInv(s) && s.issued == Joined(s.groups) + s.cur && Marked(ops) && Plays(s, ops) && j < |ops|
    requires |Joined(ops[..j])| < |Joined(s.groups)| <= |Joined(ops[..j])| + |ops[j]|
    requires Joined(ops[..j]) + ops[j] <= Joined(ops)
    ensures Joined(s.groups) == Joined(ops[..j]) + ops[j]
    ensures LogOps.Mentions(s.issued, ops[j][0].op) && !LogOps.IsLive(s, ops[j][0].op)
  {
    hide LogOps.OpsInv, Joined;
    var p, before := Joined(s.groups), Joined(ops[..j]);
    var r := |p| - |before|;
    var id := ops[j][0].op;
    assert p <= Joined(ops);
    assert p == before + ops[j][..r];
    assert p[|before|] == ops[j][0];
    assert LogOps.Mentions(p, id);
    var k := JoinedMentions(s.groups, id);
    assert LogOps.Whole(s, k, id) by { WholeOf(s, k, id); }
    assert s.issued[|before|].op == id;
    LogOps.NoMention(s.cur, id);
    WritesConcat(p, s.cur, id);
    WritesSoFar(ops, j, r);
    assert M.WritesOf(s.issued, id) == ops[j];
    assert |ops[j][..r]| == |ops[j]|;
  }

  lemma WholeOf(s: M.State, k: nat, id: nat)
    requires LogOps.OpsInv(s) && k < |s.groups|
    ensures LogOps.Whole(s, k, id)
  {
  }

  lemma PrefixEqual(p: seq<M.Write>, q: seq<M.Write>, r: seq<M.Write>, whole: seq<M.Write>)
    requires p <= whole && q + r <= whole && |p| == |q|
    ensures p == q
  {
    assert q == (q + r)[..|q|];
  }

  /** So the committed groups lead where some number of finished operations lead. */
  lemma GroupsReplay(d: seq<Block>, s: M.State, done: seq<seq<M.Write>>, doing: seq<M.Write>) returns (j: nat)
    requires LogOps.OpsInv(s) && s.issued == Joined(s.groups) + s.cur
    requires Marked(done + [doing]) && Plays(s, done + [doing]) && Unfinished(s, doing)
    ensures j <= |done| && M.ReplayAll(d, s.groups) == M.ReplayAll(d, done[..j])
  {
    hide LogOps.OpsInv, Marked, M.Replay, M.ReplayAll;
    ReplayJoined(d, s.groups);
    var ops := done + [doing];
    assert |Joined(s.groups)| <= |Joined(ops)|;
    j := Locate(ops, |Joined(s.groups)|);
    assert ops[..j] == done[..j];
    if |Joined(s.groups)| == |Joined(ops[..j])| {
      PrefixEqual(Joined(s.groups), Joined(ops[..j]), ops[j], Joined(ops));
    } else {
      GroupsEndWhole(s, ops, j);
      assert j < |done|;
      JoinedSnoc(done[..j], done[j]);
      assert done[..j] + [done[j]] == done[..j + 1];
      j := j + 1;
    }
    ReplayJoined(d, done[..j]);
  }

  /** Cut the power at any point of any run that is handed the operations of a good history, perhaps in
      the middle of one more: recovery yields a volume on which the file system's invariant holds. */
  lemma CrashKeepsVolume(g: M.Geometry, sb: Super, d: M.Disk, acts: seq<M.Action>, done: seq<seq<M.Write>>,
                         doing: seq<M.Write>)
    requires M.HeaderOk(g, d) && LogBelow(g, sb) && M.IsRun(g, M.PowerOn(d), acts) && NoCrash(acts)
    requires GoodHistory(sb, M.Recover(g, d), done) && Marked(done + [doing])
    requires Plays(M.After(g, M.PowerOn(d), acts), done + [doing])
    requires Unfinished(M.After(g, M.PowerOn(d), acts), doing)
    ensures M.HeaderOk(g, M.After(g, M.PowerOn(d), acts).disk)
    ensures GoodDisk(sb, M.Recover(g, M.After(g, M.PowerOn(d), acts).disk))
  {
    hide M.Recover, M.HeaderOk, FsInv, M.SameHome, Plays, Marked, LogOps.OpsInv, Unfinished;
    LogCrash.CrashSafety(g, d, acts);
    LogOps.OpsRun(g, d, acts);
    IssuedSplit(g, d, acts);
    var s := M.After(g, M.PowerOn(d), acts);
    var j := GroupsReplay(M.Recover(g, d), s, done, doing);
    var good := M.ReplayAll(M.Recover(g, d), done[..j]);
    assert GoodDisk(sb, good);
    var inodes: seq<Inode>, owner: map<uint, Slot> :| FsInv(sb, Vol(good, inodes), owner);
    SameHomeSym(g, M.Recover(g, s.disk), good);
    FsInvHome(g, sb, good, M.Recover(g, s.disk), inodes, owner);
  }

  lemma SameHomeSym(g: M.Geometry, x: M.Disk, y: M.Disk)
    requires M.SameHome(g, x, y)
    ensures M.SameHome(g, y, x)
  {
  }
}
