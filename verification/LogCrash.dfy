/** Crash safety of the log over every run: whatever the interleaving of operations and
    wherever the crashes fall, recovery yields the blocks after a whole number of committed
    group transactions. */
module LogCrash {
  import opened Blocks
  import opened LogMachine

  // Header codec.

  lemma {:induction false} PutEntriesWords(b: Block, lh: seq<uint>, k: nat)
    requires k <= |lh| < WORDS
    ensures Word(PutEntries(b, lh, k), 0) == Word(b, 0)
    ensures forall j | 1 <= j < WORDS ::
              Word(PutEntries(b, lh, k), j) == if j <= k then lh[j - 1] else Word(b, j)
  {
    if k > 0 {
      PutEntriesWords(b, lh, k - 1);
      PutWordFrame(PutEntries(b, lh, k - 1), k, lh[k - 1]);
    }
  }

  /** read_head undoes write_head, whatever was in the header block before. */
  lemma HeaderRoundTrip(b: Block, lh: seq<uint>)
    requires |lh| < WORDS
    ensures Word(EncodeHeader(b, lh), 0) == |lh|
    ensures DecodeHeader(EncodeHeader(b, lh)) == lh
  {
    PutWordFrame(b, 0, |lh|);
    PutEntriesWords(PutWord(b, 0, |lh|), lh, |lh|);
  }

  lemma HeaderWritten(g: Geometry, d: Disk, lh: seq<uint>)
    requires ValidGeometry(g) && |d| == g.size && GoodList(g, lh)
    ensures var e := d[g.logStart := EncodeHeader(d[g.logStart], lh)];
            HeaderOk(g, e) && Header(g, e) == lh
  {
    HeaderRoundTrip(d[g.logStart], lh);
  }

  // What recovery does to the home blocks.

  /** The log blocks hold the contents h gives the listed blocks. */
  ghost predicate LogHas(g: Geometry, d: Disk, lh: seq<uint>, h: Disk)
    requires ValidGeometry(g) && |d| == |h| == g.size && GoodList(g, lh)
  {
    forall i | 0 <= i < |lh| :: d[g.logStart + 1 + i] == h[lh[i]]
  }

  /** The home blocks not listed are as in h. */
  ghost predicate HomeHas(g: Geometry, d: Disk, lh: seq<uint>, h: Disk)
    requires |d| == |h| == g.size
  {
    forall bn: uint | IsHome(g, bn) && bn !in lh :: d[bn] == h[bn]
  }

  /** Recovering disk d yields h: every logged block has its new contents in the log, every
      other home block already has its own. */
  ghost predicate Restores(g: Geometry, d: Disk, h: Disk) {
    && HeaderOk(g, d) && |h| == g.size
    && LogHas(g, d, Header(g, d), h)
    && HomeHas(g, d, Header(g, d), h)
  }

  /** install_trans block by block: block lh[i] gets log block i, and nothing else changes. */
  lemma {:induction false} InstalledAt(g: Geometry, d: Disk, lh: seq<uint>, k: nat)
    requires ValidGeometry(g) && |d| == g.size && GoodList(g, lh) && k <= |lh|
    ensures forall i | 0 <= i < k :: Installed(g, d, lh, k)[lh[i]] == d[g.logStart + 1 + i]
    ensures forall bn: uint | bn < g.size && bn !in lh[..k] :: Installed(g, d, lh, k)[bn] == d[bn]
  {
    if k > 0 {
      InstalledAt(g, d, lh, k - 1);
      assert lh[..k] == lh[..k - 1] + [lh[k - 1]];
      assert !IsHome(g, g.logStart + k);
    }
  }

  lemma InstalledGives(g: Geometry, d: Disk, lh: seq<uint>, h: Disk)
    requires ValidGeometry(g) && |d| == |h| == g.size && GoodList(g, lh)
    requires LogHas(g, d, lh, h) && HomeHas(g, d, lh, h)
    ensures SameHome(g, Installed(g, d, lh, |lh|), h)
  {
    var p := Installed(g, d, lh, |lh|);
    InstalledAt(g, d, lh, |lh|);
    assert lh[..|lh|] == lh;
    forall bn: uint | IsHome(g, bn) ensures p[bn] == h[bn] {
      if i :| 0 <= i < |lh| && lh[i] == bn {
        assert p[lh[i]] == d[g.logStart + 1 + i];
      } else {
        assert bn !in lh;
      }
    }
  }

  lemma InstalledNeeds(g: Geometry, d: Disk, lh: seq<uint>, h: Disk)
    requires ValidGeometry(g) && |d| == |h| == g.size && GoodList(g, lh)
    requires SameHome(g, Installed(g, d, lh, |lh|), h)
    ensures LogHas(g, d, lh, h) && HomeHas(g, d, lh, h)
  {
    var p := Installed(g, d, lh, |lh|);
    InstalledAt(g, d, lh, |lh|);
    assert lh[..|lh|] == lh;
    forall i | 0 <= i < |lh| ensures d[g.logStart + 1 + i] == h[lh[i]] {
      assert IsHome(g, lh[i]);
      assert p[lh[i]] == d[g.logStart + 1 + i];
    }
  }

  lemma RestoresMeansRecover(g: Geometry, d: Disk, h: Disk)
    requires HeaderOk(g, d) && |h| == g.size
    ensures Restores(g, d, h) <==> SameHome(g, Recover(g, d), h)
  {
    var lh := Header(g, d);
    var p := Installed(g, d, lh, |lh|);
    assert SameHome(g, p, Recover(g, d));
    if Restores(g, d, h) {
      InstalledGives(g, d, lh, h);
    }
    if SameHome(g, Recover(g, d), h) {
      InstalledNeeds(g, d, lh, h);
    }
  }

  // The four kinds of block write.

  /** A write into the log area behind an empty header does not matter to recovery. */
  lemma LogWriteRestores(g: Geometry, d: Disk, h: Disk, x: nat, b: Block)
    requires Restores(g, d, h) && Header(g, d) == [] && g.logStart < x < g.logStart + g.logSize
    ensures Restores(g, d[x := b], h) && Header(g, d[x := b]) == []
  {
    var e := d[x := b];
    assert e[g.logStart] == d[g.logStart];
    assert !IsHome(g, x);
    assert HomeHas(g, e, [], h);
  }

  /** The commit point: with the log blocks in place, writing the header switches what recovery
      yields to h. */
  lemma HeadRestores(g: Geometry, d: Disk, lh: seq<uint>, h: Disk)
    requires ValidGeometry(g) && |d| == |h| == g.size && GoodList(g, lh)
    requires LogHas(g, d, lh, h) && HomeHas(g, d, lh, h)
    ensures Restores(g, d[g.logStart := EncodeHeader(d[g.logStart], lh)], h)
  {
    HeaderWritten(g, d, lh);
    var e := d[g.logStart := EncodeHeader(d[g.logStart], lh)];
    assert LogHas(g, e, lh, h);
    assert HomeHas(g, e, lh, h);
  }

  /** Installing one block changes nothing recovery would not change anyway. */
  lemma InstallRestores(g: Geometry, d: Disk, h: Disk, t: nat)
    requires Restores(g, d, h) && t < |Header(g, d)|
    ensures var lh := Header(g, d);
            var e := d[lh[t] := d[g.logStart + 1 + t]];
            Restores(g, e, h) && Header(g, e) == lh
  {
    var lh := Header(g, d);
    var e := d[lh[t] := d[g.logStart + 1 + t]];
    assert IsHome(g, lh[t]);
    assert e[g.logStart] == d[g.logStart];
    assert LogHas(g, e, lh, h);
    assert HomeHas(g, e, lh, h);
  }

  /** With everything installed the header may go. */
  lemma ClearRestores(g: Geometry, d: Disk, h: Disk)
    requires Restores(g, d, h) && HomeHas(g, d, [], h)
    ensures var e := d[g.logStart := EncodeHeader(d[g.logStart], [])];
            Restores(g, e, h) && Header(g, e) == [] && HomeHas(g, e, [], h)
  {
    HeaderWritten(g, d, []);
    var e := d[g.logStart := EncodeHeader(d[g.logStart], [])];
    assert HomeHas(g, e, [], h);
  }

  // The inductive invariant.

  /** The cache shows h on the home blocks. */
  ghost predicate Shows(g: Geometry, s: State, h: Disk)
    requires |s.disk| == |h| == g.size
  {
    forall bn: uint | IsHome(g, bn) :: View(s, bn) == h[bn]
  }

  /** The dirty buffers are exactly the listed blocks. */
  ghost predicate Dirty(s: State, lh: seq<uint>) {
    forall bn: uint :: bn in s.pending <==> bn in lh
  }

  /** Before the header is written: the log is empty on disk and the cache shows h with the
      current transaction on top. */
  ghost predicate Building(g: Geometry, h: Disk, s: State)
    requires Shape(g, s) && |h| == g.size
  {
    Header(g, s.disk) == [] && Dirty(s, s.lh) && Shows(g, s, Replay(h, s.cur))
  }

  ghost predicate Copied(g: Geometry, s: State, t: nat)
    requires Shape(g, s) && t <= |s.lh|
  {
    forall i | 0 <= i < t :: s.disk[g.logStart + 1 + i] == View(s, s.lh[i])
  }

  ghost predicate Committed(g: Geometry, h: Disk, s: State, t: nat, recovering: bool)
    requires Shape(g, s) && |h| == g.size
  {
    && s.ops == [] && s.cur == [] && t <= |s.lh|
    && s.lh == Header(g, s.disk)
    && HomeHas(g, s.disk, s.lh[t..], h)
    && (if recovering then s.pending == map[] else Dirty(s, s.lh[t..]) && Shows(g, s, h))
  }

  ghost predicate PhaseInv(g: Geometry, h: Disk, s: State)
    requires Shape(g, s) && |h| == g.size
  {
    match s.phase
    case Running => Building(g, h, s)
    case Done => Building(g, h, s) && s.ops == []
    case LogCopy(t) => Building(g, h, s) && s.ops == [] && t <= |s.lh| && Copied(g, s, t)
    case Install(t, recovering) => Committed(g, h, s, t, recovering)
    case Boot => s.ops == [] && s.lh == [] && s.pending == map[] && s.cur == []
  }

  /** h is what recovery yields. */
  ghost predicate InvWith(g: Geometry, h: Disk, s: State) {
    Shape(g, s) && Restores(g, s.disk, h) && PhaseInv(g, h, s)
  }

  /** h0 is the state recovered at power-on. */
  ghost predicate Inv(g: Geometry, h0: Disk, s: State) {
    InvWith(g, ReplayAll(h0, s.groups), s)
  }

  /** A logged block shows its new contents, the others what they showed. */
  lemma LogWriteShows(g: Geometry, h: Disk, s: State, s': State, x: uint, data: Block)
    requires |s.disk| == |h| == g.size && x < g.size && Shows(g, s, h)
    requires s'.disk == s.disk && s'.pending == s.pending[x := data]
    ensures Shows(g, s', h[x := data])
  {
    forall bn: uint | IsHome(g, bn) ensures View(s', bn) == h[x := data][bn] {
      assert View(s, bn) == h[bn];
    }
  }

  lemma ReplaySnoc(h: Disk, ws: seq<Write>, w: Write)
    requires w.bn < |h|
    ensures Replay(h, ws + [w]) == Replay(h, ws)[w.bn := w.data]
  {
    assert (ws + [w])[..|ws|] == ws;
  }

  lemma StepLogWrite(g: Geometry, h: Disk, s: State, a: Action)
    requires Shape(g, s) && |h| == g.size && Building(g, h, s) && Enabled(g, s, a) && a.LogWrite?
             && Shape(g, Do(g, s, a))
    ensures Building(g, h, Do(g, s, a))
  {
    hide Header, HeaderOk, GoodList, Shows, Replay;
    var s' := Do(g, s, a);
    assert |s.disk| == g.size && a.bn < g.size by { ShapeParts(g, s); }
    ReplaySnoc(h, s.cur, Write(s.ops[a.k].id, a.bn, a.data));
    LogWriteShows(g, Replay(h, s.cur), s, s', a.bn, a.data);
  }

  lemma ShowsFrame(g: Geometry, s: State, s': State, h: Disk)
    requires |s.disk| == |s'.disk| == |h| == g.size && Shows(g, s, h)
    requires s'.pending == s.pending && SameHome(g, s.disk, s'.disk)
    ensures Shows(g, s', h)
  {
    forall bn: uint | IsHome(g, bn) ensures View(s', bn) == h[bn] {
      assert View(s, bn) == h[bn];
    }
  }

  lemma CopiedOne(g: Geometry, s: State, t: nat, s': State)
    requires Shape(g, s) && Shape(g, s') && t < |s.lh| && Copied(g, s, t)
    requires s'.lh == s.lh && s'.pending == s.pending && s'.disk == s.disk[g.logStart + 1 + t := View(s, s.lh[t])]
    ensures Copied(g, s', t + 1)
  {
    forall i | 0 <= i < t + 1 ensures s'.disk[g.logStart + 1 + i] == View(s', s.lh[i]) {
      assert IsHome(g, s.lh[i]);
      assert View(s', s.lh[i]) == View(s, s.lh[i]);
    }
  }

  lemma StepCopyBlock(g: Geometry, h: Disk, s: State)
    requires InvWith(g, h, s) && Enabled(g, s, CopyBlock)
    ensures InvWith(g, h, Do(g, s, CopyBlock))
  {
    var s' := Do(g, s, CopyBlock);
    var t := s.phase.tail;
    LogWriteRestores(g, s.disk, h, g.logStart + 1 + t, View(s, s.lh[t]));
    ShowsFrame(g, s, s', Replay(h, s.cur));
    CopiedOne(g, s, t, s');
  }

  lemma ReadyToCommit(g: Geometry, s: State, h: Disk)
    requires Shape(g, s) && |h| == g.size
    requires Dirty(s, s.lh) && Shows(g, s, h) && Copied(g, s, |s.lh|)
    ensures LogHas(g, s.disk, s.lh, h) && HomeHas(g, s.disk, s.lh, h)
  {
    forall i | 0 <= i < |s.lh| ensures s.disk[g.logStart + 1 + i] == h[s.lh[i]] {
      assert IsHome(g, s.lh[i]);
      assert View(s, s.lh[i]) == h[s.lh[i]];
    }
    forall bn: uint | IsHome(g, bn) && bn !in s.lh ensures s.disk[bn] == h[bn] {
      assert View(s, bn) == s.disk[bn];
    }
  }

  /** The contents the cache shows become what recovery yields. */
  lemma StepWriteHead(g: Geometry, h: Disk, s: State)
    requires InvWith(g, h, s) && Enabled(g, s, WriteHead)
    ensures InvWith(g, Replay(h, s.cur), Do(g, s, WriteHead))
  {
    var s' := Do(g, s, WriteHead);
    var h' := Replay(h, s.cur);
    ReadyToCommit(g, s, h');
    HeadRestores(g, s.disk, s.lh, h');
    HeaderWritten(g, s.disk, s.lh);
    assert s.lh[0..] == s.lh;
    ShowsFrame(g, s, s', h');
    assert HomeHas(g, s'.disk, s.lh, h');
  }

  lemma InstallHome(g: Geometry, d: Disk, lh: seq<uint>, t: nat, h: Disk)
    requires ValidGeometry(g) && |d| == |h| == g.size && GoodList(g, lh) && t < |lh|
    requires LogHas(g, d, lh, h) && HomeHas(g, d, lh[t..], h)
    ensures HomeHas(g, d[lh[t] := d[g.logStart + 1 + t]], lh[t + 1..], h)
  {
    InstallTail(lh, t);
  }

  lemma InstallShows(g: Geometry, h: Disk, s: State, s': State, x: uint)
    requires |s.disk| == |h| == g.size && x < g.size && Shows(g, s, h)
    requires s'.disk == s.disk[x := h[x]] && s'.pending == s.pending - {x}
    ensures Shows(g, s', h)
  {
    forall bn: uint | IsHome(g, bn) ensures View(s', bn) == h[bn] {
      assert View(s, bn) == h[bn];
    }
  }

  lemma CommittedNext(g: Geometry, h: Disk, s: State, s': State, t: nat, recovering: bool)
    requires Shape(g, s) && Shape(g, s') && |h| == g.size && t < |s.lh| && Committed(g, h, s, t, recovering)
    requires LogHas(g, s.disk, s.lh, h) && s'.lh == s.lh && s'.ops == s.ops && s'.cur == s.cur
             && Header(g, s'.disk) == s.lh
    requires s'.disk == s.disk[s.lh[t] := s.disk[g.logStart + 1 + t]] && s'.pending == s.pending - {s.lh[t]}
    ensures Committed(g, h, s', t + 1, recovering)
  {
    hide Header, HeaderOk, ValidGeometry, IsHome, View, HomeHas;
    assert ValidGeometry(g) && |s.disk| == g.size by { ShapeParts(g, s); }
    InstallHome(g, s.disk, s.lh, t, h);
    InstallTail(s.lh, t);
    if recovering {
      assert s'.pending == map[];
    } else {
      assert s.lh[t] < g.size by { ShapeEntry(g, s, t); }
      InstallShows(g, h, s, s', s.lh[t]);
    }
  }

  lemma ShapeParts(g: Geometry, s: State)
    requires Shape(g, s)
    ensures ValidGeometry(g) && |s.disk| == g.size
  {
  }

  lemma ShapeEntry(g: Geometry, s: State, t: nat)
    requires Shape(g, s) && t < |s.lh|
    ensures IsHome(g, s.lh[t]) && s.lh[t] < g.size
  {
  }

  lemma StepInstallBlock(g: Geometry, h: Disk, s: State)
    requires InvWith(g, h, s) && Enabled(g, s, InstallBlock)
    ensures InvWith(g, h, Do(g, s, InstallBlock))
  {
    hide Header, GoodList, LogHas, HomeHas, IsHome, Shows, Dirty, View;
    var t := s.phase.tail;
    InstallRestores(g, s.disk, h, t);
    CommittedNext(g, h, s, Do(g, s, InstallBlock), t, s.phase.recovering);
  }

  lemma InstallTail(lh: seq<uint>, t: nat)
    requires t < |lh| && forall i, j | 0 <= i < j < |lh| :: lh[i] != lh[j]
    ensures forall bn: uint :: bn in lh[t..] <==> bn == lh[t] || bn in lh[t + 1..]
    ensures lh[t] !in lh[t + 1..]
  {
    assert lh[t..] == [lh[t]] + lh[t + 1..];
  }

  lemma StepClearHead(g: Geometry, h: Disk, s: State)
    requires InvWith(g, h, s) && Enabled(g, s, ClearHead)
    ensures InvWith(g, h, Do(g, s, ClearHead))
  {
    assert s.lh[|s.lh|..] == [];
    ClearRestores(g, s.disk, h);
    var s' := Do(g, s, ClearHead);
    assert s'.pending == map[];
    assert forall bn: uint | IsHome(g, bn) :: View(s', bn) == h[bn];
  }

  lemma StepReadHead(g: Geometry, h: Disk, s: State)
    requires InvWith(g, h, s) && Enabled(g, s, ReadHead)
    ensures InvWith(g, h, Do(g, s, ReadHead))
  {
    var lh := Header(g, s.disk);
    assert lh[0..] == lh;
  }

  /** Every step keeps the invariant; only the header write moves h. */
  lemma StepInv(g: Geometry, h: Disk, s: State, a: Action)
    requires InvWith(g, h, s) && Enabled(g, s, a)
    ensures InvWith(g, if a.WriteHead? then Replay(h, s.cur) else h, Do(g, s, a))
  {
    hide LogHas, HomeHas;
    match a {
      case LogWrite(_, _, _) =>
        assert GoodList(g, Do(g, s, a).lh);
        StepLogWrite(g, h, s, a);
      case CopyBlock => StepCopyBlock(g, h, s);
      case WriteHead => StepWriteHead(g, h, s);
      case InstallBlock => StepInstallBlock(g, h, s);
      case ClearHead => StepClearHead(g, h, s);
      case ReadHead => StepReadHead(g, h, s);
      case _ =>
    }
  }

  lemma InvStep(g: Geometry, h0: Disk, s: State, a: Action)
    requires Inv(g, h0, s) && Enabled(g, s, a)
    ensures Inv(g, h0, Do(g, s, a))
  {
    StepInv(g, ReplayAll(h0, s.groups), s, a);
    var s' := Do(g, s, a);
    if a.WriteHead? {
      assert s'.groups[..|s'.groups| - 1] == s.groups;
    }
  }

  lemma {:induction false} InvRun(g: Geometry, d: Disk, acts: seq<Action>)
    requires HeaderOk(g, d) && IsRun(g, PowerOn(d), acts)
    ensures Inv(g, Recover(g, d), After(g, PowerOn(d), acts))
  {
    if acts == [] {
      RestoresMeansRecover(g, d, Recover(g, d));
    } else {
      var n := |acts| - 1;
      InvRun(g, d, acts[..n]);
      InvStep(g, Recover(g, d), After(g, PowerOn(d), acts[..n]), acts[n]);
    }
  }

  /** Crash safety. After any run, crashes and interrupted recoveries included, recovering the
      disk gives the power-on state with the committed groups applied, all and only those. */
  lemma CrashSafety(g: Geometry, d: Disk, acts: seq<Action>)
    requires HeaderOk(g, d) && IsRun(g, PowerOn(d), acts)
    ensures var s := After(g, PowerOn(d), acts);
            && HeaderOk(g, s.disk)
            && SameHome(g, Recover(g, s.disk), ReplayAll(Recover(g, d), s.groups))
  {
    InvRun(g, d, acts);
    var s := After(g, PowerOn(d), acts);
    RestoresMeansRecover(g, s.disk, ReplayAll(Recover(g, d), s.groups));
  }

  /** The commit point is the header write and nothing else: every other step, each single
      block write among them, leaves what a crash recovers to unchanged, and the header write
      adds exactly the current transaction. */
  lemma CommitPoint(g: Geometry, d: Disk, acts: seq<Action>, a: Action)
    requires HeaderOk(g, d) && IsRun(g, PowerOn(d), acts)
    requires Shape(g, After(g, PowerOn(d), acts)) && Enabled(g, After(g, PowerOn(d), acts), a)
    ensures var s := After(g, PowerOn(d), acts);
            var s' := Do(g, s, a);
            && HeaderOk(g, s.disk) && HeaderOk(g, s'.disk)
            && SameHome(g, Recover(g, s'.disk),
                        if a.WriteHead? then Replay(Recover(g, s.disk), s.cur) else Recover(g, s.disk))
  {
    InvRun(g, d, acts);
    var s := After(g, PowerOn(d), acts);
    var h := ReplayAll(Recover(g, d), s.groups);
    RestoresMeansRecover(g, s.disk, h);
    StepInv(g, h, s, a);
    var s' := Do(g, s, a);
    var h' := if a.WriteHead? then Replay(h, s.cur) else h;
    RestoresMeansRecover(g, s'.disk, h');
    ReplaySameHome(g, Recover(g, s.disk), h, s.cur);
  }

  lemma {:induction false} ReplaySameHome(g: Geometry, x: Disk, y: Disk, ws: seq<Write>)
    requires SameHome(g, x, y)
    ensures SameHome(g, Replay(x, ws), Replay(y, ws))
  {
    if ws != [] {
      ReplaySameHome(g, x, y, ws[..|ws| - 1]);
    }
  }

  /** Outside boot and recovery, reads see every committed group and the current transaction. */
  lemma ReadsSeeAllWrites(g: Geometry, d: Disk, acts: seq<Action>)
    requires HeaderOk(g, d) && IsRun(g, PowerOn(d), acts)
    ensures var s := After(g, PowerOn(d), acts);
            && |s.disk| == g.size
            && (!s.phase.Boot? && (s.phase.Install? ==> !s.phase.recovering) ==>
                  Shows(g, s, Replay(ReplayAll(Recover(g, d), s.groups), s.cur)))
  {
    InvRun(g, d, acts);
  }
}
