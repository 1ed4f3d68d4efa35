/** Operations are all-or-nothing, and the space begin_op reserves is enough. */
module LogOps {
  import opened Blocks
  import opened LogMachine
  import opened LogCrash

  // All or nothing.

  ghost predicate Mentions(ws: seq<Write>, id: nat) {
    exists i | 0 <= i < |ws| :: ws[i].op == id
  }

  ghost predicate IsLive(s: State, id: nat) {
    exists k | 0 <= k < |s.ops| :: s.ops[k].id == id
  }

  /** Everything id ever logged is in ws. */
  ghost predicate AllIn(s: State, ws: seq<Write>, id: nat) {
    WritesOf(s.issued, id) == WritesOf(ws, id)
  }

  ghost predicate IdsBelow(ws: seq<Write>, n: nat) {
    forall i | 0 <= i < |ws| :: ws[i].op < n
  }

  ghost predicate NotElsewhere(s: State, k: nat, id: nat) {
    forall j | 0 <= j < |s.groups| && j != k :: !Mentions(s.groups[j], id)
  }

  /** An operation with a write in group k has all its writes there and will log no more. */
  ghost predicate Whole(s: State, k: nat, id: nat)
    requires k < |s.groups|
  {
    Mentions(s.groups[k], id) ==>
      && AllIn(s, s.groups[k], id)
      && !IsLive(s, id) && !Mentions(s.cur, id)
      && NotElsewhere(s, k, id)
  }

  ghost predicate CurWhole(s: State, id: nat) {
    IsLive(s, id) || Mentions(s.cur, id) ==> AllIn(s, s.cur, id)
  }

  ghost predicate OpsInv(s: State) {
    && (forall k | 0 <= k < |s.ops| :: s.ops[k].id < s.nextOp)
    && IdsBelow(s.issued, s.nextOp) && IdsBelow(s.cur, s.nextOp)
    && (forall k | 0 <= k < |s.groups| :: IdsBelow(s.groups[k], s.nextOp))
    && (!s.phase.Running? ==> s.ops == [])
    && (forall id :: CurWhole(s, id))
    && (forall k, id | 0 <= k < |s.groups| :: Whole(s, k, id))
  }

  lemma {:induction false} NoMention(ws: seq<Write>, id: nat)
    requires !Mentions(ws, id)
    ensures WritesOf(ws, id) == []
  {
    if ws != [] {
      var n := |ws| - 1;
      assert forall i | 0 <= i < n :: ws[..n][i] == ws[i];
      NoMention(ws[..n], id);
    }
  }

  lemma MentionsAppend(ws: seq<Write>, w: Write, id: nat)
    ensures Mentions(ws + [w], id) <==> Mentions(ws, id) || w.op == id
    ensures WritesOf(ws + [w], id) == WritesOf(ws, id) + (if w.op == id then [w] else [])
  {
    assert (ws + [w])[..|ws|] == ws;
    if Mentions(ws, id) {
      var i :| 0 <= i < |ws| && ws[i].op == id;
      assert (ws + [w])[i].op == id;
    }
    assert (ws + [w])[|ws|] == w;
  }

  lemma LogWriteHistory(g: Geometry, s: State, a: Action, id: nat)
    requires Shape(g, s) && Enabled(g, s, a) && a.LogWrite?
    ensures var s' := Do(g, s, a);
            var w := Write(s.ops[a.k].id, a.bn, a.data);
            var tail := if w.op == id then [w] else [];
            && (IsLive(s', id) <==> IsLive(s, id))
            && (Mentions(s'.cur, id) <==> Mentions(s.cur, id) || w.op == id)
            && WritesOf(s'.cur, id) == WritesOf(s.cur, id) + tail
            && WritesOf(s'.issued, id) == WritesOf(s.issued, id) + tail
            && s'.groups == s.groups
            && IsLive(s, w.op)
  {
    hide Mentions, WritesOf, GoodList;
    var s' := Do(g, s, a);
    var w := Write(s.ops[a.k].id, a.bn, a.data);
    assert forall k | 0 <= k < |s.ops| :: s'.ops[k].id == s.ops[k].id;
    MentionsAppend(s.cur, w, id);
    MentionsAppend(s.issued, w, id);
  }

  lemma OpsLogWrite(g: Geometry, s: State, a: Action)
    requires Shape(g, s) && Enabled(g, s, a) && a.LogWrite? && OpsInv(s)
    ensures OpsInv(Do(g, s, a))
  {
    var s' := Do(g, s, a);
    assert IdsBelow(s'.issued, s.nextOp) && IdsBelow(s'.cur, s.nextOp);
    forall id ensures CurWhole(s', id) {
      assert CurWhole(s, id);
      LogWriteHistory(g, s, a, id);
    }
    forall k, id | 0 <= k < |s'.groups| ensures Whole(s', k, id) {
      LogWriteHistory(g, s, a, id);
      assert Whole(s, k, id);
    }
  }

  lemma OpsWriteHead(g: Geometry, s: State)
    requires Shape(g, s) && Enabled(g, s, WriteHead) && OpsInv(s)
    ensures OpsInv(Do(g, s, WriteHead))
  {
    var s' := Do(g, s, WriteHead);
    forall k, id | 0 <= k < |s'.groups| ensures Whole(s', k, id) {
      assert CurWhole(s, id);
      if k < |s.groups| {
        assert Whole(s, k, id);
        assert s'.groups[k] == s.groups[k];
      }
      if Mentions(s'.groups[k], id) {
        forall j | 0 <= j < |s'.groups| && j != k ensures !Mentions(s'.groups[j], id) {
          if j < |s.groups| {
            assert Whole(s, j, id);
            assert s'.groups[j] == s.groups[j];
          }
        }
      }
    }
    assert s'.cur == [];
  }

  lemma OpsBegin(g: Geometry, s: State)
    requires Shape(g, s) && Enabled(g, s, Begin) && OpsInv(s)
    ensures OpsInv(Do(g, s, Begin))
  {
    var s' := Do(g, s, Begin);
    var new_ := s.nextOp;
    assert !Mentions(s.issued, new_) && !Mentions(s.cur, new_);
    NoMention(s.issued, new_);
    NoMention(s.cur, new_);
    forall id ensures CurWhole(s', id) && (IsLive(s', id) ==> IsLive(s, id) || id == new_) {
      assert CurWhole(s, id);
      if IsLive(s', id) && id != new_ {
        var k :| 0 <= k < |s'.ops| && s'.ops[k].id == id;
        assert s.ops[k].id == id;
      }
    }
    forall k, id | 0 <= k < |s.groups| ensures Whole(s', k, id) {
      assert Whole(s, k, id);
      assert IdsBelow(s.groups[k], new_);
    }
  }

  lemma OpsEnd(g: Geometry, s: State, a: Action)
    requires Shape(g, s) && Enabled(g, s, a) && OpsInv(s)
    requires !a.Begin? && !a.LogWrite? && !a.WriteHead?
    ensures OpsInv(Do(g, s, a))
  {
    var s' := Do(g, s, a);
    forall id ensures CurWhole(s', id) && (IsLive(s', id) ==> IsLive(s, id)) {
      assert CurWhole(s, id);
      if IsLive(s', id) {
        var k :| 0 <= k < |s'.ops| && s'.ops[k].id == id;
        assert s'.ops[k] in s.ops;
      }
    }
    forall k, id | 0 <= k < |s.groups| ensures Whole(s', k, id) {
      assert Whole(s, k, id);
    }
  }

  lemma OpsStep(g: Geometry, s: State, a: Action)
    requires Shape(g, s) && Enabled(g, s, a) && OpsInv(s)
    ensures OpsInv(Do(g, s, a))
  {
    match a {
      case Begin => OpsBegin(g, s);
      case LogWrite(_, _, _) => OpsLogWrite(g, s, a);
      case WriteHead => OpsWriteHead(g, s);
      case _ => OpsEnd(g, s, a);
    }
  }

  lemma {:induction false} OpsRun(g: Geometry, d: Disk, acts: seq<Action>)
    requires HeaderOk(g, d) && IsRun(g, PowerOn(d), acts)
    ensures OpsInv(After(g, PowerOn(d), acts))
  {
    if acts != [] {
      var n := |acts| - 1;
      OpsRun(g, d, acts[..n]);
      OpsStep(g, After(g, PowerOn(d), acts[..n]), acts[n]);
    }
  }

  /** No operation is ever half committed: on any run an operation with one write in a committed
      group has all of its writes in that group and none in another, and it has ended. */
  lemma AllOrNothing(g: Geometry, d: Disk, acts: seq<Action>, k: nat, id: nat)
    requires HeaderOk(g, d) && IsRun(g, PowerOn(d), acts)
    requires k < |After(g, PowerOn(d), acts).groups|
    requires Mentions(After(g, PowerOn(d), acts).groups[k], id)
    ensures var s := After(g, PowerOn(d), acts);
            && WritesOf(s.groups[k], id) == WritesOf(s.issued, id)
            && (forall j | 0 <= j < |s.groups| && j != k :: WritesOf(s.groups[j], id) == [])
            && !IsLive(s, id)
  {
    OpsRun(g, d, acts);
    var s := After(g, PowerOn(d), acts);
    assert Whole(s, k, id);
    forall j | 0 <= j < |s.groups| && j != k ensures WritesOf(s.groups[j], id) == [] {
      NoMention(s.groups[j], id);
    }
  }

  // Log space.

  /** The caller's side of the bargain: an operation appends at most MAXOPBLOCKS entries. */
  ghost predicate WithinBudget(s: State, a: Action) {
    a.LogWrite? && a.k < |s.ops| && a.bn !in s.lh ==> s.ops[a.k].used < MAXOPBLOCKS
  }

  ghost predicate BudgetRun(g: Geometry, s: State, acts: seq<Action>)
    requires IsRun(g, s, acts)
    decreases |acts|
  {
    acts == [] ||
    (var n := |acts| - 1;
     BudgetRun(g, s, acts[..n]) && WithinBudget(After(g, s, acts[..n]), acts[n]))
  }

  /** The header entries the outstanding operations may still append. */
  function Unused(ops: seq<Op>): int {
    if ops == [] then 0 else Unused(ops[..|ops| - 1]) + (MAXOPBLOCKS - ops[|ops| - 1].used)
  }

  lemma {:induction false} UnusedConcat(x: seq<Op>, y: seq<Op>)
    ensures Unused(x + y) == Unused(x) + Unused(y)
  {
    if y == [] {
      assert x + y == x;
    } else {
      var n := |y| - 1;
      assert (x + y)[..|x + y| - 1] == x + y[..n];
      UnusedConcat(x, y[..n]);
    }
  }

  /** Unused splits at any operation. */
  lemma UnusedAt(ops: seq<Op>, k: nat)
    requires k < |ops|
    ensures Unused(ops) == Unused(ops[..k]) + (MAXOPBLOCKS - ops[k].used) + Unused(ops[k + 1..])
  {
    hide Unused;
    var x, y, z := ops[..k], [ops[k]], ops[k + 1..];
    assert ops == x + (y + z);
    UnusedConcat(x, y + z);
    UnusedConcat(y, z);
    UnusedOne(ops[k]);
  }

  lemma UnusedOne(op: Op)
    ensures Unused([op]) == MAXOPBLOCKS - op.used
  {
    assert [op][..0] == [];
  }

  lemma {:induction false} UnusedBound(ops: seq<Op>)
    requires forall i | 0 <= i < |ops| :: ops[i].used <= MAXOPBLOCKS
    ensures 0 <= Unused(ops) <= MAXOPBLOCKS * |ops|
  {
    if ops != [] {
      UnusedBound(ops[..|ops| - 1]);
    }
  }

  ghost predicate SpaceInv(s: State) {
    && (forall i | 0 <= i < |s.ops| :: s.ops[i].used <= MAXOPBLOCKS)
    && (s.phase.Running? ==> |s.lh| + Unused(s.ops) <= LOGSIZE)
    && (!s.phase.Running? ==> s.ops == [])
    && (s.phase.Boot? || s.phase.Done? ==> s.lh == [])
  }

  lemma UnusedUpdate(ops: seq<Op>, k: nat, o: Op)
    requires k < |ops|
    ensures Unused(ops[k := o]) == Unused(ops) + ops[k].used - o.used
  {
    UnusedAt(ops, k);
    UnusedAt(ops[k := o], k);
    assert ops[k := o][..k] == ops[..k] && ops[k := o][k + 1..] == ops[k + 1..];
  }

  lemma UnusedRemove(ops: seq<Op>, k: nat)
    requires k < |ops| && ops[k].used <= MAXOPBLOCKS
    ensures Unused(RemoveAt(ops, k)) <= Unused(ops)
  {
    UnusedAt(ops, k);
    UnusedConcat(ops[..k], ops[k + 1..]);
  }

  lemma SpaceStep(g: Geometry, s: State, a: Action)
    requires Shape(g, s) && Enabled(g, s, a) && WithinBudget(s, a) && SpaceInv(s)
    ensures SpaceInv(Do(g, s, a))
  {
    match a {
      case Begin =>
        UnusedBound(s.ops);
        assert Do(g, s, a).ops[..|s.ops|] == s.ops;
      case LogWrite(k, bn, _) =>
        UnusedUpdate(s.ops, k, s.ops[k].(used := s.ops[k].used + 1));
      case End(k) =>
        UnusedRemove(s.ops, k);
      case _ =>
    }
  }

  lemma {:induction false} SpaceRun(g: Geometry, d: Disk, acts: seq<Action>)
    requires HeaderOk(g, d) && IsRun(g, PowerOn(d), acts) && BudgetRun(g, PowerOn(d), acts)
    ensures SpaceInv(After(g, PowerOn(d), acts))
  {
    if acts != [] {
      var n := |acts| - 1;
      SpaceRun(g, d, acts[..n]);
      SpaceStep(g, After(g, PowerOn(d), acts[..n]), acts[n]);
    }
  }

  /** On every run within budget the header and what the outstanding operations may still append
      fit in LOGSIZE, and an operation is only outstanding while no commit runs (so the panic in
      end_op is out of reach). */
  lemma SpaceReserved(g: Geometry, d: Disk, acts: seq<Action>)
    requires HeaderOk(g, d) && IsRun(g, PowerOn(d), acts) && BudgetRun(g, PowerOn(d), acts)
    ensures var s := After(g, PowerOn(d), acts);
            && (s.ops != [] ==> s.phase.Running?)
            && |s.lh| + Unused(s.ops) <= LOGSIZE
            && Unused(s.ops) >= 0
  {
    SpaceRun(g, d, acts);
    InvRun(g, d, acts);
    UnusedBound(After(g, PowerOn(d), acts).ops);
  }

  /** With log.size > LOGSIZE an appending log_write within budget passes the size checks. */
  lemma AppendFits(g: Geometry, d: Disk, acts: seq<Action>, k: nat)
    requires HeaderOk(g, d) && IsRun(g, PowerOn(d), acts) && BudgetRun(g, PowerOn(d), acts)
    requires g.logSize > LOGSIZE
    requires k < |After(g, PowerOn(d), acts).ops| && After(g, PowerOn(d), acts).ops[k].used < MAXOPBLOCKS
    ensures !SizeGuard(g, After(g, PowerOn(d), acts))
  {
    SpaceRun(g, d, acts);
    var s := After(g, PowerOn(d), acts);
    UnusedAt(s.ops, k);
    UnusedBound(s.ops[..k]);
    UnusedBound(s.ops[k + 1..]);
  }

  // How tight the reservation is: three operations can fill the log completely.

  function Used(n: nat, j: nat): nat {
    if n <= 10 * j then 0 else if n >= 10 * j + 10 then 10 else n - 10 * j
  }

  function ThreeOps(n: nat): seq<Op> {
    [Op(0, Used(n, 0)), Op(1, Used(n, 1)), Op(2, Used(n, 2))]
  }

  ghost predicate BudgetRunFrom(g: Geometry, d: Disk, acts: seq<Action>) {
    IsRun(g, PowerOn(d), acts) && BudgetRun(g, PowerOn(d), acts)
  }

  lemma Extend(g: Geometry, d: Disk, acts: seq<Action>, a: Action)
    requires BudgetRunFrom(g, d, acts)
    requires Shape(g, After(g, PowerOn(d), acts))
    requires Enabled(g, After(g, PowerOn(d), acts), a) && WithinBudget(After(g, PowerOn(d), acts), a)
    ensures BudgetRunFrom(g, d, acts + [a])
    ensures After(g, PowerOn(d), acts + [a]) == Do(g, After(g, PowerOn(d), acts), a)
  {
    RunSnoc(g, PowerOn(d), acts, a);
    assert (acts + [a])[..|acts|] == acts;
  }

  ghost predicate DistinctHomes(g: Geometry, blocks: seq<uint>) {
    && (forall i | 0 <= i < |blocks| :: IsHome(g, blocks[i]))
    && (forall i, j | 0 <= i < j < |blocks| :: blocks[i] != blocks[j])
  }

  /** A disk just formatted: the log is empty. */
  ghost predicate EmptyLog(g: Geometry, d: Disk) {
    ValidGeometry(g) && |d| == g.size && Word(d[g.logStart], 0) == 0
  }

  /** Boot, recover the empty log, then n calls of begin_op. */
  lemma {:induction false} Start(g: Geometry, d: Disk, n: nat) returns (acts: seq<Action>)
    requires EmptyLog(g, d) && n <= 3
    ensures BudgetRunFrom(g, d, acts)
    ensures var s := After(g, PowerOn(d), acts);
            Shape(g, s) && s.phase == Running && s.lh == [] && s.nextOp == n && s.ops == ThreeOps(0)[..n]
  {
    if n == 0 {
      acts := [];
      Extend(g, d, [], ReadHead);
      HeaderRoundTrip(d[g.logStart], []);
      Extend(g, d, [] + [ReadHead], ClearHead);
      acts := [] + [ReadHead] + [ClearHead];
    } else {
      acts := Start(g, d, n - 1);
      Extend(g, d, acts, Begin);
      acts := acts + [Begin];
    }
  }

  lemma {:induction false} Fill(g: Geometry, d: Disk, blocks: seq<uint>, n: nat) returns (acts: seq<Action>)
    requires EmptyLog(g, d)
    requires n <= |blocks| && n <= LOGSIZE && n < g.logSize
    requires DistinctHomes(g, blocks)
    ensures BudgetRunFrom(g, d, acts)
    ensures var s := After(g, PowerOn(d), acts);
            Shape(g, s) && s.phase == Running && s.lh == blocks[..n] && s.ops == ThreeOps(n)
  {
    hide BudgetRun, IsRun, HeaderOk;
    if n == 0 {
      acts := Start(g, d, 3);
    } else {
      acts := Fill(g, d, blocks, n - 1);
      assert blocks[..n] == blocks[..n - 1] + [blocks[n - 1]];
      assert blocks[n - 1] !in blocks[..n - 1];
      var a := LogWrite((n - 1) / 10, blocks[n - 1], ZERO);
      Extend(g, d, acts, a);
      acts := acts + [a];
    }
  }

  ghost predicate AppendsNeverPanic(g: Geometry, d: Disk) {
    forall acts: seq<Action>, k: nat |
      BudgetRunFrom(g, d, acts) && k < |After(g, PowerOn(d), acts).ops|
      && After(g, PowerOn(d), acts).ops[k].used < MAXOPBLOCKS ::
      !SizeGuard(g, After(g, PowerOn(d), acts))
  }

  /** mkfs makes the log LOGSIZE blocks including the header. Appends within budget are safe from
      the "too big a transaction" panic exactly when there is one block more than that. */
  lemma AppendsFitExactly(g: Geometry, d: Disk, blocks: seq<uint>)
    requires EmptyLog(g, d)
    requires |blocks| == LOGSIZE && DistinctHomes(g, blocks)
    ensures AppendsNeverPanic(g, d) <==> g.logSize > LOGSIZE
  {
    if g.logSize > LOGSIZE {
      forall acts: seq<Action>, k: nat |
        BudgetRunFrom(g, d, acts) && k < |After(g, PowerOn(d), acts).ops|
        && After(g, PowerOn(d), acts).ops[k].used < MAXOPBLOCKS
        ensures !SizeGuard(g, After(g, PowerOn(d), acts))
      {
        AppendFits(g, d, acts, k);
      }
    } else {
      var n := g.logSize - 1;
      var acts := Fill(g, d, blocks, n);
      var s := After(g, PowerOn(d), acts);
      assert SizeGuard(g, s);
      assert s.ops[n / 10].used < MAXOPBLOCKS;
    }
  }

  /** The size check comes before absorption: with the log full but nothing over budget, even
      rewriting a block that is already logged panics, whatever the size of the log area. */
  lemma AbsorbedWriteMayPanic(g: Geometry, d: Disk, blocks: seq<uint>) returns (acts: seq<Action>)
    requires EmptyLog(g, d) && g.logSize > LOGSIZE
    requires |blocks| == LOGSIZE && DistinctHomes(g, blocks)
    ensures BudgetRunFrom(g, d, acts)
    ensures var s := After(g, PowerOn(d), acts);
            && |s.ops| == 3 && |s.lh| == LOGSIZE
            && (forall k: nat, i, b: Block | k < 3 && 0 <= i < LOGSIZE ::
                  var a := LogWrite(k, s.lh[i], b);
                  WithinBudget(s, a) && !Enabled(g, s, a))
  {
    acts := Fill(g, d, blocks, LOGSIZE);
    assert blocks[..LOGSIZE] == blocks;
  }
}
