/** The 32-bit pass does wrap: a run from boot in which group 0 is charged 42,950 times, what that
    does to the bound on leads, and how long the group then keeps the CPU. */
module PassWrap {
  import opened Basics
  import opened ProcMachine
  import opened ProcInv
  import opened Fair

  /** A run from boot that charges group slot 0 n times, in which slot 0 has a runnable process
      whenever slot 1 is dispatched. */
  ghost predicate Story(ncpu: nat, acts: seq<Action>, n: nat) {
    && IsRun(Boot(ncpu), acts) && Inv(After(Boot(ncpu), acts))
    && ChargeCount(Boot(ncpu), acts, 0) == n && CompetesRun(Boot(ncpu), acts, 1, 0)
  }

  ghost function Now(ncpu: nat, acts: seq<Action>): Sys
    requires IsRun(Boot(ncpu), acts)
  {
    After(Boot(ncpu), acts)
  }

  lemma Then(ncpu: nat, acts: seq<Action>, n: nat, a: Action)
    requires Story(ncpu, acts, n) && Enabled(Now(ncpu, acts), a) && Competes(Now(ncpu, acts), a, 1, 0)
    ensures Story(ncpu, acts + [a], n + if Charges(Now(ncpu, acts), a, 0) then 1 else 0)
    ensures Now(ncpu, acts + [a]) == Do(Now(ncpu, acts), a)
  {
    hide Boot, Enabled, Do, Charges, Competes, CpuInv, FamilyInv, WaitInv, ForkInv, PidInv, GroupInv;
    var more := acts + [a];
    assert more[..|more| - 1] == acts;
    InvStep(Now(ncpu, acts), a);
  }

  // Two groups, one process each.

  predicate Rivals(s: Sys, p0: nat, p1: nat) {
    && |s.procs| == NPROC && |s.groups| == NGROUPS
    && IsGroup(s.groups[0], 0) && s.groups[0].pass == p0
    && IsGroup(s.groups[1], 1) && s.groups[1].pass == p1
    && IsRunnable(s.procs[0], 0) && IsRunnable(s.procs[1], 1)
    && (forall i | 2 <= i < NPROC :: s.procs[i].state != RUNNABLE)
  }

  predicate AllIdle(s: Sys) {
    |s.cpus| >= 1 && forall c | 0 <= c < |s.cpus| :: s.cpus[c].Idle?
  }

  /** Nothing runs, process 0 in group 0 at pass p0 and process 1 in group 1 at pass p1 want to. */
  ghost predicate Duel(s: Sys, p0: nat, p1: nat) { Inv(s) && AllIdle(s) && Rivals(s, p0, p1) }

  function Turn(p0: nat, p1: nat): nat { if p0 <= p1 then 0 else 1 }

  /** The group with the lower pass is dispatched, group 0 on a tie. */
  lemma DuelPicks(s: Sys, p0: nat, p1: nat)
    requires Duel(s, p0, p1)
    ensures PickGroup(s.procs, s.groups, NGROUPS) == Turn(p0, p1)
    ensures Eligible(s.procs, s.groups[0]) && Enabled(s, Dispatch(0))
    ensures PickProc(s.procs, s.groups[Turn(p0, p1)].gid, s.groups[Turn(p0, p1)].rr % NPROC, 0) == Turn(p0, p1)
  {
    hide PickGroup, PickProc, Inv, Dist;
    PickGroupIsLeast(s.procs, s.groups, NGROUPS);
    assert Eligible(s.procs, s.groups[0]) && Eligible(s.procs, s.groups[1]);
    var g := PickGroup(s.procs, s.groups, NGROUPS);
    assert !Better(s.groups[0], s.groups[g]) && !Better(s.groups[1], s.groups[g]);
    DuelGroups(s, p0, p1, g);
    DuelProc(s, p0, p1, g);
  }

  lemma DuelGroups(s: Sys, p0: nat, p1: nat, g: nat)
    requires Duel(s, p0, p1) && g < NGROUPS && Eligible(s.procs, s.groups[g])
    ensures g <= 1
  {
    hide CpuInv, FamilyInv, WaitInv, ForkInv, PidInv;
  }

  lemma DuelProc(s: Sys, p0: nat, p1: nat, g: nat)
    requires Duel(s, p0, p1) && g <= 1
    ensures PickProc(s.procs, s.groups[g].gid, s.groups[g].rr % NPROC, 0) == g
  {
    hide CpuInv, FamilyInv, WaitInv, ForkInv, PidInv, PickProc, Dist;
    GroupSlot(s.groups, g);
    PickProcIsNearest(s.procs, s.groups[g].gid, s.groups[g].rr, 0);
    assert Dist(s.groups[g].rr, g) >= 0;
  }

  ghost function Dispatched(s: Sys): Sys
    requires Shape(s) && Enabled(s, Dispatch(0))
  {
    Do(s, Dispatch(0))
  }

  function Pay(p: nat): nat { (p + FSS_BIG) % UINT_LIMIT }

  /** One turn: the group whose turn it is runs until its process yields, and pays. */
  lemma DuelTurn(s: Sys, p0: nat, p1: nat)
    requires Duel(s, p0, p1)
    ensures Enabled(s, Dispatch(0)) && Inv(Dispatched(s)) && Enabled(Dispatched(s), Yield(0))
    ensures PickGroup(s.procs, s.groups, NGROUPS) == Turn(p0, p1) && Eligible(s.procs, s.groups[0])
    ensures Charges(Dispatched(s), Yield(0), Turn(p0, p1)) && !Charges(Dispatched(s), Yield(0), 1 - Turn(p0, p1))
    ensures Duel(Do(Dispatched(s), Yield(0)), if p0 <= p1 then Pay(p0) else p0, if p0 <= p1 then p1 else Pay(p1))
  {
    hide PickGroup, PickProc, CpuInv, FamilyInv, WaitInv, ForkInv, PidInv;
    DuelPicks(s, p0, p1);
    InvStep(s, Dispatch(0));
    InvStep(Dispatched(s), Yield(0));
    GroupSlot(s.groups, Turn(p0, p1));
  }

  /** A story that has come to a duel. */
  ghost predicate AtDuel(ncpu: nat, acts: seq<Action>, n: nat, p0: nat, p1: nat) {
    Story(ncpu, acts, n) && Duel(Now(ncpu, acts), p0, p1)
  }

  function Round(acts: seq<Action>): seq<Action> { acts + [Dispatch(0)] + [Yield(0)] }

  lemma PlayTurn(ncpu: nat, acts: seq<Action>, n: nat, p0: nat, p1: nat)
    requires AtDuel(ncpu, acts, n, p0, p1)
    ensures p0 <= p1 ==> AtDuel(ncpu, Round(acts), n + 1, Pay(p0), p1)
    ensures p0 > p1 ==> AtDuel(ncpu, Round(acts), n, p0, Pay(p1))
  {
    hide Boot, After, Inv, Rivals, AllIdle, Pay, Eligible, PickGroup;
    DuelTurn(Now(ncpu, acts), p0, p1);
    Then(ncpu, acts, n, Dispatch(0));
    Then(ncpu, acts + [Dispatch(0)], n, Yield(0));
  }

  /** Level at k strides, the groups take turns: both reach m strides. */
  lemma {:induction false} PlayLevel(ncpu: nat, acts: seq<Action>, k: nat, m: nat) returns (more: seq<Action>)
    requires AtDuel(ncpu, acts, k, k * FSS_BIG, k * FSS_BIG) && k <= m && m * FSS_BIG < UINT_LIMIT
    ensures AtDuel(ncpu, more, m, m * FSS_BIG, m * FSS_BIG)
    decreases m - k
  {
    hide AtDuel;
    if k == m {
      more := acts;
    } else {
      PlayTurn(ncpu, acts, k, k * FSS_BIG, k * FSS_BIG);
      PlayTurn(ncpu, Round(acts), k + 1, (k + 1) * FSS_BIG, k * FSS_BIG);
      more := PlayLevel(ncpu, Round(Round(acts)), k + 1, m);
    }
  }

  // From boot to a duel.

  /** init alone, on CPU 0, before or during its first fork. */
  ghost predicate Alone(s: Sys) {
    && Inv(s) && |s.cpus| >= 1 && s.cpus[0] == Busy(0, 0) && (forall c | 1 <= c < |s.cpus| :: s.cpus[c].Idle?)
    && s.procs[0].state == RUNNING && s.procs[0].gid == 0 && s.procs[0].pid == 1
    && (forall i | 2 <= i < NPROC :: s.procs[i].state == UNUSED)
    && IsGroup(s.groups[0], 0) && s.groups[0].pass == 0 && (forall k | 1 <= k < NGROUPS :: !s.groups[k].active)
  }

  ghost predicate Fresh(s: Sys) {
    Alone(s) && s.procs[0].np == None && s.procs[1].state == UNUSED && s.nextpid == 2
  }

  /** The fork into slot 1, with its parent written or not, and k of the two steps for its group. */
  ghost predicate Forked(s: Sys, parented: bool, k: nat) {
    && Alone(s) && s.procs[0].np == Some(1) && s.procs[1].state == EMBRYO && s.procs[1].pid == 2
    && s.procs[1].gid == 0 && s.procs[1].parent.Some? == parented && s.procs[1].filled == k
  }

  ghost predicate Family(s: Sys) {
    Alone(s) && s.procs[1].state == RUNNABLE && s.procs[1].pid == 2 && s.procs[1].gid == 0
  }

  lemma BootRuns(ncpu: nat)
    requires ncpu >= 1
    ensures Inv(Boot(ncpu)) && Enabled(Boot(ncpu), Dispatch(0)) && Fresh(Do(Boot(ncpu), Dispatch(0)))
    ensures |Boot(ncpu).groups| == NGROUPS && PickGroup(Boot(ncpu).procs, Boot(ncpu).groups, NGROUPS) == 0
  {
    hide PickGroup, PickProc, CpuInv, FamilyInv, WaitInv, ForkInv, PidInv, GroupInv, Dist;
    BootInv(ncpu);
    var s := Boot(ncpu);
    PickGroupIsLeast(s.procs, s.groups, NGROUPS);
    assert IsRunnable(s.procs[0], 0);
    assert Eligible(s.procs, s.groups[0]);
    PickProcIsNearest(s.procs, 0, 0, 0);
    assert Dist(0, 0) >= 0;
    InvStep(s, Dispatch(0));
  }

  lemma ForkBegun(s: Sys)
    requires Fresh(s)
    ensures Enabled(s, ForkStart(0)) && Forked(Do(s, ForkStart(0)), false, 0)
  {
    hide CpuInv, WaitInv, ForkInv, PidInv;
    assert ParentOk(s, 1);
    InvStep(s, ForkStart(0));
    EnsuredTable(s.groups, 0);
  }

  lemma ForkFills(s: Sys)
    ensures Forked(s, false, 0) ==> Enabled(s, ForkParent(0)) && Forked(Do(s, ForkParent(0)), true, 0)
    ensures Forked(s, true, 0) ==> Enabled(s, ForkGid(0)) && Forked(Do(s, ForkGid(0)), true, 1)
    ensures Forked(s, true, 1) ==> Enabled(s, ForkEnsure(0)) && Forked(Do(s, ForkEnsure(0)), true, 2)
    ensures Forked(s, true, 2) ==> Enabled(s, ForkDone(0)) && Family(Do(s, ForkDone(0)))
  {
    hide CpuInv, FamilyInv, WaitInv, ForkInv, PidInv;
    if Forked(s, false, 0) {
      InvStep(s, ForkParent(0));
    } else if Forked(s, true, 0) {
      InvStep(s, ForkGid(0));
    } else if Forked(s, true, 1) {
      InvStep(s, ForkEnsure(0));
      EnsuredTable(s.groups, 0);
    } else if Forked(s, true, 2) {
      InvStep(s, ForkDone(0));
    }
  }

  ghost function Regrouped(s: Sys): Sys
    requires Shape(s)
  {
    Do(s, SetGroup(2, 1))
  }

  lemma Splits(s: Sys)
    requires Family(s)
    ensures Inv(Regrouped(s)) && Enabled(Regrouped(s), Yield(0)) && Charges(Regrouped(s), Yield(0), 0)
    ensures Duel(Do(Regrouped(s), Yield(0)), FSS_BIG, 0)
  {
    hide CpuInv, FamilyInv, WaitInv, ForkInv, PidInv;
    InvStep(s, SetGroup(2, 1));
    InvStep(Regrouped(s), Yield(0));
    InactivePass(s.groups, 1);
    GroupSlot(s.groups, 0);
    assert FirstLivePid(s.procs, 2) == 1;
  }

  lemma Launch(ncpu: nat)
    requires ncpu >= 1
    ensures Story(ncpu, [Dispatch(0)], 0) && Fresh(Now(ncpu, [Dispatch(0)]))
  {
    hide Boot, Inv, Alone, Do, Eligible;
    BootRuns(ncpu);
    assert [] + [Dispatch(0)] == [Dispatch(0)];
    Then(ncpu, [], 0, Dispatch(0));
  }

  /** From boot, init forks a child. */
  lemma FirstFork(ncpu: nat) returns (acts: seq<Action>)
    requires ncpu >= 1
    ensures Story(ncpu, acts, 0) && Family(Now(ncpu, acts))
  {
    hide Boot, After, Inv, Alone, Do, Enabled, IsRun, ChargeCount, CompetesRun;
    Launch(ncpu);
    acts := [Dispatch(0)];
    ForkBegun(Now(ncpu, acts));
    acts := Next(ncpu, acts, ForkStart(0));
    ForkFills(Now(ncpu, acts));
    acts := Next(ncpu, acts, ForkParent(0));
    ForkFills(Now(ncpu, acts));
    acts := Next(ncpu, acts, ForkGid(0));
    ForkFills(Now(ncpu, acts));
    acts := Next(ncpu, acts, ForkEnsure(0));
    ForkFills(Now(ncpu, acts));
    acts := Next(ncpu, acts, ForkDone(0));
  }

  /** Then it puts the child in group 1 and yields. */
  lemma Opening(ncpu: nat) returns (acts: seq<Action>)
    requires ncpu >= 1
    ensures AtDuel(ncpu, acts, 1, FSS_BIG, 0)
  {
    hide Boot, After, Inv, Alone, Duel, Do, Eligible, IsRun, ChargeCount, CompetesRun;
    acts := FirstFork(ncpu);
    Splits(Now(ncpu, acts));
    acts := Next(ncpu, acts, SetGroup(2, 1));
    Then(ncpu, acts, 0, Yield(0));
    acts := acts + [Yield(0)];
  }

  /** A step that neither dispatches nor charges. */
  lemma Next(ncpu: nat, acts: seq<Action>, a: Action) returns (more: seq<Action>)
    requires Story(ncpu, acts, 0) && Enabled(Now(ncpu, acts), a) && !a.Dispatch? && !Leaves(a)
    ensures Story(ncpu, more, 0) && Now(ncpu, more) == Do(Now(ncpu, acts), a)
  {
    hide Boot, After, Do, Enabled, CpuInv, FamilyInv, WaitInv, ForkInv, PidInv, GroupInv;
    Then(ncpu, acts, 0, a);
    more := acts + [a];
  }

  // The wrap.

  lemma {:induction false} IdleInflight(cpus: seq<Cpu>, k: nat)
    requires forall c | 0 <= c < |cpus| :: cpus[c].Idle?
    ensures Inflight(cpus, k) == 0
  {
    if cpus != [] {
      IdleInflight(cpus[..|cpus| - 1], k);
    }
  }

  /** Some run from boot charges group 0 for the 42,950th time: its pass wraps to 32,704, and
      although it had a runnable process at every dispatch of group 1, group 1 is then further ahead
      of it than LeadBounded allows a run without wrap. */
  lemma PassWraps(ncpu: nat) returns (acts: seq<Action>)
    requires ncpu >= 1
    ensures IsRun(Boot(ncpu), acts) && Inv(Boot(ncpu)) && CompetesRun(Boot(ncpu), acts, 1, 0)
    ensures ChargeCount(Boot(ncpu), acts, 0) == 42950 && !NoWrapRun(Boot(ncpu), acts, 0)
    ensures Duel(After(Boot(ncpu), acts), 32704, 42949 * FSS_BIG)
    ensures Lead(After(Boot(ncpu), acts), 1, 0) > Lead(Boot(ncpu), 1, 0)
    ensures Lead(After(Boot(ncpu), acts), 1, 0) > ncpu * FSS_BIG <==> ncpu <= 42948
  {
    hide After, Inv;
    BootInv(ncpu);
    var first := Opening(ncpu);
    PlayTurn(ncpu, first, 1, FSS_BIG, 0);
    assert AtDuel(ncpu, Round(first), 1, 1 * FSS_BIG, 1 * FSS_BIG);
    var level := PlayLevel(ncpu, Round(first), 1, 42949);
    PlayTurn(ncpu, level, 42949, 42949 * FSS_BIG, 42949 * FSS_BIG);
    acts := Round(level);
    FirstCharges(Boot(ncpu), acts, 0);
    IdleInflight(Boot(ncpu).cpus, 1);
    IdleInflight(Now(ncpu, acts).cpus, 1);
  }

  /** From a duel at (a, b), group 0 takes every one of the next n turns if it stays level or behind. */
  lemma {:induction false} PlayAlone(ncpu: nat, acts: seq<Action>, k: nat, a: nat, b: nat, n: nat)
    returns (more: seq<Action>)
    requires AtDuel(ncpu, acts, k, a, b) && a + n * FSS_BIG < UINT_LIMIT && (n > 0 ==> a + (n - 1) * FSS_BIG <= b)
    ensures AtDuel(ncpu, acts + more, k + n, a + n * FSS_BIG, b) && Alternates(more, n)
    decreases n
  {
    hide AtDuel;
    if n == 0 {
      more := [];
      assert acts + more == acts;
    } else {
      PlayTurn(ncpu, acts, k, a, b);
      var rest := PlayAlone(ncpu, Round(acts), k + 1, a + FSS_BIG, b, n - 1);
      more := [Dispatch(0), Yield(0)] + rest;
      assert Round(acts) + rest == acts + more;
      assert more[2..] == rest;
    }
  }

  /** n dispatches, each followed by a yield. */
  predicate Alternates(acts: seq<Action>, n: nat) {
    if n == 0 then acts == []
    else |acts| >= 2 && acts[0] == Dispatch(0) && acts[1] == Yield(0) && Alternates(acts[2..], n - 1)
  }

  /** After the wrap group 0 has the CPU for 42,949 turns in a row, all of them charged to it, while
      group 1's process stays runnable. */
  lemma WrapStarves(ncpu: nat) returns (acts: seq<Action>, more: seq<Action>)
    requires ncpu >= 1
    ensures IsRun(Boot(ncpu), acts) && IsRun(Boot(ncpu), acts + more) && Alternates(more, 42949)
    ensures Duel(After(Boot(ncpu), acts), 32704, 42949 * FSS_BIG)
    ensures Duel(After(Boot(ncpu), acts + more), 32704 + 42949 * FSS_BIG, 42949 * FSS_BIG)
    ensures ChargeCount(Boot(ncpu), acts + more, 0) == ChargeCount(Boot(ncpu), acts, 0) + 42949
  {
    hide After, Inv, Duel, CompetesRun;
    acts := PassWraps(ncpu);
    InvRun(Boot(ncpu), acts);
    assert AtDuel(ncpu, acts, 42950, 32704, 42949 * FSS_BIG);
    more := PlayAlone(ncpu, acts, 42950, 32704, 42949 * FSS_BIG, 42949);
  }
}
