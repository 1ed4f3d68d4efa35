/** What every step of the process table keeps, on every run and any number of CPUs. */
module ProcInv {
  import opened Basics
  import opened ProcMachine

  predicate Alive(p: Proc) { p.state == RUNNABLE || p.state == RUNNING || p.state == SLEEPING }

  // The invariants.

  ghost predicate RunsOn(s: Sys, c: int, p: nat) {
    0 <= c < |s.cpus| && s.cpus[c].Busy? && s.cpus[c].p == p
  }

  /** RUNNING processes and busy CPUs are in one-to-one correspondence. */
  ghost predicate CpuInv(s: Sys)
    requires Shape(s)
  {
    && (forall c | 0 <= c < |s.cpus| && s.cpus[c].Busy? :: s.procs[s.cpus[c].p].state == RUNNING)
    && (forall c, d | 0 <= c < d < |s.cpus| && s.cpus[c].Busy? && s.cpus[d].Busy? :: s.cpus[c].p != s.cpus[d].p)
    && (forall i | 0 <= i < NPROC && s.procs[i].state == RUNNING :: exists c :: RunsOn(s, c, i))
  }

  /** Process i, if it is a process, has a parent that is alive; init is alive and has none. A slot
      still being forked has no parent yet, or the process forking it. */
  ghost predicate ParentOk(s: Sys, i: nat)
    requires Shape(s) && i < NPROC
  {
    var p := s.procs[i];
    if p.state == UNUSED then i != s.init && p.parent.None?
    else if p.state == EMBRYO then
      i != s.init && (p.parent.Some? ==> p.parent.value < NPROC && s.procs[p.parent.value].np == Some(i))
    else if i == s.init then Alive(p) && p.parent.None?
    else p.parent.Some? && p.parent.value < NPROC && p.parent.value != i && Alive(s.procs[p.parent.value])
  }

  ghost predicate FamilyInv(s: Sys)
    requires Shape(s)
  {
    forall i | 0 <= i < NPROC :: ParentOk(s, i)
  }

  /** A process asleep in wait or waitx sleeps on itself and has no zombie child. */
  ghost predicate WaitOk(s: Sys, i: nat)
    requires Shape(s) && i < NPROC
  {
    s.procs[i].state == SLEEPING && s.procs[i].chan.OnProc? ==>
      s.procs[i].chan.slot == i && !HasZombieChild(s.procs, i)
  }

  ghost predicate WaitInv(s: Sys)
    requires Shape(s)
  {
    forall i | 0 <= i < NPROC :: WaitOk(s, i)
  }

  /** Each EMBRYO is the np of exactly one fork in progress. */
  ghost predicate ForkInv(s: Sys)
    requires Shape(s)
  {
    && (forall i | 0 <= i < NPROC && s.procs[i].np.Some? ::
          s.procs[s.procs[i].np.value].state == EMBRYO && (s.procs[i].state == RUNNING || s.procs[i].state == RUNNABLE))
    && (forall i, j | 0 <= i < j < NPROC && s.procs[i].np.Some? && s.procs[j].np.Some? ::
          s.procs[i].np != s.procs[j].np)
    && (forall e | 0 <= e < NPROC && s.procs[e].state == EMBRYO ::
         exists i :: 0 <= i < NPROC && s.procs[i].np == Some(e))
  }

  /** Process ids are not reused, among processes and among those already reaped, and no unused slot
      still shows the id of a process. */
  ghost predicate PidInv(s: Sys)
    requires Shape(s)
  {
    && (forall i | 0 <= i < NPROC :: s.procs[i].pid < s.nextpid && (s.procs[i].state != UNUSED ==> 0 < s.procs[i].pid))
    && (forall i, j | 0 <= i < NPROC && 0 <= j < NPROC && i != j && s.procs[j].state != UNUSED ::
          s.procs[i].pid != s.procs[j].pid)
    && (forall k | 0 <= k < |s.reaped| :: 0 < s.reaped[k].pid < s.nextpid)
    && (forall k, i | 0 <= k < |s.reaped| && 0 <= i < NPROC && s.procs[i].state != UNUSED ::
          s.reaped[k].pid != s.procs[i].pid)
    && (forall k, l | 0 <= k < l < |s.reaped| :: s.reaped[k].pid != s.reaped[l].pid)
  }

  ghost predicate HasGroup(groups: seq<Group>, gid: int) {
    exists k :: 0 <= k < |groups| && IsGroup(groups[k], gid)
  }

  /** At most one active slot per gid, and one for gid 0. */
  ghost predicate GroupTable(groups: seq<Group>) {
    && |groups| == NGROUPS
    && (forall k | 0 <= k < NGROUPS ::
         groups[k].stride == FSS_BIG && groups[k].rr < NPROC && groups[k].pass < UINT_LIMIT)
    && (forall k | 0 <= k < NGROUPS && !groups[k].active :: groups[k].pass == 0)
    && (forall k, l | 0 <= k < l < NGROUPS && groups[k].active && groups[l].active :: groups[k].gid != groups[l].gid)
    && HasGroup(groups, 0)
  }

  /** Every process's gid, and every group on a CPU, has an active slot. */
  ghost predicate GroupInv(s: Sys)
    requires Shape(s)
  {
    && GroupTable(s.groups)
    && (forall i | 0 <= i < NPROC && s.procs[i].state != UNUSED :: HasGroup(s.groups, s.procs[i].gid))
    && (forall c | 0 <= c < |s.cpus| && s.cpus[c].Busy? :: s.groups[s.cpus[c].g].active)
  }

  ghost predicate Inv(s: Sys) {
    Shape(s) && CpuInv(s) && FamilyInv(s) && WaitInv(s) && ForkInv(s) && PidInv(s) && GroupInv(s)
  }

  // Group picking.

  /** fss_pick_group returns the least pass among the groups with a runnable process, ties going
      to the smaller gid, and fails only if there is no such group. */
  lemma {:induction false} PickGroupIsLeast(procs: seq<Proc>, groups: seq<Group>, k: nat)
    requires k <= |groups|
    ensures var r := PickGroup(procs, groups, k);
            if r == |groups| then forall i | 0 <= i < k :: !Eligible(procs, groups[i])
            else r < k && Eligible(procs, groups[r]) && forall i | 0 <= i < k && Eligible(procs, groups[i]) ::
              !Better(groups[i], groups[r])
  {
    if k > 0 {
      PickGroupIsLeast(procs, groups, k - 1);
    }
  }

  /** Steps from start to slot t, going round the table. */
  function Dist(start: nat, t: nat): (d: nat)
    requires start < NPROC && t < NPROC
    ensures d < NPROC
  {
    if t >= start then t - start else t + NPROC - start
  }

  lemma DistAt(start: nat, j: nat)
    requires start < NPROC && j < NPROC
    ensures 0 <= (start + j) % NPROC < NPROC
    ensures forall t | 0 <= t < NPROC :: Dist(start, t) == j <==> t == (start + j) % NPROC
  {
    if start + j < NPROC {
      assert (start + j) % NPROC == start + j;
    } else {
      assert (start + j) % NPROC == start + j - NPROC;
    }
  }

  /** fss_pick_proc_in_group finds the runnable process of the group nearest to start. */
  lemma {:induction false} PickProcIsNearest(procs: seq<Proc>, gid: int, start: nat, j: nat)
    requires |procs| == NPROC && j <= NPROC && start < NPROC
    ensures var r := PickProc(procs, gid, start, j);
            if r == NPROC then forall t | 0 <= t < NPROC && Dist(start, t) >= j :: !IsRunnable(procs[t], gid)
            else r < NPROC && IsRunnable(procs[r], gid) && Dist(start, r) >= j
                 && forall t | 0 <= t < NPROC && j <= Dist(start, t) < Dist(start, r) :: !IsRunnable(procs[t], gid)
    decreases NPROC - j
  {
    hide Dist, IsRunnable;
    if j < NPROC {
      DistAt(start, j);
      if !IsRunnable(procs[(start + j) % NPROC], gid) {
        PickProcIsNearest(procs, gid, start, j + 1);
      }
    }
  }

  /** If a group was picked, a process in it is picked. */
  lemma DispatchPicks(s: Sys)
    requires Shape(s) && (forall k | 0 <= k < NGROUPS :: s.groups[k].rr < NPROC)
    requires PickGroup(s.procs, s.groups, NGROUPS) < NGROUPS
    ensures var g := PickGroup(s.procs, s.groups, NGROUPS);
            var p := PickProc(s.procs, s.groups[g].gid, s.groups[g].rr % NPROC, 0);
            && s.groups[g].active && p < NPROC && IsRunnable(s.procs[p], s.groups[g].gid)
            && (forall k | 0 <= k < NGROUPS && Eligible(s.procs, s.groups[k]) :: !Better(s.groups[k], s.groups[g]))
            && (forall t | 0 <= t < NPROC && IsRunnable(s.procs[t], s.groups[g].gid) ::
                  Dist(s.groups[g].rr, p) <= Dist(s.groups[g].rr, t))
  {
    hide PickGroup, PickProc, Better;
    PickGroupIsLeast(s.procs, s.groups, NGROUPS);
    var g := PickGroup(s.procs, s.groups, NGROUPS);
    PickProcIsNearest(s.procs, s.groups[g].gid, s.groups[g].rr, 0);
    var t :| 0 <= t < NPROC && IsRunnable(s.procs[t], s.groups[g].gid);
    assert Dist(s.groups[g].rr, t) >= 0;
  }

  // What the table functions do at one index.

  /** exit at one index: only i's own state (woken, or the exiting process) and parent change. */
  ghost function ExitedAt(procs: seq<Proc>, q: nat, init: nat, i: nat): Proc
    requires q < |procs| && i < |procs|
  {
    var p := procs[i];
    if i == q then p.(state := ZOMBIE, parent := if IsChild(p, q) then Some(init) else p.parent)
    else
      var woken := p.state == SLEEPING &&
                   ((procs[q].parent.Some? && p.chan == OnProc(procs[q].parent.value))
                    || (HasZombieChild(procs, q) && p.chan == OnProc(init)));
      p.(state := if woken then RUNNABLE else p.state, parent := if IsChild(p, q) then Some(init) else p.parent)
  }

  lemma ExitedIs(procs: seq<Proc>, q: nat, init: nat, i: nat)
    requires q < |procs| && i < |procs| && procs[q].state == RUNNING
    ensures Exited(procs, q, init)[i] == ExitedAt(procs, q, init, i)
  {
    hide HasZombieChild;
    var a := if procs[q].parent.Some? then Wakeup1(procs, OnProc(procs[q].parent.value)) else procs;
    assert a[i] == if procs[q].parent.Some? then Woken(procs[i], OnProc(procs[q].parent.value)) else procs[i];
    var b := Adopt(a, q, init);
    assert b[i] == Adopted(a[i], q, init);
  }

  /** What wakeup, kill, setgroup, the timer and fork's writes to a group may do to a process. */
  predicate Mild(p: Proc, q: Proc) {
    && (q.state == p.state || (p.state == SLEEPING && q.state == RUNNABLE))
    && q.pid == p.pid && q.parent == p.parent && q.chan == p.chan && q.np == p.np
  }

  ghost predicate MildStep(s: Sys, t: Sys)
    requires Shape(s) && Shape(t)
  {
    && t.cpus == s.cpus && t.init == s.init && t.nextpid == s.nextpid && t.reaped == s.reaped
    && forall i | 0 <= i < NPROC :: Mild(s.procs[i], t.procs[i])
  }

  predicate IsMild(a: Action) {
    a.Wakeup? || a.Kill? || a.SetGroup? || a.TimerTick? || a.ForkGid? || a.ForkEnsure?
  }

  lemma MildActions(s: Sys, a: Action)
    requires Shape(s) && Enabled(s, a) && IsMild(a) && Shape(Do(s, a))
    ensures MildStep(s, Do(s, a))
  {
    hide Ensured;
  }

  // One lemma per invariant: every step keeps it.

  lemma ShapeExit(s: Sys, c: nat)
    requires Inv(s) && Enabled(s, Exit(c))
    ensures Shape(Do(s, Exit(c)))
  {
    hide FamilyInv, WaitInv, ForkInv, PidInv, HasZombieChild, GroupInv, Exited;
    var p := s.cpus[c].p;
    forall i | 0 <= i < NPROC ensures Exited(s.procs, p, s.init)[i].np == s.procs[i].np {
      ExitedIs(s.procs, p, s.init, i);
    }
  }

  lemma ShapeFork(s: Sys, a: Action)
    requires Inv(s) && Enabled(s, a) && (a.ForkStart? || a.ForkFail? || a.ForkParent? || a.ForkDone?)
    ensures Shape(Do(s, a))
  {
    hide FamilyInv, WaitInv, ForkInv, PidInv, First, Ensured, CpuInv, GroupInv;
  }

  lemma ShapeStep(s: Sys, a: Action)
    requires Inv(s) && Enabled(s, a)
    ensures Shape(Do(s, a))
  {
    hide FamilyInv, WaitInv, ForkInv, PidInv, PickGroup, PickProc, First, Ensured, HasZombieChild, Exited, CpuInv,
         GroupInv;
    if a.Exit? {
      ShapeExit(s, a.c);
    } else if a.ForkStart? || a.ForkFail? || a.ForkParent? || a.ForkDone? {
      ShapeFork(s, a);
    }
  }

  /** Steps in which no process enters or leaves RUNNING. */
  lemma CpuSame(s: Sys, t: Sys)
    requires Shape(s) && Shape(t) && CpuInv(s) && t.cpus == s.cpus
    requires forall i | 0 <= i < NPROC :: s.procs[i].state == RUNNING <==> t.procs[i].state == RUNNING
    ensures CpuInv(t)
  {
    forall i | 0 <= i < NPROC && t.procs[i].state == RUNNING ensures exists c :: RunsOn(t, c, i) {
      var c :| RunsOn(s, c, i);
      assert RunsOn(t, c, i);
    }
  }

  /** Steps in which the process on CPU c leaves it. */
  lemma CpuLeave(s: Sys, c: nat, t: Sys)
    requires Shape(s) && Shape(t) && CpuInv(s) && OnCpu(s, c) && t.cpus == s.cpus[c := Idle]
    requires forall i | 0 <= i < NPROC ::
               t.procs[i].state == RUNNING <==> s.procs[i].state == RUNNING && i != s.cpus[c].p
    ensures CpuInv(t)
  {
    forall i | 0 <= i < NPROC && t.procs[i].state == RUNNING ensures exists d :: RunsOn(t, d, i) {
      var d :| RunsOn(s, d, i);
      assert RunsOn(t, d, i);
    }
    forall d | 0 <= d < |t.cpus| && t.cpus[d].Busy? ensures t.procs[t.cpus[d].p].state == RUNNING {
      assert d < c || c < d;
    }
  }

  lemma CpuDispatch(s: Sys, c: nat, p: nat, g: nat, t: Sys)
    requires Shape(s) && Shape(t) && CpuInv(s) && c < |s.cpus| && s.cpus[c].Idle? && p < NPROC
    requires t.cpus == s.cpus[c := Busy(p, g)] && s.procs[p].state != RUNNING
    requires forall i | 0 <= i < NPROC :: t.procs[i].state == RUNNING <==> s.procs[i].state == RUNNING || i == p
    ensures CpuInv(t)
  {
    forall i | 0 <= i < NPROC && t.procs[i].state == RUNNING ensures exists d :: RunsOn(t, d, i) {
      if i == p {
        assert RunsOn(t, c, i);
      } else {
        var d :| RunsOn(s, d, i);
        assert RunsOn(t, d, i);
      }
    }
  }

  lemma CpuStepLeave(s: Sys, a: Action)
    requires Inv(s) && Enabled(s, a) && Shape(Do(s, a))
    requires a.Yield? || a.Sleep? || a.WaitSleep? || a.Exit?
    ensures CpuInv(Do(s, a))
  {
    hide FamilyInv, WaitInv, PidInv, ForkInv, GroupInv, HasZombieChild, Exited, CpuInv;
    var t := Do(s, a);
    RunningOn(s, a.c);
    if a.Exit? {
      forall i | 0 <= i < NPROC
        ensures t.procs[i].state == RUNNING <==> s.procs[i].state == RUNNING && i != s.cpus[a.c].p
      {
        ExitedIs(s.procs, s.cpus[a.c].p, s.init, i);
      }
    }
    CpuLeave(s, a.c, t);
  }

  lemma CpuStepFork(s: Sys, a: Action)
    requires Inv(s) && Enabled(s, a) && Shape(Do(s, a))
    requires a.ForkStart? || a.ForkFail? || a.ForkParent? || a.ForkDone? || a.Reap?
    ensures CpuInv(Do(s, a))
  {
    hide FamilyInv, WaitInv, PidInv, GroupInv, Ensured, CpuInv, HasZombieChild;
    RunningOn(s, a.c);
    CpuSame(s, Do(s, a));
  }

  lemma CpuStep(s: Sys, a: Action)
    requires Inv(s) && Enabled(s, a) && Shape(Do(s, a))
    ensures CpuInv(Do(s, a))
  {
    hide Do, Enabled, CpuInv, WaitInv, PidInv, ForkInv, GroupInv, FamilyInv;
    match a {
      case Dispatch(c) => CpuStepDispatch(s, c);
      case Yield(_) => CpuStepLeave(s, a);
      case Sleep(_, _) => CpuStepLeave(s, a);
      case WaitSleep(_) => CpuStepLeave(s, a);
      case Exit(_) => CpuStepLeave(s, a);
      case ForkStart(_) => CpuStepFork(s, a);
      case ForkFail(_) => CpuStepFork(s, a);
      case ForkParent(_) => CpuStepFork(s, a);
      case ForkDone(_) => CpuStepFork(s, a);
      case Reap(_, _) => CpuStepFork(s, a);
      case _ =>
        MildActions(s, a);
        CpuSame(s, Do(s, a));
    }
  }

  lemma CpuStepDispatch(s: Sys, c: nat)
    requires Inv(s) && Enabled(s, Dispatch(c)) && Shape(Do(s, Dispatch(c)))
    ensures CpuInv(Do(s, Dispatch(c)))
  {
    hide FamilyInv, WaitInv, PidInv, ForkInv, PickGroup, PickProc, CpuInv, Eligible;
    DispatchPicks(s);
    var g := PickGroup(s.procs, s.groups, NGROUPS);
    CpuDispatch(s, c, PickProc(s.procs, s.groups[g].gid, s.groups[g].rr % NPROC, 0), g, Do(s, Dispatch(c)));
  }

  lemma RunningOn(s: Sys, c: nat)
    requires Shape(s) && CpuInv(s) && OnCpu(s, c)
    ensures s.procs[s.cpus[c].p].state == RUNNING
  {
  }

  // Families.

  predicate SameKind(p: Proc, q: Proc) {
    && p.parent == q.parent && (Alive(p) <==> Alive(q)) && (p.state == ZOMBIE <==> q.state == ZOMBIE)
    && (p.state == UNUSED <==> q.state == UNUSED) && (p.state == EMBRYO <==> q.state == EMBRYO)
  }

  lemma FamilySame(s: Sys, t: Sys)
    requires Shape(s) && Shape(t) && FamilyInv(s) && t.init == s.init
    requires forall i | 0 <= i < NPROC :: SameKind(s.procs[i], t.procs[i]) && t.procs[i].np == s.procs[i].np
    ensures FamilyInv(t)
  {
    forall i | 0 <= i < NPROC ensures ParentOk(t, i) {
      assert ParentOk(s, i);
    }
  }

  lemma FamilyExit(s: Sys, c: nat)
    requires Inv(s) && Enabled(s, Exit(c)) && Shape(Do(s, Exit(c)))
    ensures FamilyInv(Do(s, Exit(c)))
  {
    hide WaitInv, PidInv, ForkInv, GroupInv, HasZombieChild, Exited;
    var t := Do(s, Exit(c));
    var p := s.cpus[c].p;
    forall i | 0 <= i < NPROC ensures ParentOk(t, i) {
      assert ParentOk(s, i) && ParentOk(s, s.init);
      ExitedIs(s.procs, p, s.init, i);
      ExitedIs(s.procs, p, s.init, s.init);
      if s.procs[i].parent.Some? && s.procs[i].parent.value < NPROC {
        ExitedIs(s.procs, p, s.init, s.procs[i].parent.value);
      }
    }
  }

  lemma FamilyReap(s: Sys, c: nat, x: bool)
    requires Inv(s) && Enabled(s, Reap(c, x)) && Shape(Do(s, Reap(c, x)))
    ensures FamilyInv(Do(s, Reap(c, x)))
  {
    hide WaitInv, PidInv, ForkInv, GroupInv;
    var t := Do(s, Reap(c, x));
    forall i | 0 <= i < NPROC ensures ParentOk(t, i) {
      assert ParentOk(s, i);
    }
  }

  /** Steps that change only what kind of process slot e holds. */
  lemma FamilyBut(s: Sys, t: Sys, e: nat)
    requires Shape(s) && Shape(t) && FamilyInv(s) && t.init == s.init && e < NPROC && !Alive(s.procs[e])
             && ParentOk(t, e)
    requires forall i | 0 <= i < NPROC && i != e :: SameKind(s.procs[i], t.procs[i])
    requires forall i | 0 <= i < NPROC && t.procs[i].np != s.procs[i].np ::
               s.procs[i].np.None? || s.procs[i].np == Some(e)
    ensures FamilyInv(t)
  {
    forall i | 0 <= i < NPROC ensures ParentOk(t, i) {
      assert ParentOk(s, i);
    }
  }

  lemma FamilyFork(s: Sys, a: Action)
    requires Inv(s) && Enabled(s, a) && Shape(Do(s, a))
    requires a.ForkStart? || a.ForkFail? || a.ForkParent? || a.ForkDone?
    ensures FamilyInv(Do(s, a))
  {
    hide WaitInv, PidInv, GroupInv, Ensured, FamilyInv, ForkInv, CpuInv;
    RunningOn(s, a.c);
    var p := s.cpus[a.c].p;
    var e := if a.ForkStart? then FirstUnused(s.procs) else s.procs[p].np.value;
    if !a.ForkStart? {
      ForkOf(s, p);
    }
    ParentOf(s, e);
    if a.ForkDone? {
      ForkOwner(s, p, s.procs[e].parent.value);
    }
    FamilyBut(s, Do(s, a), e);
  }

  /** The parent a slot under construction names is the process constructing it. */
  lemma ForkOwner(s: Sys, p: nat, q: nat)
    requires Shape(s) && ForkInv(s) && p < NPROC && q < NPROC
    requires s.procs[p].np.Some? && s.procs[q].np == s.procs[p].np
    ensures p == q
  {
  }

  lemma ParentOf(s: Sys, i: nat)
    requires Shape(s) && FamilyInv(s) && i < NPROC
    ensures ParentOk(s, i)
  {
  }

  lemma FamilyLeave(s: Sys, a: Action)
    requires Inv(s) && Enabled(s, a) && Shape(Do(s, a))
    requires a.Dispatch? || a.Yield? || a.Sleep? || a.WaitSleep?
    ensures FamilyInv(Do(s, a))
  {
    hide WaitInv, PidInv, ForkInv, PickGroup, PickProc, HasZombieChild, FamilyInv;
    if a.Dispatch? {
      DispatchPicks(s);
    } else {
      RunningOn(s, a.c);
    }
    FamilySame(s, Do(s, a));
  }

  lemma FamilyStep(s: Sys, a: Action)
    requires Inv(s) && Enabled(s, a) && Shape(Do(s, a))
    ensures FamilyInv(Do(s, a))
  {
    hide Do, Enabled, CpuInv, WaitInv, PidInv, ForkInv, GroupInv, FamilyInv;
    match a {
      case Exit(c) => FamilyExit(s, c);
      case Reap(c, x) => FamilyReap(s, c, x);
      case ForkStart(_) => FamilyFork(s, a);
      case ForkFail(_) => FamilyFork(s, a);
      case ForkParent(_) => FamilyFork(s, a);
      case ForkDone(_) => FamilyFork(s, a);
      case Dispatch(_) => FamilyLeave(s, a);
      case Yield(_) => FamilyLeave(s, a);
      case Sleep(_, _) => FamilyLeave(s, a);
      case WaitSleep(_) => FamilyLeave(s, a);
      case _ =>
        MildActions(s, a);
        FamilySame(s, Do(s, a));
    }
  }

  // Waiting parents.

  /** Steps that make no zombie child and put no one to sleep in wait. */
  lemma WaitSame(s: Sys, t: Sys)
    requires Shape(s) && Shape(t) && WaitInv(s)
    requires forall i | 0 <= i < NPROC :: t.procs[i].state == SLEEPING && t.procs[i].chan.OnProc? ==>
               s.procs[i].state == SLEEPING && s.procs[i].chan == t.procs[i].chan
    requires forall i | 0 <= i < NPROC ::
               t.procs[i].state == ZOMBIE ==>
                 t.procs[i].state == s.procs[i].state && t.procs[i].parent == s.procs[i].parent
    ensures WaitInv(t)
  {
    forall i | 0 <= i < NPROC ensures WaitOk(t, i) {
      assert WaitOk(s, i);
      if HasZombieChild(t.procs, i) {
        var z :| 0 <= z < NPROC && IsZombieChild(t.procs[z], i);
        assert IsZombieChild(s.procs[z], i);
      }
    }
  }

  lemma WaitExit(s: Sys, c: nat)
    requires Inv(s) && Enabled(s, Exit(c)) && Shape(Do(s, Exit(c)))
    ensures WaitInv(Do(s, Exit(c)))
  {
    hide PidInv, ForkInv, GroupInv, Exited;
    var t := Do(s, Exit(c));
    var p := s.cpus[c].p;
    assert ParentOk(s, p) && ParentOk(s, s.init);
    forall i | 0 <= i < NPROC ensures WaitOk(t, i) {
      assert WaitOk(s, i);
      ExitedIs(s.procs, p, s.init, i);
      if HasZombieChild(t.procs, i) {
        var z :| 0 <= z < NPROC && IsZombieChild(t.procs[z], i);
        ExitedIs(s.procs, p, s.init, z);
        assert ParentOk(s, z);
        if s.procs[z].state == ZOMBIE {
          assert IsZombieChild(s.procs[z], i) || (IsZombieChild(s.procs[z], p) && i == s.init);
        } else {
          assert z == p && IsChild(s.procs[p], i);
        }
      }
    }
  }

  lemma WaitSleepStep(s: Sys, c: nat)
    requires Inv(s) && Enabled(s, WaitSleep(c)) && Shape(Do(s, WaitSleep(c)))
    ensures WaitInv(Do(s, WaitSleep(c)))
  {
    hide FamilyInv, PidInv, GroupInv, ForkInv;
    var t := Do(s, WaitSleep(c));
    RunningOn(s, c);
    forall i | 0 <= i < NPROC ensures WaitOk(t, i) {
      assert WaitOk(s, i);
      if HasZombieChild(t.procs, i) {
        var z :| 0 <= z < NPROC && IsZombieChild(t.procs[z], i);
        assert IsZombieChild(s.procs[z], i);
      }
    }
  }

  lemma WaitFork(s: Sys, a: Action)
    requires Inv(s) && Enabled(s, a) && Shape(Do(s, a))
    requires a.ForkStart? || a.ForkFail? || a.ForkParent? || a.ForkDone?
    ensures WaitInv(Do(s, a))
  {
    hide FamilyInv, PidInv, GroupInv, Ensured, WaitInv, ForkInv, CpuInv;
    RunningOn(s, a.c);
    if !a.ForkStart? {
      ForkOf(s, s.cpus[a.c].p);
    }
    WaitSame(s, Do(s, a));
  }

  lemma WaitLeave(s: Sys, a: Action)
    requires Inv(s) && Enabled(s, a) && Shape(Do(s, a))
    requires a.Dispatch? || a.Yield? || a.Sleep? || a.Reap?
    ensures WaitInv(Do(s, a))
  {
    hide FamilyInv, PidInv, ForkInv, PickGroup, PickProc, HasZombieChild, WaitInv, CpuInv, Eligible;
    if a.Dispatch? {
      DispatchPicks(s);
    } else {
      RunningOn(s, a.c);
    }
    WaitSame(s, Do(s, a));
  }

  lemma WaitStep(s: Sys, a: Action)
    requires Inv(s) && Enabled(s, a) && Shape(Do(s, a))
    ensures WaitInv(Do(s, a))
  {
    hide Do, Enabled, CpuInv, WaitInv, PidInv, ForkInv, GroupInv, FamilyInv;
    match a {
      case Exit(c) => WaitExit(s, c);
      case WaitSleep(c) => WaitSleepStep(s, c);
      case ForkStart(_) => WaitFork(s, a);
      case ForkFail(_) => WaitFork(s, a);
      case ForkParent(_) => WaitFork(s, a);
      case ForkDone(_) => WaitFork(s, a);
      case Dispatch(_) => WaitLeave(s, a);
      case Yield(_) => WaitLeave(s, a);
      case Sleep(_, _) => WaitLeave(s, a);
      case Reap(_, _) => WaitLeave(s, a);
      case _ =>
        MildActions(s, a);
        WaitSame(s, Do(s, a));
    }
  }

  // Forks in progress.

  lemma ForkSame(s: Sys, t: Sys)
    requires Shape(s) && Shape(t) && ForkInv(s)
    requires forall i | 0 <= i < NPROC ::
               t.procs[i].np == s.procs[i].np && (t.procs[i].state == EMBRYO <==> s.procs[i].state == EMBRYO)
    requires forall i | 0 <= i < NPROC && s.procs[i].np.Some?
             && (s.procs[i].state == RUNNING || s.procs[i].state == RUNNABLE) ::
               t.procs[i].state == RUNNING || t.procs[i].state == RUNNABLE
    ensures ForkInv(t)
  {
    forall e | 0 <= e < NPROC && t.procs[e].state == EMBRYO
      ensures exists i :: 0 <= i < NPROC && t.procs[i].np == Some(e)
    {
      var i :| 0 <= i < NPROC && s.procs[i].np == Some(e);
      assert t.procs[i].np == Some(e);
    }
  }

  lemma ForkLeave(s: Sys, a: Action)
    requires Inv(s) && Enabled(s, a) && Shape(Do(s, a))
    requires a.Yield? || a.Sleep? || a.WaitSleep? || a.Reap?
    ensures ForkInv(Do(s, a))
  {
    hide FamilyInv, PidInv, HasZombieChild, WaitInv, ForkInv, GroupInv;
    RunningOn(s, a.c);
    ForkSame(s, Do(s, a));
  }

  lemma ForkDispatch(s: Sys, c: nat)
    requires Inv(s) && Enabled(s, Dispatch(c)) && Shape(Do(s, Dispatch(c)))
    ensures ForkInv(Do(s, Dispatch(c)))
  {
    hide FamilyInv, PidInv, PickGroup, PickProc, Eligible, WaitInv, ForkInv;
    DispatchPicks(s);
    ForkSame(s, Do(s, Dispatch(c)));
  }

  lemma ForkExit(s: Sys, c: nat)
    requires Inv(s) && Enabled(s, Exit(c)) && Shape(Do(s, Exit(c)))
    ensures ForkInv(Do(s, Exit(c)))
  {
    hide FamilyInv, PidInv, GroupInv, HasZombieChild, WaitInv, ForkInv, Exited;
    RunningOn(s, c);
    forall i | 0 <= i < NPROC
      ensures Exited(s.procs, s.cpus[c].p, s.init)[i] == ExitedAt(s.procs, s.cpus[c].p, s.init, i)
    {
      ExitedIs(s.procs, s.cpus[c].p, s.init, i);
    }
    ForkSame(s, Do(s, Exit(c)));
  }

  /** p allocates slot e. */
  lemma ForkBegins(s: Sys, t: Sys, p: nat, e: nat)
    requires Shape(s) && Shape(t) && ForkInv(s) && p < NPROC && e < NPROC && s.procs[e].state == UNUSED
    requires s.procs[p].np.None? && s.procs[p].state == RUNNING && t.procs[p].np == Some(e)
             && t.procs[e].state == EMBRYO
    requires forall i | 0 <= i < NPROC ::
               (i != p ==> t.procs[i].np == s.procs[i].np) && (i != e ==> t.procs[i].state == s.procs[i].state)
    ensures ForkInv(t)
  {
    forall d | 0 <= d < NPROC && t.procs[d].state == EMBRYO
      ensures exists i :: 0 <= i < NPROC && t.procs[i].np == Some(d)
    {
      if d == e {
        assert t.procs[p].np == Some(d);
      } else {
        var i :| 0 <= i < NPROC && s.procs[i].np == Some(d);
        assert t.procs[i].np == Some(d);
      }
    }
  }

  /** p's fork publishes or abandons its slot. */
  lemma ForkEnds(s: Sys, t: Sys, p: nat, e: nat)
    requires Shape(s) && Shape(t) && ForkInv(s) && p < NPROC && e < NPROC
    requires s.procs[p].np == Some(e) && t.procs[p].np.None? && t.procs[e].state != EMBRYO
    requires forall i | 0 <= i < NPROC ::
               (i != p ==> t.procs[i].np == s.procs[i].np) && (i != e ==> t.procs[i].state == s.procs[i].state)
    ensures ForkInv(t)
  {
    forall d | 0 <= d < NPROC && t.procs[d].state == EMBRYO
      ensures exists i :: 0 <= i < NPROC && t.procs[i].np == Some(d)
    {
      var i :| 0 <= i < NPROC && s.procs[i].np == Some(d);
      assert t.procs[i].np == Some(d);
    }
  }

  lemma ForkFork(s: Sys, a: Action)
    requires Inv(s) && Enabled(s, a) && Shape(Do(s, a))
    requires a.ForkStart? || a.ForkFail? || a.ForkParent? || a.ForkDone?
    ensures ForkInv(Do(s, a))
  {
    hide FamilyInv, PidInv, GroupInv, Ensured, WaitInv, ForkInv;
    RunningOn(s, a.c);
    var p := s.cpus[a.c].p;
    if a.ForkStart? {
      ForkBegins(s, Do(s, a), p, FirstUnused(s.procs));
    } else if a.ForkParent? {
      ForkSame(s, Do(s, a));
    } else {
      var e := s.procs[p].np.value;
      assert e != p && s.procs[e].state == EMBRYO by { ForkOf(s, p); }
      ForkEnds(s, Do(s, a), p, e);
    }
  }

  lemma ForkOf(s: Sys, p: nat)
    requires Shape(s) && ForkInv(s) && p < NPROC && s.procs[p].np.Some?
    ensures s.procs[p].np.value != p && s.procs[s.procs[p].np.value].state == EMBRYO
  {
  }

  lemma ForkStep(s: Sys, a: Action)
    requires Inv(s) && Enabled(s, a) && Shape(Do(s, a))
    ensures ForkInv(Do(s, a))
  {
    hide Do, Enabled, CpuInv, WaitInv, PidInv, ForkInv, GroupInv, FamilyInv;
    match a {
      case Exit(c) => ForkExit(s, c);
      case ForkStart(_) => ForkFork(s, a);
      case ForkFail(_) => ForkFork(s, a);
      case ForkParent(_) => ForkFork(s, a);
      case ForkDone(_) => ForkFork(s, a);
      case Dispatch(c) => ForkDispatch(s, c);
      case Yield(_) => ForkLeave(s, a);
      case Sleep(_, _) => ForkLeave(s, a);
      case WaitSleep(_) => ForkLeave(s, a);
      case Reap(_, _) => ForkLeave(s, a);
      case _ =>
        MildActions(s, a);
        ForkSame(s, Do(s, a));
    }
  }

  // Process ids.

  lemma PidSame(s: Sys, t: Sys)
    requires Shape(s) && Shape(t) && PidInv(s) && t.nextpid == s.nextpid && t.reaped == s.reaped
    requires forall i | 0 <= i < NPROC ::
               t.procs[i].pid == s.procs[i].pid && (t.procs[i].state != UNUSED ==> s.procs[i].state != UNUSED)
    ensures PidInv(t)
  {
  }

  lemma PidExit(s: Sys, c: nat)
    requires Inv(s) && Enabled(s, Exit(c)) && Shape(Do(s, Exit(c)))
    ensures PidInv(Do(s, Exit(c)))
  {
    hide FamilyInv, PidInv, GroupInv, HasZombieChild, WaitInv, ForkInv, Exited;
    RunningOn(s, c);
    forall i | 0 <= i < NPROC
      ensures Exited(s.procs, s.cpus[c].p, s.init)[i] == ExitedAt(s.procs, s.cpus[c].p, s.init, i)
    {
      ExitedIs(s.procs, s.cpus[c].p, s.init, i);
    }
    PidSame(s, Do(s, Exit(c)));
  }

  lemma PidLeave(s: Sys, a: Action)
    requires Inv(s) && Enabled(s, a) && Shape(Do(s, a))
    requires a.Dispatch? || a.Yield? || a.Sleep? || a.WaitSleep? || a.ForkFail? || a.ForkParent? || a.ForkDone?
    ensures PidInv(Do(s, a))
  {
    hide FamilyInv, PidInv, PickGroup, PickProc, HasZombieChild, WaitInv, Ensured, CpuInv, Eligible;
    if a.Dispatch? {
      DispatchPicks(s);
    } else {
      RunningOn(s, a.c);
    }
    PidSame(s, Do(s, a));
  }

  lemma PidReap(s: Sys, c: nat, x: bool)
    requires Inv(s) && Enabled(s, Reap(c, x)) && Shape(Do(s, Reap(c, x)))
    ensures PidInv(Do(s, Reap(c, x)))
  {
    hide FamilyInv, HasZombieChild, WaitInv, ForkInv, GroupInv, CpuInv;
  }

  lemma PidFork(s: Sys, c: nat)
    requires Inv(s) && Enabled(s, ForkStart(c)) && Shape(Do(s, ForkStart(c)))
    ensures PidInv(Do(s, ForkStart(c)))
  {
    hide FamilyInv, WaitInv, Ensured, ForkInv, GroupInv;
    RunningOn(s, c);
  }

  lemma PidStep(s: Sys, a: Action)
    requires Inv(s) && Enabled(s, a) && Shape(Do(s, a))
    ensures PidInv(Do(s, a))
  {
    hide Do, Enabled, CpuInv, WaitInv, PidInv, ForkInv, GroupInv, FamilyInv;
    match a {
      case Exit(c) => PidExit(s, c);
      case ForkStart(c) => PidFork(s, c);
      case Reap(c, x) => PidReap(s, c, x);
      case ForkFail(_) => PidLeave(s, a);
      case ForkParent(_) => PidLeave(s, a);
      case ForkDone(_) => PidLeave(s, a);
      case Dispatch(_) => PidLeave(s, a);
      case Yield(_) => PidLeave(s, a);
      case Sleep(_, _) => PidLeave(s, a);
      case WaitSleep(_) => PidLeave(s, a);
      case _ =>
        MildActions(s, a);
        PidSame(s, Do(s, a));
    }
  }

  // Groups.

  /** fss_group_ensure keeps every group and never makes a second one for a gid. */
  lemma EnsuredTable(groups: seq<Group>, gid: int)
    requires GroupTable(groups)
    ensures GroupTable(Ensured(groups, gid))
    ensures forall k | 0 <= k < NGROUPS && groups[k].active :: Ensured(groups, gid)[k] == groups[k]
    ensures forall k | 0 <= k < NGROUPS && !groups[k].active ::
              Ensured(groups, gid)[k] == groups[k] || Ensured(groups, gid)[k] == NewGroup(gid)
    ensures HasGroup(groups, gid) ==> Ensured(groups, gid) == groups
    ensures Lookup(Ensured(groups, gid), gid) < NGROUPS ==> HasGroup(Ensured(groups, gid), gid)
  {
    var t := Ensured(groups, gid);
    var k :| 0 <= k < NGROUPS && IsGroup(groups[k], 0);
    assert IsGroup(t[k], 0);
    if Lookup(t, gid) < NGROUPS {
      assert IsGroup(t[Lookup(t, gid)], gid);
    }
  }

  lemma HasGroupKept(groups: seq<Group>, t: seq<Group>, gid: int)
    requires HasGroup(groups, gid) && |t| == |groups|
    requires forall k | 0 <= k < |groups| && groups[k].active :: t[k].active && t[k].gid == groups[k].gid
    ensures HasGroup(t, gid)
  {
    var k :| 0 <= k < |groups| && IsGroup(groups[k], gid);
    assert IsGroup(t[k], gid);
  }

  lemma GroupSame(s: Sys, t: Sys)
    requires Shape(s) && Shape(t) && GroupInv(s) && GroupTable(t.groups)
    requires forall k | 0 <= k < NGROUPS && s.groups[k].active ::
               t.groups[k].active && t.groups[k].gid == s.groups[k].gid
    requires forall i | 0 <= i < NPROC && t.procs[i].state != UNUSED ::
               (s.procs[i].state != UNUSED && t.procs[i].gid == s.procs[i].gid) || HasGroup(t.groups, t.procs[i].gid)
    requires forall c | 0 <= c < |t.cpus| && t.cpus[c].Busy? ::
               (c < |s.cpus| && t.cpus[c] == s.cpus[c]) || t.groups[t.cpus[c].g].active
    ensures GroupInv(t)
  {
    forall i | 0 <= i < NPROC && t.procs[i].state != UNUSED ensures HasGroup(t.groups, t.procs[i].gid) {
      if s.procs[i].state != UNUSED && t.procs[i].gid == s.procs[i].gid {
        HasGroupKept(s.groups, t.groups, s.procs[i].gid);
      }
    }
  }

  /** Charging a group or moving its rr cursor. */
  lemma GroupTouched(groups: seq<Group>, g: nat, h: Group)
    requires GroupTable(groups) && g < NGROUPS && groups[g].active
    requires h.active && h.gid == groups[g].gid && h.stride == FSS_BIG && h.rr < NPROC && h.pass < UINT_LIMIT
    ensures GroupTable(groups[g := h])
  {
    HasGroupKept(groups, groups[g := h], 0);
  }

  lemma GroupLeave(s: Sys, a: Action)
    requires Inv(s) && Enabled(s, a) && Shape(Do(s, a))
    requires a.Yield? || a.Sleep? || a.WaitSleep? || a.Exit?
    ensures GroupInv(Do(s, a))
  {
    hide FamilyInv, PidInv, HasZombieChild, WaitInv, ForkInv, Exited, GroupTable;
    RunningOn(s, a.c);
    var t := Do(s, a);
    assert s.groups[s.cpus[a.c].g].stride == FSS_BIG && s.groups[s.cpus[a.c].g].rr < NPROC by {
      GroupSlot(s.groups, s.cpus[a.c].g);
    }
    GroupTouched(s.groups, s.cpus[a.c].g, Charged(s.groups[s.cpus[a.c].g]));
    if a.Exit? {
      forall i | 0 <= i < NPROC
        ensures Exited(s.procs, s.cpus[a.c].p, s.init)[i] == ExitedAt(s.procs, s.cpus[a.c].p, s.init, i)
      {
        ExitedIs(s.procs, s.cpus[a.c].p, s.init, i);
      }
    }
    GroupSame(s, t);
  }

  lemma GroupSlot(groups: seq<Group>, g: nat)
    requires GroupTable(groups) && g < NGROUPS
    ensures groups[g].stride == FSS_BIG && groups[g].rr < NPROC && groups[g].pass < UINT_LIMIT
  {
  }

  lemma GroupDispatch(s: Sys, c: nat)
    requires Inv(s) && Enabled(s, Dispatch(c)) && Shape(Do(s, Dispatch(c)))
    ensures GroupInv(Do(s, Dispatch(c)))
  {
    hide FamilyInv, PidInv, PickGroup, PickProc, HasZombieChild, WaitInv, ForkInv;
    DispatchPicks(s);
    var t := Do(s, Dispatch(c));
    var g := PickGroup(s.procs, s.groups, NGROUPS);
    GroupTouched(s.groups, g, t.groups[g]);
    GroupSame(s, t);
  }

  lemma GroupFork(s: Sys, c: nat)
    requires Inv(s) && Enabled(s, ForkStart(c)) && Shape(Do(s, ForkStart(c)))
    ensures GroupInv(Do(s, ForkStart(c)))
  {
    hide FamilyInv, PidInv, WaitInv, Ensured, GroupTable, GroupInv, HasGroup, ForkInv;
    RunningOn(s, c);
    GroupOf(s, s.cpus[c].p);
    EnsuredTable(s.groups, 0);
    GroupSame(s, Do(s, ForkStart(c)));
  }

  lemma GroupFree(s: Sys, a: Action)
    requires Inv(s) && Enabled(s, a) && Shape(Do(s, a)) && (a.ForkFail? || a.ForkParent? || a.ForkDone? || a.Reap?)
    ensures GroupInv(Do(s, a))
  {
    hide FamilyInv, PidInv, HasZombieChild, WaitInv, GroupTable, GroupInv, HasGroup, ForkInv, CpuInv;
    var p := s.cpus[a.c].p;
    GroupOf(s, p);
    if !a.Reap? {
      ForkOf(s, p);
    }
    GroupSame(s, Do(s, a));
  }

  lemma GroupOf(s: Sys, p: nat)
    requires Shape(s) && GroupInv(s) && p < NPROC
    ensures GroupTable(s.groups) && HasGroup(s.groups, 0)
    ensures s.procs[p].state != UNUSED ==> HasGroup(s.groups, s.procs[p].gid)
  {
  }

  /** A forking process and the slot it is filling both have their groups in the table. */
  lemma GroupForking(s: Sys, c: nat)
    requires Inv(s) && Forking(s, c)
    ensures NewSlot(s, c) != s.cpus[c].p && s.procs[NewSlot(s, c)].state == EMBRYO
    ensures HasGroup(s.groups, s.procs[s.cpus[c].p].gid) && HasGroup(s.groups, s.procs[NewSlot(s, c)].gid)
  {
    hide FamilyInv, PidInv, WaitInv, GroupInv, HasGroup, ForkInv;
    RunningOn(s, c);
    ForkOf(s, s.cpus[c].p);
    GroupOf(s, s.cpus[c].p);
    GroupOf(s, NewSlot(s, c));
  }

  lemma GroupMild(s: Sys, a: Action)
    requires Inv(s) && Enabled(s, a) && Shape(Do(s, a)) && IsMild(a)
    ensures GroupInv(Do(s, a))
  {
    hide FamilyInv, PidInv, HasZombieChild, WaitInv, ForkInv, Ensured, GroupTable, GroupInv, HasGroup, CpuInv;
    GroupOf(s, s.init);
    if a.SetGroup? {
      EnsuredTable(s.groups, a.gid);
    } else if a.ForkGid? || a.ForkEnsure? {
      GroupForking(s, a.c);
      EnsuredTable(s.groups, s.procs[NewSlot(s, a.c)].gid);
    }
    GroupSame(s, Do(s, a));
  }

  lemma GroupStep(s: Sys, a: Action)
    requires Inv(s) && Enabled(s, a) && Shape(Do(s, a))
    ensures GroupInv(Do(s, a))
  {
    hide Do, Enabled, CpuInv, WaitInv, PidInv, ForkInv, GroupInv, FamilyInv;
    match a {
      case Dispatch(c) => GroupDispatch(s, c);
      case Exit(_) => GroupLeave(s, a);
      case Yield(_) => GroupLeave(s, a);
      case Sleep(_, _) => GroupLeave(s, a);
      case WaitSleep(_) => GroupLeave(s, a);
      case ForkStart(c) => GroupFork(s, c);
      case Reap(_, _) => GroupFree(s, a);
      case ForkFail(_) => GroupFree(s, a);
      case ForkParent(_) => GroupFree(s, a);
      case ForkDone(_) => GroupFree(s, a);
      case _ => GroupMild(s, a);
    }
  }

  // Runs.

  lemma InvStep(s: Sys, a: Action)
    requires Inv(s) && Enabled(s, a)
    ensures Inv(Do(s, a))
  {
    hide Do, Enabled, CpuInv, WaitInv, PidInv, ForkInv, GroupInv, FamilyInv;
    ShapeStep(s, a);
    CpuStep(s, a);
    FamilyStep(s, a);
    WaitStep(s, a);
    ForkStep(s, a);
    PidStep(s, a);
    GroupStep(s, a);
  }

  lemma BootInv(ncpu: nat)
    ensures Inv(Boot(ncpu))
  {
    var s := Boot(ncpu);
    assert forall i | 0 <= i < NPROC :: s.procs[i] == BootProc(i);
    assert forall k | 0 <= k < NGROUPS :: s.groups[k] == BootGroup(k);
    assert IsGroup(s.groups[0], 0);
    assert HasGroup(s.groups, 0);
  }

  /** Every state of every run from boot satisfies the invariants. */
  lemma {:induction false} InvRun(s: Sys, acts: seq<Action>)
    requires Inv(s) && IsRun(s, acts)
    ensures Inv(After(s, acts))
  {
    hide Inv, Enabled, Do;
    if acts != [] {
      var n := |acts| - 1;
      InvRun(s, acts[..n]);
      InvStep(After(s, acts[..n]), acts[n]);
    }
  }
}
