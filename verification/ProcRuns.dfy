/** What holds of the process table in every state reachable from boot. */
module ProcRuns {
  import opened Basics
  import opened ProcMachine
  import opened ProcInv

  ghost predicate Reachable(ncpu: nat, acts: seq<Action>) { IsRun(Boot(ncpu), acts) }

  ghost function State(ncpu: nat, acts: seq<Action>): (s: Sys)
    requires Reachable(ncpu, acts)
    ensures Shape(s)
  {
    BootInv(ncpu);
    InvRun(Boot(ncpu), acts);
    After(Boot(ncpu), acts)
  }

  lemma ReachableInv(ncpu: nat, acts: seq<Action>)
    requires Reachable(ncpu, acts)
    ensures Inv(State(ncpu, acts))
  {
    hide Inv, Boot;
    BootInv(ncpu);
    InvRun(Boot(ncpu), acts);
  }

  predicate IsProcess(p: Proc) { p.state != UNUSED && p.state != EMBRYO }

  /** No wakeup is lost between exit and wait: a process asleep in wait or waitx has no child left
      to reap, and every process but init has a living parent that can reap it. */
  lemma NoLostChild(ncpu: nat, acts: seq<Action>, i: nat)
    requires Reachable(ncpu, acts) && i < NPROC
    ensures var s := State(ncpu, acts);
            && (s.procs[i].state == SLEEPING && s.procs[i].chan.OnProc? ==>
                  forall z | 0 <= z < NPROC && s.procs[z].parent == Some(i) :: s.procs[z].state != ZOMBIE)
            && (IsProcess(s.procs[i]) && i != s.init ==>
                  s.procs[i].parent.Some? && s.procs[i].parent.value < NPROC && Alive(s.procs[s.procs[i].parent.value]))
            && s.init < NPROC && Alive(s.procs[s.init])
  {
    hide CpuInv, ForkInv, PidInv, GroupInv;
    ReachableInv(ncpu, acts);
    var s := State(ncpu, acts);
    assert ParentOk(s, i) && ParentOk(s, s.init) && WaitOk(s, i);
    forall z | 0 <= z < NPROC && s.procs[z].parent == Some(i) && s.procs[z].state == ZOMBIE
      ensures !(s.procs[i].state == SLEEPING && s.procs[i].chan.OnProc?)
    {
      assert IsZombieChild(s.procs[z], i);
    }
  }

  /** A RUNNING process is on exactly one CPU, and a process on a CPU is RUNNING. */
  lemma OneCpuEach(ncpu: nat, acts: seq<Action>, i: nat)
    requires Reachable(ncpu, acts) && i < NPROC
    ensures var s := State(ncpu, acts);
            && (s.procs[i].state == RUNNING <==> exists c :: RunsOn(s, c, i))
            && (forall c, d | RunsOn(s, c, i) && RunsOn(s, d, i) :: c == d)
  {
    hide ForkInv, PidInv, GroupInv, FamilyInv, WaitInv;
    ReachableInv(ncpu, acts);
  }

  /** Every pid is reaped at most once, and a reaped pid names no process any more, so none that is
      still on a CPU. */
  lemma ReapedOnce(ncpu: nat, acts: seq<Action>)
    requires Reachable(ncpu, acts)
    ensures var s := State(ncpu, acts);
            && (forall k, l | 0 <= k < l < |s.reaped| :: s.reaped[k].pid != s.reaped[l].pid)
            && (forall k, i | 0 <= k < |s.reaped| && 0 <= i < |s.procs| && s.procs[i].state != UNUSED ::
                  s.procs[i].pid != s.reaped[k].pid)
            && (forall i, j | 0 <= i < j < |s.procs| && s.procs[i].state != UNUSED && s.procs[j].state != UNUSED ::
                  s.procs[i].pid != s.procs[j].pid)
  {
    hide CpuInv, ForkInv, GroupInv, FamilyInv, WaitInv;
    ReachableInv(ncpu, acts);
  }

  /** wait and waitx free a zombie child of the caller that is on no CPU. */
  lemma ReapsZombie(ncpu: nat, acts: seq<Action>, c: nat, x: bool)
    requires Reachable(ncpu, acts) && Enabled(State(ncpu, acts), Reap(c, x))
    ensures var s := State(ncpu, acts);
            var t := Do(s, Reap(c, x));
            var z := FirstZombieChild(s.procs, s.cpus[c].p);
            && z < NPROC && IsZombieChild(s.procs[z], s.cpus[c].p) && (forall d :: !RunsOn(s, d, z))
            && t.procs[z].state == UNUSED && (forall i | 0 <= i < NPROC && i != z :: t.procs[i] == s.procs[i])
            && t.reaped == s.reaped + [Reaped(s.procs[z].pid, s.procs[z].wtime, s.procs[z].rtime)]
            && var p := if x then BlankProc() else s.procs[z];
               t.procs[z].rtime == p.rtime && t.procs[z].wtime == p.wtime && t.procs[z].stime == p.stime
  {
    hide ForkInv, PidInv, GroupInv, FamilyInv, WaitInv;
    ReachableInv(ncpu, acts);
  }

  /** The scheduler sees every runnable process: its group is in the table exactly once, and
      whenever some process is runnable a group and a process of that group are picked. */
  lemma NoneInvisible(ncpu: nat, acts: seq<Action>, i: nat)
    requires Reachable(ncpu, acts) && i < NPROC
    ensures var s := State(ncpu, acts);
            && (s.procs[i].state != UNUSED ==>
                  (exists k :: 0 <= k < NGROUPS && IsGroup(s.groups[k], s.procs[i].gid))
                  && forall k, l | 0 <= k < NGROUPS && 0 <= l < NGROUPS
                       && IsGroup(s.groups[k], s.procs[i].gid) && IsGroup(s.groups[l], s.procs[i].gid) :: k == l)
            && (s.procs[i].state == RUNNABLE ==>
                  var g := PickGroup(s.procs, s.groups, NGROUPS);
                  && g < NGROUPS
                  && (var p := PickProc(s.procs, s.groups[g].gid, s.groups[g].rr % NPROC, 0);
                      p < NPROC && s.procs[p].state == RUNNABLE && s.procs[p].gid == s.groups[g].gid))
  {
    hide ForkInv, PidInv, FamilyInv, WaitInv, CpuInv, PickGroup, PickProc;
    ReachableInv(ncpu, acts);
    var s := State(ncpu, acts);
    if s.procs[i].state != UNUSED {
      assert HasGroup(s.groups, s.procs[i].gid);
    }
    if s.procs[i].state == RUNNABLE {
      var k :| 0 <= k < NGROUPS && IsGroup(s.groups[k], s.procs[i].gid);
      assert IsRunnable(s.procs[i], s.groups[k].gid);
      assert Eligible(s.procs, s.groups[k]);
      PickGroupIsLeast(s.procs, s.groups, NGROUPS);
      DispatchPicks(s);
    }
  }

  /** The call fork makes without the lock finds the group it asks for, so it leaves the table as it is,
      whatever other CPUs did since fork wrote the group. */
  lemma ForkEnsuresNothing(ncpu: nat, acts: seq<Action>, c: nat)
    requires Reachable(ncpu, acts) && Enabled(State(ncpu, acts), ForkEnsure(c))
    ensures Do(State(ncpu, acts), ForkEnsure(c)).groups == State(ncpu, acts).groups
  {
    hide ForkInv, PidInv, FamilyInv, WaitInv, Ensured, GroupTable;
    ReachableInv(ncpu, acts);
    var s := State(ncpu, acts);
    GroupForking(s, c);
    EnsuredTable(s.groups, s.procs[NewSlot(s, c)].gid);
  }
}
