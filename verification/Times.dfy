/** Time accounting: what rtime, wtime and stime count, over whole runs. */
module Times {
  import opened Counting
  import opened ProcMachine
  import opened ProcInv
  import opened ProcRuns
  import opened Fair

  /** allocproc takes slot i in this step. */
  predicate Allocates(s: Sys, a: Action, i: nat) { a.ForkStart? && FirstUnused(s.procs) == i }

  /** Timer ticks since slot i was last allocated that found its process in state st. */
  ghost function Ticks(s: Sys, acts: seq<Action>, i: nat, st: PState): nat
    requires IsRun(s, acts) && i < NPROC
  {
    if acts == [] then 0
    else
      var n := |acts| - 1;
      var m := After(s, acts[..n]);
      if Allocates(m, acts[n], i) then 0
      else Ticks(s, acts[..n], i, st) + if acts[n].TimerTick? && m.procs[i].state == st then 1 else 0
  }

  // One step.

  predicate SameTimes(p: Proc, q: Proc) { q.rtime == p.rtime && q.wtime == p.wtime && q.stime == p.stime }

  lemma ExitKeepsTimes(s: Sys, c: nat, i: nat)
    requires Inv(s) && Enabled(s, Exit(c)) && i < NPROC
    ensures Shape(Do(s, Exit(c)))
    ensures SameTimes(s.procs[i], Do(s, Exit(c)).procs[i])
            && (Do(s, Exit(c)).procs[i].state != UNUSED ==> s.procs[i].state != UNUSED)
  {
    hide FamilyInv, WaitInv, ForkInv, PidInv, GroupInv, HasZombieChild, Exited;
    ShapeStep(s, Exit(c));
    RunningOn(s, c);
    ExitedIs(s.procs, s.cpus[c].p, s.init, i);
  }

  lemma ForkTimes(s: Sys, a: Action, i: nat)
    requires Inv(s) && Enabled(s, a) && (a.ForkStart? || a.ForkFail? || a.ForkParent? || a.ForkDone?) && i < NPROC
    ensures Shape(Do(s, a))
    ensures var q := Do(s, a).procs[i];
            if Allocates(s, a, i) then q.rtime == 0 && q.wtime == 0 && q.stime == 0
            else SameTimes(s.procs[i], q) && (q.state != UNUSED ==> s.procs[i].state != UNUSED)
  {
    hide FamilyInv, WaitInv, PidInv, GroupInv, Ensured;
    ShapeStep(s, a);
    RunningOn(s, a.c);
  }

  /** A process's times change only at a tick, by one in the counter of its state. */
  lemma TimesStep(s: Sys, a: Action, i: nat)
    requires Inv(s) && Enabled(s, a) && i < NPROC
    ensures Shape(Do(s, a))
    ensures var p := s.procs[i];
            var q := Do(s, a).procs[i];
            if Allocates(s, a, i) then q.rtime == 0 && q.wtime == 0 && q.stime == 0
            else if q.state == UNUSED then true
            else if a.TimerTick? then p.state != UNUSED && q == Ticked(p)
            else p.state != UNUSED && SameTimes(p, q)
  {
    hide CpuInv, GroupInv, FamilyInv, WaitInv, ForkInv, PidInv, PickGroup, PickProc, Ensured, HasZombieChild, Exited,
         Eligible;
    ShapeStep(s, a);
    match a {
      case Exit(c) => ExitKeepsTimes(s, c, i);
      case ForkStart(_) => ForkTimes(s, a, i);
      case ForkFail(_) => ForkTimes(s, a, i);
      case ForkParent(_) => ForkTimes(s, a, i);
      case ForkDone(_) => ForkTimes(s, a, i);
      case Dispatch(_) => LeaveTimes(s, a, i);
      case Yield(_) => LeaveTimes(s, a, i);
      case Sleep(_, _) => LeaveTimes(s, a, i);
      case WaitSleep(_) => LeaveTimes(s, a, i);
      case _ =>
    }
  }

  lemma LeaveTimes(s: Sys, a: Action, i: nat)
    requires Inv(s) && Enabled(s, a) && (a.Dispatch? || a.Yield? || a.Sleep? || a.WaitSleep?) && i < NPROC
    ensures Shape(Do(s, a))
    ensures SameTimes(s.procs[i], Do(s, a).procs[i])
            && (Do(s, a).procs[i].state != UNUSED ==> s.procs[i].state != UNUSED)
  {
    hide FamilyInv, WaitInv, ForkInv, PidInv, PickGroup, PickProc, HasZombieChild, Eligible;
    ShapeStep(s, a);
    if a.Dispatch? {
      DispatchPicks(s);
    } else {
      RunningOn(s, a.c);
    }
  }

  // Runs.

  ghost predicate TimesAre(s: Sys, acts: seq<Action>, i: nat, p: Proc)
    requires IsRun(s, acts) && i < NPROC
  {
    && p.rtime == Ticks(s, acts, i, RUNNING)
    && p.wtime == Ticks(s, acts, i, RUNNABLE)
    && p.stime == Ticks(s, acts, i, SLEEPING)
  }

  /** In every reachable state rtime, wtime and stime of a process are the ticks since allocproc at
      which it was running, runnable and sleeping. */
  lemma {:induction false} TimesCount(ncpu: nat, acts: seq<Action>, i: nat)
    requires Reachable(ncpu, acts) && i < NPROC
    ensures State(ncpu, acts).procs[i].state != UNUSED ==> TimesAre(Boot(ncpu), acts, i, State(ncpu, acts).procs[i])
  {
    hide FamilyInv, WaitInv, ForkInv, PidInv, GroupInv, CpuInv, Enabled, Do, Allocates;
    if acts != [] {
      var n := |acts| - 1;
      TimesCount(ncpu, acts[..n], i);
      ReachableInv(ncpu, acts[..n]);
      TimesStep(After(Boot(ncpu), acts[..n]), acts[n], i);
    }
  }

  /** The ticks reported are exactly those the child spent runnable and running; waitx then clears its
      counters and wait leaves them. */
  lemma WaitxReports(ncpu: nat, acts: seq<Action>, c: nat, x: bool)
    requires Reachable(ncpu, acts) && Enabled(State(ncpu, acts), Reap(c, x))
    ensures var s := State(ncpu, acts);
            var z := FirstZombieChild(s.procs, s.cpus[c].p);
            && z < NPROC
            && Do(s, Reap(c, x)).reaped ==
               s.reaped + [Reaped(s.procs[z].pid, Ticks(Boot(ncpu), acts, z, RUNNABLE),
                                  Ticks(Boot(ncpu), acts, z, RUNNING))]
            && SameTimes(if x then BlankProc() else s.procs[z], Do(s, Reap(c, x)).procs[z])
  {
    hide Do, Boot, Inv, Ticks, After;
    ReapsZombie(ncpu, acts, c, x);
    var s := State(ncpu, acts);
    TimesCount(ncpu, acts, FirstZombieChild(s.procs, s.cpus[c].p));
  }

  // Total running time.

  function Running(procs: seq<Proc>): set<nat> { set i | 0 <= i < |procs| && procs[i].state == RUNNING }

  function TotalRtime(procs: seq<Proc>): nat {
    if procs == [] then 0 else TotalRtime(procs[..|procs| - 1]) + procs[|procs| - 1].rtime
  }

  function BusySlots(cpus: seq<Cpu>): (r: set<nat>)
    ensures |r| <= |cpus|
  {
    if cpus == [] then {}
    else
      var c := cpus[|cpus| - 1];
      BusySlots(cpus[..|cpus| - 1]) + if c.Busy? then {c.p} else {}
  }

  lemma {:induction false} BusySlotsIn(cpus: seq<Cpu>, c: nat)
    requires c < |cpus| && cpus[c].Busy?
    ensures cpus[c].p in BusySlots(cpus)
  {
    if c < |cpus| - 1 {
      BusySlotsIn(cpus[..|cpus| - 1], c);
    }
  }

  lemma RunningBound(s: Sys)
    requires Shape(s) && CpuInv(s)
    ensures |Running(s.procs)| <= |s.cpus|
  {
    forall i | i in Running(s.procs) ensures i in BusySlots(s.cpus) {
      var c :| RunsOn(s, c, i);
      BusySlotsIn(s.cpus, c);
    }
    SubsetSize(Running(s.procs), BusySlots(s.cpus));
  }

  lemma TickFront(procs: seq<Proc>)
    requires procs != []
    ensures Tick(procs)[..|procs| - 1] == Tick(procs[..|procs| - 1])
    ensures Tick(procs)[|procs| - 1] == Ticked(procs[|procs| - 1])
  {
  }

  lemma RunningFront(procs: seq<Proc>)
    requires procs != []
    ensures var n := |procs| - 1;
            |Running(procs)| == |Running(procs[..n])| + if procs[n].state == RUNNING then 1 else 0
  {
    var n := |procs| - 1;
    if procs[n].state == RUNNING {
      assert Running(procs) == Running(procs[..n]) + {n};
    } else {
      assert Running(procs) == Running(procs[..n]);
    }
  }

  lemma {:induction false} TickTotal(procs: seq<Proc>)
    ensures TotalRtime(Tick(procs)) == TotalRtime(procs) + |Running(procs)|
  {
    if procs == [] {
      assert Running(procs) == {};
    } else {
      hide Tick, Running;
      TickFront(procs);
      RunningFront(procs);
      TickTotal(procs[..|procs| - 1]);
    }
  }

  ghost function TickCount(acts: seq<Action>): nat {
    if acts == [] then 0 else TickCount(acts[..|acts| - 1]) + if acts[|acts| - 1].TimerTick? then 1 else 0
  }

  /** The running time handed out at the ticks of a run. */
  ghost function RtimeGrowth(s: Sys, acts: seq<Action>): int
    requires IsRun(s, acts)
  {
    if acts == [] then 0
    else
      var n := |acts| - 1;
      RtimeGrowth(s, acts[..n]) +
      if acts[n].TimerTick? then TotalRtime(After(s, acts).procs) - TotalRtime(After(s, acts[..n]).procs) else 0
  }

  lemma RtimeTick(s: Sys)
    requires Inv(s)
    ensures 0 <= TotalRtime(Do(s, TimerTick).procs) - TotalRtime(s.procs) <= |s.cpus|
  {
    hide FamilyInv, WaitInv, ForkInv, PidInv, GroupInv, CpuInv, Running, TotalRtime, Tick;
    TickTotal(s.procs);
    RunningBound(s);
  }

  /** Over k ticks the processes together gain at most k ticks of running time per CPU. */
  lemma {:induction false} RtimeConserved(s: Sys, acts: seq<Action>)
    requires Inv(s) && IsRun(s, acts)
    ensures 0 <= RtimeGrowth(s, acts) <= TickCount(acts) * |s.cpus|
  {
    hide Inv, Enabled, TotalRtime, Do;
    if acts != [] {
      var n := |acts| - 1;
      RtimeConserved(s, acts[..n]);
      InvRun(s, acts[..n]);
      if acts[n].TimerTick? {
        CpusKept(s, acts[..n]);
        RtimeTick(After(s, acts[..n]));
        assert TickCount(acts) * |s.cpus| == TickCount(acts[..n]) * |s.cpus| + |s.cpus|;
      }
    }
  }
}
