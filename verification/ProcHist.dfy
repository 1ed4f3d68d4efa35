/** What the process table says is what happened: who sleeps, who is dead, who was killed and who is
    in which group, read off the steps taken since boot. */
module ProcHist {
  import opened Basics
  import opened ProcMachine
  import opened ProcInv
  import opened ProcRuns
  import opened PassWrap

  // One step, seen from one slot.

  predicate Runs(s: Sys, c: nat, i: nat) { OnCpu(s, c) && s.cpus[c].p == i }

  ghost function Picked(s: Sys): nat
    requires Shape(s) && PickGroup(s.procs, s.groups, NGROUPS) < NGROUPS
  {
    var g := PickGroup(s.procs, s.groups, NGROUPS);
    PickProc(s.procs, s.groups[g].gid, s.groups[g].rr % NPROC, 0)
  }

  /** Slot i after a step by a process that leaves its CPU or is given one. */
  ghost function SlotAfterSwitch(s: Sys, a: Action, i: nat): Proc
    requires Shape(s) && Enabled(s, a) && i < NPROC
    requires a.Dispatch? || a.Yield? || a.Sleep? || a.WaitSleep? || a.Exit?
  {
    var p := s.procs[i];
    match a
    case Dispatch(_) => if i == Picked(s) then p.(state := RUNNING, chan := NoChan) else p
    case Yield(c) => if Runs(s, c, i) then p.(state := RUNNABLE) else p
    case Sleep(c, ch) => if Runs(s, c, i) then p.(state := SLEEPING, chan := Other(ch)) else p
    case WaitSleep(c) => if Runs(s, c, i) then p.(state := SLEEPING, chan := OnProc(i)) else p
    case Exit(c) => ExitedAt(s.procs, s.cpus[c].p, s.init, i)
  }

  /** Slot i after one of the steps of fork, or of wait. */
  ghost function SlotAfterFork(s: Sys, a: Action, i: nat): Proc
    requires Shape(s) && Enabled(s, a) && i < NPROC
    requires a.Reap? || a.ForkStart? || a.ForkFail? || a.ForkParent? || a.ForkGid? || a.ForkEnsure? || a.ForkDone?
  {
    var p := s.procs[i];
    match a
    case Reap(c, x) => if Reaps(s, a, i) then Freed(p, x) else p
    case ForkStart(c) =>
      if Starts(s, a, i) then Alloced(p, s.nextpid)
      else if Runs(s, c, i) then p.(np := Some(FirstUnused(s.procs)))
      else p
    case ForkFail(c) =>
      if i == NewSlot(s, c) then p.(state := UNUSED) else if Runs(s, c, i) then p.(np := None) else p
    case ForkParent(c) => if i == NewSlot(s, c) then p.(parent := Some(s.cpus[c].p)) else p
    case ForkGid(c) =>
      if i == NewSlot(s, c) then p.(gid := s.procs[s.cpus[c].p].gid, filled := 1) else p
    case ForkEnsure(c) => if i == NewSlot(s, c) then p.(filled := 2) else p
    case ForkDone(c) =>
      if i == NewSlot(s, c) then p.(state := RUNNABLE) else if Runs(s, c, i) then p.(np := None) else p
  }

  /** Slot i after wakeup, kill, setgroup or a tick. */
  ghost function SlotAfterCall(s: Sys, a: Action, i: nat): Proc
    requires Shape(s) && Enabled(s, a) && i < NPROC
    requires a.Wakeup? || a.Kill? || a.SetGroup? || a.TimerTick?
  {
    var p := s.procs[i];
    match a
    case Wakeup(ch) => Woken(p, Other(ch))
    case Kill(pid) => if Hits(s.procs, pid, i) then Killed(p) else p
    case SetGroup(pid, gid) => if Moves(s, pid, gid, i) then p.(gid := gid) else p
    case TimerTick => Ticked(p)
  }

  /** The step reaps slot i: it is the first zombie child of the caller. */
  ghost predicate Reaps(s: Sys, a: Action, i: nat) {
    && a.Reap? && OnCpu(s, a.c) && i < |s.procs| && IsZombieChild(s.procs[i], s.cpus[a.c].p)
    && forall k | 0 <= k < i :: !IsZombieChild(s.procs[k], s.cpus[a.c].p)
  }

  /** The step allocates slot i: it is the first unused one. */
  ghost predicate Starts(s: Sys, a: Action, i: nat) {
    && a.ForkStart? && i < |s.procs| && s.procs[i].state == UNUSED
    && forall k | 0 <= k < i :: s.procs[k].state != UNUSED
  }

  /** Slot i is the first that shows pid. */
  ghost predicate Hits(procs: seq<Proc>, pid: nat, i: nat) {
    i < |procs| && procs[i].pid == pid && forall k | 0 <= k < i :: procs[k].pid != pid
  }

  /** setgroup moves slot i: it is in use with that pid, and the group has a slot or gets one. */
  ghost predicate Moves(s: Sys, pid: nat, gid: int, i: nat) {
    && i < |s.procs| && s.procs[i].state != UNUSED && s.procs[i].pid == pid
    && exists k :: 0 <= k < |s.groups| && (IsGroup(s.groups[k], gid) || !s.groups[k].active)
  }

  lemma SwitchAt(s: Sys, a: Action, i: nat)
    requires Inv(s) && Enabled(s, a) && i < NPROC
    requires a.Dispatch? || a.Yield? || a.Sleep? || a.WaitSleep? || a.Exit?
    ensures |Do(s, a).procs| == NPROC && Do(s, a).procs[i] == SlotAfterSwitch(s, a, i)
    ensures a.Dispatch? ==> Picked(s) < NPROC && s.procs[Picked(s)].state == RUNNABLE
  {
    hide FamilyInv, WaitInv, ForkInv, PidInv, PickGroup, PickProc, HasZombieChild, Eligible, Exited, ExitedAt;
    if a.Dispatch? {
      DispatchPicks(s);
    } else {
      RunningOn(s, a.c);
      if a.Exit? {
        ExitedIs(s.procs, s.cpus[a.c].p, s.init, i);
      }
    }
  }

  lemma ForkAt(s: Sys, a: Action, i: nat)
    requires Inv(s) && Enabled(s, a) && i < NPROC
    requires a.Reap? || a.ForkStart? || a.ForkFail? || a.ForkParent? || a.ForkGid? || a.ForkEnsure? || a.ForkDone?
    ensures |Do(s, a).procs| == NPROC && Do(s, a).procs[i] == SlotAfterFork(s, a, i)
  {
    hide FamilyInv, WaitInv, ForkInv, PidInv, GroupInv, Ensured;
    RunningOn(s, a.c);
    if !a.Reap? && !a.ForkStart? {
      ForkOf(s, s.cpus[a.c].p);
    }
  }

  lemma CallAt(s: Sys, a: Action, i: nat)
    requires Inv(s) && Enabled(s, a) && i < NPROC && (a.Wakeup? || a.Kill? || a.SetGroup? || a.TimerTick?)
    ensures |Do(s, a).procs| == NPROC && Do(s, a).procs[i] == SlotAfterCall(s, a, i)
  {
    hide FamilyInv, WaitInv, ForkInv, CpuInv, HasGroup, Ensured;
    if a.SetGroup? {
      SetGroupAt(s, a.pid, a.gid, i);
    }
  }

  lemma EnsuredFinds(groups: seq<Group>, gid: int)
    requires |groups| == NGROUPS
    ensures Lookup(Ensured(groups, gid), gid) <= NGROUPS
    ensures Lookup(Ensured(groups, gid), gid) < NGROUPS <==>
            exists k :: 0 <= k < |groups| && (IsGroup(groups[k], gid) || !groups[k].active)
  {
    var l, f := Lookup(groups, gid), FreeGroup(groups);
    if l < NGROUPS {
      assert IsGroup(groups[l], gid);
    } else if f < NGROUPS {
      assert !groups[f].active;
      assert IsGroup(Ensured(groups, gid)[f], gid);
    } else {
      assert Ensured(groups, gid) == groups;
    }
  }

  lemma SetGroupAt(s: Sys, pid: nat, gid: int, i: nat)
    requires Inv(s) && gid >= 0 && i < NPROC
    ensures |Do(s, SetGroup(pid, gid)).procs| == NPROC
    ensures Do(s, SetGroup(pid, gid)).procs[i] == SlotAfterCall(s, SetGroup(pid, gid), i)
  {
    hide FamilyInv, WaitInv, ForkInv, CpuInv, GroupInv, Ensured, Lookup;
    EnsuredFinds(s.groups, gid);
  }

  // Who sleeps, and on what.

  datatype Rest = Up | InWait | On(chan: nat)

  /** A process goes to sleep by sleep or in wait. It is woken by a wakeup on its channel, by kill, and
      in wait by a child's exit or, if it is init, by being given a zombie. */
  ghost function RestOf(s: Sys, acts: seq<Action>, i: nat): Rest
    requires IsRun(s, acts) && i < NPROC
  {
    if acts == [] then Up
    else
      var n := |acts| - 1;
      var m, a, r := After(s, acts[..n]), acts[n], RestOf(s, acts[..n], i);
      match a
      case Sleep(c, ch) => if Runs(m, c, i) then On(ch) else r
      case WaitSleep(c) => if Runs(m, c, i) then InWait else r
      case Wakeup(ch) => if r == On(ch) then Up else r
      case Kill(pid) => if i < |m.procs| && m.procs[i].pid == pid then Up else r
      case Exit(c) => if r == InWait && TellsOfDeath(m, c, i) then Up else r
      case _ => r
  }

  /** The exit on CPU c is news to process i in wait. */
  ghost predicate TellsOfDeath(s: Sys, c: nat, i: nat) {
    && OnCpu(s, c)
    && (s.procs[s.cpus[c].p].parent == Some(i)
        || (i == s.init && exists z | 0 <= z < |s.procs| :: IsZombieChild(s.procs[z], s.cpus[c].p)))
  }

  ghost predicate RestIs(p: Proc, i: nat, r: Rest) {
    && (p.state == SLEEPING <==> r != Up)
    && (r == InWait ==> p.chan == OnProc(i))
    && (r.On? ==> p.chan == Other(r.chan))
  }

  lemma RestSwitch(s: Sys, a: Action, i: nat, r: Rest)
    requires Inv(s) && Enabled(s, a) && i < NPROC && RestIs(s.procs[i], i, r)
    requires a.Dispatch? || a.Yield? || a.Sleep? || a.WaitSleep? || a.Exit?
    ensures |Do(s, a).procs| == NPROC
    ensures RestIs(Do(s, a).procs[i], i,
                   if a.Sleep? && Runs(s, a.c, i) then On(a.chan)
                   else if a.WaitSleep? && Runs(s, a.c, i) then InWait
                   else if a.Exit? && r == InWait && TellsOfDeath(s, a.c, i) then Up
                   else r)
  {
    hide FamilyInv, WaitInv, ForkInv, PidInv, GroupInv, PickGroup, PickProc, Do, Picked;
    SwitchAt(s, a, i);
    if !a.Dispatch? {
      RunningOn(s, a.c);
    }
  }

  lemma RestOther(s: Sys, a: Action, i: nat, r: Rest)
    requires Inv(s) && Enabled(s, a) && i < NPROC && RestIs(s.procs[i], i, r)
    requires !(a.Dispatch? || a.Yield? || a.Sleep? || a.WaitSleep? || a.Exit?)
    ensures |Do(s, a).procs| == NPROC
    ensures RestIs(Do(s, a).procs[i], i,
                   if a.Wakeup? && r == On(a.chan) then Up
                   else if a.Kill? && s.procs[i].pid == a.pid then Up
                   else r)
  {
    hide FamilyInv, WaitInv, GroupInv, Do;
    if a.Wakeup? || a.Kill? || a.SetGroup? || a.TimerTick? {
      CallAt(s, a, i);
    } else {
      ForkAt(s, a, i);
      if !a.Reap? && !a.ForkStart? {
        ForkOf(s, s.cpus[a.c].p);
      }
    }
  }

  /** In every reachable state exactly those processes sleep that went to sleep and were not woken. */
  lemma {:induction false} SleepersExact(ncpu: nat, acts: seq<Action>, i: nat)
    requires Reachable(ncpu, acts) && i < NPROC
    ensures RestIs(State(ncpu, acts).procs[i], i, RestOf(Boot(ncpu), acts, i))
  {
    hide FamilyInv, WaitInv, ForkInv, PidInv, GroupInv, CpuInv, Enabled, Do, TellsOfDeath, RestIs;
    if acts == [] {
      assert RestIs(Boot(ncpu).procs[i], i, Up) by { BootRest(ncpu, i); }
    } else {
      var n := |acts| - 1;
      SleepersExact(ncpu, acts[..n], i);
      ReachableInv(ncpu, acts[..n]);
      var m, a := After(Boot(ncpu), acts[..n]), acts[n];
      if a.Dispatch? || a.Yield? || a.Sleep? || a.WaitSleep? || a.Exit? {
        RestSwitch(m, a, i, RestOf(Boot(ncpu), acts[..n], i));
      } else {
        RestOther(m, a, i, RestOf(Boot(ncpu), acts[..n], i));
      }
    }
  }

  lemma BootRest(ncpu: nat, i: nat)
    requires i < NPROC
    ensures RestIs(Boot(ncpu).procs[i], i, Up)
  {
  }

  /** A process in wait is asleep and has no zombie child to reap. */
  lemma WaitersHaveNoZombie(ncpu: nat, acts: seq<Action>, i: nat)
    requires Reachable(ncpu, acts) && i < NPROC && RestOf(Boot(ncpu), acts, i) == InWait
    ensures State(ncpu, acts).procs[i].state == SLEEPING
    ensures forall z | 0 <= z < NPROC && State(ncpu, acts).procs[z].parent == Some(i) ::
              State(ncpu, acts).procs[z].state != ZOMBIE
  {
    SleepersExact(ncpu, acts, i);
    NoLostChild(ncpu, acts, i);
  }

  /** A child's exit makes a process in wait runnable, so that it will find the zombie. */
  lemma ExitWakesParent(ncpu: nat, acts: seq<Action>, c: nat, q: nat)
    requires Reachable(ncpu, acts) && Enabled(State(ncpu, acts), Exit(c)) && q < NPROC
    requires State(ncpu, acts).procs[State(ncpu, acts).cpus[c].p].parent == Some(q)
    requires RestOf(Boot(ncpu), acts, q) == InWait
    ensures var s := State(ncpu, acts);
            var t := Do(s, Exit(c));
            && |t.procs| == NPROC && t.procs[q].state == RUNNABLE
            && t.procs[s.cpus[c].p].state == ZOMBIE && t.procs[s.cpus[c].p].parent == Some(q)
  {
    hide FamilyInv, WaitInv, ForkInv, PidInv, GroupInv, HasZombieChild, Do;
    SleepersExact(ncpu, acts, q);
    ReachableInv(ncpu, acts);
    var s := State(ncpu, acts);
    RunningOn(s, c);
    SwitchAt(s, Exit(c), q);
    SwitchAt(s, Exit(c), s.cpus[c].p);
  }

  // Groups.

  /** Where a process got its group: from allocproc, from its parent, which had gid when fork wrote it,
      or from a setgroup that named it. */
  datatype Origin = Fresh | Inherited(gid: int) | Moved(gid: int)

  ghost function OriginOf(s: Sys, acts: seq<Action>, i: nat): Origin
    requires IsRun(s, acts) && i < NPROC
  {
    if acts == [] then Fresh
    else
      var n := |acts| - 1;
      var m, a, o := After(s, acts[..n]), acts[n], OriginOf(s, acts[..n], i);
      if Starts(m, a, i) then Fresh
      else if a.ForkGid? && Forking(m, a.c) && NewSlot(m, a.c) == i then Inherited(m.procs[m.cpus[a.c].p].gid)
      else if a.SetGroup? && Moves(m, a.pid, a.gid, i) then Moved(a.gid)
      else o
  }

  ghost predicate OriginIs(p: Proc, o: Origin) {
    match o
    case Fresh => p.gid == 0 && p.filled == 0
    case Inherited(gid) => p.gid == gid
    case Moved(gid) => p.gid == gid
  }

  lemma OriginStep(s: Sys, a: Action, i: nat, o: Origin)
    requires Inv(s) && Enabled(s, a) && i < NPROC && OriginIs(s.procs[i], o)
    ensures |Do(s, a).procs| == NPROC
    ensures OriginIs(Do(s, a).procs[i],
                     if Starts(s, a, i) then Fresh
                     else if a.ForkGid? && Forking(s, a.c) && NewSlot(s, a.c) == i then
                       Inherited(s.procs[s.cpus[a.c].p].gid)
                     else if a.SetGroup? && Moves(s, a.pid, a.gid, i) then Moved(a.gid)
                     else o)
  {
    hide FamilyInv, WaitInv, GroupInv, PidInv, CpuInv, ForkInv, Do, PickGroup, PickProc, Picked;
    if a.Dispatch? || a.Yield? || a.Sleep? || a.WaitSleep? || a.Exit? {
      SwitchAt(s, a, i);
    } else if a.Wakeup? || a.Kill? || a.SetGroup? || a.TimerTick? {
      CallAt(s, a, i);
    } else {
      ForkAt(s, a, i);
    }
  }

  /** In every reachable state each slot shows the group its history gives it. */
  lemma {:induction false} GroupsExact(ncpu: nat, acts: seq<Action>, i: nat)
    requires Reachable(ncpu, acts) && i < NPROC
    ensures OriginIs(State(ncpu, acts).procs[i], OriginOf(Boot(ncpu), acts, i))
  {
    hide FamilyInv, WaitInv, ForkInv, PidInv, GroupInv, CpuInv, Enabled, Do, Starts, Moves, OriginIs, Forking;
    if acts == [] {
      assert OriginIs(Boot(ncpu).procs[i], Fresh) by { BootOrigin(ncpu, i); }
    } else {
      var n := |acts| - 1;
      GroupsExact(ncpu, acts[..n], i);
      ReachableInv(ncpu, acts[..n]);
      OriginStep(After(Boot(ncpu), acts[..n]), acts[n], i, OriginOf(Boot(ncpu), acts[..n], i));
    }
  }

  lemma BootOrigin(ncpu: nat, i: nat)
    requires i < NPROC
    ensures OriginIs(Boot(ncpu).procs[i], Fresh)
  {
  }

  /** The process fork makes runnable is its caller's child and has the group its parent had when fork
      wrote it, unless a setgroup named the child since. */
  lemma ForkInherits(ncpu: nat, acts: seq<Action>, c: nat)
    requires Reachable(ncpu, acts) && Enabled(State(ncpu, acts), ForkDone(c))
    ensures var s := State(ncpu, acts);
            var e := NewSlot(s, c);
            var o := OriginOf(Boot(ncpu), acts, e);
            var t := Do(s, ForkDone(c));
            && o != Fresh && |t.procs| == NPROC && e < NPROC
            && t.procs[e].state == RUNNABLE && t.procs[e].parent == Some(s.cpus[c].p) && t.procs[e].gid == o.gid
  {
    hide WaitInv, PidInv, GroupInv, CpuInv, FamilyInv, ForkInv, Do;
    ReachableInv(ncpu, acts);
    var s := State(ncpu, acts);
    var p, e := s.cpus[c].p, NewSlot(s, c);
    GroupsExact(ncpu, acts, e);
    ForkAt(s, ForkDone(c), e);
    ForkOf(s, p);
    ParentOf(s, e);
    ForkOwner(s, p, s.procs[e].parent.value);
  }

  lemma Snoc(ncpu: nat, acts: seq<Action>, a: Action)
    requires Reachable(ncpu, acts) && Enabled(State(ncpu, acts), a)
    ensures Reachable(ncpu, acts + [a]) && State(ncpu, acts + [a]) == Do(State(ncpu, acts), a)
  {
    hide Enabled, Do, Boot;
    assert (acts + [a])[..|acts|] == acts;
  }

  /** A fork in progress by process p on CPU c, into slot e. */
  ghost predicate InFork(s: Sys, c: nat, p: nat, e: nat) {
    && Inv(s) && Runs(s, c, p) && e < NPROC && e != p && s.procs[p].np == Some(e) && s.procs[e].state == EMBRYO
  }

  lemma ForkKeeps(s: Sys, a: Action)
    requires Inv(s) && Enabled(s, a) && (a.ForkStart? || a.ForkParent? || a.ForkGid? || a.ForkEnsure? || a.ForkDone?)
    ensures Do(s, a).cpus == s.cpus && Inv(Do(s, a))
  {
    hide FamilyInv, WaitInv, ForkInv, PidInv, GroupInv, CpuInv, Ensured;
    InvStep(s, a);
  }

  lemma ForkFirst(s: Sys, c: nat, p: nat, e: nat)
    requires Inv(s) && Enabled(s, ForkStart(c)) && Runs(s, c, p) && Starts(s, ForkStart(c), e)
    ensures var t := Do(s, ForkStart(c));
            && InFork(t, c, p, e) && t.procs[e].parent.None? && t.procs[e].filled == 0 && t.procs[e].pid == s.nextpid
            && t.procs[p] == s.procs[p].(np := Some(e))
  {
    hide WaitInv, ForkInv, PidInv, GroupInv, Do, FamilyInv;
    RunningOn(s, c);
    ParentOf(s, e);
    ForkAt(s, ForkStart(c), e);
    ForkAt(s, ForkStart(c), p);
    ForkKeeps(s, ForkStart(c));
  }

  lemma ForkMiddle(s: Sys, c: nat, p: nat, e: nat, a: Action)
    requires InFork(s, c, p, e) && (a == ForkParent(c) || a == ForkGid(c) || a == ForkEnsure(c)) && Enabled(s, a)
    ensures var t := Do(s, a);
            && InFork(t, c, p, e) && t.procs[p] == s.procs[p] && t.procs[e] == SlotAfterFork(s, a, e)
  {
    hide WaitInv, ForkInv, PidInv, GroupInv, Do, FamilyInv, CpuInv;
    ForkAt(s, a, e);
    ForkAt(s, a, p);
    ForkKeeps(s, a);
  }

  lemma ForkLast(s: Sys, c: nat, p: nat, e: nat)
    requires InFork(s, c, p, e) && Enabled(s, ForkDone(c))
    ensures var t := Do(s, ForkDone(c));
            && Inv(t) && Runs(t, c, p) && t.procs[p] == s.procs[p].(np := None)
            && t.procs[e] == s.procs[e].(state := RUNNABLE)
  {
    hide WaitInv, ForkInv, PidInv, GroupInv, Do, FamilyInv, CpuInv;
    ForkAt(s, ForkDone(c), e);
    ForkAt(s, ForkDone(c), p);
    ForkKeeps(s, ForkDone(c));
  }

  /** A fork that nothing comes between gives the child a new pid and the group of its parent, whatever
      group that is, and leaves the parent as it was. */
  lemma ForkAtOnce(ncpu: nat, acts: seq<Action>, c: nat, e: nat) returns (more: seq<Action>)
    requires Reachable(ncpu, acts) && Enabled(State(ncpu, acts), ForkStart(c))
    requires Starts(State(ncpu, acts), ForkStart(c), e)
    ensures more == acts + [ForkStart(c)] + [ForkParent(c)] + [ForkGid(c)] + [ForkEnsure(c)] + [ForkDone(c)]
    ensures Reachable(ncpu, more)
    ensures var s, t := State(ncpu, acts), State(ncpu, more);
            var p := s.cpus[c].p;
            && p < NPROC && t.procs[p] == s.procs[p]
            && t.procs[e].state == RUNNABLE && t.procs[e].pid == s.nextpid && t.procs[e].parent == Some(p)
            && t.procs[e].gid == s.procs[p].gid
  {
    hide Inv, Do, IsRun, After, Starts, Boot;
    ReachableInv(ncpu, acts);
    var p := State(ncpu, acts).cpus[c].p;
    more := acts;
    ForkFirst(State(ncpu, more), c, p, e);
    Snoc(ncpu, more, ForkStart(c));
    more := more + [ForkStart(c)];
    ForkMiddle(State(ncpu, more), c, p, e, ForkParent(c));
    Snoc(ncpu, more, ForkParent(c));
    more := more + [ForkParent(c)];
    ForkMiddle(State(ncpu, more), c, p, e, ForkGid(c));
    Snoc(ncpu, more, ForkGid(c));
    more := more + [ForkGid(c)];
    ForkMiddle(State(ncpu, more), c, p, e, ForkEnsure(c));
    Snoc(ncpu, more, ForkEnsure(c));
    more := more + [ForkEnsure(c)];
    ForkLast(State(ncpu, more), c, p, e);
    Snoc(ncpu, more, ForkDone(c));
    more := more + [ForkDone(c)];
  }

  /** A process that moves itself to another group and forks there: setgroup and what it leaves alone. */
  lemma MoveSelf(s: Sys, c: nat, gid: int, e: nat)
    requires Inv(s) && Enabled(s, ForkStart(c)) && Starts(s, ForkStart(c), e) && gid >= 0
    requires Moves(s, s.procs[s.cpus[c].p].pid, gid, s.cpus[c].p)
    ensures var p := s.cpus[c].p;
            var t := Do(s, SetGroup(s.procs[p].pid, gid));
            && t.cpus == s.cpus && |t.procs| == NPROC && t.procs[p].gid == gid
            && Starts(t, ForkStart(c), e) && Enabled(t, ForkStart(c))
  {
    hide FamilyInv, WaitInv, ForkInv, PidInv, GroupInv, CpuInv, Ensured, Moves;
    var p := s.cpus[c].p;
    var a := SetGroup(s.procs[p].pid, gid);
    var t := Do(s, a);
    forall i | 0 <= i < NPROC
      ensures t.procs[i] == s.procs[i] || (t.procs[i] == s.procs[i].(gid := gid))
    {
      CallAt(s, a, i);
    }
    CallAt(s, a, p);
    assert t.procs[e].state == UNUSED && forall k | 0 <= k < e :: t.procs[k].state != UNUSED;
  }

  /** So the child of a process that has just moved to another group starts in that group. */
  lemma ForkAfterMove(ncpu: nat, acts: seq<Action>, c: nat, gid: int, e: nat) returns (more: seq<Action>)
    requires Reachable(ncpu, acts) && Enabled(State(ncpu, acts), ForkStart(c)) && gid >= 0
    requires Starts(State(ncpu, acts), ForkStart(c), e)
    requires var s := State(ncpu, acts); Moves(s, s.procs[s.cpus[c].p].pid, gid, s.cpus[c].p)
    ensures Reachable(ncpu, more)
    ensures more == acts + [SetGroup(State(ncpu, acts).procs[State(ncpu, acts).cpus[c].p].pid, gid)]
                    + [ForkStart(c)] + [ForkParent(c)] + [ForkGid(c)] + [ForkEnsure(c)] + [ForkDone(c)]
    ensures var t := State(ncpu, more); t.procs[e].state == RUNNABLE && t.procs[e].gid == gid
  {
    hide Inv, Do, IsRun, After, Starts, Boot, Moves;
    ReachableInv(ncpu, acts);
    var s := State(ncpu, acts);
    var a := SetGroup(s.procs[s.cpus[c].p].pid, gid);
    MoveSelf(s, c, gid, e);
    Snoc(ncpu, acts, a);
    more := ForkAtOnce(ncpu, acts + [a], c, e);
  }

  // Who was killed.

  /** A slot is marked by a kill that finds it and cleared when it is reaped; allocproc leaves it. */
  ghost function MarkOf(s: Sys, acts: seq<Action>, i: nat): bool
    requires IsRun(s, acts) && i < NPROC
  {
    acts != [] &&
    var n := |acts| - 1;
    var m, a := After(s, acts[..n]), acts[n];
    if a.Kill? && Hits(m.procs, a.pid, i) then true
    else if Reaps(m, a, i) then false
    else MarkOf(s, acts[..n], i)
  }

  lemma MarkStep(s: Sys, a: Action, i: nat)
    requires Inv(s) && Enabled(s, a) && i < NPROC
    ensures |Do(s, a).procs| == NPROC
    ensures Do(s, a).procs[i].killed ==
            if a.Kill? && Hits(s.procs, a.pid, i) then true else if Reaps(s, a, i) then false else s.procs[i].killed
  {
    hide FamilyInv, WaitInv, GroupInv, PidInv, CpuInv, ForkInv, Do, PickGroup, PickProc, Picked;
    if a.Dispatch? || a.Yield? || a.Sleep? || a.WaitSleep? || a.Exit? {
      SwitchAt(s, a, i);
    } else if a.Wakeup? || a.Kill? || a.SetGroup? || a.TimerTick? {
      CallAt(s, a, i);
    } else {
      ForkAt(s, a, i);
    }
  }

  lemma {:induction false} KilledExact(ncpu: nat, acts: seq<Action>, i: nat)
    requires Reachable(ncpu, acts) && i < NPROC
    ensures State(ncpu, acts).procs[i].killed == MarkOf(Boot(ncpu), acts, i)
  {
    hide FamilyInv, WaitInv, ForkInv, PidInv, GroupInv, CpuInv, Enabled, Do, Hits, Reaps;
    if acts != [] {
      var n := |acts| - 1;
      KilledExact(ncpu, acts[..n], i);
      ReachableInv(ncpu, acts[..n]);
      MarkStep(After(Boot(ncpu), acts[..n]), acts[n], i);
    }
  }

  /** kill finds the process with that pid, if there is one. */
  lemma KillFinds(ncpu: nat, acts: seq<Action>, i: nat, pid: nat)
    requires Reachable(ncpu, acts) && i < NPROC && State(ncpu, acts).procs[i].state != UNUSED
    ensures Hits(State(ncpu, acts).procs, pid, i) <==> State(ncpu, acts).procs[i].pid == pid
  {
    hide FamilyInv, WaitInv, ForkInv, GroupInv, CpuInv;
    ReachableInv(ncpu, acts);
  }

  /** A new process is already marked exactly if a kill found its slot unused: allocproc does not clear
      the mark, and kill does not look at the state. */
  lemma BornKilled(ncpu: nat, acts: seq<Action>, c: nat, i: nat)
    requires Reachable(ncpu, acts) && Enabled(State(ncpu, acts), ForkStart(c)) && i < NPROC
    requires Starts(State(ncpu, acts), ForkStart(c), i)
    ensures var t := Do(State(ncpu, acts), ForkStart(c));
            |t.procs| == NPROC && t.procs[i].state == EMBRYO
            && (t.procs[i].killed <==> MarkOf(Boot(ncpu), acts, i))
  {
    hide FamilyInv, WaitInv, ForkInv, PidInv, GroupInv, CpuInv, Do;
    ReachableInv(ncpu, acts);
    KilledExact(ncpu, acts, i);
    ForkAt(State(ncpu, acts), ForkStart(c), i);
  }

  /** It happens: kill(0) finds the first slot never used, and the first child of init starts killed. */
  lemma KillZeroMarksTheNext() returns (acts: seq<Action>)
    ensures Reachable(1, acts) && forall k | 0 <= k < |acts| && acts[k].Kill? :: acts[k].pid == 0
    ensures State(1, acts).procs[1].state == EMBRYO && State(1, acts).procs[1].pid == 2
    ensures State(1, acts).procs[1].killed
  {
    hide FamilyInv, WaitInv, ForkInv, PidInv, GroupInv, CpuInv, Do, PickGroup, PickProc, Picked, IsRun, After;
    assert Reachable(1, []) && State(1, []) == Boot(1) by { NilRun(1); }
    BootRuns(1);
    var s := Boot(1);
    SwitchAt(s, Dispatch(0), 1);
    Snoc(1, [], Dispatch(0));
    var t := State(1, [] + [Dispatch(0)]);
    CallAt(t, Kill(0), 0);
    CallAt(t, Kill(0), 1);
    CallKeeps(t, 0);
    InvStep(t, Kill(0));
    Snoc(1, [] + [Dispatch(0)], Kill(0));
    acts := [] + [Dispatch(0)] + [Kill(0)];
    var u := State(1, acts);
    assert Starts(u, ForkStart(0), 1);
    ForkAt(u, ForkStart(0), 1);
    Snoc(1, acts, ForkStart(0));
    acts := acts + [ForkStart(0)];
  }

  lemma NilRun(ncpu: nat)
    ensures Reachable(ncpu, []) && State(ncpu, []) == Boot(ncpu)
  {
  }

  lemma CallKeeps(s: Sys, pid: nat)
    requires Shape(s)
    ensures Do(s, Kill(pid)).cpus == s.cpus && Do(s, Kill(pid)).nextpid == s.nextpid
  {
  }

  // Which state each slot is in.

  datatype Life = Absent | Present | Dead

  /** A slot is taken by allocproc and given back by a failed fork or by the parent's wait, which it
      comes to by way of exit. */
  ghost function LifeOf(s: Sys, acts: seq<Action>, i: nat): Life
    requires IsRun(s, acts) && i < NPROC
  {
    if acts == [] then (if i == s.init then Present else Absent)
    else
      var n := |acts| - 1;
      var m, a := After(s, acts[..n]), acts[n];
      if Starts(m, a, i) then Present
      else if Reaps(m, a, i) || (a.ForkFail? && Forking(m, a.c) && NewSlot(m, a.c) == i) then Absent
      else if a.Exit? && Runs(m, a.c, i) then Dead
      else LifeOf(s, acts[..n], i)
  }

  ghost predicate LifeIs(p: Proc, l: Life) {
    (p.state == UNUSED <==> l == Absent) && (p.state == ZOMBIE <==> l == Dead)
  }

  lemma LifeStep(s: Sys, a: Action, i: nat, l: Life)
    requires Inv(s) && Enabled(s, a) && i < NPROC && LifeIs(s.procs[i], l)
    ensures |Do(s, a).procs| == NPROC
    ensures LifeIs(Do(s, a).procs[i],
                   if Starts(s, a, i) then Present
                   else if Reaps(s, a, i) || (a.ForkFail? && Forking(s, a.c) && NewSlot(s, a.c) == i) then Absent
                   else if a.Exit? && Runs(s, a.c, i) then Dead
                   else l)
  {
    hide FamilyInv, WaitInv, GroupInv, PidInv, CpuInv, ForkInv, Do, PickGroup, PickProc, Picked;
    if a.Dispatch? || a.Yield? || a.Sleep? || a.WaitSleep? || a.Exit? {
      SwitchAt(s, a, i);
      if !a.Dispatch? {
        RunningOn(s, a.c);
      }
    } else if a.Wakeup? || a.Kill? || a.SetGroup? || a.TimerTick? {
      CallAt(s, a, i);
    } else {
      ForkAt(s, a, i);
      if !a.Reap? {
        RunningOn(s, a.c);
      }
      if !a.Reap? && !a.ForkStart? {
        ForkOf(s, s.cpus[a.c].p);
      }
    }
  }

  lemma {:induction false} LifeExact(ncpu: nat, acts: seq<Action>, i: nat)
    requires Reachable(ncpu, acts) && i < NPROC
    ensures LifeIs(State(ncpu, acts).procs[i], LifeOf(Boot(ncpu), acts, i))
  {
    hide FamilyInv, WaitInv, ForkInv, PidInv, GroupInv, CpuInv, Enabled, Do, Starts, Reaps, LifeIs, Forking;
    if acts == [] {
      assert LifeIs(Boot(ncpu).procs[i], if i == 0 then Present else Absent) by { BootLife(ncpu, i); }
    } else {
      var n := |acts| - 1;
      LifeExact(ncpu, acts[..n], i);
      ReachableInv(ncpu, acts[..n]);
      LifeStep(After(Boot(ncpu), acts[..n]), acts[n], i, LifeOf(Boot(ncpu), acts[..n], i));
    }
  }

  lemma BootLife(ncpu: nat, i: nat)
    requires i < NPROC
    ensures LifeIs(Boot(ncpu).procs[i], if i == 0 then Present else Absent)
  {
  }

  /** The state of every slot in every reachable state, without a word about states: absent or dead by
      its history, on a CPU, being filled by a fork, asleep by its history, and otherwise runnable. */
  lemma StateExact(ncpu: nat, acts: seq<Action>, i: nat)
    requires Reachable(ncpu, acts) && i < NPROC
    ensures var s := State(ncpu, acts);
            var l := LifeOf(Boot(ncpu), acts, i);
            s.procs[i].state ==
              if l == Absent then UNUSED
              else if l == Dead then ZOMBIE
              else if exists c | 0 <= c < |s.cpus| :: RunsOn(s, c, i) then RUNNING
              else if exists p | 0 <= p < NPROC :: s.procs[p].np == Some(i) then EMBRYO
              else if RestOf(Boot(ncpu), acts, i) != Up then SLEEPING
              else RUNNABLE
  {
    hide FamilyInv, WaitInv, PidInv, GroupInv, LifeOf, RestOf;
    ReachableInv(ncpu, acts);
    LifeExact(ncpu, acts, i);
    SleepersExact(ncpu, acts, i);
    OneCpuEach(ncpu, acts, i);
  }

  // Parents and process ids.

  /** Forks so far. */
  ghost function Forks(acts: seq<Action>): nat {
    if acts == [] then 0 else Forks(acts[..|acts| - 1]) + if acts[|acts| - 1].ForkStart? then 1 else 0
  }

  /** The parent and the pid of a slot: fork writes both, exit passes the children to init, and wait
      clears both. */
  ghost function KinOf(s: Sys, acts: seq<Action>, i: nat): (Option<nat>, nat)
    requires IsRun(s, acts) && i < NPROC
  {
    if acts == [] then (None, if i == s.init then 1 else 0)
    else
      var n := |acts| - 1;
      var m, a := After(s, acts[..n]), acts[n];
      KinAfter(m, a, i, KinOf(s, acts[..n], i), 2 + Forks(acts[..n]))
  }

  ghost function KinAfter(s: Sys, a: Action, i: nat, kin: (Option<nat>, nat), next: nat): (Option<nat>, nat) {
    if Starts(s, a, i) then (kin.0, next)
    else if Reaps(s, a, i) then (None, 0)
    else if a.ForkParent? && Forking(s, a.c) && NewSlot(s, a.c) == i then (Some(s.cpus[a.c].p), kin.1)
    else if a.Exit? && OnCpu(s, a.c) && kin.0 == Some(s.cpus[a.c].p) then (Some(s.init), kin.1)
    else kin
  }

  lemma KinStep(s: Sys, a: Action, i: nat)
    requires Inv(s) && Enabled(s, a) && i < NPROC
    ensures |Do(s, a).procs| == NPROC && Do(s, a).init == s.init
    ensures (Do(s, a).procs[i].parent, Do(s, a).procs[i].pid)
            == KinAfter(s, a, i, (s.procs[i].parent, s.procs[i].pid), s.nextpid)
    ensures Do(s, a).nextpid == s.nextpid + if a.ForkStart? then 1 else 0
  {
    hide FamilyInv, WaitInv, GroupInv, PidInv, CpuInv, ForkInv, PickGroup, PickProc, Picked, ProcMachine.Exited,
         Ensured,
         HasZombieChild;
    NextPid(s, a);
    hide Do;
    if a.Dispatch? || a.Yield? || a.Sleep? || a.WaitSleep? || a.Exit? {
      SwitchAt(s, a, i);
    } else if a.Wakeup? || a.Kill? || a.SetGroup? || a.TimerTick? {
      CallAt(s, a, i);
    } else {
      ForkAt(s, a, i);
    }
  }

  lemma NextPid(s: Sys, a: Action)
    requires Inv(s) && Enabled(s, a)
    ensures Do(s, a).nextpid == s.nextpid + if a.ForkStart? then 1 else 0
    ensures Do(s, a).init == s.init
  {
    hide FamilyInv, WaitInv, GroupInv, PidInv, CpuInv, ForkInv, PickGroup, PickProc, ProcMachine.Exited, Ensured,
         HasZombieChild;
  }

  /** In every reachable state each slot shows the parent and the pid its history gives it, and pids are
      given out in order. */
  lemma {:induction false} KinExact(ncpu: nat, acts: seq<Action>, i: nat)
    requires Reachable(ncpu, acts) && i < NPROC
    ensures (State(ncpu, acts).procs[i].parent, State(ncpu, acts).procs[i].pid) == KinOf(Boot(ncpu), acts, i)
    ensures State(ncpu, acts).nextpid == 2 + Forks(acts) && State(ncpu, acts).init == 0
  {
    hide FamilyInv, WaitInv, ForkInv, PidInv, GroupInv, CpuInv, Enabled, Do, KinAfter;
    if acts != [] {
      var n := |acts| - 1;
      KinExact(ncpu, acts[..n], i);
      ReachableInv(ncpu, acts[..n]);
      KinStep(After(Boot(ncpu), acts[..n]), acts[n], i);
    }
  }
}
