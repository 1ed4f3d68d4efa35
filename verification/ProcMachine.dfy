/** Processes, groups and CPUs of kernel/proc.c as a step machine: every region under ptable.lock
    is one step, on any number of CPUs, and so is each of the writes fork makes without the lock. A
    region that ends in sched() includes the scheduler's clean-up after swtch, since the lock is held
    across it. */
module ProcMachine {
  import opened Basics

  const NPROC := 64
  const NGROUPS := 16
  const FSS_BIG := 100000

  datatype PState = UNUSED | EMBRYO | SLEEPING | RUNNABLE | RUNNING | ZOMBIE

  /** Sleep channels: wait and waitx sleep on the address of the process itself. */
  datatype Chan = NoChan | OnProc(slot: nat) | Other(id: nat)

  /** struct proc, and two of fork's own: np is the slot a fork in progress has allocated but not
      yet published, a local variable of the forking process, and filled counts how far fork has got
      with setting the slot's group. */
  datatype Proc = Proc(
    state: PState, pid: nat, parent: Option<nat>, chan: Chan, killed: bool, gid: int,
    rtime: nat, wtime: nat, stime: nat, np: Option<nat>, filled: nat)

  datatype Group = Group(gid: int, active: bool, pass: nat, stride: nat, rr: nat)

  /** c->proc together with the scheduler's local g. */
  datatype Cpu = Idle | Busy(p: nat, g: nat)

  /** What wait and waitx have returned so far. */
  datatype Reaped = Reaped(pid: nat, wtime: nat, rtime: nat)

  datatype Sys = Sys(procs: seq<Proc>, groups: seq<Group>, cpus: seq<Cpu>, nextpid: nat, init: nat, reaped: seq<Reaped>)

  ghost predicate Shape(s: Sys) {
    && |s.procs| == NPROC && |s.groups| == NGROUPS && s.init < NPROC
    && (forall c | 0 <= c < |s.cpus| && s.cpus[c].Busy? :: s.cpus[c].p < NPROC && s.cpus[c].g < NGROUPS)
    && (forall i | 0 <= i < NPROC && s.procs[i].np.Some? :: s.procs[i].np.value < NPROC)
  }

  // Searching tables.

  /** The first index at or after i whose element satisfies f, or |s|. */
  function First<T>(s: seq<T>, f: T -> bool, i: nat): (r: nat)
    requires i <= |s|
    ensures i <= r <= |s|
    ensures r < |s| ==> f(s[r])
    ensures forall k | i <= k < r :: !f(s[k])
    decreases |s| - i
  {
    if i == |s| || f(s[i]) then i else First(s, f, i + 1)
  }

  // Groups.

  predicate IsGroup(g: Group, gid: int) { g.active && g.gid == gid }

  /** fss_group_lookup */
  function Lookup(groups: seq<Group>, gid: int): nat {
    First(groups, (g: Group) => IsGroup(g, gid), 0)
  }

  function FreeGroup(groups: seq<Group>): nat {
    First(groups, (g: Group) => !g.active, 0)
  }

  function NewGroup(gid: int): Group { Group(gid, true, 0, FSS_BIG, 0) }

  /** fss_group_ensure: the table afterwards. */
  function Ensured(groups: seq<Group>, gid: int): (r: seq<Group>)
    ensures |r| == |groups|
  {
    if Lookup(groups, gid) < |groups| then groups
    else if FreeGroup(groups) < |groups| then groups[FreeGroup(groups) := NewGroup(gid)]
    else groups
  }

  predicate IsRunnable(p: Proc, gid: int) { p.state == RUNNABLE && p.gid == gid }

  /** fss_group_has_runnable */
  predicate HasRunnable(procs: seq<Proc>, gid: int) {
    exists i | 0 <= i < |procs| :: IsRunnable(procs[i], gid)
  }

  predicate Eligible(procs: seq<Proc>, g: Group) { g.active && HasRunnable(procs, g.gid) }

  predicate Better(g: Group, h: Group) { g.pass < h.pass || (g.pass == h.pass && g.gid < h.gid) }

  /** fss_pick_group over the first k groups: |groups| stands for a null best. */
  function PickGroup(procs: seq<Proc>, groups: seq<Group>, k: nat): (r: nat)
    requires k <= |groups|
    ensures r < k || r == |groups|
  {
    if k == 0 then |groups|
    else
      var best := PickGroup(procs, groups, k - 1);
      if Eligible(procs, groups[k - 1]) && (best == |groups| || Better(groups[k - 1], groups[best]))
      then k - 1 else best
  }

  /** fss_pick_proc_in_group: the first runnable process of the group from slot start, cyclically,
      after j steps; NPROC if there is none. */
  function PickProc(procs: seq<Proc>, gid: int, start: nat, j: nat): (r: nat)
    requires |procs| == NPROC && j <= NPROC
    ensures r <= NPROC
    decreases NPROC - j
  {
    if j == NPROC then NPROC
    else if IsRunnable(procs[(start + j) % NPROC], gid) then (start + j) % NPROC
    else PickProc(procs, gid, start, j + 1)
  }

  // Processes.

  function Woken(p: Proc, chan: Chan): Proc {
    if p.state == SLEEPING && p.chan == chan then p.(state := RUNNABLE) else p
  }

  /** wakeup1 */
  function Wakeup1(procs: seq<Proc>, chan: Chan): (r: seq<Proc>)
    ensures |r| == |procs|
  {
    seq(|procs|, i requires 0 <= i < |procs| => Woken(procs[i], chan))
  }

  predicate IsChild(p: Proc, q: nat) { p.parent == Some(q) }

  predicate IsZombieChild(p: Proc, q: nat) { IsChild(p, q) && p.state == ZOMBIE }

  predicate HasZombieChild(procs: seq<Proc>, q: nat) {
    exists i | 0 <= i < |procs| :: IsZombieChild(procs[i], q)
  }

  function Adopted(p: Proc, q: nat, init: nat): Proc {
    if IsChild(p, q) then p.(parent := Some(init)) else p
  }

  /** exit's loop: the children of q pass to init. */
  function Adopt(procs: seq<Proc>, q: nat, init: nat): (r: seq<Proc>)
    ensures |r| == |procs|
  {
    seq(|procs|, i requires 0 <= i < |procs| => Adopted(procs[i], q, init))
  }

  /** exit, between acquire and sched: wake the parent, hand the children to init and wake it if one
      of them is a zombie, become a zombie. */
  function Exited(procs: seq<Proc>, q: nat, init: nat): (r: seq<Proc>)
    requires q < |procs|
    ensures |r| == |procs|
  {
    var a := if procs[q].parent.Some? then Wakeup1(procs, OnProc(procs[q].parent.value)) else procs;
    var b := Adopt(a, q, init);
    var c := if HasZombieChild(procs, q) then Wakeup1(b, OnProc(init)) else b;
    c[q := c[q].(state := ZOMBIE)]
  }

  /** tick_accounting on one process. */
  function Ticked(p: Proc): Proc {
    match p.state
    case RUNNING => p.(rtime := p.rtime + 1)
    case RUNNABLE => p.(wtime := p.wtime + 1)
    case SLEEPING => p.(stime := p.stime + 1)
    case _ => p
  }

  function Tick(procs: seq<Proc>): (r: seq<Proc>)
    ensures |r| == |procs|
  {
    seq(|procs|, i requires 0 <= i < |procs| => Ticked(procs[i]))
  }

  /** wait and waitx on the child they found: wait leaves the time counters, waitx clears them. */
  function Freed(p: Proc, clear: bool): Proc {
    var q := p.(state := UNUSED, pid := 0, parent := None, killed := false);
    if clear then q.(rtime := 0, wtime := 0, stime := 0) else q
  }

  function FirstZombieChild(procs: seq<Proc>, q: nat): nat {
    First(procs, (p: Proc) => IsZombieChild(p, q), 0)
  }

  function FirstUnused(procs: seq<Proc>): nat {
    First(procs, (p: Proc) => p.state == UNUSED, 0)
  }

  function FirstPid(procs: seq<Proc>, pid: nat): nat {
    First(procs, (p: Proc) => p.pid == pid, 0)
  }

  function FirstLivePid(procs: seq<Proc>, pid: nat): nat {
    First(procs, (p: Proc) => p.pid == pid && p.state != UNUSED, 0)
  }

  /** allocproc on the slot it found. */
  function Alloced(p: Proc, pid: nat): Proc {
    p.(state := EMBRYO, pid := pid, gid := 0, rtime := 0, wtime := 0, stime := 0, filled := 0)
  }

  function Killed(p: Proc): Proc {
    p.(killed := true, state := if p.state == SLEEPING then RUNNABLE else p.state)
  }

  // Steps.

  datatype Action =
    | Dispatch(c: nat)
    | Yield(c: nat)
    | Sleep(c: nat, chan: nat)
    | WaitSleep(c: nat)
    | Exit(c: nat)
    | Reap(c: nat, x: bool)
    | ForkStart(c: nat)
    | ForkFail(c: nat)
    | ForkParent(c: nat)
    | ForkGid(c: nat)
    | ForkEnsure(c: nat)
    | ForkDone(c: nat)
    | Wakeup(chan: nat)
    | Kill(pid: nat)
    | SetGroup(pid: nat, gid: int)
    | TimerTick

  predicate OnCpu(s: Sys, c: nat) { c < |s.cpus| && s.cpus[c].Busy? && s.cpus[c].p < |s.procs| }

  /** The process on CPU c is not in the middle of fork. */
  predicate Free(s: Sys, c: nat) { OnCpu(s, c) && s.procs[s.cpus[c].p].np.None? }

  predicate Forking(s: Sys, c: nat) {
    OnCpu(s, c) && s.procs[s.cpus[c].p].np.Some? && s.procs[s.cpus[c].p].np.value < |s.procs|
  }

  /** The slot the process on CPU c is forking into. */
  function NewSlot(s: Sys, c: nat): nat
    requires Forking(s, c)
  {
    s.procs[s.cpus[c].p].np.value
  }

  /** The slot has its parent, and fork has taken k of the two steps that set its group. */
  predicate Filling(s: Sys, c: nat, k: nat) {
    Forking(s, c) && s.procs[NewSlot(s, c)].parent.Some? && s.procs[NewSlot(s, c)].filled == k
  }

  predicate Enabled(s: Sys, a: Action) {
    match a
    case Dispatch(c) =>
      c < |s.cpus| && s.cpus[c].Idle? && PickGroup(s.procs, s.groups, |s.groups|) < |s.groups|
    case Yield(c) => OnCpu(s, c)
    case Sleep(c, _) => Free(s, c)
    case WaitSleep(c) =>
      && Free(s, c)
      && !HasZombieChild(s.procs, s.cpus[c].p)
      && (exists i | 0 <= i < |s.procs| :: IsChild(s.procs[i], s.cpus[c].p))
      && !s.procs[s.cpus[c].p].killed
    case Exit(c) => Free(s, c) && s.cpus[c].p != s.init
    case Reap(c, _) => Free(s, c) && HasZombieChild(s.procs, s.cpus[c].p)
    case ForkStart(c) => Free(s, c) && FirstUnused(s.procs) < |s.procs|
    case ForkFail(c) => Forking(s, c) && s.procs[NewSlot(s, c)].parent.None?
    case ForkParent(c) => Forking(s, c) && s.procs[NewSlot(s, c)].parent.None?
    case ForkGid(c) => Filling(s, c, 0)
    case ForkEnsure(c) => Filling(s, c, 1)
    case ForkDone(c) => Filling(s, c, 2)
    case Wakeup(_) => true
    case Kill(_) => true
    case SetGroup(_, gid) => gid >= 0
    case TimerTick => true
  }

  /** g->pass += g->stride, in 32 bits. */
  function Charged(g: Group): Group { g.(pass := (g.pass + g.stride) % UINT_LIMIT) }

  /** The process on CPU c, now in table procs, has left it: c->proc = 0 and the group is charged. */
  function Left(s: Sys, c: nat, procs: seq<Proc>): Sys
    requires OnCpu(s, c) && s.cpus[c].g < |s.groups|
  {
    var g := s.cpus[c].g;
    s.(procs := procs, cpus := s.cpus[c := Idle], groups := s.groups[g := Charged(s.groups[g])])
  }

  function SetProc(s: Sys, i: nat, p: Proc): Sys
    requires i < |s.procs|
  {
    s.(procs := s.procs[i := p])
  }

  ghost function Do(s: Sys, a: Action): Sys
    requires Shape(s) && Enabled(s, a)
  {
    match a
    case Dispatch(c) =>
      var g := PickGroup(s.procs, s.groups, NGROUPS);
      var p := PickProc(s.procs, s.groups[g].gid, s.groups[g].rr % NPROC, 0);
      if p == NPROC then s
      else
        s.(procs := s.procs[p := s.procs[p].(state := RUNNING, chan := NoChan)],
           groups := s.groups[g := s.groups[g].(rr := (p + 1) % NPROC)],
           cpus := s.cpus[c := Busy(p, g)])
    case Yield(c) =>
      var p := s.cpus[c].p;
      Left(s, c, s.procs[p := s.procs[p].(state := RUNNABLE)])
    case Sleep(c, chan) =>
      var p := s.cpus[c].p;
      Left(s, c, s.procs[p := s.procs[p].(state := SLEEPING, chan := Other(chan))])
    case WaitSleep(c) =>
      var p := s.cpus[c].p;
      Left(s, c, s.procs[p := s.procs[p].(state := SLEEPING, chan := OnProc(p))])
    case Exit(c) => Left(s, c, Exited(s.procs, s.cpus[c].p, s.init))
    case Reap(c, x) =>
      var z := FirstZombieChild(s.procs, s.cpus[c].p);
      if z == NPROC then s
      else
        SetProc(s, z, Freed(s.procs[z], x))
          .(reaped := s.reaped + [Reaped(s.procs[z].pid, s.procs[z].wtime, s.procs[z].rtime)])
    case ForkStart(c) =>
      var i := FirstUnused(s.procs);
      var p := s.cpus[c].p;
      s.(procs := s.procs[i := Alloced(s.procs[i], s.nextpid)][p := s.procs[p].(np := Some(i))],
         nextpid := s.nextpid + 1, groups := Ensured(s.groups, 0))
    case ForkFail(c) =>
      var p := s.cpus[c].p;
      var e := s.procs[p].np.value;
      s.(procs := s.procs[e := s.procs[e].(state := UNUSED)][p := s.procs[p].(np := None)])
    case ForkParent(c) =>
      var e := NewSlot(s, c);
      SetProc(s, e, s.procs[e].(parent := Some(s.cpus[c].p)))
    case ForkGid(c) =>
      var e := NewSlot(s, c);
      SetProc(s, e, s.procs[e].(gid := s.procs[s.cpus[c].p].gid, filled := 1))
    case ForkEnsure(c) =>
      var e := NewSlot(s, c);
      SetProc(s, e, s.procs[e].(filled := 2)).(groups := Ensured(s.groups, s.procs[e].gid))
    case ForkDone(c) =>
      var p := s.cpus[c].p;
      var e := NewSlot(s, c);
      s.(procs := s.procs[e := s.procs[e].(state := RUNNABLE)][p := s.procs[p].(np := None)])
    case Wakeup(chan) => s.(procs := Wakeup1(s.procs, Other(chan)))
    case Kill(pid) =>
      var i := FirstPid(s.procs, pid);
      if i == NPROC then s else SetProc(s, i, Killed(s.procs[i]))
    case SetGroup(pid, gid) =>
      var t := s.(groups := Ensured(s.groups, gid));
      var i := FirstLivePid(s.procs, pid);
      if Lookup(t.groups, gid) == NGROUPS || i == NPROC then t
      else SetProc(t, i, s.procs[i].(gid := gid))
    case TimerTick => s.(procs := Tick(s.procs))
  }

  /** A run: each action enabled where it is taken. */
  ghost predicate IsRun(s: Sys, acts: seq<Action>)
    decreases |acts|, 0
  {
    acts == [] ||
    (var n := |acts| - 1;
     && IsRun(s, acts[..n])
     && Shape(After(s, acts[..n]))
     && Enabled(After(s, acts[..n]), acts[n]))
  }

  ghost function After(s: Sys, acts: seq<Action>): Sys
    requires IsRun(s, acts)
    decreases |acts|, 1
  {
    if acts == [] then s
    else
      var n := |acts| - 1;
      Do(After(s, acts[..n]), acts[n])
  }

  // Boot: pinit and userinit.

  function BlankProc(): Proc { Proc(UNUSED, 0, None, NoChan, false, 0, 0, 0, 0, None, 0) }

  function BlankGroup(): Group { Group(0, false, 0, FSS_BIG, 0) }

  function BootProc(i: nat): Proc {
    if i == 0 then BlankProc().(state := RUNNABLE, pid := 1) else BlankProc()
  }

  function BootGroup(i: nat): Group { if i == 0 then NewGroup(0) else BlankGroup() }

  function Boot(ncpu: nat): Sys {
    Sys(seq(NPROC, i requires 0 <= i < NPROC => BootProc(i)), seq(NGROUPS, i requires 0 <= i < NGROUPS => BootGroup(i)),
        seq(ncpu, i => Idle), 2, 0, [])
  }
}
