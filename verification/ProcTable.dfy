/** kernel/proc.c as it is written: tables scanned and updated in place. Each method between acquire
    and release takes one step of the machine. */
module ProcTable {
  import opened Basics
  import opened ProcMachine
  import opened ProcInv

  /** What one scan of wait or waitx finds. */
  /** What one scan of wait finds for process p: a dead child, nothing to wait for, or neither. */
  ghost predicate ScanIs(procs: seq<Proc>, p: nat, r: Scan)
    requires p < |procs|
  {
    var dead := exists i | 0 <= i < |procs| :: procs[i].parent == Some(p) && procs[i].state == ZOMBIE;
    var kids := exists i | 0 <= i < |procs| :: procs[i].parent == Some(p);
    && (r.Found? <==> dead)
    && (r.Nothing? <==> !dead && (!kids || procs[p].killed))
    && (r.KeepWaiting? <==> !dead && kids && !procs[p].killed)
  }

  datatype Scan = Found(pid: nat, wtime: nat, rtime: nat) | Nothing | KeepWaiting

  /** Action a takes s to t. */
  ghost predicate Takes(s: Sys, a: Action, t: Sys) { Shape(s) && Enabled(s, a) && t == Do(s, a) }

  lemma FirstIs<T>(s: seq<T>, f: T -> bool, i: nat)
    requires i <= |s| && (forall k | 0 <= k < i :: !f(s[k])) && (i < |s| ==> f(s[i]))
    ensures First(s, f, 0) == i
  {
  }

  class Ptable {
    const proc: array<Proc>
    const gtable: array<Group>
    const cpus: array<Cpu>
    var nextpid: nat
    const initproc: nat
    ghost var reaped: seq<Reaped>

    ghost predicate Valid()
      reads this, proc, gtable, cpus
    {
      Inv(View())
    }

    ghost function View(): Sys
      reads this, proc, gtable, cpus
    {
      Sys(proc[..], gtable[..], cpus[..], nextpid, initproc, reaped)
    }

    /** pinit and userinit. */
    constructor (ncpu: nat)
      ensures Valid() && View() == Boot(ncpu) && fresh(proc) && fresh(gtable) && fresh(cpus)
    {
      proc := new Proc[NPROC](i requires 0 <= i < NPROC => BootProc(i));
      gtable := new Group[NGROUPS](i requires 0 <= i < NGROUPS => BootGroup(i));
      cpus := new Cpu[ncpu](i => Idle);
      nextpid, initproc, reaped := 2, 0, [];
      new;
      BootInv(ncpu);
      assert proc[..] == Boot(ncpu).procs;
      assert gtable[..] == Boot(ncpu).groups;
      assert cpus[..] == Boot(ncpu).cpus;
    }

    // Groups.

    method GroupLookup(gid: int) returns (r: nat)
      ensures r == Lookup(gtable[..], gid)
    {
      r := 0;
      while r < gtable.Length
        invariant r <= gtable.Length
        invariant forall k | 0 <= k < r :: !IsGroup(gtable[k], gid)
      {
        if gtable[r].active && gtable[r].gid == gid {
          break;
        }
        r := r + 1;
      }
      FirstIs(gtable[..], (g: Group) => IsGroup(g, gid), r);
    }

    method GroupEnsure(gid: int) returns (r: nat)
      modifies gtable
      ensures gtable[..] == Ensured(old(gtable[..]), gid)
      ensures r == Lookup(gtable[..], gid)
    {
      r := GroupLookup(gid);
      if r < gtable.Length {
        return;
      }
      var i := 0;
      while i < gtable.Length
        invariant i <= gtable.Length && gtable[..] == old(gtable[..])
        invariant forall k | 0 <= k < i :: gtable[k].active
      {
        if !gtable[i].active {
          FirstIs(gtable[..], (g: Group) => !g.active, i);
          assert forall k | 0 <= k < i :: !IsGroup(gtable[k], gid);
          gtable[i] := Group(gid, true, 0, FSS_BIG, 0);
          assert gtable[..] == old(gtable[..])[i := NewGroup(gid)];
          FirstIs(gtable[..], (g: Group) => IsGroup(g, gid), i);
          return i;
        }
        i := i + 1;
      }
      FirstIs(gtable[..], (g: Group) => !g.active, i);
    }

    method GroupHasRunnable(gid: int) returns (r: bool)
      ensures r == HasRunnable(proc[..], gid)
    {
      var i := 0;
      while i < proc.Length
        invariant i <= proc.Length
        invariant forall k | 0 <= k < i :: !IsRunnable(proc[k], gid)
      {
        if proc[i].state == RUNNABLE && proc[i].gid == gid {
          assert IsRunnable(proc[..][i], gid);
          return true;
        }
        i := i + 1;
      }
      return false;
    }

    method PickBestGroup() returns (best: nat)
      ensures best == PickGroup(proc[..], gtable[..], gtable.Length)
    {
      best := gtable.Length;
      for i := 0 to gtable.Length
        invariant best == PickGroup(proc[..], gtable[..], i)
      {
        if gtable[i].active {
          var has := GroupHasRunnable(gtable[i].gid);
          if has {
            if best == gtable.Length || gtable[i].pass < gtable[best].pass
               || (gtable[i].pass == gtable[best].pass && gtable[i].gid < gtable[best].gid) {
              best := i;
            }
          }
        }
      }
    }

    method PickProcIn(g: nat) returns (p: nat)
      requires proc.Length == NPROC && g < gtable.Length
      modifies gtable
      ensures p == PickProc(proc[..], old(gtable[g].gid), old(gtable[g].rr) % NPROC, 0)
      ensures gtable[..] == if p == NPROC then old(gtable[..])
                            else old(gtable[..])[g := old(gtable[g]).(rr := (p + 1) % NPROC)]
    {
      var start := gtable[g].rr % NPROC;
      var j := 0;
      while j < NPROC
        invariant j <= NPROC && gtable[..] == old(gtable[..])
        invariant PickProc(proc[..], gtable[g].gid, start, 0) == PickProc(proc[..], gtable[g].gid, start, j)
      {
        var i := (start + j) % NPROC;
        if proc[i].state == RUNNABLE && proc[i].gid == gtable[g].gid {
          gtable[g] := gtable[g].(rr := (i + 1) % NPROC);
          return i;
        }
        j := j + 1;
      }
      return NPROC;
    }

    // Scheduling.

    /** scheduler, from acquire to swtch. */
    method Dispatch(c: nat) returns (ok: bool)
      requires Valid() && c < cpus.Length && cpus[c].Idle?
      modifies proc, gtable, cpus
      ensures Valid() && (ok <==> old(Enabled(View(), Action.Dispatch(c))))
      ensures if ok then Takes(old(View()), Action.Dispatch(c), View()) else View() == old(View())
    {
      hide CpuInv, FamilyInv, WaitInv, ForkInv, PidInv, PickGroup, PickProc, Eligible;
      ghost var s := View();
      var g := PickBestGroup();
      if g == gtable.Length {
        return false;
      }
      DispatchPicks(s);
      var p := PickProcIn(g);
      cpus[c] := Busy(p, g);
      proc[p] := proc[p].(state := RUNNING, chan := NoChan);
      InvStep(s, Action.Dispatch(c));
      return true;
    }

    /** scheduler, from swtch to release. */
    method Return(c: nat)
      requires Shape(View()) && c < cpus.Length && cpus[c].Busy?
      modifies gtable, cpus
      ensures View() == Left(old(View()), c, proc[..])
    {
      var g := cpus[c].g;
      cpus[c] := Idle;
      gtable[g] := Charged(gtable[g]);
    }

    method Yield(c: nat)
      requires Valid() && c < cpus.Length && cpus[c].Busy?
      modifies proc, gtable, cpus
      ensures Valid() && Takes(old(View()), Action.Yield(c), View())
    {
      hide CpuInv, FamilyInv, WaitInv, ForkInv, PidInv, GroupInv;
      InvStep(View(), Action.Yield(c));
      var p := cpus[c].p;
      proc[p] := proc[p].(state := RUNNABLE);
      Return(c);
    }

    /** sleep on a channel other than a process. */
    method Sleep(c: nat, chan: nat)
      requires Valid() && Free(View(), c)
      modifies proc, gtable, cpus
      ensures Valid() && Takes(old(View()), Action.Sleep(c, chan), View())
    {
      hide CpuInv, FamilyInv, WaitInv, ForkInv, PidInv, GroupInv;
      InvStep(View(), Action.Sleep(c, chan));
      var p := cpus[c].p;
      proc[p] := proc[p].(state := SLEEPING, chan := Other(chan));
      Return(c);
    }

    method WakeupAll(chan: Chan)
      modifies proc
      ensures proc[..] == Wakeup1(old(proc[..]), chan)
    {
      for i := 0 to proc.Length
        invariant forall k | 0 <= k < i :: proc[k] == Woken(old(proc[k]), chan)
        invariant forall k | i <= k < proc.Length :: proc[k] == old(proc[k])
      {
        if proc[i].state == SLEEPING && proc[i].chan == chan {
          proc[i] := proc[i].(state := RUNNABLE);
        }
      }
    }

    method Wakeup(chan: nat)
      requires Valid()
      modifies proc
      ensures Valid() && Takes(old(View()), Action.Wakeup(chan), View())
    {
      hide CpuInv, FamilyInv, WaitInv, ForkInv, PidInv, GroupInv;
      InvStep(View(), Action.Wakeup(chan));
      WakeupAll(Other(chan));
    }

    // Fork.

    /** allocproc up to the release, by the process on CPU c. */
    method AllocProc(c: nat) returns (i: nat)
      requires Valid() && Free(View(), c)
      modifies this`nextpid, proc, gtable
      ensures Valid() && (i < NPROC <==> old(Enabled(View(), ForkStart(c))))
      ensures if i < NPROC then Takes(old(View()), ForkStart(c), View()) else View() == old(View())
    {
      hide FamilyInv, WaitInv, ForkInv, PidInv, GroupInv, Ensured, First, CpuInv;
      ghost var s := View();
      RunningOn(s, c);
      i := 0;
      while i < NPROC && proc[i].state != UNUSED
        invariant i <= NPROC
        invariant forall k | 0 <= k < i :: proc[k].state != UNUSED
      {
        i := i + 1;
      }
      FirstIs(proc[..], (p: Proc) => p.state == UNUSED, i);
      if i == NPROC {
        return;
      }
      InvStep(s, ForkStart(c));
      var pid := nextpid;
      nextpid := nextpid + 1;
      var self := cpus[c].p;
      proc[i] := proc[i].(state := EMBRYO, pid := pid, gid := 0);
      var g := GroupEnsure(0);
      proc[i] := proc[i].(rtime := 0, wtime := 0, stime := 0, filled := 0);
      proc[self] := proc[self].(np := Some(i));
      assert proc[..] == s.procs[i := Alloced(s.procs[i], s.nextpid)][self := s.procs[self].(np := Some(i))];
    }

    /** fork giving its slot back. */
    method ForkFails(c: nat)
      requires Valid() && Enabled(View(), ForkFail(c))
      modifies proc
      ensures Valid() && Takes(old(View()), ForkFail(c), View())
    {
      hide CpuInv, FamilyInv, WaitInv, PidInv, GroupInv;
      ghost var s := View();
      InvStep(s, ForkFail(c));
      var self := cpus[c].p;
      var np := proc[self].np.value;
      proc[np] := proc[np].(state := UNUSED);
      proc[self] := proc[self].(np := None);
    }

    /** np->parent = curproc, without the lock. */
    method ForkSetParent(c: nat)
      requires Valid() && Enabled(View(), ForkParent(c))
      modifies proc
      ensures Valid() && Takes(old(View()), ForkParent(c), View())
    {
      hide CpuInv, FamilyInv, WaitInv, PidInv, GroupInv, ForkInv;
      InvStep(View(), ForkParent(c));
      var self := cpus[c].p;
      var np := proc[self].np.value;
      proc[np] := proc[np].(parent := Some(self));
    }

    /** np->gid = curproc->gid, without the lock. */
    method ForkSetGid(c: nat)
      requires Valid() && Enabled(View(), ForkGid(c))
      modifies proc
      ensures Valid() && Takes(old(View()), ForkGid(c), View())
    {
      hide CpuInv, FamilyInv, WaitInv, PidInv, GroupInv, ForkInv;
      InvStep(View(), ForkGid(c));
      var self := cpus[c].p;
      var np := proc[self].np.value;
      proc[np] := proc[np].(gid := proc[self].gid, filled := 1);
    }

    /** fss_group_ensure(np->gid), without the lock. */
    method ForkEnsureGroup(c: nat)
      requires Valid() && Enabled(View(), ForkEnsure(c))
      modifies gtable, proc
      ensures Valid() && Takes(old(View()), ForkEnsure(c), View())
    {
      hide CpuInv, FamilyInv, WaitInv, PidInv, GroupInv, ForkInv, Ensured;
      InvStep(View(), ForkEnsure(c));
      var np := proc[cpus[c].p].np.value;
      var g := GroupEnsure(proc[np].gid);
      proc[np] := proc[np].(filled := 2);
    }

    /** fork making the child runnable. */
    method ForkPublishes(c: nat) returns (pid: nat)
      requires Valid() && Enabled(View(), ForkDone(c))
      modifies proc
      ensures pid == old(View()).procs[NewSlot(old(View()), c)].pid
      ensures Valid() && Takes(old(View()), ForkDone(c), View())
    {
      hide CpuInv, FamilyInv, WaitInv, PidInv, GroupInv;
      ghost var s := View();
      InvStep(s, ForkDone(c));
      var self := cpus[c].p;
      var np := proc[self].np.value;
      pid := proc[np].pid;
      proc[np] := proc[np].(state := RUNNABLE);
      proc[self] := proc[self].(np := None);
      assert proc[..] == s.procs[np := s.procs[np].(state := RUNNABLE)][self := s.procs[self].(np := None)];
    }

    // Exit and wait.

    /** exit's loop over the table. */
    method GiveToInit(self: nat)
      requires self < proc.Length && proc[self].state == RUNNING
      modifies proc
      ensures proc[..] == var b := Adopt(old(proc[..]), self, initproc);
                          if HasZombieChild(old(proc[..]), self) then Wakeup1(b, OnProc(initproc)) else b
    {
      ghost var was := proc[..];
      ghost var zombie := false;
      for i := 0 to proc.Length
        invariant zombie <==> exists k | 0 <= k < i :: IsZombieChild(was[k], self)
        invariant forall k | 0 <= k < i :: proc[k] == Handed(was[k], self, initproc, zombie)
        invariant forall k | i <= k < proc.Length ::
                    proc[k] == if zombie then Woken(was[k], OnProc(initproc)) else was[k]
      {
        if proc[i].parent == Some(self) {
          proc[i] := proc[i].(parent := Some(initproc));
          if proc[i].state == ZOMBIE {
            zombie := true;
            assert IsZombieChild(was[i], self);
            WakeupAll(OnProc(initproc));
          }
        }
      }
      assert zombie <==> HasZombieChild(was, self);
    }

    method Exit(c: nat)
      requires Valid() && Free(View(), c) && cpus[c].p != initproc
      modifies proc, gtable, cpus
      ensures Valid() && Takes(old(View()), Action.Exit(c), View())
    {
      hide FamilyInv, WaitInv, ForkInv, PidInv, GroupInv, HasZombieChild;
      ghost var s := View();
      RunningOn(s, c);
      InvStep(s, Action.Exit(c));
      var self := cpus[c].p;
      if proc[self].parent.Some? {
        WakeupAll(OnProc(proc[self].parent.value));
      }
      ghost var a := proc[..];
      SameZombies(s.procs, a, self);
      GiveToInit(self);
      proc[self] := proc[self].(state := ZOMBIE);
      Return(c);
    }

    /** One scan of wait, or of waitx if x. */
    method WaitScan(c: nat, x: bool) returns (r: Scan)
      requires Valid() && Free(View(), c)
      modifies this`reaped, proc
      ensures Valid()
      ensures ScanIs(old(View()).procs, old(cpus[c].p), r)
      ensures r.Found? <==> old(Enabled(View(), Reap(c, x)))
      ensures r.KeepWaiting? <==> old(Enabled(View(), Action.WaitSleep(c)))
      ensures if r.Found? then Takes(old(View()), Reap(c, x), View()) else View() == old(View())
      ensures r.Found? ==> reaped == old(reaped) + [Reaped(r.pid, r.wtime, r.rtime)]
    {
      hide CpuInv, FamilyInv, WaitInv, ForkInv, PidInv, GroupInv, First;
      ghost var s := View();
      var self := cpus[c].p;
      var havekids := false;
      var i := 0;
      while i < NPROC
        invariant i <= NPROC && View() == s
        invariant havekids <==> exists k | 0 <= k < i :: IsChild(proc[k], self)
        invariant forall k | 0 <= k < i :: !IsZombieChild(proc[k], self)
      {
        if proc[i].parent == Some(self) {
          assert IsChild(s.procs[i], self);
          havekids := true;
          if proc[i].state == ZOMBIE {
            assert IsZombieChild(s.procs[i], self);
            FirstIs(proc[..], (p: Proc) => IsZombieChild(p, self), i);
            InvStep(s, Reap(c, x));
            r := Found(proc[i].pid, proc[i].wtime, proc[i].rtime);
            reaped := reaped + [Reaped(r.pid, r.wtime, r.rtime)];
            proc[i] := proc[i].(pid := 0, parent := None, killed := false, state := UNUSED);
            if x {
              proc[i] := proc[i].(rtime := 0, wtime := 0, stime := 0);
            }
            assert proc[..] == s.procs[i := Freed(s.procs[i], x)];
            return;
          }
        }
        i := i + 1;
      }
      assert !HasZombieChild(s.procs, self);
      r := if !havekids || proc[self].killed then Nothing else KeepWaiting;
    }

    /** wait and waitx going to sleep, under the lock the scan was made with. */
    method WaitSleep(c: nat)
      requires Valid() && Enabled(View(), Action.WaitSleep(c))
      modifies proc, gtable, cpus
      ensures Valid() && Takes(old(View()), Action.WaitSleep(c), View())
    {
      hide CpuInv, FamilyInv, WaitInv, ForkInv, PidInv, GroupInv, HasZombieChild;
      InvStep(View(), Action.WaitSleep(c));
      var p := cpus[c].p;
      proc[p] := proc[p].(state := SLEEPING, chan := OnProc(p));
      Return(c);
    }

    method Kill(pid: nat) returns (ok: bool)
      requires Valid()
      modifies proc
      ensures Valid() && Takes(old(View()), Action.Kill(pid), View())
      ensures ok <==> exists i | 0 <= i < NPROC :: old(proc[i]).pid == pid
    {
      hide CpuInv, FamilyInv, WaitInv, ForkInv, PidInv, GroupInv, First;
      ghost var s := View();
      InvStep(s, Action.Kill(pid));
      var i := 0;
      while i < NPROC
        invariant i <= NPROC && View() == s
        invariant forall k | 0 <= k < i :: proc[k].pid != pid
      {
        if proc[i].pid == pid {
          FirstIs(proc[..], (p: Proc) => p.pid == pid, i);
          proc[i] := proc[i].(killed := true);
          if proc[i].state == SLEEPING {
            proc[i] := proc[i].(state := RUNNABLE);
          }
          assert proc[..] == s.procs[i := Killed(s.procs[i])];
          return true;
        }
        i := i + 1;
      }
      FirstIs(proc[..], (p: Proc) => p.pid == pid, i);
      return false;
    }

    // Groups and time.

    method SetGroup(pid: nat, gid: int) returns (ok: bool)
      requires Valid()
      modifies proc, gtable
      ensures Valid() && (if gid < 0 then View() == old(View())
                          else Takes(old(View()), Action.SetGroup(pid, gid), View()))
      ensures ok <==> gid >= 0 && Lookup(gtable[..], gid) < NGROUPS
                      && exists i | 0 <= i < NPROC ::
                           proc[i].pid == pid && proc[i].state != UNUSED && proc[i].gid == gid
    {
      hide CpuInv, FamilyInv, WaitInv, ForkInv, PidInv, GroupInv, First, Ensured;
      if gid < 0 {
        return false;
      }
      ghost var s := View();
      InvStep(s, Action.SetGroup(pid, gid));
      var g := GroupEnsure(gid);
      if g == NGROUPS {
        return false;
      }
      var i := 0;
      while i < NPROC
        invariant i <= NPROC && proc[..] == s.procs
        invariant forall k | 0 <= k < i :: !(proc[k].pid == pid && proc[k].state != UNUSED)
      {
        if proc[i].pid == pid && proc[i].state != UNUSED {
          FirstIs(proc[..], (p: Proc) => p.pid == pid && p.state != UNUSED, i);
          proc[i] := proc[i].(gid := gid);
          return true;
        }
        i := i + 1;
      }
      FirstIs(proc[..], (p: Proc) => p.pid == pid && p.state != UNUSED, i);
      return false;
    }

    method TickAccounting()
      requires Valid()
      modifies proc
      ensures Valid() && Takes(old(View()), TimerTick, View())
    {
      hide CpuInv, FamilyInv, WaitInv, ForkInv, PidInv, GroupInv;
      InvStep(View(), TimerTick);
      for i := 0 to NPROC
        invariant forall k | 0 <= k < i :: proc[k] == Ticked(old(proc[k]))
        invariant forall k | i <= k < NPROC :: proc[k] == old(proc[k])
      {
        match proc[i].state {
          case RUNNING => proc[i] := proc[i].(rtime := proc[i].rtime + 1);
          case RUNNABLE => proc[i] := proc[i].(wtime := proc[i].wtime + 1);
          case SLEEPING => proc[i] := proc[i].(stime := proc[i].stime + 1);
          case _ =>
        }
      }
      assert proc[..] == Tick(old(proc[..]));
    }
  }

  /** What exit's loop has done to a slot it has passed: zombie says whether init was woken. */
  function Handed(p: Proc, self: nat, init: nat, zombie: bool): Proc {
    if zombie then Woken(Adopted(p, self, init), OnProc(init)) else Adopted(p, self, init)
  }

  /** Waking processes makes and unmakes no zombies. */
  lemma SameZombies(was: seq<Proc>, procs: seq<Proc>, self: nat)
    requires |procs| == |was|
    requires forall i | 0 <= i < |was| ::
               procs[i].parent == was[i].parent && (procs[i].state == ZOMBIE <==> was[i].state == ZOMBIE)
    ensures HasZombieChild(procs, self) == HasZombieChild(was, self)
  {
    forall i | 0 <= i < |was| ensures IsZombieChild(procs[i], self) == IsZombieChild(was[i], self) {}
  }
}
