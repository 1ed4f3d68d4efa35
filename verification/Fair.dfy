/** Stride fairness: how far one group can run ahead of another, over whole runs. */
module Fair {
  import opened Basics
  import opened ProcMachine
  import opened ProcInv

  // Charges in flight.

  function OfGroup(c: Cpu, k: nat): nat { if c.Busy? && c.g == k then 1 else 0 }

  /** CPUs running a process picked for group slot k, each of which will charge k when it returns. */
  function Inflight(cpus: seq<Cpu>, k: nat): (n: nat)
    ensures n <= |cpus|
  {
    if cpus == [] then 0 else Inflight(cpus[..|cpus| - 1], k) + OfGroup(cpus[|cpus| - 1], k)
  }

  lemma {:induction false} InflightSet(cpus: seq<Cpu>, c: nat, v: Cpu, k: nat)
    requires c < |cpus|
    ensures Inflight(cpus[c := v], k) == Inflight(cpus, k) - OfGroup(cpus[c], k) + OfGroup(v, k)
  {
    var n := |cpus| - 1;
    if c == n {
      assert cpus[c := v][..n] == cpus[..n];
    } else {
      assert cpus[c := v][..n] == cpus[..n][c := v];
      InflightSet(cpus[..n], c, v, k);
    }
  }

  predicate Leaves(a: Action) { a.Yield? || a.Sleep? || a.WaitSleep? || a.Exit? }

  /** The step returns to a scheduler that then charges group slot k. */
  predicate Charges(s: Sys, a: Action, k: nat)
    requires Enabled(s, a)
  {
    Leaves(a) && s.cpus[a.c].g == k
  }

  predicate Dispatches(s: Sys, a: Action, k: nat) {
    a.Dispatch? && PickGroup(s.procs, s.groups, |s.groups|) == k
  }

  // One step, seen from one group slot.

  lemma LeaveEffect(s: Sys, a: Action, k: nat)
    requires Inv(s) && Enabled(s, a) && Leaves(a) && k < NGROUPS
    ensures var t := Do(s, a);
            && t.cpus == s.cpus[a.c := Idle] && |t.groups| == NGROUPS
            && t.groups[k].active == s.groups[k].active && t.groups[k].gid == s.groups[k].gid
               && t.groups[k].rr == s.groups[k].rr
            && t.groups[k].pass == if Charges(s, a, k) then (s.groups[k].pass + FSS_BIG) % UINT_LIMIT
               else s.groups[k].pass
  {
    hide CpuInv, FamilyInv, WaitInv, ForkInv, PidInv, Exited, HasZombieChild;
    GroupSlot(s.groups, k);
  }

  lemma DispatchEffect(s: Sys, a: Action, k: nat)
    requires Inv(s) && Enabled(s, a) && a.Dispatch? && k < NGROUPS
    ensures var t := Do(s, a);
            var g := PickGroup(s.procs, s.groups, NGROUPS);
            var p := PickProc(s.procs, s.groups[g].gid, s.groups[g].rr % NPROC, 0);
            && p < NPROC && |t.groups| == NGROUPS && |t.procs| == NPROC
            && t.cpus == s.cpus[a.c := Busy(p, g)] && t.procs[p].state == RUNNING
            && t.groups[k].active == s.groups[k].active && t.groups[k].gid == s.groups[k].gid
               && t.groups[k].pass == s.groups[k].pass
            && t.groups[k].rr == if k == g then (p + 1) % NPROC else s.groups[k].rr
  {
    hide CpuInv, FamilyInv, WaitInv, ForkInv, PidInv, PickGroup, PickProc, Eligible;
    DispatchPicks(s);
  }

  lemma OtherEffect(s: Sys, a: Action, k: nat)
    requires Inv(s) && Enabled(s, a) && !Leaves(a) && !a.Dispatch? && k < NGROUPS
    ensures var t := Do(s, a);
            && t.cpus == s.cpus && |t.groups| == NGROUPS && t.groups[k].pass == s.groups[k].pass
            && (s.groups[k].active ==> t.groups[k] == s.groups[k])
  {
    hide CpuInv, FamilyInv, WaitInv, ForkInv, PidInv, Ensured, HasZombieChild, GroupTable;
    if a.ForkStart? {
      EnsuredTable(s.groups, 0);
    } else if a.ForkEnsure? {
      EnsuredTable(s.groups, s.procs[NewSlot(s, a.c)].gid);
    } else if a.SetGroup? {
      EnsuredTable(s.groups, a.gid);
    }
    if !s.groups[k].active {
      assert s.groups[k].pass == 0 by { InactivePass(s.groups, k); }
    }
  }

  lemma InactivePass(groups: seq<Group>, k: nat)
    requires GroupTable(groups) && k < NGROUPS && !groups[k].active
    ensures groups[k].pass == 0
  {
  }

  /** Every step changes a group's pass by charging it and its charges in flight by dispatching or
      charging it, and in no other way. */
  lemma GroupEffect(s: Sys, a: Action, k: nat)
    requires Inv(s) && Enabled(s, a) && k < NGROUPS
    ensures var t := Do(s, a);
            && |t.cpus| == |s.cpus| && |t.groups| == NGROUPS
            && (s.groups[k].active ==> t.groups[k].active && t.groups[k].gid == s.groups[k].gid)
            && t.groups[k].pass == (if Charges(s, a, k) then (s.groups[k].pass + FSS_BIG) % UINT_LIMIT
                                    else s.groups[k].pass)
            && Inflight(t.cpus, k) == Inflight(s.cpus, k)
                 + (if Dispatches(s, a, k) then 1 else 0) - (if Charges(s, a, k) then 1 else 0)
  {
    hide CpuInv, FamilyInv, WaitInv, ForkInv, PidInv, GroupInv, PickGroup, PickProc, Do, Inflight;
    if a.Dispatch? {
      DispatchEffect(s, a, k);
      InflightSet(s.cpus, a.c, Do(s, a).cpus[a.c], k);
    } else if Leaves(a) {
      LeaveEffect(s, a, k);
      InflightSet(s.cpus, a.c, Idle, k);
    } else {
      OtherEffect(s, a, k);
    }
  }

  // The lead of one group over another.

  ghost function Eff(s: Sys, k: nat): int
    requires k < |s.groups|
  {
    s.groups[k].pass + Inflight(s.cpus, k) * FSS_BIG
  }

  /** pass of a with its charges in flight, less the pass of b. */
  ghost function Lead(s: Sys, a: nat, b: nat): int
    requires a < |s.groups| && b < |s.groups|
  {
    Eff(s, a) - s.groups[b].pass
  }

  /** The charge of this step, if it goes to k, does not pass 2^32. */
  predicate NoWrap(s: Sys, act: Action, k: nat)
    requires Enabled(s, act) && k < |s.groups|
  {
    Charges(s, act, k) ==> s.groups[k].pass + FSS_BIG < UINT_LIMIT
  }

  /** If a is dispatched, b has a runnable process. */
  predicate Competes(s: Sys, act: Action, a: nat, b: nat)
    requires b < |s.groups|
  {
    Dispatches(s, act, a) ==> Eligible(s.procs, s.groups[b])
  }

  lemma LeadStep(s: Sys, act: Action, a: nat, b: nat)
    requires Inv(s) && Enabled(s, act) && a < NGROUPS && b < NGROUPS && a != b
    requires Competes(s, act, a, b) && NoWrap(s, act, b)
    ensures |Do(s, act).groups| == NGROUPS
    ensures Lead(Do(s, act), a, b) <= Max(Lead(s, a, b), |s.cpus| * FSS_BIG)
  {
    hide CpuInv, FamilyInv, WaitInv, ForkInv, PidInv, PickGroup, PickProc, Do, Inflight, Eligible;
    GroupEffect(s, act, a);
    GroupEffect(s, act, b);
    if Dispatches(s, act, a) {
      DispatchPicks(s);
      assert !Better(s.groups[b], s.groups[a]);
    }
  }

  /** Charging b lowers everyone's lead over it exactly if the charge does not wrap. */
  lemma WrapRaisesLead(s: Sys, act: Action, a: nat, b: nat)
    requires Inv(s) && Enabled(s, act) && a < NGROUPS && b < NGROUPS && a != b && Charges(s, act, b)
    ensures |Do(s, act).groups| == NGROUPS
    ensures Lead(Do(s, act), a, b) == Lead(s, a, b) - FSS_BIG + (if NoWrap(s, act, b) then 0 else UINT_LIMIT)
    ensures Lead(Do(s, act), a, b) < Lead(s, a, b) <==> NoWrap(s, act, b)
  {
    hide CpuInv, FamilyInv, WaitInv, ForkInv, PidInv, Do, Inflight;
    GroupEffect(s, act, a);
    GroupEffect(s, act, b);
    GroupSlot(s.groups, b);
  }

  // Whole runs.

  ghost predicate CompetesRun(s: Sys, acts: seq<Action>, a: nat, b: nat)
    requires IsRun(s, acts) && b < NGROUPS
  {
    acts == [] ||
    (var n := |acts| - 1;
     CompetesRun(s, acts[..n], a, b) && Competes(After(s, acts[..n]), acts[n], a, b))
  }

  ghost predicate NoWrapRun(s: Sys, acts: seq<Action>, k: nat)
    requires IsRun(s, acts) && k < NGROUPS
  {
    acts == [] ||
    (var n := |acts| - 1;
     NoWrapRun(s, acts[..n], k) && NoWrap(After(s, acts[..n]), acts[n], k))
  }

  lemma {:induction false} CpusKept(s: Sys, acts: seq<Action>)
    requires Inv(s) && IsRun(s, acts)
    ensures |After(s, acts).cpus| == |s.cpus|
  {
    hide Inv, Enabled, Do;
    InvRun(s, acts);
    if acts != [] {
      var n := |acts| - 1;
      CpusKept(s, acts[..n]);
      InvRun(s, acts[..n]);
      GroupEffect(After(s, acts[..n]), acts[n], 0);
    }
  }

  /** If b has a runnable process whenever a is dispatched, a never gets further ahead of b than it
      started or than one charge per CPU. */
  lemma {:induction false} LeadBounded(s: Sys, acts: seq<Action>, a: nat, b: nat)
    requires Inv(s) && IsRun(s, acts) && a < NGROUPS && b < NGROUPS && a != b
    requires CompetesRun(s, acts, a, b) && NoWrapRun(s, acts, b)
    ensures |After(s, acts).groups| == NGROUPS
    ensures Lead(After(s, acts), a, b) <= Max(Lead(s, a, b), |s.cpus| * FSS_BIG)
  {
    hide Enabled, Do, Lead, NoWrap, Competes, CpuInv, FamilyInv, WaitInv, ForkInv, PidInv, GroupInv;
    if acts != [] {
      var n := |acts| - 1;
      LeadBounded(s, acts[..n], a, b);
      InvRun(s, acts[..n]);
      CpusKept(s, acts[..n]);
      LeadStep(After(s, acts[..n]), acts[n], a, b);
    }
  }

  // Counting dispatches and charges.

  ghost function DispatchCount(s: Sys, acts: seq<Action>, k: nat): nat
    requires IsRun(s, acts)
  {
    if acts == [] then 0
    else
      var n := |acts| - 1;
      DispatchCount(s, acts[..n], k) + if Dispatches(After(s, acts[..n]), acts[n], k) then 1 else 0
  }

  ghost function ChargeCount(s: Sys, acts: seq<Action>, k: nat): nat
    requires IsRun(s, acts)
  {
    if acts == [] then 0
    else
      var n := |acts| - 1;
      ChargeCount(s, acts[..n], k) + if Charges(After(s, acts[..n]), acts[n], k) then 1 else 0
  }

  lemma ModAdd(x: nat, y: nat)
    ensures (x % UINT_LIMIT + y) % UINT_LIMIT == (x + y) % UINT_LIMIT
  {
    var q := x / UINT_LIMIT;
    assert x == q * UINT_LIMIT + x % UINT_LIMIT;
    ModShift(x % UINT_LIMIT + y, q);
  }

  lemma {:induction false} ModShift(x: nat, q: nat)
    ensures (x + q * UINT_LIMIT) % UINT_LIMIT == x % UINT_LIMIT
  {
    if q > 0 {
      ModShift(x, q - 1);
      assert x + q * UINT_LIMIT == x + (q - 1) * UINT_LIMIT + UINT_LIMIT;
    }
  }

  /** pass is the number of charges times the stride, in 32 bits, and every dispatch is charged once
      the process comes back. */
  lemma {:induction false} PassCounts(s: Sys, acts: seq<Action>, k: nat)
    requires Inv(s) && IsRun(s, acts) && k < NGROUPS
    ensures |After(s, acts).groups| == NGROUPS
    ensures After(s, acts).groups[k].pass == (s.groups[k].pass + ChargeCount(s, acts, k) * FSS_BIG) % UINT_LIMIT
    ensures Inflight(s.cpus, k) + DispatchCount(s, acts, k)
            == Inflight(After(s, acts).cpus, k) + ChargeCount(s, acts, k)
  {
    hide Enabled, Do, CpuInv, FamilyInv, WaitInv, ForkInv, PidInv, Dispatches, Charges, Inflight, GroupTable;
    if acts == [] {
      GroupSlot(s.groups, k);
    } else {
      var n := |acts| - 1;
      var m := After(s, acts[..n]);
      PassCounts(s, acts[..n], k);
      InvRun(s, acts[..n]);
      GroupEffect(m, acts[n], k);
      ModAdd(s.groups[k].pass + ChargeCount(s, acts[..n], k) * FSS_BIG, FSS_BIG);
      GroupSlot(m.groups, k);
    }
  }

  /** The 32-bit pass is exact as long as the charges fit. */
  lemma {:induction false} NoWrapIff(s: Sys, acts: seq<Action>, k: nat)
    requires Inv(s) && IsRun(s, acts) && k < NGROUPS
    ensures NoWrapRun(s, acts, k) <==> s.groups[k].pass + ChargeCount(s, acts, k) * FSS_BIG < UINT_LIMIT
  {
    hide Enabled, Do, CpuInv, FamilyInv, WaitInv, ForkInv, PidInv, Charges, GroupTable;
    GroupSlot(s.groups, k);
    if acts != [] {
      var n := |acts| - 1;
      NoWrapIff(s, acts[..n], k);
      PassCounts(s, acts[..n], k);
    }
  }

  /** From pass 0, the first 42,949 charges are exact. */
  lemma FirstCharges(s: Sys, acts: seq<Action>, k: nat)
    requires Inv(s) && IsRun(s, acts) && k < NGROUPS && s.groups[k].pass == 0
    ensures NoWrapRun(s, acts, k) <==> ChargeCount(s, acts, k) <= 42949
  {
    hide Inv;
    NoWrapIff(s, acts, k);
  }

  /** Two groups that start level, with no process running, and that compete throughout, have been
      dispatched equally often up to one dispatch per CPU. */
  lemma EqualShares(s: Sys, acts: seq<Action>, a: nat, b: nat)
    requires Inv(s) && IsRun(s, acts) && a < NGROUPS && b < NGROUPS && a != b
    requires s.groups[a].pass == s.groups[b].pass && Inflight(s.cpus, a) == 0 && Inflight(s.cpus, b) == 0
    requires CompetesRun(s, acts, a, b) && CompetesRun(s, acts, b, a) && NoWrapRun(s, acts, a) && NoWrapRun(s, acts, b)
    ensures -(|s.cpus| as int) <= DispatchCount(s, acts, a) - DispatchCount(s, acts, b) <= |s.cpus|
    ensures |s.cpus| == 1 ==> -1 <= DispatchCount(s, acts, a) - DispatchCount(s, acts, b) <= 1
  {
    hide CpuInv, FamilyInv, WaitInv, ForkInv, PidInv, GroupInv, After, CompetesRun, NoWrapRun, DispatchCount,
         ChargeCount, Inflight;
    LeadBounded(s, acts, a, b);
    LeadBounded(s, acts, b, a);
    PassCounts(s, acts, a);
    PassCounts(s, acts, b);
    NoWrapIff(s, acts, a);
    NoWrapIff(s, acts, b);
  }
}
