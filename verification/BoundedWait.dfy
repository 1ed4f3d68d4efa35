/** Bounded waiting on one CPU: how many dispatches a runnable process can be passed over for. */
module BoundedWait {
  import opened ProcMachine
  import opened ProcInv
  import opened Fair

  /** Process t waits: it is RUNNABLE, in the group of slot g. */
  predicate Waits(s: Sys, t: nat, g: nat) {
    && t < |s.procs| && g < |s.groups|
    && s.groups[g].active && IsRunnable(s.procs[t], s.groups[g].gid)
  }

  ghost predicate WaitsRun(s: Sys, acts: seq<Action>, t: nat, g: nat)
    requires IsRun(s, acts)
  {
    Waits(After(s, acts), t, g) && (acts == [] || WaitsRun(s, acts[..|acts| - 1], t, g))
  }

  ghost predicate NoWraps(s: Sys, acts: seq<Action>)
    requires IsRun(s, acts)
  {
    forall k | 0 <= k < NGROUPS :: NoWrapRun(s, acts, k)
  }

  ghost function AllDispatches(s: Sys, acts: seq<Action>): nat
    requires IsRun(s, acts)
  {
    if acts == [] then 0
    else AllDispatches(s, acts[..|acts| - 1]) + if acts[|acts| - 1].Dispatch? then 1 else 0
  }

  // The measure.

  /** The pass group g will have reached, with its charges in flight, once its cursor gets to t. */
  ghost function Limit(s: Sys, t: nat, g: nat): int
    requires Inv(s) && t < NPROC && g < NGROUPS
  {
    Eff(s, g) + Dist(s.groups[g].rr, t) * FSS_BIG
  }

  /** How many more times a group at pass e can be picked before passing limit l. */
  function Credit(l: int, e: int): (r: nat) { if e > l then 0 else (l - e) / FSS_BIG + 1 }

  ghost function Credits(s: Sys, l: int, g: nat, k: nat): nat
    requires k <= |s.groups|
  {
    if k == 0 then 0
    else Credits(s, l, g, k - 1) + if k - 1 == g then 0 else Credit(l, Eff(s, k - 1))
  }

  ghost function Measure(s: Sys, t: nat, g: nat): nat
    requires Inv(s) && t < NPROC && g < NGROUPS
  {
    Dist(s.groups[g].rr, t) + Credits(s, Limit(s, t, g), g, NGROUPS)
  }

  lemma CreditMono(l: int, m: int, e: int)
    requires l <= m
    ensures Credit(l, e) <= Credit(m, e)
  {
  }

  lemma CreditSpent(l: int, e: int)
    requires e <= l
    ensures Credit(l, e + FSS_BIG) == Credit(l, e) - 1
  {
    if e + FSS_BIG <= l {
      assert (l - e - FSS_BIG) / FSS_BIG == (l - e) / FSS_BIG - 1;
    }
  }

  /** Credits fall when the limit falls and no group falls behind, by one more if group h, not g,
      moved on by a stride while it was below the limit. */
  lemma {:induction false} CreditsFall(s: Sys, l: int, u: Sys, m: int, g: nat, h: nat, k: nat)
    requires k <= |s.groups| == |u.groups| && m <= l
    requires forall j | 0 <= j < k && j != g :: Eff(u, j) == Eff(s, j) + if j == h then FSS_BIG else 0
    requires h < |s.groups| && h != g ==> Eff(s, h) <= l
    ensures Credits(u, m, g, k) <= Credits(s, l, g, k) - if h < k && h != g then 1 else 0
  {
    if k > 0 {
      CreditsFall(s, l, u, m, g, h, k - 1);
      if k - 1 != g {
        CreditMono(m, l, Eff(u, k - 1));
        if k - 1 == h {
          CreditSpent(l, Eff(s, h));
        }
      }
    }
  }

  // One step.

  /** Without wrap-around, a step moves a group's effective pass exactly when it dispatches it. */
  lemma EffStep(s: Sys, a: Action, k: nat)
    requires Inv(s) && Enabled(s, a) && k < NGROUPS && NoWrap(s, a, k)
    ensures |Do(s, a).groups| == NGROUPS
    ensures Eff(Do(s, a), k) == Eff(s, k) + if Dispatches(s, a, k) then FSS_BIG else 0
  {
    hide CpuInv, FamilyInv, WaitInv, ForkInv, PidInv, PickGroup, Do, Inflight, Dispatches, Charges;
    GroupEffect(s, a, k);
    GroupSlot(s.groups, k);
  }

  lemma CursorStep(s: Sys, a: Action, g: nat)
    requires Inv(s) && Enabled(s, a) && g < NGROUPS && s.groups[g].active && !Dispatches(s, a, g)
    ensures |Do(s, a).groups| == NGROUPS && Do(s, a).groups[g].rr == s.groups[g].rr
  {
    hide CpuInv, FamilyInv, WaitInv, ForkInv, PidInv, PickGroup, Do, GroupInv;
    if a.Dispatch? {
      DispatchEffect(s, a, g);
    } else if Leaves(a) {
      LeaveEffect(s, a, g);
    } else {
      OtherEffect(s, a, g);
    }
  }

  /** The slot a dispatch picks. */
  function Picked(s: Sys): nat
    requires |s.procs| == NPROC && PickGroup(s.procs, s.groups, |s.groups|) < |s.groups|
  {
    var g := PickGroup(s.procs, s.groups, |s.groups|);
    PickProc(s.procs, s.groups[g].gid, s.groups[g].rr % NPROC, 0)
  }

  lemma DistCrossed(r: nat, p: nat, t: nat)
    requires r < NPROC && p < NPROC && t < NPROC && p != t && Dist(r, p) <= Dist(r, t)
    ensures (p + 1) % NPROC < NPROC
    ensures Dist((p + 1) % NPROC, t) == Dist(r, t) - Dist(r, p) - 1
    ensures Dist(p, t) == Dist(r, t) - Dist(r, p)
  {
    if p + 1 == NPROC {
      assert (p + 1) % NPROC == 0;
    } else {
      assert (p + 1) % NPROC == p + 1;
    }
  }

  /** Picking another process for g moves the cursor strictly nearer to t. */
  lemma DispatchNearer(s: Sys, a: Action, t: nat, g: nat)
    requires Inv(s) && Enabled(s, a) && Dispatches(s, a, g) && Waits(s, t, g) && Waits(Do(s, a), t, g)
    ensures Inv(Do(s, a)) && Picked(s) < NPROC && Picked(s) != t
    ensures Dist(s.groups[g].rr, t) >= Dist(Picked(s), t) > Dist(Do(s, a).groups[g].rr, t)
  {
    hide CpuInv, FamilyInv, WaitInv, ForkInv, PidInv, PickGroup, PickProc, Do, Eligible, Dist;
    InvStep(s, a);
    DispatchPicks(s);
    DispatchEffect(s, a, g);
    DistCrossed(s.groups[g].rr, Picked(s), t);
  }

  lemma IdleEff(s: Sys, a: Action, k: nat)
    requires Inv(s) && Enabled(s, a) && a.Dispatch? && |s.cpus| == 1 && k < NGROUPS
    ensures Eff(s, k) == s.groups[k].pass
  {
    hide CpuInv, FamilyInv, WaitInv, ForkInv, PidInv, GroupInv, PickGroup;
    assert s.cpus[..0] == [];
  }

  /** On one CPU every dispatch that does not pick t brings t's turn nearer. */
  lemma MeasureStep(s: Sys, a: Action, t: nat, g: nat)
    requires Inv(s) && Enabled(s, a) && |s.cpus| == 1 && Waits(s, t, g) && Waits(Do(s, a), t, g)
    requires forall k | 0 <= k < NGROUPS :: NoWrap(s, a, k)
    ensures Inv(Do(s, a))
    ensures Measure(Do(s, a), t, g) <= Measure(s, t, g) - if a.Dispatch? then 1 else 0
  {
    hide CpuInv, FamilyInv, WaitInv, ForkInv, PidInv, PickGroup, PickProc, Do, Eff, Dist, Credits, Eligible;
    InvStep(s, a);
    var u := Do(s, a);
    forall k | 0 <= k < NGROUPS
      ensures Eff(u, k) == Eff(s, k) + if Dispatches(s, a, k) then FSS_BIG else 0
    {
      EffStep(s, a, k);
    }
    var h := if a.Dispatch? then PickGroup(s.procs, s.groups, NGROUPS) else NGROUPS;
    if h == g {
      DispatchNearer(s, a, t, g);
    } else {
      CursorStep(s, a, g);
      if a.Dispatch? {
        BehindLimit(s, a, t, g, h);
      }
    }
    CreditsFall(s, Limit(s, t, g), u, Limit(u, t, g), g, h, NGROUPS);
  }

  /** A group picked while t waits is not ahead of t's group. */
  lemma BehindLimit(s: Sys, a: Action, t: nat, g: nat, h: nat)
    requires Inv(s) && Enabled(s, a) && a.Dispatch? && |s.cpus| == 1 && Waits(s, t, g)
    requires h == PickGroup(s.procs, s.groups, NGROUPS)
    ensures h < NGROUPS && Eff(s, h) <= Limit(s, t, g)
  {
    hide CpuInv, FamilyInv, WaitInv, ForkInv, PidInv, PickGroup, PickProc, Eff;
    DispatchPicks(s);
    assert Eligible(s.procs, s.groups[g]);
    IdleEff(s, a, g);
    IdleEff(s, a, h);
  }

  // Whole runs.

  lemma {:induction false} MeasureRun(s: Sys, acts: seq<Action>, t: nat, g: nat)
    requires Inv(s) && IsRun(s, acts) && |s.cpus| == 1 && WaitsRun(s, acts, t, g) && NoWraps(s, acts)
    ensures Inv(After(s, acts)) && t < NPROC && g < NGROUPS
    ensures Measure(After(s, acts), t, g) + AllDispatches(s, acts) <= Measure(s, t, g)
  {
    hide CpuInv, FamilyInv, WaitInv, ForkInv, PidInv, GroupInv, Do, Enabled, Measure, NoWrap;
    InvRun(s, acts);
    if acts != [] {
      var n := |acts| - 1;
      var m := After(s, acts[..n]);
      forall k | 0 <= k < NGROUPS ensures NoWrapRun(s, acts[..n], k) && NoWrap(m, acts[n], k) {
        assert NoWrapRun(s, acts, k);
      }
      MeasureRun(s, acts[..n], t, g);
      CpusKept(s, acts[..n]);
      MeasureStep(m, acts[n], t, g);
    }
  }

  lemma {:induction false} CreditsBound(s: Sys, l: int, g: nat, k: nat, n: nat)
    requires g < |s.groups| && k <= |s.groups| && (forall j | 0 <= j < |s.groups| :: Credit(l, Eff(s, j)) <= n)
    ensures Credits(s, l, g, k) <= (if g < k then k - 1 else k) * n
  {
    if k > 0 {
      CreditsBound(s, l, g, k - 1, n);
      var c := if g < k - 1 then k - 2 else k - 1;
      if k - 1 != g {
        assert c * n + n == (c + 1) * n;
      }
    }
  }

  /** While t stays runnable in its group without being picked, a single CPU can make at most this
      many dispatches: one round of the table for the group itself, and for each other group its
      distance behind in strides plus one round. */
  lemma WaitBounded(s: Sys, acts: seq<Action>, t: nat, g: nat)
    requires Inv(s) && IsRun(s, acts) && |s.cpus| == 1 && WaitsRun(s, acts, t, g) && NoWraps(s, acts)
    ensures g < NGROUPS
    ensures AllDispatches(s, acts) <= (NPROC - 1) + (NGROUPS - 1) * (Eff(s, g) / FSS_BIG + NPROC)
  {
    hide CpuInv, FamilyInv, WaitInv, ForkInv, PidInv, GroupTable, After, WaitsRun, NoWraps, Eff, Dist, AllDispatches;
    MeasureRun(s, acts, t, g);
    GroupSlot(s.groups, g);
    var l := Limit(s, t, g);
    var n := Eff(s, g) / FSS_BIG + NPROC;
    forall j | 0 <= j < NGROUPS ensures Credit(l, Eff(s, j)) <= n {
      EffPositive(s, j);
      EffPositive(s, g);
      CreditCap(Eff(s, g), Dist(s.groups[g].rr, t), Eff(s, j));
    }
    CreditsBound(s, l, g, NGROUPS, n);
  }

  lemma EffPositive(s: Sys, k: nat)
    requires k < |s.groups|
    ensures Eff(s, k) >= 0
  {
  }

  lemma CreditCap(e: nat, d: nat, f: nat)
    requires d < NPROC
    ensures Credit(e + d * FSS_BIG, f) <= e / FSS_BIG + NPROC
  {
    assert (e + d * FSS_BIG) / FSS_BIG == e / FSS_BIG + d;
  }

  // Round robin inside the group.

  /** The slots picked for group g, in order. */
  ghost function PicksFor(s: Sys, acts: seq<Action>, g: nat): seq<nat>
    requires Inv(s) && IsRun(s, acts)
    decreases |acts|
  {
    if acts == [] then []
    else
      var n := |acts| - 1;
      InvRun(s, acts[..n]);
      PicksFor(s, acts[..n], g) + if Dispatches(After(s, acts[..n]), acts[n], g) then [Picked(After(s, acts[..n]))]
      else []
  }

  /** While t waits, on any number of CPUs, the slots picked for its group come strictly nearer to
      t: no slot is picked twice, and there are at most as many picks as slots before t. */
  lemma {:induction false} PicksNearer(s: Sys, acts: seq<Action>, t: nat, g: nat)
    requires Inv(s) && IsRun(s, acts) && WaitsRun(s, acts, t, g)
    ensures Inv(After(s, acts)) && t < NPROC && g < NGROUPS
    ensures var picks := PicksFor(s, acts, g);
            && (forall i | 0 <= i < |picks| :: picks[i] < NPROC && picks[i] != t
                  && Dist(s.groups[g].rr, t) >= Dist(picks[i], t) > Dist(After(s, acts).groups[g].rr, t))
            && (forall i, j | 0 <= i < j < |picks| :: Dist(picks[i], t) > Dist(picks[j], t))
            && |picks| + Dist(After(s, acts).groups[g].rr, t) <= Dist(s.groups[g].rr, t)
  {
    hide CpuInv, FamilyInv, WaitInv, ForkInv, PidInv, Do, Enabled, Picked, Dispatches, GroupTable, Dist;
    InvRun(s, acts);
    GroupSlot(s.groups, g);
    GroupSlot(After(s, acts).groups, g);
    if acts != [] {
      var n := |acts| - 1;
      var m := After(s, acts[..n]);
      PicksNearer(s, acts[..n], t, g);
      GroupSlot(m.groups, g);
      if Dispatches(m, acts[n], g) {
        DispatchNearer(m, acts[n], t, g);
      } else {
        CursorStep(m, acts[n], g);
      }
    }
  }

  /** So no slot is picked twice for the group before t is. */
  lemma PickedOnce(s: Sys, acts: seq<Action>, t: nat, g: nat, i: nat, j: nat)
    requires Inv(s) && IsRun(s, acts) && WaitsRun(s, acts, t, g) && i < j < |PicksFor(s, acts, g)|
    ensures PicksFor(s, acts, g)[i] != PicksFor(s, acts, g)[j]
    ensures |PicksFor(s, acts, g)| < NPROC
  {
    hide Inv, IsRun, PicksFor, WaitsRun, After;
    PicksNearer(s, acts, t, g);
  }
}
