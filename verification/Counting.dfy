/** Finite counting facts. */
module Counting {

  lemma {:induction false} SubsetSize<T>(a: set<T>, b: set<T>)
    requires a <= b
    ensures |a| <= |b|
    decreases |a|
  {
    if a != {} {
      var x :| x in a;
      SubsetSize(a - {x}, b - {x});
    }
  }

  ghost function Upto(n: nat): (s: set<int>)
    ensures forall i :: i in s <==> 0 <= i < n
  {
    if n == 0 then {} else Upto(n - 1) + {n - 1}
  }

  lemma {:induction false} UptoSize(n: nat)
    ensures |Upto(n)| == n
  {
    if n > 0 {
      UptoSize(n - 1);
    }
  }

  ghost function Elements(s: seq<int>): set<int> { set x | x in s }

  ghost predicate NoRepeats(s: seq<int>) {
    forall i, j | 0 <= i < j < |s| :: s[i] != s[j]
  }

  lemma {:induction false} NoRepeatsSize(s: seq<int>)
    requires NoRepeats(s)
    ensures |Elements(s)| == |s|
  {
    if s != [] {
      var n := |s| - 1;
      NoRepeatsSize(s[..n]);
      assert s == s[..n] + [s[n]];
      assert Elements(s) == Elements(s[..n]) + {s[n]};
    }
  }

  /** n distinct numbers below n include every number below n. */
  lemma Pigeonhole(s: seq<int>, n: nat, x: int)
    requires NoRepeats(s) && |s| == n && forall i | 0 <= i < n :: 0 <= s[i] < n
    requires 0 <= x < n
    ensures x in s
  {
    NoRepeatsSize(s);
    UptoSize(n);
    if x !in s {
      SubsetSize(Elements(s), Upto(n) - {x});
    }
  }
}
