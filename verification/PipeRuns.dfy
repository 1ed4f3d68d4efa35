/** Any number of readers and writers of one pipe, turn by turn: the bytes come out in order, and no
    wakeup is lost unless a writer was killed. */
module PipeRuns {
  import opened Basics
  import opened Pipe

  /** What a process is doing with the pipe. */
  datatype Role =
    | Away
    | Reader(n: nat, asleep: bool)
    | Writer(bytes: seq<byte>, i: nat, asleep: bool)

  /** written and read are the bytes that have gone in and come out so far. */
  datatype Sys = Sys(pipe: Pipe, roles: seq<Role>, killed: seq<bool>, written: seq<byte>, read: seq<byte>)

  datatype Action =
    | BeginRead(p: nat, n: nat)
    | BeginWrite(p: nat, bytes: seq<byte>)
    | TurnRead(p: nat)
    | TurnWrite(p: nat)
    | CloseRead
    | CloseWrite
    | Kill(p: nat)

  predicate Formed(s: Sys) {
    && Valid(s.pipe) && |s.killed| == |s.roles|
    && forall p | 0 <= p < |s.roles| && s.roles[p].Writer? :: s.roles[p].i <= |s.roles[p].bytes|
  }

  predicate NoReader(s: Sys) { forall p | 0 <= p < |s.roles| :: !s.roles[p].Reader? }

  predicate NoWriter(s: Sys) { forall p | 0 <= p < |s.roles| :: !s.roles[p].Writer? }

  /** An end is closed only when the last descriptor for it goes, so not during a call that uses it. */
  predicate Enabled(s: Sys, a: Action) {
    match a
    case BeginRead(p, _) => p < |s.roles| && s.roles[p].Away? && s.pipe.readopen
    case BeginWrite(p, _) => p < |s.roles| && s.roles[p].Away? && s.pipe.writeopen
    case TurnRead(p) => p < |s.roles| && s.roles[p].Reader? && !s.roles[p].asleep
    case TurnWrite(p) => p < |s.roles| && s.roles[p].Writer? && !s.roles[p].asleep
    case CloseRead => s.pipe.readopen && NoReader(s)
    case CloseWrite => s.pipe.writeopen && NoWriter(s)
    case Kill(p) => p < |s.roles|
  }

  function Woken(r: Role): Role { if r.Away? then r else r.(asleep := false) }

  /** wakeup(&p->nread) */
  function WakeReaders(roles: seq<Role>): (r: seq<Role>)
    ensures |r| == |roles|
  {
    seq(|roles|, k requires 0 <= k < |roles| => if roles[k].Reader? then Woken(roles[k]) else roles[k])
  }

  /** wakeup(&p->nwrite) */
  function WakeWriters(roles: seq<Role>): (r: seq<Role>)
    ensures |r| == |roles|
  {
    seq(|roles|, k requires 0 <= k < |roles| => if roles[k].Writer? then Woken(roles[k]) else roles[k])
  }

  function Do(s: Sys, a: Action): Sys
    requires Formed(s) && Enabled(s, a)
  {
    match a
    case BeginRead(p, n) => s.(roles := s.roles[p := Reader(n, false)])
    case BeginWrite(p, bytes) => s.(roles := s.roles[p := Writer(bytes, 0, false)])
    case TurnRead(p) =>
      var t := Reading(s.pipe, s.roles[p].n, s.killed[p]);
      var roles := if t.wake then WakeWriters(s.roles) else s.roles;
      Sys(t.pipe, roles[p := if t.end.Slept? then Reader(s.roles[p].n, true) else Away], s.killed, s.written,
          s.read + t.out)
    case TurnWrite(p) =>
      var w := s.roles[p];
      var t := Writing(s.pipe, w.bytes, w.i, s.killed[p]);
      var roles := if t.wake then WakeReaders(s.roles) else s.roles;
      Sys(t.pipe, roles[p := if t.end.Slept? then Writer(w.bytes, t.upto, true) else Away], s.killed,
          s.written + w.bytes[w.i..t.upto], s.read)
    case CloseRead => s.(pipe := s.pipe.(readopen := false), roles := WakeWriters(s.roles))
    case CloseWrite => s.(pipe := s.pipe.(writeopen := false), roles := WakeReaders(s.roles))
    case Kill(p) => s.(killed := s.killed[p := true], roles := s.roles[p := Woken(s.roles[p])])
  }

  ghost predicate IsRun(s: Sys, acts: seq<Action>)
    decreases |acts|, 0
  {
    acts == [] ||
    (var n := |acts| - 1;
     && IsRun(s, acts[..n])
     && Formed(After(s, acts[..n]))
     && Enabled(After(s, acts[..n]), acts[n]))
  }

  ghost function After(s: Sys, acts: seq<Action>): Sys
    requires IsRun(s, acts)
    decreases |acts|, 1
  {
    if acts == [] then s
    else
      var n := |acts| - 1;
      Do(After(s, acts[..n]), acts[n])
  }

  /** A fresh pipe and n processes. */
  predicate Start(s: Sys) {
    && |s.pipe.data| == PIPESIZE && s.pipe == NewPipe(s.pipe.data)
    && |s.killed| == |s.roles| && (forall p | 0 <= p < |s.roles| :: s.roles[p].Away?)
    && s.written == [] && s.read == []
  }

  // First in, first out.

  predicate Fifo(s: Sys)
    requires Formed(s)
  {
    s.written == s.read + Contents(s.pipe)
  }

  /** A process is in a call only while its end is open. */
  predicate Ends(s: Sys) {
    (!s.pipe.readopen ==> NoReader(s)) && (!s.pipe.writeopen ==> NoWriter(s))
  }

  lemma FormedStep(s: Sys, a: Action)
    requires Formed(s) && Ends(s) && Enabled(s, a)
    ensures Formed(Do(s, a)) && Ends(Do(s, a))
  {
    hide Valid, Full, Empty;
    ClosedValid(s.pipe);
  }

  lemma ClosedValid(p: Pipe)
    requires Valid(p)
    ensures Valid(p.(readopen := false)) && Contents(p.(readopen := false)) == Contents(p)
    ensures Valid(p.(writeopen := false)) && Contents(p.(writeopen := false)) == Contents(p)
  {
  }

  lemma FifoStep(s: Sys, a: Action)
    requires Formed(s) && Ends(s) && Enabled(s, a) && Fifo(s)
    ensures Formed(Do(s, a)) && Fifo(Do(s, a))
  {
    hide Contents, Count, PutAll, GetAll, Full;
    FormedStep(s, a);
    var t := Do(s, a);
    ClosedValid(s.pipe);
    if a.TurnRead? {
      GetAllTakes(s.pipe, s.roles[a.p].n);
      var out := Reading(s.pipe, s.roles[a.p].n, s.killed[a.p]).out;
      assert s.read + (out + Contents(t.pipe)) == s.read + out + Contents(t.pipe);
    } else if a.TurnWrite? {
      var w := s.roles[a.p];
      PutAllAppends(s.pipe, w.bytes, w.i);
      var j := PutAll(s.pipe, w.bytes, w.i).1;
      assert s.read + (Contents(s.pipe) + w.bytes[w.i..j]) == s.read + Contents(s.pipe) + w.bytes[w.i..j];
    }
  }

  /** On every run, with any mixture of calls, closes and kills and across counter wrap-around, the
      bytes written are the bytes read followed by the bytes in the buffer, of which there are at
      most PIPESIZE. */
  lemma {:induction false} FifoRun(s: Sys, acts: seq<Action>)
    requires Start(s) && IsRun(s, acts)
    ensures var t := After(s, acts); Formed(t) && Ends(t) && Fifo(t) && Count(t.pipe) <= PIPESIZE
  {
    hide Enabled, Do, Fifo;
    if acts == [] {
      StartFifo(s);
    } else {
      var n := |acts| - 1;
      FifoRun(s, acts[..n]);
      FormedStep(After(s, acts[..n]), acts[n]);
      FifoStep(After(s, acts[..n]), acts[n]);
    }
  }

  lemma StartFifo(s: Sys)
    requires Start(s)
    ensures Formed(s) && Ends(s) && Fifo(s)
  {
  }

  // What calls return.

  ghost predicate Happened(acts: seq<Action>, a: Action) { exists k | 0 <= k < |acts| :: acts[k] == a }

  lemma HappenedSnoc(acts: seq<Action>, a: Action)
    requires acts != []
    ensures Happened(acts, a) <==> Happened(acts[..|acts| - 1], a) || acts[|acts| - 1] == a
  {
    var n := |acts| - 1;
    if Happened(acts[..n], a) {
      var k :| 0 <= k < n && acts[..n][k] == a;
      assert acts[k] == a;
    }
    if Happened(acts, a) && acts[n] != a {
      var k :| 0 <= k < |acts| && acts[k] == a;
      assert acts[..n][k] == a;
    }
  }

  /** An end is open exactly until it is closed. */
  lemma {:induction false} EndsExact(s: Sys, acts: seq<Action>)
    requires Start(s) && IsRun(s, acts)
    ensures After(s, acts).pipe.readopen <==> !Happened(acts, CloseRead)
    ensures After(s, acts).pipe.writeopen <==> !Happened(acts, CloseWrite)
  {
    hide Start, Formed, Happened, WakeReaders, WakeWriters, PutAll, GetAll;
    if acts == [] {
      assert s.pipe.readopen && s.pipe.writeopen && !Happened(acts, CloseRead) && !Happened(acts, CloseWrite) by {
        StartOpen(s);
      }
    } else {
      var n := |acts| - 1;
      EndsExact(s, acts[..n]);
      HappenedSnoc(acts, CloseRead);
      HappenedSnoc(acts, CloseWrite);
    }
  }

  lemma StartOpen(s: Sys)
    requires Start(s)
    ensures s.pipe.readopen && s.pipe.writeopen && !Happened([], CloseRead) && !Happened([], CloseWrite)
  {
  }

  /** End of file: on every run a read of at least one byte returns 0 exactly if the write end was closed
      and every byte ever written has been read. */
  lemma EndOfFile(s: Sys, acts: seq<Action>, p: nat)
    requires Start(s) && IsRun(s, acts) && Enabled(After(s, acts), TurnRead(p)) && After(s, acts).roles[p].n > 0
    ensures var m := After(s, acts);
            && Formed(m)
            && (Reading(m.pipe, m.roles[p].n, m.killed[p]).end == Returned(0)
                <==> Happened(acts, CloseWrite) && m.written == m.read)
  {
    hide After, IsRun, Reading, Contents, Happened, Start;
    FifoRun(s, acts);
    EndsExact(s, acts);
    var m := After(s, acts);
    ReadEnds(m.pipe, m.roles[p].n, m.killed[p]);
    assert |m.written| == |m.read| + |Contents(m.pipe)|;
    if |Contents(m.pipe)| == 0 {
      assert m.read + Contents(m.pipe) == m.read;
    }
  }

  /** The bytes process p has put into the pipe since its write call began. */
  ghost function PutBy(s: Sys, acts: seq<Action>, p: nat): seq<byte>
    requires IsRun(s, acts)
  {
    if acts == [] then []
    else
      var n := |acts| - 1;
      var m, t := After(s, acts[..n]), After(s, acts);
      if acts[n].BeginWrite? && acts[n].p == p then []
      else if acts[n] == TurnWrite(p) && |m.written| <= |t.written| then
        PutBy(s, acts[..n], p) + t.written[|m.written|..]
      else PutBy(s, acts[..n], p)
  }

  datatype Call = NoCall | Read(n: nat) | Write(bytes: seq<byte>)

  /** The call process p made last. */
  ghost function CallOf(acts: seq<Action>, p: nat): Call {
    if acts == [] then NoCall
    else
      match acts[|acts| - 1]
      case BeginRead(q, n) => if q == p then Read(n) else CallOf(acts[..|acts| - 1], p)
      case BeginWrite(q, bytes) => if q == p then Write(bytes) else CallOf(acts[..|acts| - 1], p)
      case _ => CallOf(acts[..|acts| - 1], p)
  }

  ghost predicate RoleFits(r: Role, call: Call) {
    match r
    case Away => true
    case Reader(n, _) => call == Read(n)
    case Writer(bytes, _, _) => call == Write(bytes)
  }

  lemma RoleStep(s: Sys, a: Action, p: nat, call: Call)
    requires Formed(s) && Enabled(s, a) && p < |s.roles| && RoleFits(s.roles[p], call)
    ensures |Do(s, a).roles| == |s.roles|
    ensures RoleFits(Do(s, a).roles[p],
                     if a.BeginRead? && a.p == p then Read(a.n) else if a.BeginWrite? && a.p == p then Write(a.bytes)
                     else call)
  {
    hide Valid, PutAll, GetAll, Full, Empty;
  }

  /** Through all its turns a process carries on with the call it made. */
  lemma {:induction false} RolesExact(s: Sys, acts: seq<Action>, p: nat)
    requires Start(s) && IsRun(s, acts) && p < |s.roles|
    ensures |After(s, acts).roles| == |s.roles| && RoleFits(After(s, acts).roles[p], CallOf(acts, p))
  {
    hide Formed, Do, Enabled, RoleFits;
    if acts == [] {
      assert RoleFits(s.roles[p], NoCall) by { assert s.roles[p].Away?; AwayFits(s.roles[p]); }
    } else {
      var n := |acts| - 1;
      RolesExact(s, acts[..n], p);
      RoleStep(After(s, acts[..n]), acts[n], p, CallOf(acts[..n], p));
    }
  }

  lemma AwayFits(r: Role)
    requires r.Away?
    ensures RoleFits(r, NoCall)
  {
  }

  predicate Asleep(r: Role) { !r.Away? && r.asleep }

  lemma KilledStep(s: Sys, a: Action, p: nat)
    requires Formed(s) && Enabled(s, a) && p < |s.roles| && (Asleep(s.roles[p]) ==> !s.killed[p])
    ensures var t := Do(s, a);
            && |t.roles| == |s.roles| == |t.killed| && (t.killed[p] <==> s.killed[p] || a == Kill(p))
            && (Asleep(t.roles[p]) ==> !t.killed[p])
  {
    hide Valid, PutAll, GetAll, Full, Empty;
  }

  /** A process is marked killed exactly if somebody killed it, and then it does not sleep: not even if
      it did when it was killed. */
  lemma {:induction false} KilledAwake(s: Sys, acts: seq<Action>, p: nat)
    requires Start(s) && IsRun(s, acts) && p < |s.roles|
    ensures var t := After(s, acts);
            && |t.roles| == |s.roles| == |t.killed| && (t.killed[p] <==> s.killed[p] || Happened(acts, Kill(p)))
            && (Asleep(t.roles[p]) ==> !t.killed[p])
  {
    hide Formed, Do, Enabled;
    if acts != [] {
      var n := |acts| - 1;
      KilledAwake(s, acts[..n], p);
      KilledStep(After(s, acts[..n]), acts[n], p);
      HappenedSnoc(acts, Kill(p));
    }
  }

  /** What a step does to a process that is writing afterwards. */
  lemma WriterStep(s: Sys, a: Action, p: nat)
    requires Formed(s) && Enabled(s, a) && p < |s.roles|
    ensures |Do(s, a).roles| == |s.roles|
    ensures var t := Do(s, a);
            t.roles[p].Writer? ==>
              if a.BeginWrite? && a.p == p then t.roles[p].i == 0
              else
                && s.roles[p].Writer? && t.roles[p].bytes == s.roles[p].bytes
                && if a == TurnWrite(p) then
                     && s.roles[p].i <= t.roles[p].i <= |t.roles[p].bytes|
                     && t.written == s.written + t.roles[p].bytes[s.roles[p].i..t.roles[p].i]
                   else t.roles[p].i == s.roles[p].i
  {
    hide Valid, PutAll, GetAll, WakeReaders, WakeWriters, Full, Empty;
    NoneAsleep(s.roles);
    if s.roles[p].Writer? {
      WakesKeep(s.roles, p);
    }
  }

  lemma WakesKeep(roles: seq<Role>, p: nat)
    requires p < |roles| && roles[p].Writer?
    ensures WakeReaders(roles)[p] == roles[p]
    ensures WakeWriters(roles)[p] == Writer(roles[p].bytes, roles[p].i, false)
  {
  }

  /** A writer between turns has put in exactly the bytes it has got past. */
  lemma {:induction false} WriterProgress(s: Sys, acts: seq<Action>, p: nat)
    requires Start(s) && IsRun(s, acts) && p < |s.roles|
    ensures |After(s, acts).roles| == |s.roles|
    ensures var w := After(s, acts).roles[p];
            w.Writer? ==> w.i <= |w.bytes| && PutBy(s, acts, p) == w.bytes[..w.i]
  {
    hide Start, Formed, Do, Enabled;
    if acts == [] {
      NoneYet(s, p);
    } else {
      var n := |acts| - 1;
      var m, a, t := After(s, acts[..n]), acts[n], After(s, acts);
      WriterProgress(s, acts[..n], p);
      WriterStep(m, a, p);
      if t.roles[p].Writer? && !(a.BeginWrite? && a.p == p) {
        if a == TurnWrite(p) {
          var w, i := t.roles[p], m.roles[p].i;
          assert t.written[|m.written|..] == w.bytes[i..w.i];
          assert w.bytes[..i] + w.bytes[i..w.i] == w.bytes[..w.i];
        }
      }
    }
  }

  lemma {:induction false} SameRoles(s: Sys, acts: seq<Action>)
    requires IsRun(s, acts)
    ensures |After(s, acts).roles| == |s.roles|
  {
    hide Do, Formed, Enabled;
    if acts != [] {
      var n := |acts| - 1;
      SameRoles(s, acts[..n]);
      RolesKept(After(s, acts[..n]), acts[n]);
    }
  }

  lemma RolesKept(s: Sys, a: Action)
    requires Formed(s) && Enabled(s, a)
    ensures |Do(s, a).roles| == |s.roles|
  {
    hide Valid, Reading, Writing, WakeReaders, WakeWriters;
  }

  lemma TurnWritten(s: Sys, p: nat)
    requires Formed(s) && Enabled(s, TurnWrite(p))
    ensures var w := s.roles[p];
            var t := Writing(s.pipe, w.bytes, w.i, s.killed[p]);
            var u := Do(s, TurnWrite(p));
            && u.written == s.written + w.bytes[w.i..t.upto] && |u.roles| == |s.roles|
            && (t.end.Returned? <==> u.roles[p].Away?)
  {
    hide Valid, Writing, WakeReaders, WakeWriters;
  }

  lemma NoneYet(s: Sys, p: nat)
    requires Start(s) && p < |s.roles|
    ensures !s.roles[p].Writer?
  {
  }

  /** A write call that returns n has put its n bytes in, each once and in order; one that returns -1
      has put in a proper beginning of them. */
  lemma WriteCallReturns(s: Sys, acts: seq<Action>, p: nat)
    requires Start(s) && IsRun(s, acts) && Enabled(After(s, acts), TurnWrite(p))
    ensures Formed(After(s, acts)) && IsRun(s, acts + [TurnWrite(p)])
    ensures var m := After(s, acts);
            var w := m.roles[p];
            var t := Writing(m.pipe, w.bytes, w.i, m.killed[p]);
            var put := PutBy(s, acts + [TurnWrite(p)], p);
            && (t.end.Returned? <==> After(s, acts + [TurnWrite(p)]).roles[p].Away?)
            && (t.end == Returned(|w.bytes|) ==> put == w.bytes)
            && (t.end == Returned(-1) ==> put < w.bytes)
            && (t.end.Returned? ==> t.end.n == |w.bytes| || t.end.n == -1)
  {
    hide Start, Valid, Writing, Do, Count, Contents, Fifo;
    FifoRun(s, acts);
    RunSnoc(s, acts, TurnWrite(p));
    SameRoles(s, acts);
    WriterProgress(s, acts, p);
    var m, more := After(s, acts), acts + [TurnWrite(p)];
    var w := m.roles[p];
    TurnWritten(m, p);
    WriteEnds(m.pipe, w.bytes, w.i, m.killed[p]);
    var t := Writing(m.pipe, w.bytes, w.i, m.killed[p]);
    assert more[..|acts|] == acts;
    assert After(s, more).written[|m.written|..] == w.bytes[w.i..t.upto];
    assert w.bytes[..w.i] + w.bytes[w.i..t.upto] == w.bytes[..t.upto];
  }

  // Sleep and wakeup.

  predicate ReaderAsleep(s: Sys) { exists p | 0 <= p < |s.roles| :: s.roles[p].Reader? && s.roles[p].asleep }

  predicate WriterAsleep(s: Sys) { exists p | 0 <= p < |s.roles| :: s.roles[p].Writer? && s.roles[p].asleep }

  /** Nobody sleeps who could go on. */
  predicate SleepOk(s: Sys) {
    && (ReaderAsleep(s) ==> Empty(s.pipe) && s.pipe.writeopen)
    && (WriterAsleep(s) ==> Full(s.pipe) && s.pipe.readopen)
  }

  predicate Inv(s: Sys) { Formed(s) && Ends(s) && SleepOk(s) }

  /** A killed writer about to fill the pipe with more left over, while a reader sleeps. */
  predicate LosesWakeup(s: Sys, a: Action)
    requires Enabled(s, a) && |s.killed| == |s.roles|
  {
    a.TurnWrite? && s.killed[a.p] && ReaderAsleep(s) && |s.roles[a.p].bytes| - s.roles[a.p].i > PIPESIZE
  }

  lemma NoneAsleep(roles: seq<Role>)
    ensures forall k | 0 <= k < |roles| && WakeReaders(roles)[k].Reader? :: !WakeReaders(roles)[k].asleep
    ensures forall k | 0 <= k < |roles| && WakeWriters(roles)[k].Writer? :: !WakeWriters(roles)[k].asleep
    ensures forall k | 0 <= k < |roles| ::
              if roles[k].Reader? then WakeReaders(roles)[k].Reader? else WakeReaders(roles)[k] == roles[k]
    ensures forall k | 0 <= k < |roles| ::
              if roles[k].Writer? then WakeWriters(roles)[k].Writer? else WakeWriters(roles)[k] == roles[k]
  {
  }

  lemma EmptyNotFull(p: Pipe)
    requires Valid(p)
    ensures !(Empty(p) && Full(p))
  {
    FullIff(p);
  }

  lemma ReadStep(s: Sys, p: nat)
    requires Inv(s) && Enabled(s, TurnRead(p))
    ensures SleepOk(Do(s, TurnRead(p)))
  {
    hide Count, PutAll, GetAll, Full, Valid, Empty, WakeWriters;
    EmptyNotFull(s.pipe);
    NoneAsleep(s.roles);
  }

  /** A writer's turn keeps the invariant exactly if it does not lose a wakeup. */
  lemma WriteStep(s: Sys, p: nat)
    requires Inv(s) && Enabled(s, TurnWrite(p))
    ensures SleepOk(Do(s, TurnWrite(p))) <==> !LosesWakeup(s, TurnWrite(p))
  {
    hide Count, PutAll, GetAll, Full, Valid, Empty, WakeReaders, Contents;
    var w := s.roles[p];
    var t := Do(s, TurnWrite(p));
    FullIff(s.pipe);
    FullIff(t.pipe);
    EmptyNotFull(t.pipe);
    PutAllAppends(s.pipe, w.bytes, w.i);
    PutNothing(s.pipe, w.bytes, w.i);
    NoneAsleep(s.roles);
    assert t.pipe == PutAll(s.pipe, w.bytes, w.i).0;
    var wake := Writing(s.pipe, w.bytes, w.i, s.killed[p]).wake;
    if !wake {
      if ReaderAsleep(s) {
        var r :| 0 <= r < |s.roles| && s.roles[r].Reader? && s.roles[r].asleep;
        assert t.roles[r] == s.roles[r];
      }
    }
  }

  lemma PutNothing(p: Pipe, bytes: seq<byte>, i: nat)
    requires Valid(p) && i <= |bytes|
    ensures Full(p) || i == |bytes| ==> PutAll(p, bytes, i) == (p, i)
  {
  }

  lemma OtherStep(s: Sys, a: Action)
    requires Inv(s) && Enabled(s, a) && !a.TurnRead? && !a.TurnWrite?
    ensures SleepOk(Do(s, a))
  {
    hide Count, PutAll, GetAll, Valid;
    NoneAsleep(s.roles);
  }

  lemma InvStep(s: Sys, a: Action)
    requires Inv(s) && Enabled(s, a) && !LosesWakeup(s, a)
    ensures Inv(Do(s, a))
  {
    hide Valid, SleepOk, Do, LosesWakeup;
    FormedStep(s, a);
    match a {
      case TurnRead(p) => ReadStep(s, p);
      case TurnWrite(p) => WriteStep(s, p);
      case _ => OtherStep(s, a);
    }
  }

  ghost predicate KeepsWakeups(s: Sys, acts: seq<Action>)
    requires IsRun(s, acts)
  {
    acts == [] ||
    (var n := |acts| - 1;
     KeepsWakeups(s, acts[..n]) && !LosesWakeup(After(s, acts[..n]), acts[n]))
  }

  /** A sleeping reader means an empty pipe with its write end open, a sleeping writer a full pipe
      with its read end open, so the two never sleep at once: on every run in which no killed
      writer leaves a sleeping reader behind a full pipe. */
  lemma {:induction false} NoLostWakeup(s: Sys, acts: seq<Action>)
    requires Start(s) && IsRun(s, acts) && KeepsWakeups(s, acts)
    ensures var t := After(s, acts);
            && Formed(t) && Ends(t) && SleepOk(t) && !(ReaderAsleep(t) && WriterAsleep(t))
  {
    hide Enabled, Do, LosesWakeup, ReaderAsleep, WriterAsleep, Full, Empty;
    if acts == [] {
      StartFifo(s);
      assert !ReaderAsleep(s) && !WriterAsleep(s) by { StartAwake(s); }
    } else {
      var n := |acts| - 1;
      NoLostWakeup(s, acts[..n]);
      InvStep(After(s, acts[..n]), acts[n]);
    }
    EmptyNotFull(After(s, acts).pipe);
  }

  lemma StartAwake(s: Sys)
    requires Start(s)
    ensures !ReaderAsleep(s) && !WriterAsleep(s)
  {
  }

  /** In particular on every run in which no process is killed. */
  lemma {:induction false} NoKillKeepsWakeups(s: Sys, acts: seq<Action>)
    requires Start(s) && IsRun(s, acts) && (forall p | 0 <= p < |s.killed| :: !s.killed[p])
    requires forall k | 0 <= k < |acts| :: !acts[k].Kill?
    ensures KeepsWakeups(s, acts) && After(s, acts).killed == s.killed
  {
    hide Valid, WakeReaders, WakeWriters;
    if acts != [] {
      var n := |acts| - 1;
      NoKillKeepsWakeups(s, acts[..n]);
      assert !acts[n].Kill?;
    }
  }

  // The wakeup a killed writer loses.

  lemma RunSnoc(s: Sys, acts: seq<Action>, a: Action)
    requires IsRun(s, acts) && Formed(After(s, acts)) && Enabled(After(s, acts), a)
    ensures IsRun(s, acts + [a]) && After(s, acts + [a]) == Do(After(s, acts), a)
  {
    assert (acts + [a])[..|acts|] == acts;
  }

  function Zeros(n: nat): (r: seq<byte>)
    ensures |r| == n
  {
    if n == 0 then [] else Zeros(n - 1) + [0]
  }

  /** A reader asleep on an empty pipe, and a killed writer with bytes to write. */
  lemma KilledWriterComes(bytes: seq<byte>) returns (s: Sys, acts: seq<Action>)
    ensures Start(s) && IsRun(s, acts)
    ensures var m := After(s, acts);
            && m.roles == [Reader(1, true), Writer(bytes, 0, false)] && m.killed == [false, true] && m.pipe == s.pipe
  {
    hide After, IsRun, PutAll, GetAll, Contents;
    s := Sys(NewPipe(Zeros(PIPESIZE)), [Away, Away], [false, false], [], []);
    acts := [];
    assert IsRun(s, acts) && After(s, acts) == s by { RunNil(s); }
    RunSnoc(s, acts, BeginRead(0, 1));
    acts := acts + [BeginRead(0, 1)];
    RunSnoc(s, acts, TurnRead(0));
    acts := acts + [TurnRead(0)];
    RunSnoc(s, acts, BeginWrite(1, bytes));
    acts := acts + [BeginWrite(1, bytes)];
    RunSnoc(s, acts, Kill(1));
    acts := acts + [Kill(1)];
  }

  /** A reader sleeps on an empty pipe; a writer of more than PIPESIZE bytes is killed, fills the pipe
      and returns without waking it: the reader is left asleep before a full pipe. */
  lemma KilledWriterStrandsReader() returns (s: Sys, acts: seq<Action>)
    ensures Start(s) && IsRun(s, acts)
    ensures ReaderAsleep(After(s, acts)) && Full(After(s, acts).pipe) && After(s, acts).pipe.readopen
  {
    hide After, IsRun, PutAll, GetAll, Full, Contents;
    var bytes := Zeros(PIPESIZE + 1);
    s, acts := KilledWriterComes(bytes);
    var m := After(s, acts);
    RunSnoc(s, acts, TurnWrite(1));
    acts := acts + [TurnWrite(1)];
    PutAllAppends(m.pipe, bytes, 0);
    assert After(s, acts).roles[0] == Reader(1, true);
  }

  lemma RunNil(s: Sys)
    ensures IsRun(s, []) && After(s, []) == s
  {
  }
}
