/** The write-ahead log of kernel/log.c as a step machine.

    Every region under log.lock is one step and so is every single block write, so a
    crash may fall between any two block writes, during recovery as well. */
module LogMachine {
  import opened Basics
  import opened Blocks

  const MAXOPBLOCKS := 10
  const LOGSIZE := 30

  type Disk = seq<Block>

  /** Blocks on the disk, and the log area: logSize blocks, of which the first is the header. */
  datatype Geometry = Geometry(size: nat, logStart: nat, logSize: nat)

  ghost predicate ValidGeometry(g: Geometry) {
    1 <= g.logSize && g.logStart + g.logSize <= g.size < UINT_LIMIT
  }

  /** The blocks file-system operations may log: everything outside the log area. */
  predicate IsHome(g: Geometry, bn: nat) {
    bn < g.size && (bn < g.logStart || g.logStart + g.logSize <= bn)
  }

  // The header block: word 0 is the number of entries, words 1.. the home block numbers.

  /** read_head: the entries of an on-disk header. */
  function DecodeHeader(b: Block): (lh: seq<uint>)
    requires Word(b, 0) < WORDS
    ensures |lh| == Word(b, 0)
  {
    seq(Word(b, 0), i requires 0 <= i < Word(b, 0) => Word(b, 1 + i))
  }

  function PutEntries(b: Block, lh: seq<uint>, k: nat): (r: Block)
    requires k <= |lh| < WORDS
  {
    if k == 0 then b else PutWord(PutEntries(b, lh, k - 1), k, lh[k - 1])
  }

  /** write_head: only the words in use are overwritten. */
  function EncodeHeader(b: Block, lh: seq<uint>): (r: Block)
    requires |lh| < WORDS
  {
    PutEntries(PutWord(b, 0, |lh|), lh, |lh|)
  }

  // Histories.

  /** One log_write: block bn gets contents data, on behalf of operation op. */
  datatype Write = Write(op: nat, bn: uint, data: Block)

  /** The blocks after carrying out ws in order. */
  function Replay(home: Disk, ws: seq<Write>): (r: Disk)
    ensures |r| == |home|
  {
    if ws == [] then home
    else
      var w := ws[|ws| - 1];
      var d := Replay(home, ws[..|ws| - 1]);
      if w.bn < |d| then d[w.bn := w.data] else d
  }

  /** The blocks after a whole number of group transactions. */
  function ReplayAll(home: Disk, groups: seq<seq<Write>>): (r: Disk)
    ensures |r| == |home|
  {
    if groups == [] then home
    else Replay(ReplayAll(home, groups[..|groups| - 1]), groups[|groups| - 1])
  }

  function WritesOf(ws: seq<Write>, op: nat): seq<Write> {
    if ws == [] then []
    else
      var w := ws[|ws| - 1];
      WritesOf(ws[..|ws| - 1], op) + (if w.op == op then [w] else [])
  }

  // The machine.

  /** An outstanding operation and the number of header entries it has appended. */
  datatype Op = Op(id: nat, used: nat)

  /** Where the kernel is: committing is set exactly in LogCopy, Install (not recovering) and Done. */
  datatype Phase =
    | Running
    | LogCopy(tail: nat)
    | Install(tail: nat, recovering: bool)
    | Done
    | Boot

  /** disk survives a crash; ops, lh and pending (the dirty buffers) do not.
      issued, cur and groups record history: every log_write so far, those of the
      transaction being built, and the committed group transactions. */
  datatype State = State(
    disk: Disk, phase: Phase, ops: seq<Op>, nextOp: nat, lh: seq<uint>, pending: map<uint, Block>,
    issued: seq<Write>, cur: seq<Write>, groups: seq<seq<Write>>)

  datatype Action =
    | Begin
    | LogWrite(k: nat, bn: uint, data: Block)
    | End(k: nat)
    | CopyBlock
    | WriteHead
    | InstallBlock
    | ClearHead
    | FinishCommit
    | Crash
    | ReadHead

  /** What bread returns: the dirty buffer if there is one, the disk block otherwise. */
  function View(s: State, bn: uint): Block
    requires bn < |s.disk|
  {
    if bn in s.pending then s.pending[bn] else s.disk[bn]
  }

  /** The size checks at the top of log_write. */
  predicate SizeGuard(g: Geometry, s: State) {
    |s.lh| >= LOGSIZE || |s.lh| >= g.logSize - 1
  }

  predicate Enabled(g: Geometry, s: State, a: Action) {
    match a
    case Begin => s.phase.Running? && |s.lh| + (|s.ops| + 1) * MAXOPBLOCKS <= LOGSIZE
    case LogWrite(k, bn, data) => k < |s.ops| && IsHome(g, bn) && !SizeGuard(g, s)
    case End(k) => k < |s.ops| && s.phase.Running?
    case CopyBlock => s.phase.LogCopy? && s.phase.tail < |s.lh|
    case WriteHead => s.phase.LogCopy? && s.phase.tail == |s.lh|
    case InstallBlock => s.phase.Install? && s.phase.tail < |s.lh|
    case ClearHead => s.phase.Install? && s.phase.tail == |s.lh|
    case FinishCommit => s.phase.Done?
    case Crash => true
    case ReadHead => s.phase.Boot?
  }

  /** A header that fits the log area: distinct home blocks. */
  ghost predicate GoodList(g: Geometry, lh: seq<uint>) {
    && |lh| <= LOGSIZE && |lh| < g.logSize
    && (forall i | 0 <= i < |lh| :: IsHome(g, lh[i]))
    && (forall i, j | 0 <= i < j < |lh| :: lh[i] != lh[j])
  }

  /** The entries in the header block of disk d. */
  ghost function Header(g: Geometry, d: Disk): (lh: seq<uint>)
    requires g.logStart < |d| && Word(d[g.logStart], 0) < WORDS
  {
    DecodeHeader(d[g.logStart])
  }

  /** A disk whose header, empty or not, is one write_head can have written. */
  ghost predicate HeaderOk(g: Geometry, d: Disk) {
    && ValidGeometry(g)
    && |d| == g.size
    && Word(d[g.logStart], 0) <= LOGSIZE
    && GoodList(g, Header(g, d))
  }

  /** Shape every state keeps; enough for Do to be total on enabled actions. */
  ghost predicate Shape(g: Geometry, s: State) {
    HeaderOk(g, s.disk) && GoodList(g, s.lh)
  }

  function RemoveAt<T>(s: seq<T>, k: nat): seq<T>
    requires k < |s|
  {
    s[..k] + s[k + 1..]
  }

  ghost function Do(g: Geometry, s: State, a: Action): State
    requires Shape(g, s) && Enabled(g, s, a)
  {
    match a
    case Begin =>
      s.(ops := s.ops + [Op(s.nextOp, 0)], nextOp := s.nextOp + 1)
    case LogWrite(k, bn, data) =>
      var w := Write(s.ops[k].id, bn, data);
      var t := s.(pending := s.pending[bn := data], issued := s.issued + [w], cur := s.cur + [w]);
      if bn in s.lh then t  // log absorption
      else t.(lh := s.lh + [bn], ops := s.ops[k := s.ops[k].(used := s.ops[k].used + 1)])
    case End(k) =>
      var ops := RemoveAt(s.ops, k);
      s.(ops := ops,
         phase := if ops != [] then Running else if |s.lh| > 0 then LogCopy(0) else Done)
    case CopyBlock =>
      var t := s.phase.tail;
      s.(disk := s.disk[g.logStart + 1 + t := View(s, s.lh[t])], phase := LogCopy(t + 1))
    case WriteHead =>
      s.(disk := s.disk[g.logStart := EncodeHeader(s.disk[g.logStart], s.lh)],
         phase := Install(0, false), cur := [], groups := s.groups + [s.cur])
    case InstallBlock =>
      var t := s.phase.tail;
      s.(disk := s.disk[s.lh[t] := s.disk[g.logStart + 1 + t]],
         pending := s.pending - {s.lh[t]}, phase := Install(t + 1, s.phase.recovering))
    case ClearHead =>
      s.(disk := s.disk[g.logStart := EncodeHeader(s.disk[g.logStart], [])], lh := [],
         phase := if s.phase.recovering then Running else Done)
    case FinishCommit => s.(phase := Running)
    case Crash => s.(phase := Boot, ops := [], lh := [], pending := map[], cur := [])
    case ReadHead => s.(lh := DecodeHeader(s.disk[g.logStart]), phase := Install(0, true))
  }

  /** acts is a run of the machine from s: each action is enabled where it is taken. */
  ghost predicate IsRun(g: Geometry, s: State, acts: seq<Action>)
    decreases |acts|, 0
  {
    acts == [] ||
    (var n := |acts| - 1;
     && IsRun(g, s, acts[..n])
     && Shape(g, After(g, s, acts[..n]))
     && Enabled(g, After(g, s, acts[..n]), acts[n]))
  }

  ghost function After(g: Geometry, s: State, acts: seq<Action>): State
    requires IsRun(g, s, acts)
    decreases |acts|, 1
  {
    if acts == [] then s
    else
      var n := |acts| - 1;
      Do(g, After(g, s, acts[..n]), acts[n])
  }

  lemma RunSnoc(g: Geometry, s: State, acts: seq<Action>, a: Action)
    requires IsRun(g, s, acts) && Shape(g, After(g, s, acts)) && Enabled(g, After(g, s, acts), a)
    ensures IsRun(g, s, acts + [a])
    ensures After(g, s, acts + [a]) == Do(g, After(g, s, acts), a)
  {
    assert (acts + [a])[..|acts|] == acts;
  }

  /** Power-on with disk d. */
  function PowerOn(d: Disk): State {
    State(d, Boot, [], 0, [], map[], [], [], [])
  }

  /** install_trans: the first k logged blocks copied to their home locations, in order. */
  ghost function Installed(g: Geometry, d: Disk, lh: seq<uint>, k: nat): (r: Disk)
    requires ValidGeometry(g) && |d| == g.size && GoodList(g, lh) && k <= |lh|
    ensures |r| == |d|
  {
    if k == 0 then d
    else
      var p := Installed(g, d, lh, k - 1);
      p[lh[k - 1] := p[g.logStart + k]]
  }

  /** recover_from_log, start to finish. */
  ghost function Recover(g: Geometry, d: Disk): (r: Disk)
    requires HeaderOk(g, d)
    ensures |r| == |d|
  {
    var p := Installed(g, d, Header(g, d), |Header(g, d)|);
    p[g.logStart := EncodeHeader(p[g.logStart], [])]
  }

  ghost predicate SameHome(g: Geometry, d: Disk, e: Disk) {
    |d| == |e| == g.size && forall bn: uint | IsHome(g, bn) :: d[bn] == e[bn]
  }
}
