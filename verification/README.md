# Verification of xv6 with a fair-share scheduler

A Dafny model of the parts of this xv6 kernel (and of three of its user programs) whose correctness
is hardest to see by reading: the write-ahead log and the file system on top of it, the stride
scheduler and the process table, pipes, the page tables, the K&R allocator, the shell's parser and
grep's matcher. `Basics` and `Counting` hold what several of them share. `dafny verify dfyconfig.toml`
checks everything.

How the pieces are modelled:

- **Log** (`LogMachine`, `LogCrash`, `LogOps`, `Log`). Each block write and each region under
  `log.lock` is one step of a machine, and power may fail between any two steps, during recovery too.
  `Log` is the code itself, reading and writing every block through the buffer cache; it records the
  steps it takes, so what is proved of all runs holds of it. Its invariant ties the cache to the
  machine: the dirty buffers are exactly the blocks waiting for their commit. `log.size` is a
  parameter. mkfs sets it to LOGSIZE with the header block included, one block less than `begin_op`
  reserves for; `AppendsFitExactly` says what follows. A larger log does not help: NBUF equals
  LOGSIZE, so a full header leaves no buffer for the commit (`FullHeaderNoBuffer`).
- **Buffer cache** (`Ring`, `Bcache`). The ring of buffers with its in-place relinking, over a disk
  with synchronous block writes. Key uniqueness is about blocks of the root device: all buffers start
  out as block 0 of device 0.
- **File system** (`Blocks`, `Volume`, `VolumeOps`, `BlockMap`, `FileBytes`, `WriteSpec`, `Truncate`,
  `FsCrash`, `Fs`). Byte-level blocks: bitmap bits, little-endian words, inodes packed eight to a
  block. One ghost map gives the owner of every data block, so running out of blocks is a matter of
  counting it. Files have no holes: `writei` never makes one. (mkfs rounds up the size of the root
  directory, mkfs/mkfs.c:166-171, and so makes one if the length was already a multiple of BSIZE; such
  a volume is outside the invariant.) `FsCrash` puts the file system on the log: a crash anywhere
  leaves a volume that satisfies the invariant again.
- **Processes** (`ProcMachine`, `ProcInv`, `ProcRuns`, `ProcHist`, `Fair`, `PassWrap`, `BoundedWait`,
  `Times`, `ProcTable`). Each region under `ptable.lock` is one step, on any number of CPUs, and so is each
  write fork makes to the process table without the lock; a region that ends in `sched()` includes the
  scheduler's clean-up, because the lock is held across the switch. A running process may make any
  system call at any time. `ProcTable` is the code with its scanning loops, each method one step of
  the machine. `ProcHist` says what the fields of the table mean: who sleeps, who was killed, who is in
  which group is read off the steps taken since boot, and in every reachable state the table agrees.
  `pass` is 32 bits wide and wraps.
- **Pipes** (`Pipe`, `PipeRuns`). The ring buffer with 32-bit counters, and any number of readers and
  writers taking turns under the pipe lock. An end is closed only when no call is using it, since the
  descriptor in use keeps it open.
- **Memory** (`PageSpec`, `PageSteps`, `PageCount`, `Vm`; `HeapSpec`, `Umalloc`). A physical page
  holds a free-list link, a table of entries or bytes; a ghost map names its one owner. Calls that can
  run out of pages say exactly when, by the length of the free list. The user allocator keeps its
  headers in memory at byte addresses; `sbrk` gets the 32-bit byte count read as an int and moves the
  break as growproc does, with one parameter for whether there was memory to grow.
- **Shell and grep** (`ShSpec`, `ShTree`, `ShGrammar`, `ShLex`, `ShRound`, `Sh`, `ShTokens`; `Grep`).
  The parser as recursive descent over a cursor, proved against functions of the text; panics are
  results. Beside it a grammar of sentences with their meanings, which mentions no cursor, and the ways
  to write a sentence as text. The matcher against a declarative meaning of patterns.

Where the code and its comments differ, the model follows the code: `fss_group_ensure` is documented
as called with `ptable.lock` held but fork calls it without (`ForkEnsuresNothing` shows why that is
harmless); `active` in `struct group` is 1 for a slot in use; FSS_BIG is called big enough to avoid
overflow, but a pass overflows at the 42,950th charge (`FirstCharges`, with a run that gets there in
`PassWraps`); `morecore` may be asked for more bytes than an int holds, and then takes as its own memory
that it never got (`GrantedExactly`); kill does not look at a slot's state and allocproc does not clear
`killed`, so kill(0) marks the next process to be created (`BornKilled`, `KillZeroMarksTheNext`); the
shell opens files for `>>` exactly as for `>`.

## Model

| member | source | states |
|---|---|---|
| LogCrash.HeaderRoundTrip | kernel/log.c:84-113 | read_head reads back the list write_head wrote, whatever was in the header block |
| LogCrash.InstalledAt | kernel/log.c:68-82 | install_trans puts log block i at home block lh[i] and changes no other block |
| LogCrash.RestoresMeansRecover | kernel/log.c:115-122 | recovering a disk gives home contents h exactly if every listed block has its h contents in the log and every other home block already has its own |
| LogCrash.CrashSafety | kernel/log.c:68-233 | after any run with crashes anywhere, also inside recovery, recovery gives the power-on state with a whole number of committed group transactions applied, all and only those |
| LogCrash.CommitPoint | kernel/log.c:98-113 | the header write, and no other step, changes what a crash would recover to, and it adds exactly the current transaction |
| LogCrash.ReadsSeeAllWrites | kernel/log.c:204-233 | outside boot and recovery the cache shows every committed group and the transaction in progress |
| LogOps.AllOrNothing | kernel/log.c:124-174 | an operation with one write in a committed group has all its writes there, none in another group, and is over |
| LogOps.SpaceReserved | kernel/log.c:126-174 | with every operation within MAXOPBLOCKS, the header entries plus what outstanding operations may still append never exceed LOGSIZE, and operations are outstanding only while nothing is being committed |
| LogOps.AppendFits | kernel/log.c:213-219 | with log.size > LOGSIZE an appending log_write within budget never meets the size panic |
| LogOps.AppendsFitExactly | kernel/log.c:213-219 | no run within budget can meet the size panic on an append if and only if log.size > LOGSIZE |
| LogOps.AbsorbedWriteMayPanic | kernel/log.c:213-230 | counterexample: three operations within budget fill the log, and then even re-logging an already listed block panics, because the size check comes before absorption |
| Log.Log.BeginOp | kernel/log.c:124-141 | admits exactly when no commit is running and one more operation's blocks are reserved |
| Log.Log.EndOp | kernel/log.c:143-174 | the last outstanding operation commits the transaction as one new group, the others commit nothing; the committing panic does not occur, and the no-buffers panic exactly if there is something to commit and every buffer is dirty or held |
| Log.Log.LogWrite | kernel/log.c:204-233 | on a held buffer, takes the machine's log-write step, with absorption, and marks the buffer dirty, exactly where the source does not panic |
| Log.Log.HeaderPinned | kernel/log.c:213-231 | until it is installed every block listed in the header is in a dirty buffer that holds its modified contents |
| Log.Log.CopyToLog | kernel/log.c:182-188 | the home block's buffer contents reach the log block, nobody's hold on a buffer changes, and it fails exactly if no buffer can be found for the log block |
| Log.Log.CopyOne | kernel/log.c:182-188 | one machine step; fails exactly if every buffer is dirty or held |
| Log.Log.WriteLog | kernel/log.c:176-190 | every listed block's modified contents are in its log block, taken from the buffers; one free buffer is enough for any number of blocks, and without one it panics before any write |
| Log.Log.WriteHead | kernel/log.c:98-113 | one block write of the encoded list through the header block's buffer |
| Log.Log.CopyHome | kernel/log.c:74-80 | the log block's contents reach the home block, which is no longer pending, with the buffers a commit or a recovery has |
| Log.Log.InstallTrans | kernel/log.c:68-82 | the disk becomes the installed disk, one recorded block write after another |
| Log.Log.Commit | kernel/log.c:192-202 | an empty transaction does nothing; any other becomes one committed group, or panics before any write exactly if every buffer is dirty or held |
| Log.Log.CommitRoom | kernel/log.c:176-202 | with nobody holding a buffer, a commit finds one exactly if the header lists fewer than NBUF blocks |
| Log.FullHeaderNoBuffer | kernel/param.h:10-12 | counterexample: with log.size > LOGSIZE three operations within budget can fill the header, and then no cache that agrees with the log has a buffer for write_log |
| Log.Log.LosePower | kernel/log.c:50-66 | a crash leaves the disk and nothing else: the cache starts empty |
| Log.Log.ReadHead | kernel/log.c:84-96 | loads the on-disk list into the in-memory header, through a buffer |
| Log.Log.RecoverFromLog | kernel/log.c:115-122 | run to the end on an unused cache, computes exactly the recovered disk |
| Ring.PushFrontRing | kernel/bio.c:45-55 | linking a buffer behind the head keeps next and prev one ring with that buffer first |
| Ring.MoveToFrontRing | kernel/bio.c:130-138 | brelse's six assignments keep one ring, the released buffer now first and the rest in order |
| Bcache.ValidShowsView | kernel/bio.c:95-106 | a valid buffer holds the pending update of its block if there is one, else the disk contents |
| Bcache.CacheIsLogView | kernel/log.c:176-190 | while the dirty buffers are the log's pending blocks, as they are throughout Log, reading through the cache is reading through the log |
| Bcache.FullHasNoRoom | kernel/bio.c:78-92 | with NBUF blocks pending no buffer can be taken over |
| Bcache.RoomyExactly | kernel/bio.c:78-92 | with nobody holding a buffer, one can be taken over exactly if fewer than NBUF blocks are pending |
| Bcache.Bcache.constructor | kernel/bio.c:38-56 | the ring of all NBUF buffers, last one most recently used |
| Bcache.Bcache.FindCached | kernel/bio.c:68-76 | finds a buffer with the key exactly if there is one |
| Bcache.Bcache.FindRecyclable | kernel/bio.c:78-91 | finds the least recently used buffer that is unreferenced and clean |
| Bcache.Bcache.Bget | kernel/bio.c:58-93 | hit or recycle, never a second buffer for a key, never a dirty one recycled, the map of blocks unchanged; fails exactly if the key is not cached and nothing is recyclable |
| Bcache.Bcache.Bread | kernel/bio.c:95-106 | the buffer returned holds what the map pending-else-disk says, held once more, the others untouched; fails exactly if the block is not on the disk or no buffer is found for it |
| Bcache.Bcache.MarkDirty | kernel/log.c:223-231 | the block's pending update is the new data, no other block changes, and the buffer can no longer be recycled |
| Bcache.Bcache.Bwrite | kernel/bio.c:108-116 | disk and map have the new data, the update is no longer pending |
| Bcache.Bcache.Brelse | kernel/bio.c:118-141 | at the last release the buffer moves to the front; contents, keys and pending updates stay |
| Blocks.WordOfPutWord | kernel/fs.c:389-393 | a word written into a block reads back, the others are untouched |
| Blocks.BitUpdates | kernel/fs.c:66-68 | setting or clearing a bitmap bit by mask changes that bit and no other |
| VolumeOps.AllocInv | kernel/fs.c:56-78 | a block whose bit is clear belongs to no inode and is not metadata; marking and zeroing it keeps ownership exact |
| VolumeOps.AddrsDiffer | kernel/fs.c:372-400 | two places of files, in one inode or in two, never share a block |
| VolumeOps.PutData | kernel/fs.c:498-504 | replacing the contents of one file block changes no other file block and no block number |
| VolumeOps.FreshVolume | mkfs/mkfs.c:93-116 | a zeroed volume with exactly the metadata marked used, as it is before mkfs writes the root directory, satisfies the file-system invariant |
| VolumeOps.AllUsedIff | kernel/fs.c:60-77 | every bit is set exactly if as many blocks have owners as there are data blocks |
| BlockMap.BmapGrew | kernel/fs.c:372-400 | allocating at one place of a file moves no other block of any file |
| FileBytes.InodeRoundTrip | kernel/fs.c:216-235 | the inode iupdate packs reads back equal, and the other seven of its block are untouched |
| FileBytes.WrittenContent | kernel/fs.c:498-509 | when all bytes are in place and the size adjusted, the file's contents are the old ones with the bytes spliced in |
| FileBytes.SpliceTwice | kernel/file.c:133-152 | two adjacent splices are one |
| FileBytes.ChunkLogSize | kernel/file.c:127-152 | a filewrite chunk logs at most 7 distinct blocks when one bitmap block covers the disk |
| WriteSpec.DoneWithin | kernel/fs.c:498-511 | a write inside the file leaves the inode as it is, so the on-disk inode still matches without iupdate |
| WriteSpec.WriteiTwice | kernel/file.c:133-152 | a write followed by one right behind it is one write of both |
| WriteSpec.NeedTwice | kernel/file.c:133-152 | the blocks two adjacent writes add are the blocks one write of both adds |
| Truncate.TruncDone | kernel/fs.c:402-435 | freeing the inode's places one by one frees exactly its blocks and leaves every other file as it was |
| Fs.Fs.Balloc | kernel/fs.c:53-78 | the block with the first clear bit, marked and zeroed; fails exactly if every block is in use |
| Fs.Fs.Bmap | kernel/fs.c:370-400 | the address of the file block, allocated if absent, every other file block where it was with its contents; a mapped block is found without any change; fails exactly if the block is out of range or fewer blocks are free than it and its table need |
| Fs.Fs.Iupdate | kernel/fs.c:216-235 | the in-core inode is on disk, and all else is as it was |
| Fs.Fs.Readi | kernel/fs.c:449-476 | -1 exactly as in the source, otherwise the bytes at the offset cut at the end of the file, and nothing allocated or logged |
| Fs.Fs.Writei | kernel/fs.c:478-511 | -1 exactly as in the source and then no change; otherwise the bytes spliced in, every other file unchanged, ownership, absence of holes and on-disk inodes exact again; fails exactly if the write adds more blocks than are free |
| Fs.Fs.Bfree | kernel/fs.c:80-95 | clears the bit; panics exactly if it was clear |
| Fs.Fs.Itrunc | kernel/fs.c:402-435 | the file is empty with its type and link count kept, exactly its blocks became free, and "freeing free block" is not reached |
| Fs.Fs.WriteOp | kernel/file.c:140-145 | one transaction of filewrite: splices its chunk, logs at most 7 blocks, and leads from one good disk to the next |
| Fs.Fs.Filewrite | kernel/file.c:115-156 | the chunks together are one splice; on refusal the earlier chunks stay and -1 is returned; the short-write panic does not occur; fails exactly if the bytes taken need more blocks than are free |
| Fs.Fs.Fileread | kernel/file.c:95-113 | the bytes at the offset, which moves past exactly those |
| Fs.Fs.TruncOp | kernel/fs.c:329-346 | itrunc as a transaction: leads from one good disk to the next |
| FsCrash.FsInvHome | kernel/fs.h:5-24 | the file-system invariant does not depend on the log area |
| FsCrash.GroupsEndWhole | kernel/log.c:124-174 | if each operation's log_writes come in one piece, the committed groups end where an operation ends |
| FsCrash.CrashKeepsVolume | kernel/log.c:6-18 | cut the power anywhere while the log is handed operations that each lead from a good disk to a good one: recovery yields a disk on which the file-system invariant holds |
| Fs.Fs.SurvivesCrash | kernel/log.c:6-18 | so it does at any point of the transactions of this file system, in the middle of one or between two |
| ProcInv.PickGroupIsLeast | kernel/proc.c:744-766 | the group picked has the least pass among groups with a runnable process, ties to the smaller gid; none is picked only if there is none |
| ProcInv.PickProcIsNearest | kernel/proc.c:768-793 | the process picked is the group's runnable process nearest to the cursor, going round the table |
| ProcInv.EnsuredTable | kernel/proc.c:701-724 | ensuring a group keeps every active group as it is and never makes a second slot for a gid |
| ProcInv.InvRun | kernel/proc.c:194-466 | the CPU, family, wait, fork, pid and group invariants hold in every state of every run |
| ProcInv.BootInv | kernel/proc.c:128-168 | and at boot |
| ProcRuns.NoLostChild | kernel/proc.c:241-377 | a process asleep in wait or waitx has no zombie child, and every process but init has a living parent |
| ProcRuns.OneCpuEach | kernel/proc.c:379-430 | a process is RUNNING exactly if it is on a CPU, and on no two |
| ProcRuns.ReapedOnce | kernel/proc.c:287-377 | no pid is reaped twice, and a reaped pid belongs to no process |
| ProcRuns.ReapsZombie | kernel/proc.c:287-377 | wait and waitx free one zombie child of the caller, which is on no CPU, and touch no other slot; waitx clears its time counters and wait leaves them |
| ProcRuns.NoneInvisible | kernel/proc.c:653-793 | every live process's gid has exactly one active slot, so with any process runnable a group and a process in it are picked |
| ProcRuns.ForkEnsuresNothing | kernel/proc.c:213-216 | fork's unlocked call of fss_group_ensure leaves the group table as it is, whatever other CPUs did since fork wrote the group |
| ProcHist.SleepersExact | kernel/proc.c:489-548 | in every reachable state a slot is SLEEPING, on its own process in wait and on the channel given in sleep, exactly if by the steps taken it went to sleep so and no wakeup on that channel, exit of a child, zombie handed to it or kill came since |
| ProcHist.WaitersHaveNoZombie | kernel/proc.c:287-329 | a process that by the steps taken is asleep in wait has no zombie child |
| ProcHist.ExitWakesParent | kernel/proc.c:267-284 | the exit of a child makes its parent runnable if that is asleep in wait, and leaves it the zombie |
| ProcHist.GroupsExact | kernel/proc.c:213-216 | every slot shows the group its history gives it: 0 when allocated, its parent's of that moment once fork wrote it, or where the last setgroup moved it |
| ProcHist.ForkInherits | kernel/proc.c:194-239 | the process fork makes runnable is its caller's child and has the group its parent had when fork wrote it, unless a setgroup of the child came since |
| ProcHist.ForkAtOnce | kernel/proc.c:194-239 | a fork nothing comes between gives the child the next pid and its parent's group, whichever that is, and leaves the parent as it was |
| ProcHist.ForkAfterMove | kernel/proc.c:653-671 | the child of a process that has just moved itself to another group starts in that group |
| ProcHist.KilledExact | kernel/proc.c:550-571 | a slot is marked killed exactly if a kill found its pid there first since it was last reaped |
| ProcHist.KillFinds | kernel/proc.c:550-571 | the slot kill stops at for the pid of a process in use is that process |
| ProcHist.BornKilled | kernel/proc.c:71-102 | a new process is already marked killed if and only if a kill found its slot while it was unused |
| ProcHist.KillZeroMarksTheNext | kernel/proc.c:559-561 | counterexample: after kill(0) the first child of init starts out killed |
| ProcHist.LifeExact | kernel/proc.c:241-329 | a slot is unused, in use or dead by the allocations, failed forks, exits and reaps so far |
| ProcHist.StateExact | kernel/proc.h:35 | the state of every slot is what its history, the CPUs and the forks under way say, and RUNNABLE exactly if none of them says otherwise |
| ProcHist.KinExact | kernel/proc.c:241-285 | every slot shows the parent and pid its history gives it, orphans being init's, and pids are given out in order |
| Fair.GroupEffect | kernel/proc.c:414-427 | a step changes a group's pass only by charging it, and its charges in flight only by dispatching or charging it |
| Fair.LeadBounded | kernel/proc.c:388-430 | if b has a runnable process whenever a is dispatched, a's pass with its charges in flight leads b's by at most the larger of its initial lead and ncpu strides, as long as b's pass does not wrap |
| Fair.WrapRaisesLead | kernel/proc.c:425-426 | charging b lowers leads over it if and only if the 32-bit addition does not wrap |
| Fair.PassCounts | kernel/proc.c:425-426 | pass is the number of charges times the stride modulo 2^32, and every dispatch is charged once |
| Fair.NoWrapIff | kernel/proc.h:67-72 | a run has no wrap in a group if and only if its charges fit in 32 bits |
| Fair.FirstCharges | kernel/proc.h:67-72 | from pass 0, exactly the first 42,949 charges are free of wrap |
| PassWrap.DuelTurn | kernel/proc.c:388-430 | with one runnable process in each of two groups, the group with the lower pass, group 0 on a tie, has the next turn and pays for it |
| PassWrap.PassWraps | kernel/proc.h:67-72 | counterexample: a run from boot charges group 0 for the 42,950th time, its pass wraps to 32,704, and on up to 42,948 CPUs group 1's lead over it exceeds the bound of LeadBounded, though group 0 had a runnable process at every dispatch of group 1 |
| PassWrap.WrapStarves | kernel/proc.h:67-72 | and then group 0 has the CPU for 42,949 turns in a row while group 1's process stays runnable |
| Fair.EqualShares | kernel/proc.c:744-766 | two groups that start level and compete throughout have dispatch counts that differ by at most the number of CPUs, so by one on one CPU |
| BoundedWait.MeasureRun | kernel/proc.c:388-430 | on one CPU every dispatch that passes over a waiting process uses up part of a measure fixed at the start |
| BoundedWait.WaitBounded | kernel/proc.c:388-430 | on one CPU without wrap, a process that stays runnable is passed over by at most (NPROC-1) + (NGROUPS-1)*(pass/FSS_BIG + NPROC) dispatches, pass being its group's at the start with a charge in flight counted |
| BoundedWait.PicksNearer | kernel/proc.c:768-793 | on any number of CPUs the slots picked for its group come strictly nearer to the waiting process |
| BoundedWait.PickedOnce | kernel/proc.c:768-793 | so no slot is picked twice for the group before it |
| Times.TimesCount | kernel/proc.c:610-634 | in every reachable state rtime, wtime and stime are the ticks since allocproc at which the process was running, runnable and sleeping |
| Times.WaitxReports | kernel/proc.c:331-366 | the numbers reported for the child reaped are exactly those, and waitx then clears its counters |
| Times.RtimeConserved | kernel/proc.c:610-634 | over k ticks all processes together gain at most k times ncpu of running time |
| ProcTable.Ptable.constructor | kernel/proc.c:128-168 | pinit and userinit leave the boot state |
| ProcTable.Ptable.GroupLookup | kernel/proc.c:692-699 | the first active slot with the gid |
| ProcTable.Ptable.GroupEnsure | kernel/proc.c:701-724 | the table with the gid's slot, and that slot, or failure with no change |
| ProcTable.Ptable.GroupHasRunnable | kernel/proc.c:726-742 | whether a runnable process is in the group |
| ProcTable.Ptable.PickBestGroup | kernel/proc.c:744-766 | the loop computes the least-pass group |
| ProcTable.Ptable.PickProcIn | kernel/proc.c:768-793 | the loop computes the nearest process and moves the cursor behind it |
| ProcTable.Ptable.Dispatch | kernel/proc.c:397-419 | dispatches exactly if a group has a runnable process, as the machine does, keeping every invariant |
| ProcTable.Ptable.Return | kernel/proc.c:422-427 | the CPU is idle and the group that ran is charged |
| ProcTable.Ptable.Yield | kernel/proc.c:458-466 | the machine's yield step |
| ProcTable.Ptable.Sleep | kernel/proc.c:489-526 | the machine's sleep step, atomic under the lock |
| ProcTable.Ptable.WakeupAll | kernel/proc.c:528-539 | wakes exactly the sleepers on the channel |
| ProcTable.Ptable.AllocProc | kernel/proc.c:71-102 | the first unused slot, or failure with no change |
| ProcTable.Ptable.Wakeup | kernel/proc.c:541-548 | the machine's wakeup step |
| ProcTable.Ptable.ForkFails | kernel/proc.c:206-212 | the allocated slot is unused again |
| ProcTable.Ptable.ForkSetParent | kernel/proc.c:214 | the machine's step that gives the slot its parent |
| ProcTable.Ptable.ForkSetGid | kernel/proc.c:215 | the machine's step that gives the slot its parent's group; what comes of it in ProcHist.GroupsExact and ForkInherits |
| ProcTable.Ptable.ForkEnsureGroup | kernel/proc.c:216 | the machine's step that makes sure of that group, without the lock |
| ProcTable.Ptable.ForkPublishes | kernel/proc.c:232-238 | the machine's step that makes the child runnable, and its pid as the result |
| ProcTable.Ptable.GiveToInit | kernel/proc.c:272-279 | every child passes to init, which is woken exactly if one of them is a zombie |
| ProcTable.Ptable.Exit | kernel/proc.c:241-285 | the machine's exit step |
| ProcTable.Ptable.WaitScan | kernel/proc.c:297-324 | reaps the first zombie child and reports its pid and times, gives up without children or when killed, or must sleep, each exactly in its case |
| ProcTable.Ptable.WaitSleep | kernel/proc.c:326-327 | the machine's step of going to sleep in wait, from which every exit of a child wakes it (ProcHist.ExitWakesParent) |
| ProcTable.Ptable.Kill | kernel/proc.c:550-571 | marks and wakes the first slot with the pid, succeeding exactly if there is one |
| ProcTable.Ptable.SetGroup | kernel/proc.c:653-671 | moves the process, succeeding exactly if the gid is valid, has a slot and the pid is live |
| ProcTable.Ptable.TickAccounting | kernel/proc.c:610-634 | one more tick in the counter of each process's state |
| Pipe.SlotWraps | kernel/pipe.c:93 | PIPESIZE divides 2^32, so a counter keeps its slot when it wraps |
| Pipe.PutAllAppends | kernel/pipe.c:84-94 | writing appends as many bytes as fit, and stops short only when full |
| Pipe.GetAllTakes | kernel/pipe.c:113-117 | reading takes the oldest bytes, as many as there are up to n |
| Pipe.WriteEnds | kernel/pipe.c:77-98 | a turn of pipewrite puts in as many bytes as fit and returns n exactly if the rest of them did, otherwise -1 if nobody can read or the writer was killed, otherwise sleeps; readers are woken unless it returns -1 |
| Pipe.ReadEnds | kernel/pipe.c:100-121 | a turn of piperead sleeps, or returns -1 if killed, exactly on an empty pipe open for writing; otherwise it returns the number of bytes it took, the smaller of n and those buffered; so 0 exactly if nothing was asked for or the pipe is empty and closed for writing |
| Pipe.PipeBuf.WriteSome | kernel/pipe.c:84-94 | the loop over the data array does exactly that |
| Pipe.PipeBuf.ReadSome | kernel/pipe.c:113-117 | and so does the copy loop |
| Pipe.PipeBuf.WriteUntilSleep | kernel/pipe.c:77-98 | one turn of pipewrite, which ends as WriteEnds says |
| Pipe.PipeBuf.ReadUntilSleep | kernel/pipe.c:100-121 | one turn of piperead, which ends as ReadEnds says |
| Pipe.PipeBuf.Close | kernel/pipe.c:59-75 | closes one end and wakes the sleepers at the other; the page can go exactly if both are closed |
| PipeRuns.FifoRun | kernel/pipe.c:77-121 | on every run, across wrap-around, the bytes written are the bytes read followed by at most PIPESIZE buffered ones |
| PipeRuns.EndsExact | kernel/pipe.c:59-75 | an end is open exactly until it is closed |
| PipeRuns.EndOfFile | kernel/pipe.c:100-121 | on every run a read of at least one byte returns 0 exactly if the write end was closed and every byte ever written has been read |
| PipeRuns.RolesExact | kernel/pipe.c:77-121 | through all its turns a process carries on with the call it made |
| PipeRuns.WriterProgress | kernel/pipe.c:84-94 | a writer between turns has put in exactly the bytes it has got past, over all its turns |
| PipeRuns.WriteCallReturns | kernel/pipe.c:77-98 | a write that returns n put its n bytes in, each once and in order; one that returns -1 put in a proper beginning of them |
| PipeRuns.KilledAwake | kernel/proc.c:550-571 | a process that was killed does not sleep at the pipe, even if it did when it was killed |
| PipeRuns.WriteStep | kernel/pipe.c:77-98 | a writer's turn leaves nobody asleep who could go on, if and only if it is not a killed writer with more than PIPESIZE bytes left while a reader sleeps |
| PipeRuns.NoLostWakeup | kernel/pipe.c:59-121 | on every run without such a turn a sleeping reader means an empty pipe with its write end open, a sleeping writer a full one with its read end open, and never both |
| PipeRuns.NoKillKeepsWakeups | kernel/pipe.c:59-121 | runs in which no process is killed have no such turn |
| PipeRuns.KilledWriterStrandsReader | kernel/pipe.c:85-89 | counterexample: a run that ends with a reader asleep before a full pipe |
| PageSpec.TabFrame | kernel/kalloc.c:59-95 | pages passing on and off the free list disturb no address space |
| PageSteps.MapUserTab | kernel/vm.c:57-80 | mapping a frame at an unmapped user page makes that page its one owner |
| PageSteps.UnmapTab | kernel/vm.c:269-275 | clearing a user entry leaves its frame unowned and everything else owned as before |
| PageSteps.SetLookup | kernel/vm.c:57-80 | writing an entry changes what its directory says of that page and of no other, in any address space |
| PageCount.FreeCount | kernel/kalloc.c:20-29 | the free list is as long as there are free pages |
| PageCount.LacksNext | kernel/vm.c:39-53 | one more page of a range takes a table exactly if the range so far and the directory have none for it |
| PageCount.KernelLacks | kernel/vm.c:103-131 | how many tables each entry of kmap adds, 64 in all |
| Vm.NoSharing | kernel/vm.c:35-80 | no table, frame or directory is used twice or is on the free list |
| Vm.KernelPages | kernel/vm.c:103-115 | the four entries of kmap together map page 0x80000 + x to frame x below PHYSTOP, writable unless kernel text, and the device pages to themselves |
| Vm.Kernel.constructor | kernel/kalloc.c:31-53 | every page starts on the free list |
| Vm.Kernel.Kalloc | kernel/kalloc.c:79-95 | a free page, or nothing exactly if no page is free |
| Vm.Kernel.Kfree | kernel/kalloc.c:55-77 | the page is at the head of the free list |
| Vm.Kernel.Walk | kernel/vm.c:32-55 | the table holding the entry, made if asked for, with no address space changed; fails exactly if there is none and none was asked for or no page is free |
| Vm.Kernel.SetPte | kernel/vm.c:72 | the entry maps the frame, which now belongs to its page, and no other page of any address space changes |
| Vm.Kernel.MapPages | kernel/vm.c:57-80 | the pages map consecutive frames, all else is as it was; all of them exactly if there are as many free pages as tables to make, otherwise those before the first table that could not be made |
| Vm.Kernel.Setupkvm | kernel/vm.c:103-136 | virtual page 0x80000 + x maps frame x below PHYSTOP, read-only exactly for kernel text, pages from 0xFE000 map themselves, none of them for users, and no other page is mapped; for 65 pages, or failure, exactly with fewer free pages, and every page given back |
| Vm.Kernel.Allocuvm | kernel/vm.c:219-249 | fresh zeroed frames at every page of the range, or failure with every frame given back, exactly if the free pages do not suffice for the frames and the missing tables; the error returns |
| Vm.Kernel.DeallocAt | kernel/vm.c:262-277 | one round of the loop: frees the frame of one page, or steps over the pages of a table that is not there |
| Vm.Kernel.Deallocuvm | kernel/vm.c:251-279 | though it steps over absent tables, it frees exactly the frames of a page-by-page scan |
| Vm.Kernel.Freevm | kernel/vm.c:281-298 | every page of the directory is free and no other changed hands |
| Vm.Kernel.Copyuvm | kernel/vm.c:313-345 | the same bytes and flags in frames that were free, the original untouched; or failure with every page given back, exactly if the free pages do not suffice for the kernel's half, the frames and the tables over them |
| HeapSpec.InsertSeparated | user/umalloc.c:33-42 | after free the list is in address order with a gap after every block |
| HeapSpec.InsertCovers | user/umalloc.c:33-42 | and holds exactly the addresses it held and the freed block's, with the units adding up |
| HeapSpec.CarveSeparated | user/umalloc.c:75-84 | what malloc takes is disjoint from what it leaves, and the list stays in order with gaps |
| HeapSpec.CarveCovers | user/umalloc.c:75-84 | the addresses and units split between taken and left |
| HeapSpec.NunitsHolds | user/umalloc.c:69 | the units hold header and request if and only if nbytes is at most 2^32-8 |
| HeapSpec.CoreBytesExact | user/umalloc.c:50-54 | the byte count sbrk gets is the size of the area, as an int, if and only if nbytes is at most 2^31-16 or above 2^32-8 |
| HeapSpec.GrantedExactly | kernel/proc.c:170-189 | when sbrk succeeds the process holds the whole area if and only if nbytes is at most 2^31-16 or above 2^32-8 |
| HeapSpec.HugeRequestUngranted | kernel/sysproc.c:45-57 | counterexample: for 2^32-8 bytes sbrk is asked for nothing, succeeds, and grants nothing |
| HeapSpec.ReleasePartition | user/umalloc.c:24-44 | freeing keeps free and live blocks a partition of what sbrk gave |
| HeapSpec.GrowPartition | user/umalloc.c:46-61 | so does a new area |
| HeapSpec.AllocatePartition | user/umalloc.c:74-85 | and so does allocating |
| Umalloc.Memory.Search | user/umalloc.c:30-32 | the search ends, at the ring member below the block |
| Umalloc.Memory.Link | user/umalloc.c:33-43 | the four ways of relinking yield the ring of the coalesced list |
| Umalloc.Memory.Free | user/umalloc.c:24-44 | the block is back in the coalesced ring, all other blocks untouched, and freep is the ring member below it |
| Umalloc.Memory.Morecore | user/umalloc.c:46-61 | an area of at least 4096 units at the old break joins the free list, or failure with no change; the process holds that area exactly if the 32-bit byte count, read as an int, is its size |
| Umalloc.Memory.Take | user/umalloc.c:75-84 | the whole block or its tail becomes live, and freep is the member before it |
| Umalloc.Memory.Malloc | user/umalloc.c:63-90 | the first fit going round from freep, also after morecore; morecore is called once exactly if nothing fits, and malloc fails exactly if that fails; free and live blocks stay a partition of memory the process holds exactly if the request fits an int in bytes |
| ShGrammar.SentenceParses | user/sh.c:327-446 | a text whose tokens are a sentence of the grammar parses to what the sentence means, or panics if a command in it has more than nine words |
| ShGrammar.ParsesExactly | user/sh.c:327-446 | the parser accepts a text if and only if its tokens are a sentence with at most nine words a command, and then returns its meaning |
| ShLex.LexText | user/sh.c:265-308 | the tokens found in a text are those it was written from, whatever the blanks |
| ShLex.LexSplits | user/sh.c:265-308 | every text is made of the tokens found in it and blanks |
| ShRound.PlainRoundTrip | user/sh.c:327-446 | the plain text of any sentence, words with redirections before and among them, pipes and lists nesting to the right without brackets, any number of & after a pipeline, with any blanks: it parses to the sentence's meaning, or panics if a command has more than nine words |
| ShRound.RoundTrip | user/sh.c:327-446 | parsing the bracketed text of any command tree, with any blanks, gives the tree back if every command has at most nine words, and panics otherwise |
| ShRound.EveryTreeHasText | user/sh.c:327-446 | every tree the parser can build has such a text |
| ShTokens.LineOk | user/sh.c:265-308 | every token of a parsed command is a maximal run of word characters |
| ShTokens.TokensReadable | user/sh.c:448-493 | with a NUL at the end of every token, each still reads as exactly its own text |
| ShTokens.Nulterminate | user/sh.c:448-493 | writes a NUL at the end of every token of the tree and nowhere else |
| ShTokens.Parsecmd | user/sh.c:327-342 | the parsed tree, every word and file name of it readable in the buffer as its token |
| Sh.Parser.Gettoken | user/sh.c:265-308 | the next token and the cursor behind it |
| Sh.Parser.PeekFor | user/sh.c:310-320 | whether the next character is one of those asked for |
| Sh.Parser.Parseline | user/sh.c:344-359 | the line grammar, ending on the remaining input |
| Sh.Parser.Parsepipe | user/sh.c:361-372 | the pipeline grammar |
| Sh.Parser.Parseredirs | user/sh.c:374-397 | the redirections in order, or the panic |
| Sh.Parser.Parseblock | user/sh.c:399-413 | the bracketed command and its redirections, or the panic |
| Sh.Parser.Parseexec | user/sh.c:415-446 | a block, or words and redirections mixed up to the end of the text or a symbol that ends them, or the panic; as ShRound.PlainRoundTrip says of whole lines |
| Grep.HereDecides | user/grep.c:84-106 | matchhere holds exactly if the text begins with one piece for each item of the pattern |
| Grep.Matchstar | user/grep.c:98-106 | the loop tries every length the star allows |
| Grep.Match | user/grep.c:72-82 | 1 exactly if some substring, or some prefix under a leading ^, is described by the pattern |

## Left out

- Device inodes in readi and writei, the IDE queue, consoles and drivers; the disk is blocks written one at a time.
- Spinlocks, sleep locks and memory ordering: locked regions are single steps.
- Inode allocation, the inode cache, link counts, directories and path names.
- exec, system-call arguments, loaduvm, inituvm, clearpteu and copyout; growproc is modelled only in its effect on the break.
- The reference counts of the open-file table, and giving a pipe's page back to kalloc (Pipe.PipeBuf.Close only says when).
- A process's stack, page directory, open files and working directory, and getgroup_k and procdump, which only read.
- Who gets the CPU among sleepers woken together, and that a waiting begin_op is admitted in the end.
- Log.Log.BeginOp: one look of its loop; going to sleep and looking again is not a loop here.
- Fs.Fs.Balloc: running out of blocks is a result here and a panic in the source.
- Fs.Fs.LogWrite: stands for bread, change, log_write and brelse together, and never runs out of buffers or log space.
- FsCrash.CrashKeepsVolume: operations whose log_writes interleave are not covered; the file system here runs one operation at a time.
- Fs.Fs.TruncOp: iput also clears the inode's type, which this does not.
- ProcTable.Ptable.TickAccounting: the counters are unbounded, where the source has 32-bit ints.
- ProcTable.Ptable.AllocProc: pids are unbounded; the kernel stack allocation that follows is part of the fork steps.
- Vm.Kernel.MapPages: addresses are page numbers; the rounding of unaligned addresses and the remap panic are not modelled.
- Vm.Kernel.Kfree: the range check and the junk fill are not modelled.
- Sh.Parser.Parseredirs: collects the redirections, which are wrapped around the command afterwards; the tree is the same.
- The shell's runcmd and reading of lines, and grep's buffer of lines.
