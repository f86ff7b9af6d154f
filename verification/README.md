# xv6 in Dafny

A verification project for xv6, the teaching operating system, on RISC-V.  It models the parts of
the kernel, and of its user library, whose correctness does not show in any one function, and
proves what they promise: of every input, of every run, of every crash.

Verify it with `dafny verify dfyconfig.toml` (Dafny 4.11).

| files | what they model |
|---|---|
| `CrashRecovery.dfy` | the writes of commit and recovery on a disk that may crash between any two of them |
| `Bio.dfy` | the buffer cache and its ring of buffers |
| `Log.dfy` | the log as code over the cache: begin_op, log_write, end_op, commit, recovery |
| `LogReservation.dfy` | the space reservation of concurrent operations, as a state machine |
| `LogSharing.dfy` | the same for operations that have blocks in common |
| `LogOps.dfy` | the reservation joined to the log: operations within their budget |
| `FsCrash.dfy` | the file system run on the log, down to the words of its blocks, and what is left of it after a crash |
| `Proc.dfy`, `ProcInvariant.dfy`, `ProcWakeup.dfy`, `ProcMonitor.dfy`, `ProcSafety.dfy`, `ProcProgress.dfy` | scheduler, sleep and wakeup, fork, exit, wait, kill and sleeplocks on any number of CPUs |
| `Interrupts.dfy` | push_off and pop_off, and the interrupt flag across context switches |
| `Fs.dfy` | block allocator, inodes, readi, writei, itrunc and the chunks of filewrite |
| `Itable.dfy` | the table of in-memory inodes and their references |
| `PageTable.dfy`, `Vm.dfy` | Sv39 page tables (section 4.4 of the RISC-V Privileged Architecture), the page allocator, user copies, the memory side of fork |
| `Malloc.dfy` | the K&R free-list allocator of the user library |
| `Virtio.dfy` | the virtio disk driver and a device on the other side of the rings (sections 2.6 and 5.2 of VIRTIO 1.1) |
| `Pipe.dfy` | the pipe ring and who sleeps on it |
| `Grep.dfy` | the regular-expression matcher of grep |
| `Common.dfy` | facts about finite sets and sequences |

## How it is modelled

**Log and cache.**  A disk is a sequence of blocks and one block write is the atomic step.
`CrashRecovery` says what any prefix of the writes of commit() and of recovery leaves behind.
`Log` runs the code of log.c over the buffer cache of bio.c, keeps every state that the disk has
been in, and shows that these are the writes of `CrashRecovery`; it follows that every one of these
states recovers to a committed snapshot.  What a reader gets is specified by `View`: the valid
buffer of a block if there is one, else the disk.  A panic is a precondition or is shown to be
unreachable.

**Processes.**  A state machine at the granularity of lock operations: each step of a thread or of
a scheduler is what happens between two operations on locks, or one operation on a lock together
with the private work around it.  swtch() is a step that moves a CPU from one stack to another.
Every thread may be preempted wherever interrupts are on.  A device interrupt is served by the thread that it
interrupts or, if it interrupts a scheduler in its idle loop, by a thread that runs on a CPU of its own from the
start (`Start`): one that never sleeps, takes a spinlock, makes conditions true, calls wakeup() and lets go is what
a handler is to everybody else.  The theorems of `ProcSafety` are about
all reachable states for any number of CPUs, processes, spinlocks and monitors.  A monitor is a sleep
channel with the spinlock and the condition that go with it; `NoLostWakeup` is about any of them:

| who sleeps | spinlock | channel | condition |
|---|---|---|---|
| acquiresleep() | lk->lk | the sleeplock | it is not locked |
| begin_op() | log.lock | &log | no commit runs and the reservation fits |
| piperead() | pi->lock | &pi->nread | there is a byte, or no writer |
| pipewrite() | pi->lock | &pi->nwrite | there is room, or no reader |
| virtio_disk_rw() | vdisk_lock | &disk.free[0] | three descriptors are free |
| virtio_disk_rw() | vdisk_lock | the buffer | b->disk is 0 |

Sleeplocks are modelled down to their code.  Of the others the theorem asks one thing: who makes the
condition true calls wakeup() before it lets go of the spinlock.  `Pipe` and `Virtio` show that theirs
do, and `Pipe` the one path that does not.  wait() sleeps over wait_lock on a condition about other processes, and has a
theorem of its own, `NoLostWait`.

**Interrupts.**  A state machine of its own: threads call push_off() and pop_off(), turn interrupts on and off
where they hold no lock, and switch as sched() and scheduler() do.  A lock held in the process model is a push_off()
to undo here.

**Inodes.**  Each block in use has exactly one owner, kept in a ghost map.  The contents of a file
are a flat sequence of bytes, `File(i)`, and every operation is specified by what it does to that.  `Noted` says
that every block in which the disk has changed has been logged.  `FsCrash` gives the bitmap, the inodes and the data in
words, and runs writei(), iput(), ialloc() and
iupdate() on the log: that the blocks logged are all that changed is what makes the recovered disk hold
the file system of some moment.

Some predicates that are mostly handed on are kept folded under a `Key` (`Common`): `forall k :: Key(k) ==> P` is P,
but is unfolded only where a proof mentions a key.

**Page tables.**  The tree is kept in words of pages, as in memory.  `Entry(tab, Leaf(root, v))` is
the flat map from pages to entries that the three levels stand for; a ghost map says whose each
physical page is.  `Frame` says that all other mappings, owners and bytes are as they were.

**malloc.**  Addresses count units of a header's size.  A ghost map gives every unit obtained from
sbrk() its block; blocks tile it.

**virtio.**  Driver stretches under vdisk_lock and device actions come in any order.  The device
acts only on what it reads in the descriptors and rings; the history records what was asked for.

## What the proofs found

- With operations of MAXOPBLOCKS blocks, appending to the log is safe exactly if the log on disk has
  room for LOGSIZE blocks after its header (`AppendsSafeIff`).  mkfs makes it one block too short: it
  sets nlog to LOGSIZE, and one of these blocks is the header.
- log_write() looks for a full log before it looks for a block to absorb into.  So there must be room
  for one block more, and for operations of MAXOPBLOCKS blocks no log is large enough
  (`WritesSafeIff`).  For operations of at most nine blocks a log of 30 blocks is.
- There are as many buffers, NBUF, as a transaction may have blocks, and commit() needs one more for
  the log block that it copies to.  It finds one exactly if the transaction has fewer than NBUF blocks
  (`FreeBufferIff`), and a full one is reachable (`FillTransaction`).  The two findings meet: the log
  size that makes appending safe, 31 blocks with the header, is the one on which a full transaction
  cannot commit, while on the log that mkfs makes a transaction has at most 29 blocks and one buffer
  is left.  Operations of at most nine blocks are free of both (`LogOps`).
- A round of filewrite() logs at most six blocks besides those of the bitmap, and of the bitmap at most four and no
  more than there are (`WriteFits`).  Of operations that are limited by nothing else, any number at a time, it is
  known exactly when log_write() cannot panic: if the bitmap has at most 7 blocks and the log 24 more than the
  bitmap has (`FileWritesSafeIff`).  So no number of filewrite()s can make it panic on such a disk, the one that mkfs makes
  (one block and 30) among them.  Whether it can on another is not shown, as its rounds may log less.
- sched() carries the interrupt flag of a process from CPU to CPU; scheduler() has that of the process that
  switched to it, and needs the intr_on() in its loop (`Interrupts`).
- A writer that is killed in mid-write returns without waking the readers.  A reader then sleeps
  over data if and only if it was asleep and the writer had put in a byte since it took the lock
  (`Pipe.Write`, and `StrandReader` for an example); the next write or close wakes it.
- exit() hands children to initproc one by one and wakes it for each.  If initproc is ever asleep over
  a zombie child, it is between these two, with wait_lock held (`NoLostWait`).

## Model

| member | source | states |
|---|---|---|
| CrashRecovery.CommitThenCrashes | kernel/log.c:68-203 | **Main.** A crash after any block write of commit(), then any number of crashes inside recovery, then a recovery that completes: every home block is as before the transaction if the header had not been written, and as the whole transaction left it if it had; the header on disk ends with n = 0 |
| CrashRecovery.CommitIsAtomic | kernel/log.c:178-203 | Any prefix of the writes of commit() leaves a bootable disk that recovers to all of the transaction or to none of it, and the header write is the only place where this changes |
| CrashRecovery.RecoverySurvivesCrashes | kernel/log.c:68-123 | Recoveries that are cut short again and again lead to the disk that the first one would have produced |
| CrashRecovery.RecoveryRestarts | kernel/log.c:116-123 | Recovery stopped after any of its writes and started again ends with the same home blocks |
| CrashRecovery.RecoveryEffect | kernel/log.c:68-123 | Recovery gives the blocks that the header names their log copies, leaves all other home blocks alone, and empties the log |
| CrashRecovery.CommittedRecovers | kernel/log.c:68-123 | A disk whose log blocks and header hold the transaction recovers to the new contents, whatever its home blocks hold |
| CrashRecovery.CommitStages | kernel/log.c:178-203 | The disk after k writes of commit(), stage by stage: log blocks, header, home blocks, empty header |
| CrashRecovery.CommitEnds | kernel/log.c:193-203 | A finished commit() has the new contents at home and an empty log |
| CrashRecovery.PutHeader | kernel/log.c:86-114 | read_head() reads back from a header block exactly the block numbers that write_head() put there |
| LruRing.LinksAreInverse | kernel/bio.c:26-35 | At the head and at every buffer on the ring, prev undoes next and next undoes prev; that all NBUF buffers are on it is Cache.Position |
| LruRing.Unlinked | kernel/bio.c:126-128 | The two stores that unlink a buffer leave a ring of the others, in their order |
| LruRing.PushedFront | kernel/bio.c:129-133 | The four stores that link a buffer in after the head leave a ring with it in front |
| BufferCache.Cache.constructor | kernel/bio.c:36-54 | binit() builds a ring of the NBUF buffers over a disk that reads as it is |
| BufferCache.Cache.FindCached | kernel/bio.c:66-73 | The forward scan finds the buffer of the block if there is one, and fails only if there is none |
| BufferCache.Cache.FindVictim | kernel/bio.c:76-86 | The backward scan finds the unreferenced buffer furthest from the front |
| BufferCache.Cache.OldestIsLast | kernel/bio.c:76-86 | That buffer is the unreferenced one whose last move to the front is the oldest |
| BufferCache.Cache.Bget | kernel/bio.c:58-89 | Returns the one buffer of the block, locked and referenced; no other block reads differently for it |
| BufferCache.Cache.Bread | kernel/bio.c:92-103 | Returns the contents of the block as readers see it, whatever was evicted since |
| BufferCache.Cache.Bwrite | kernel/bio.c:106-112 | The block on disk, and no other, becomes what the held buffer has |
| BufferCache.Cache.Brelse | kernel/bio.c:116-137 | The reference is dropped; a buffer that becomes unreferenced moves to the front of the ring, and no block reads differently |
| BufferCache.Cache.Bpin | kernel/bio.c:139-144 | A pinned buffer cannot be recycled |
| BufferCache.Cache.Bunpin | kernel/bio.c:146-151 | Unpinning gives back exactly that reference |
| BufferCache.ContentsUpdate | kernel/bio.c:58-89 | Recycling or changing one buffer changes what is read only for the block it held and the block it holds |
| BufferCache.OneBufferUpdate | kernel/bio.c:66-89 | Each block of a real device keeps having at most one buffer |
| Logging.Log.CrashAnywhere | kernel/log.c:116-203 | **Main.** In any state between two calls: whichever disk state of the past a crash left, and however many crashes interrupt recovery, recovery brings back the snapshot that was committed last by then, and empties the log; what the snapshots are is what end_op() says |
| Logging.Log.EndedIsDurable | kernel/log.c:116-203 | Once the last end_op() has returned, all that was logged survives a crash and any crashes during recovery |
| Logging.Log.constructor | kernel/log.c:54-66 | initlog() on any bootable disk ends with the recovered disk, an empty log, and a history of disk states that all recover to it |
| Logging.Log.BeginOp | kernel/log.c:126-143 | Admits the operation exactly if no commit is running and the reservation fits LOGSIZE; changes nothing else |
| Logging.Log.Bread | kernel/bio.c:92-103 | A reader gets what was last logged for the block, across evictions and commits |
| Logging.Log.LogWrite | kernel/log.c:214-236 | The block reads as the held buffer from now on; a block already in the transaction is absorbed, another is appended and pinned; the disk does not change |
| Logging.Log.Brelse | kernel/bio.c:116-137 | Releasing a buffer whose changes are logged changes nothing that a reader sees |
| Logging.Log.EndOp | kernel/log.c:146-175 | The last operation out commits, given that no buffer is locked and the transaction has fewer than NBUF blocks; until then no block on disk has changed; afterwards the home blocks are what was logged. The disk is then the next snapshot, and the states it went through recover to the one before until the header was written and to it from then on; an empty transaction adds none |
| Logging.Log.FreeBufferIff | kernel/bio.c:76-88 | **Main.** Between file system calls bget() has a buffer to recycle if and only if the transaction has fewer than NBUF blocks |
| Logging.Log.AllPinned | kernel/bio.c:76-88 | A transaction of NBUF blocks pins every buffer: bget() of any other block panics |
| LogOps.FillTransaction | kernel/log.c:146-190 | A reachable state, on a log with room for LOGSIZE blocks, with the run that leads there: three operations within their bound have logged NBUF blocks, two have ended, and bget() has no buffer for the first log block that the last end_op() needs |
| Logging.Log.ChangeBlock | kernel/log.c:205-236 | The typical use of log_write(): bread, a store, log_write and brelse change what is logged for that block and nothing else |
| Logging.Log.Commit | kernel/log.c:193-203 | The disk goes through the writes of one transaction; each of its states recovers to the snapshot before or after, as the header write decides; the disk at the end, with the home blocks as logged, is the next snapshot |
| Logging.Log.CommitBlocks | kernel/log.c:178-203 | The writes that reach the disk through the cache are exactly those of the crash model, in order |
| Logging.Log.WriteLog | kernel/log.c:178-190 | Log block i gets the cached contents of the i-th logged block, nothing else is written |
| Logging.Log.InstallTrans | kernel/log.c:68-82 | Home blocks get their log blocks in order; when not recovering, their buffers are unpinned |
| Logging.Log.WriteHead | kernel/log.c:102-114 | The header block on disk names the blocks of the transaction |
| Logging.Log.RecoverFromLog | kernel/log.c:116-123 | The disk goes through the recovery writes of the crash model and nothing else |
| Logging.Log.SeesLogged | kernel/log.c:208-236 | What readers see of an unlocked home block is what was last logged for it |
| Logging.CommitEpochs | kernel/log.c:193-203 | Through a commit, every disk state recovers to the old snapshot until the header is written, and to the new one from then on |
| Logging.CommitReaches | kernel/log.c:193-203 | After commit() every home block is as it was last logged |
| LogReservation.AppendsSafeIff | kernel/log.c:126-236 | **Main.** For every bound on the blocks of an operation and every log size: appending never panics on any run if and only if MAXOPBLOCKS + 2 * bound blocks fit the header and the log (or the bound is 0); for bound MAXOPBLOCKS this is log.size - 1 >= LOGSIZE |
| LogReservation.FullPanics | mkfs/mkfs.c:38 | For every other bound and size, a run of admitted operations within their bound whose next write panics: an append, if the log is shorter still; mkfs makes it one block too short for MAXOPBLOCKS |
| LogReservation.WritesSafeIff | kernel/log.c:214-236 | **Main.** For every bound and size: log_write() never panics on any run if and only if there is room for one block more than that: the test for a full log comes before the search for a block to absorb into |
| LogReservation.RunKeepsInv | kernel/log.c:126-175 | On every run, blocks logged plus blocks that outstanding operations may still log are at most MAXOPBLOCKS + 2 * bound, and committing implies that no operation is outstanding |
| LogReservation.WriteFits | kernel/log.c:214-236 | A transaction never has more than MAXOPBLOCKS + 2 * bound blocks, and has fewer when a block is to be appended |
| LogOps.WriteTracks | kernel/log.c:214-236 | An operation within its budget meets the preconditions of log_write() on the log that runs over the cache |
| LogOps.EndTracks | kernel/log.c:146-175 | When an operation within its budget ends, the transaction has fewer blocks than there are buffers, so that commit() does not panic |
| LogOps.Calls.Write | kernel/log.c:214-236 | The log with the reservation joined to it: log_write() without a precondition on how full it is; the block is absorbed or appended, reads as the held buffer from now on, and no buffer changes but for its count |
| LogOps.Calls.End | kernel/log.c:146-175 | Likewise end_op(): the last one commits what was logged, and the disk becomes the next snapshot |
| LogOps.Calls.Change | kernel/log.c:205-236 | An operation within its budget changes a block, and is still within it |
| LogOps.Calls.Update | kernel/log.c:126-236 | A whole file system call: begin_op, bread, a store, log_write, brelse and end_op, with nothing required of the log, leave the block on the disk and every other home block as it was, as the next snapshot |
| LogOps.RoundAllowed | kernel/file.c:162-167 | A round of filewrite() that logs a set of blocks within its budget is within it at each call of log_write() |
| LogOps.FileWritesSafeIff | kernel/file.c:149-167 | **Main.** Any number of operations that are limited only by what a round of filewrite() may log, on any disk: no log_write() panics on any run if and only if the bitmap has at most 7 blocks and the log 24 more than that; so none does on the file system that mkfs makes. Of filewrite() itself this shows the if |
| LogReservation.OnlyFullLogPanics | kernel/log.c:146-236 | A full log is the only reason for which begin_op(), log_write() and end_op() can panic |
| LogSharing.SharedSafeIff | kernel/log.c:126-236 | **Main.** For operations with blocks in common, such as those of the bitmap, that log at most `bound` blocks and at most `own` (1 or more) that are not among these, and every log size: log_write() never panics on any run if and only if the header and the log have room for one block more than the transaction can have (Top) |
| LogSharing.NeverMore | kernel/log.c:126-236 | On every run such operations log at most MAXOPBLOCKS + 2 * bound blocks, and at most MAXOPBLOCKS + 2 * own besides the common ones |
| LogSharing.SharedPanics | kernel/log.c:214-236 | For every other size, a run of admitted operations within the budget whose next write panics |
| LogSharing.ApartReaches | kernel/log.c:126-236 | Without the common blocks, a run is one of operations that log at most `own` blocks |
| ProcSafety.RunKeeps | kernel/proc.c:306-735 | The invariant holds in every state of every run, over all interleavings on any number of CPUs, with any number of threads that serve interrupts from the start |
| ProcSafety.OneCpuEach | kernel/proc.c:486-554 | **Main.** No process is current on two CPUs, and no two CPUs are ever on one kernel stack |
| ProcSafety.RunningIffCurrent | kernel/proc.c:486-554 | **Main.** While p->lock is free, p is RUNNING exactly if it is the current process of some CPU |
| ProcSafety.UnlockedHasLeft | kernel/proc.c:486-616 | A process that is not RUNNING and whose lock is free is on no CPU and no stack of its own is in use, so it may be dispatched or recycled |
| ProcSafety.SchedPreconditions | kernel/proc.c:592-616 | At each call of sched() the CPU holds p->lock and no other lock, and p is no longer RUNNING: the panics "sched p->lock" and "sched running" are unreachable; noff and the interrupt flag, which the other two panics test, are those of Interrupts |
| ProcSafety.NoOrphans | kernel/proc.c:360-465 | **Main.** The parent of a process is never a zombie or an unused slot |
| ProcSafety.NoLostWait | kernel/proc.c:420-465 | **Main.** A parent asleep in wait() has no zombie child, except initproc while exit() holds wait_lock with the wakeup on its way |
| ProcSafety.ReapedOnce | kernel/proc.c:376-465 | Every exit of a slot is answered by at most one wait(), which it is still owed exactly while it is a ZOMBIE |
| ProcSafety.NoLostWakeup | kernel/proc.c:668-713 | **Main.** For any monitors, that is channels each with a spinlock and a condition which its holder may make false, and true if it calls wakeup() before it lets go: while the spinlock is free and the condition holds, no process is asleep on the channel or on its way to |
| ProcSafety.SleeperIsOwed | kernel/proc.c:668-713 | A process asleep on a channel whose condition holds is about to be woken by the one holder of the spinlock |
| ProcSafety.OneOwner | kernel/sleeplock.c:21-41 | A sleeplock is held by at most one process, and is then locked |
| ProcSafety.NoLostUnlock | kernel/sleeplock.c:21-41 | The instance for a sleeplock, whose condition is that it is not locked |
| Interrupts.ProcessesKeepTheirFlag | kernel/proc.c:583-618 | **Main.** On every run: a process that has given back the spinlocks it took finds interrupts on or off as they were before it took them, however often sched() switched it out meanwhile and on whichever CPU it is then |
| Interrupts.LocksAreSafe | kernel/spinlock.c:87-114 | **Main.** On every run: noff counts the locks of the thread on the CPU, interrupts are off while it has any, and neither the panics of pop_off() nor "sched locks" nor "sched interruptible" are reachable |
| Interrupts.SchedulerTakesFlag | kernel/proc.c:508-547 | scheduler() does not keep its flag: after a process has switched to it, and it has released p->lock, interrupts are as that process had them |
| Interrupts.SchedulerLosesFlag | kernel/proc.c:508-513 | A run in which they were on before and are off after, which is what the intr_on() in its loop is for |
| Interrupts.StepKeeps | kernel/spinlock.c:87-114 | Each step keeps the invariant and meets no panic |
| ProcProgress.NoDeadlock | kernel/spinlock.c:21-72 | **Main.** Every CPU can take a step, or waits for a lock whose holder can, or for one whose holder waits for one that can: no cycle of spinlocks |
| ProcProgress.GoesUnlessAwaits | kernel/spinlock.c:21-47 | A CPU is stopped only by a lock that a CPU holds |
| ProcInvariant.SchedBase | kernel/proc.c:486-554 | The scheduler keeps who holds what: the lock that one thread acquires and another releases |
| ProcInvariant.SwitchBase | kernel/proc.c:592-663 | So do yield(), sched() and forkret() |
| ProcInvariant.SleepBase | kernel/proc.c:668-695 | So does sleep(), which takes p->lock before it lets go of lk |
| ProcInvariant.WaitBase | kernel/proc.c:420-465 | So does wait(), which frees a slot only when its thread has left for good |
| ProcInvariant.ForkBase | kernel/proc.c:305-355 | So do fork() and allocproc() |
| ProcInvariant.ExitFamilies | kernel/proc.c:360-414 | exit() hands every child to initproc before it becomes a zombie |
| ProcInvariant.WaitFamilies | kernel/proc.c:420-465 | Recycling a slot leaves no process with that parent |
| ProcWakeup.SleepAwake | kernel/proc.c:668-695 | Going to sleep in wait() misses no zombie child |
| ProcWakeup.WakeAwake | kernel/proc.c:699-713 | wakeup() leaves nobody behind it asleep on its channel |
| ProcWakeup.ExitAwake | kernel/proc.c:376-414 | exit() becomes a zombie only after its parent has been woken, under wait_lock |
| ProcMonitor.SleepMonitors | kernel/proc.c:668-695 | Who goes to sleep has found the condition false, and lets go of the spinlock only under p->lock |
| ProcMonitor.MonitorMonitors | kernel/proc.c:668-713 | Code that holds the spinlock of a monitor forgets no sleeper, whatever it does to the condition |
| ProcMonitor.LockMonitors | kernel/sleeplock.c:21-41 | Acquiring, blocking and releasing keep one owner and no forgotten sleeper |
| ProcMonitor.WakeMonitors | kernel/proc.c:699-713 | wakeup() forgets no sleeper that is still ahead of it |
| Malloc.Heap.Alloc | user/umalloc.c:63-90 | malloc() terminates; it returns a block of the right size that was not live, from memory it has if a block is big enough, else from one call of sbrk(); NULL only if that fails |
| Malloc.Heap.Free | user/umalloc.c:24-44 | free() of a live block takes exactly that block off the live ones, and keeps the list circular, in address order and merged |
| Malloc.Heap.FindGap | user/umalloc.c:29-31 | The search loop of free() terminates at the free block after which the block belongs |
| Malloc.Heap.AttachRight | user/umalloc.c:32-36 | Merging with the block above keeps the list and the units |
| Malloc.Heap.AttachLeft | user/umalloc.c:37-43 | Merging with the block below leaves no two free blocks that touch |
| Malloc.Heap.MoreCore | user/umalloc.c:46-61 | The units that sbrk() returned, and no others, become free |
| Malloc.Heap.Take | user/umalloc.c:75-85 | malloc() takes a whole free block or its tail; the rest stays free |
| Malloc.Heap.RingInOrder | user/umalloc.c:24-90 | **Main.** After any calls: the free list is a ring in address order and no two of its blocks touch |
| Malloc.Heap.LiveApart | user/umalloc.c:24-90 | **Main.** Live blocks overlap neither each other nor a free block, and keep the size that was asked for |
| Malloc.Heap.Conserved | user/umalloc.c:24-90 | **Main.** Free and live units add up to the units obtained from sbrk() |
| Malloc.MergeOk | user/umalloc.c:32-43 | Merging two free blocks that touch keeps the list in order and every unit owned once |
| Malloc.CarveOk | user/umalloc.c:75-85 | Splitting a free block gives two blocks that tile it |
| FileSystem.OwnersPartition | kernel/fs.c:65-105 | **Main.** The bitmap and the block lists have owners as the invariant says if and only if every set bit is a metadata block or in exactly one slot of one file (direct, indirect, or entry of an indirect block), and every other block number is in none |
| FileSystem.Fs.BlocksPartitioned | kernel/fs.c:382-453 | After any calls this partition holds; between operations it holds of the inodes on the disk too |
| FileSystem.Fs.BAlloc | kernel/fs.c:65-88 | The first block not in use, zeroed and marked; 0 exactly if all are in use |
| FileSystem.Fs.BFree | kernel/fs.c:91-105 | Clears exactly that bit, and logs its block |
| FileSystem.Fs.BMap | kernel/fs.c:382-421 | The address of block bn, allocated if there was none, without changing the contents of any file; 0 only if the disk is full |
| FileSystem.Fs.WriteI | kernel/fs.c:505-539 | **Main.** Fails exactly beyond the end or the maximum size; else replaces exactly bytes [off, off+r) of the file, sets the size to the larger of the old one and off+r, changes no other file; every block in which the disk differs afterwards has been logged; a write of filewrite()'s chunk size logs at most six blocks besides those of the bitmap, and of the bitmap at most four and no more than there are |
| FileSystem.Fs.ReadI | kernel/fs.c:471-496 | Returns the slice of the file's bytes, and changes nothing: there are no holes, so it never allocates |
| FileSystem.Fs.ITrunc | kernel/fs.c:425-453 | Frees every block of the file, none twice, and no other; bfree() never finds a free block; every block that changes is logged |
| FileSystem.Fs.IAlloc | kernel/fs.c:198-219 | The first inode that is free on the disk, now allocated and without blocks; 0 exactly if there is none |
| FileSystem.Fs.IPut | kernel/fs.c:336-362 | The last reference to a file without links truncates and frees it, and logs every block that changes and none but of the bitmap and its inode; otherwise only the count changes |
| FileSystem.Fs.IUpdate | kernel/fs.c:225-241 | The inode on disk becomes the one in memory, and its block is logged |
| FileSystem.Fs.SetInode | kernel/sysfile.c:271-274 | Sets the link count and the device numbers of an inode, in memory and on the disk; no block, size or other inode changes, and the block of the inode is logged |
| FileSystem.Fs.FileWrite | kernel/file.c:149-175 | **Main.** The file has exactly the bytes that were written over it, in as many transactions as the chunks it takes and one that falls short, within its chunk, if they are not all, for a reason; each logs at most six blocks besides those of the bitmap, and of the bitmap at most four and no more than there are, and what changes on the disk has been logged in one of them; -1 exactly if not all were written |
| FileSystem.WriteFits | kernel/file.c:149-156 | Data, indirect and inode blocks of one chunk are at most six, for every offset, and bitmap blocks at most four and no more than the disk has |
| FileSystem.OverwriteReads | kernel/fs.c:471-539 | What was written reads back, and the rest is as it was |
| FileSystem.WroteMore | kernel/fs.c:518-531 | One more chunk of writei(), within one block, adds exactly its bytes |
| FileSystem.SizedOk | kernel/fs.c:533-538 | Raising the size over what has been written leaves no hole |
| FileSystem.GetPut | kernel/fs.c:398-417 | An entry of an indirect block reads back as it was stored, and the others are as they were |
| InodeTable.Table.IGet | kernel/fs.c:246-277 | Returns the one slot of the inode, with one more reference, or a slot that was unused; no inode ever has two slots in use |
| InodeTable.Table.IDup | kernel/fs.c:281-287 | One more reference to the same slot |
| InodeTable.Table.ILock | kernel/fs.c:291-318 | The inode is read in if it was not, and is what the disk has then |
| InodeTable.Table.IPut | kernel/fs.c:336-362 | **Main.** Whatever has become of the inode since it was read in: it is freed exactly if the reference was the last and it has no links; so the inodes of all other references are as they were |
| InodeTable.Table.Unlink | kernel/sysfile.c:215-232 | One link less, in memory and on the disk; the table and its references stay as they are |
| InodeTable.Table.UnlinkOpen | kernel/sysfile.c:231-233 | A file that is open when its last link goes is freed by the iput() of its reader, and not by that of unlink() |
| InodeTable.OneSlotUpdate | kernel/fs.c:253-274 | A slot changes hands only when it has no references, and only to an inode that is in no other slot |
| FileSystemCrash.Mounted.CrashConsistent | kernel/log.c:116-203 | **Main.** The file system on the log, after any calls and with any number of operations outstanding: whichever disk state of the past a crash left, and however many crashes interrupt recovery, the recovered disk holds a well-formed file system, the one that stood when the last transaction by then was committed |
| FileSystemCrash.Mounted.WrittenIsDurable | kernel/log.c:116-203 | With no operation outstanding, recovery after a crash brings back the file system as it is |
| FileSystemCrash.Mounted.Write | kernel/file.c:162-167 | A round of filewrite(), begin_op, writei and end_op, leaves on the disk a file system in which exactly these bytes of the file are replaced |
| FileSystemCrash.Mounted.WriteI | kernel/fs.c:505-539 | writei() with its blocks going through the log, by one of several operations, after whatever else that operation has done: the log has what the file system is then, and the other operations have what they had; on any disk for which the log is safe |
| FileSystemCrash.Mounted.IPut | kernel/fs.c:336-362 | Likewise iput(), which frees a file |
| FileSystemCrash.Mounted.IAlloc | kernel/fs.c:198-219 | Likewise ialloc() |
| FileSystemCrash.Mounted.SetInode | kernel/sysfile.c:271-274 | Likewise what link(), unlink() and create() do to an inode: its link count and device numbers, and iupdate() |
| FileSystem.BitmapFits | kernel/fs.c:425-453 | What itrunc() and iput() log is at most one block besides those of the bitmap |
| FileSystemCrash.Mounted.End | kernel/log.c:146-175 | The last end_op() leaves the disk with what the file system is, and commits it as the next image unless nothing was logged |
| FileSystemCrash.Mounted.constructor | kernel/log.c:54-66 | Mounting a disk that recovers to a well-formed file system, with a log that is safe for the budget of its operations |
| FileSystemCrash.StoredLoads | kernel/fs.c:225-241 | Storing the blocks that were logged, and no others, takes the disk from one file system to the other |
| FileSystemCrash.InodeOfWords | kernel/fs.h:32-39 | An inode whose fields fit reads back from its 16 words as it was stored |
| FileSystemCrash.BitReads | kernel/fs.h:47-51 | So does each bit of the bitmap from its block |
| FileSystemCrash.BytesRead | kernel/fs.c:505-539 | So do the bytes of a data block |
| FileSystemCrash.InodeReads | kernel/fs.h:41-45 | So does each inode from its block |
| VirtualMemory.Vm.constructor | kernel/kalloc.c:29-44 | kinit() puts every page on the free list once |
| VirtualMemory.Vm.PagesPartitioned | kernel/vm.c:98-363 | **Main.** After any calls every page is exactly one of free, root, table, user memory or held by the kernel, and in exactly one entry if it is a table or user memory; their numbers add up to all pages |
| VirtualMemory.Vm.KAlloc | kernel/kalloc.c:71-85 | The head of the free list changes hands; 0 exactly if the list is empty |
| VirtualMemory.Vm.KFree | kernel/kalloc.c:49-66 | A held page goes to the head of the free list; no mapping changes |
| VirtualMemory.Vm.Walk | kernel/vm.c:98-116 | The level-0 table of the address, made if asked for; whether or not it succeeds no mapping changes |
| VirtualMemory.Vm.MapPages | kernel/vm.c:160-189 | Inserts exactly the mappings asked for into the flat map; those before the failing one if memory runs out |
| VirtualMemory.Vm.UvmUnmap | kernel/vm.c:194-216 | Deletes exactly the mappings of the range, and frees their pages if asked to; if not, those of user memory are left to the caller, their bytes as they were, and no other page changes hands |
| VirtualMemory.Vm.UvmAlloc | kernel/vm.c:253-278 | The pages of the new range are fresh zeroed pages with the permissions asked for; on failure, as always for a size that reaches the trap frame, the flat map and all data pages are as before |
| VirtualMemory.Vm.UvmDealloc | kernel/vm.c:284-296 | Exactly the pages between the two sizes are unmapped and freed |
| VirtualMemory.Vm.UvmCopy | kernel/vm.c:335-363 | **Main.** Equal bytes and flags on fresh pages, the parent's pages untouched; on failure the flat map and all data pages are as before |
| VirtualMemory.Vm.FreeWalk | kernel/vm.c:300-316 | On a table without mappings, frees every table page below it and itself, no other page, and leaves every other entry alone |
| VirtualMemory.Vm.UvmFree | kernel/vm.c:320-326 | Every page of the address space, tables included, goes back to the free list; no other changes hands |
| VirtualMemory.Vm.ProcPageTable | kernel/proc.c:200-232 | A page table with the trampoline and the trap frame and nothing else; on failure every page, tables included, is back |
| VirtualMemory.Vm.ForkMemory | kernel/proc.c:306-323 | **Main.** The child's memory equals the parent's on pages of its own, and it has these mappings, the trampoline and the trap frame and no others; a failed fork() leaves every page, tables included, in the hands it was in, and happens only if fewer than 6 + 3 pages for each page of memory are free |
| VirtualMemory.Vm.FreeProcMemory | kernel/proc.c:179-196 | freeproc(): every user page, every table page and the trap frame go back to the free list, no other page changes hands, and no other mapping changes |
| VirtualMemory.Vm.ProcFreePageTable | kernel/proc.c:236-242 | The same for the page table alone |
| VirtualMemory.Vm.WalkAddr | kernel/vm.c:122-140 | The page of a user-accessible mapping, 0 for any other address |
| VirtualMemory.Vm.CopyIn | kernel/vm.c:413-433 | Succeeds exactly if every byte can be read, and then returns the bytes that the flat map gives one by one |
| VirtualMemory.Vm.CopyOut | kernel/vm.c:382-407 | Stops exactly at the first byte that cannot be written; the bytes before it are stored through the flat map, and nothing else is |
| VirtualMemory.Vm.CopyInStr | kernel/vm.c:442-479 | Succeeds exactly if there is a readable string that ends within max bytes, and returns it |
| PageTable.MakePte | kernel/riscv.h:508-536 | PA2PTE with flags: PTE2PA and PTE_FLAGS give back what went in |
| PageTable.VpnIndices | kernel/riscv.h:523-536 | The three 9-bit indices that walk() uses make up the page number, so that different pages have different entries |
| PageTable.AttachTable | kernel/vm.c:104-113 | Putting in a new table page changes no mapping and keeps each page in one place |
| PageTable.Undone | kernel/vm.c:263-276 | Taking back the pages added so far restores the flat map and the data pages |
| PageTable.CopyStep | kernel/vm.c:342-357 | One page of uvmcopy() copies bytes and flags and keeps the earlier copies |
| VirtioDisk.RunKeeps | kernel/virtio_disk.c:156-327 | The invariant over every run of driver and device: free descriptors are zero and in no chain, in-flight chains are three descriptors each and disjoint, rings hold exactly the posted and the used heads under 16-bit indices that wrap |
| VirtioDisk.Delivered | kernel/virtio_disk.c:215-327 | **Main.** When virtio_disk_rw() returns, exactly one step of the whole run has posted its request, exactly one later step has served it, and exactly one later still has reported it, clearing the flag of its buffer and of no other; a write has put on the disk what the buffer held when it was posted; a read has left in the buffer what the disk held when it was served |
| VirtioDisk.ReportedOnce | kernel/virtio_disk.c:294-327 | The handler reads each finished request off the used ring exactly once, through 16-bit indices that wrap |
| VirtioDisk.SeeClears | kernel/virtio_disk.c:316-321 | That step clears the flag of the buffer that submitted the request and of no other |
| VirtioDisk.StoreKeeps | kernel/virtio_disk.c:215-233 | Clients may change a buffer whenever no request is on it |
| VirtioDisk.TwoAtATime | kernel/virtio_disk.c:199-213 | At most two requests are under way |
| VirtioDisk.StarvedForAReason | kernel/virtio_disk.c:226-233 | A process that sleeps for descriptors sleeps while some request is unfinished |
| VirtioDisk.PostKeeps | kernel/virtio_disk.c:235-281 | Posting a request keeps the invariant; in particular the avail ring has room |
| VirtioDisk.SeeKeeps | kernel/virtio_disk.c:312-324 | Reporting a completion keeps the invariant, in particular that the rings hold exactly the posted and the used heads; what it clears is SeeClears |
| VirtioDisk.RetireKeeps | kernel/virtio_disk.c:288-289 | Freeing a finished chain keeps the other chains as they are |
| VirtioDisk.Driver.AllocDesc | kernel/virtio_disk.c:155-166 | Takes one free descriptor; fails exactly if none is free |
| VirtioDisk.Driver.FreeDesc | kernel/virtio_disk.c:168-182 | Zeroes and frees exactly that descriptor and wakes those who wait for one |
| VirtioDisk.Driver.Alloc3 | kernel/virtio_disk.c:199-213 | Three descriptors or none; none exactly if fewer than three are free, and then nothing has changed |
| VirtioDisk.Driver.FreeChain | kernel/virtio_disk.c:184-197 | Terminates, and frees exactly the three descriptors of the chain |
| VirtioDisk.Driver.Submit | kernel/virtio_disk.c:215-281 | Posts the request, or sleeps exactly if fewer than three descriptors are free |
| VirtioDisk.Driver.Finish | kernel/virtio_disk.c:283-292 | Sleeps exactly while the request is not reported; then gives back its chain |
| VirtioDisk.Driver.DeviceServe | kernel/virtio_disk.c:235-272 | What the descriptors tell the device to do is what virtio_disk_rw() was asked for |
| VirtioDisk.Driver.Intr | kernel/virtio_disk.c:294-327 | Reports every entry of the used ring, each once, and wakes exactly those who wait for them; the status panic is unreachable |
| PipeRing.Pipe.Write | kernel/pipe.c:76-103 | The bytes written are those of the source in order; full, broken, killed and finished exactly as the state and the arguments say; readers are woken except on a killed return, after which a reader sleeps over data if and only if one was asleep and a byte had been written |
| PipeRing.Pipe.Read | kernel/pipe.c:105-130 | The bytes read are the next ones written; sleeps exactly on an empty pipe that may still be written |
| PipeRing.Pipe.Close | kernel/pipe.c:58-74 | Closes one end and wakes those who wait for the other |
| PipeRing.StrandReader | kernel/pipe.c:83-87 | A run in which a killed writer leaves a reader asleep with a byte in the pipe |
| PipeRing.AppendHolds | kernel/pipe.c:92-97 | A byte put in the ring overwrites none that is still to be read |
| PipeRing.FullTells | kernel/pipe.c:88 | With counters modulo 2^32, the test for a full ring is exact |
| RegexMatcher.Match | user/grep.c:72-82 | **Main.** True exactly if some suffix of the text, or the whole text after a leading ^, has a prefix in the language of the pattern |
| RegexMatcher.MatchHere | user/grep.c:84-96 | True exactly if a prefix of the text, all of it under a final $, is in the language |
| RegexMatcher.MatchStar | user/grep.c:98-106 | True exactly if some number of characters that fit c is followed by a match of the rest |
| RegexMatcher.StarMatches | user/grep.c:98-106 | A starred item splits the language as the loop does |

## Left out

- Traps, interrupts as such, register save and restore, CSR access, the UART and the console: swtch() is an abstract transfer of control.
- Weak memory ordering and fences: shared memory is sequentially consistent, and taking or releasing a lock is one atomic step.
- push_off() and pop_off() in the process model: `Interrupts` has their nesting count and the flag; the process model has a thread preempted only where it holds no lock.
- Logging.Log.EndOp: requires that no buffer is locked when the last operation ends, as readers outside transactions may hold one; calls of different operations interleave at call granularity, not inside a call.
- BufferCache.Cache.Bget: requires that the block is not locked by another and that a buffer is available; waiting for a buffer's sleeplock is part of the process model only.
- BufferCache.Cache.Bread: the same.
- BufferCache.Cache.Brelse: requires that a buffer whose contents differ from the disk is pinned, as all file system code sees to by log_write().
- BufferCache.Cache.Bpin: requires that the buffer is not pinned already, as log_write() pins a block once.
- Logging.Log.Commit: requires fewer than NBUF blocks, which is exactly when commit() does not panic.
- BufferCache.Cache.Bwrite: the disk is the single device that virtio_disk_rw() serves, whatever b->dev says; a read or write of a block is one step here, which is what `Virtio.dfy` shows of the driver.
- ProcSafety.RunKeeps: killed(), the result of copyout() in wait() and whether fork() finds memory are left to chance; a thread holds at most one spinlock beside its own p->lock; the thread that serves the interrupts of an idle scheduler does not stop that scheduler meanwhile, and may do more than a handler does.
- ProcSafety.SchedPreconditions: the interrupt-nesting count and the interrupt flag are in `Interrupts`, a model of its own that shares no state with this one.
- FileSystem.Fs.WriteI: a copy from user space of one chunk succeeds or fails as a whole; the free bitmap is kept as bits and the inode blocks as one record for each inode.
- FileSystem.Fs.IAlloc: requires that an inode that is free on the disk is so in memory, as inodes are freed in memory first.
- FileSystemCrash.Mounted.WriteI: writei() is run on the log in the chunks of filewrite(), as iput() and ialloc() are; each call is one step between those of other operations. Reading the image when the file system is mounted is an argument of the constructor.
- FileSystem.Fs.IPut: the reference count is an argument; `Itable.dfy` has the table it comes from.
- InodeTable.Table.IPut: is one step, where iput() lets go of itable.lock while it truncates, with the sleeplock of the slot held; that nobody else can get at the inode meanwhile, as it has no links and no other reference, is not shown.
- LogOps.FileWritesSafeIff: the "only if" half is about operations that are limited only by the budget of a round; the runs in which they panic need not be runs of filewrite().
- InodeTable.Table.ILock: the sleeplock of a slot is a monitor of the process model and is not here; requires that an inode which is not in memory awaits no iupdate().
- Directories and path names (dirlink, dirlookup, namex), system calls and exec(): clients of what is modelled.
- VirtualMemory.Vm.UvmAlloc: requires, for a size that reaches the trap frame, that memory runs out before, as on a machine with less memory than address space; growproc() and exec() are not modelled.
- VirtualMemory.Vm.UvmUnmap: requires that only user memory is freed, as its callers do; clears the entry before the page is freed, where the code does so right after; no step comes between. Pages are seen as words or as bytes, by what they are used for. The kernel's own page table is not modelled.
- Malloc.Heap.Alloc: sbrk() is assumed to return memory that was not there before, above the static `base`, for requests that do not overflow its argument.
- VirtioDisk.Driver.DeviceServe: the device is assumed to succeed and to serve each request that it has taken once; virtio_disk_init() is not modelled. Blocks are below 2^31, so that the 32-bit product that gives the sector does not wrap.
- PipeRing.Pipe.Write: one call is a stretch from a lock acquisition or a wakeup to the next sleep or return; pipealloc() and the freeing of a closed pipe are not modelled.
- grep(): the splitting of its input into lines; patterns and texts have no zero characters.
