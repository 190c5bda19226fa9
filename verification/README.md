# Course systems, modelled and proved in Dafny

Models of the stateful cores of a set of systems-course labs, with proofs of what they promise:
the xv6 kernel's write-ahead log and buffer cache, its sleep/wakeup, exit/wait and pipe protocols,
its inode and block layer, its page tables and page allocator; two user-level heap allocators; and
xv6's shell parser, its `grep` matcher and a cache simulator.

Check everything with `dafny verify dfyconfig.toml` (Dafny 4.11).

## How it is built

| part | files | shape |
|---|---|---|
| log and buffer cache | `Storage`, `CrashRecovery`, `LogMachine`, `LogSafety`, `LogAtomic`, `LogFull`, `LogBudget`, `LogMoments`, `LogSleep`, `LogProgress`, `BufferCache`, `Log` | Crash safety is proved about the sequence of single-block writes a commit or recovery issues; the imperative `Log` over `BufferCache` is proved to issue exactly that sequence; `LogMachine` interleaves operations, commits, crashes and restarts; `LogAtomic` says from the events alone what is seen and saved; `LogBudget` counts the calls of `log_write` over whole runs, and `LogMoments` says which moment a crash recovers to; `LogSleep` is the waiting in `begin_op` and waking in `end_op`, and `LogProgress` that nobody is stuck in it. |
| processes | `ProcTable`, `ProcSafety`, `ProcProgress`, `WaitExit`, `WaitSafety`, `WaitAnswer`, `WaitProgress` | One lock operation or locked update per step; invariants of every interleaving, what the calls answer, and that each goes on and ends. |
| pipes | `Pipe`, `PipeMachine`, `PipeSafety`, `PipeRuns`, `PipeCalls`, `PipeProgress`, `PipeKill` | The ring with wrapping 32-bit counters, then readers, writers and closers over the process table, and what one call does whatever the others do. |
| files | `Bits`, `FsBlocks`, `FsSafety`, `Fs`, `FsDisk` | Bitmap bytes, direct and indirect blocks; the file as a byte sequence; `FsDisk` reads a volume off the logged disk. |
| memory | `PageTable`, `PageInit`, `Vm`, `UserMemory`, `FreeTables`, `CopyUser`, `UserView` | Raw pages, with a ghost account of who has which page; methods over them; `UserView` is what a user program sees. |
| heap with boundary tags | `Memlib`, `Blocks`, `HeapTags`, `Malloc` | Raw bytes against a list of blocks and a map of live payloads. |
| free-list allocator | `FreeRing`, `Umalloc` | Pointer and size fields against the ring in address order, and the books of every unit. |
| shell | `Shell`, `ShellTokens`, `ShellPrint`, `ShellGrammar`, `ShellExact`, `ShellCode` | The parser as functions of the text left to read, what its pointers mean, round trips, a grammar over tokens and that it is exactly what the parser takes, and the code with its cursor. |
| grep, cache simulator | `Regex`, `Lru`, `CacheReuse`, `Csim` | Loops against a declarative language; a shifting array against true LRU, and that against reuse of memory blocks. |

`Basics` holds what several of them share. Code that changes state is a class or a method with its loops; each is proved equal to a
specification function or relation, and the theorems are about those.

## What the proofs found

* `log_write` panics on a full log before it looks for the block to absorb. Three operations that
  stay within ten distinct blocks each can fill the list, and rewriting a block already listed then
  panics (`LogFull.RewritePanics`).
* `LOGSIZE` equals `NBUF`, so a group of the largest size `begin_op` admits pins every buffer, and
  the commit panics in `bget` (`LogFull.FullGroupPanics`, a run from boot). It does so exactly when
  the group fills the pool (`LogSafety.CommitPanicsExactly`, `Log.CommitLacksBuffer`). These are the
  only panics (`LogSafety.PanicsExactly`), and `LogSafety.WithinBudgetNoPanic` gives the guards that
  rule them out step by step.
* Over whole runs the budget that is safe is smaller than MAXOPBLOCKS: with at most c calls of
  `log_write` per operation and h buffers held by others during a commit, no run ever panics if and
  only if c = 0 or 10 + 2c + h < 30 (`LogBudget.NeverPanicsExactly`). With h = 0, nine calls are safe
  and ten are not.
* A writer killed in `pipewrite` returns without waking readers, and one can stay asleep on a pipe
  that is not empty (`PipeKill.KillStrandsReader`). `PipeKill.GivingUpStrands` says exactly when: it
  has stored bytes since it last woke the readers, and a reader is asleep.
* `mm_init` tests `mem_sbrk`'s failure against NULL although it is -1, so on a heap of less than 16
  bytes, and only there, it stores through address -1 (`Malloc.Heap.Init`).
* `mm_realloc` copies by block size, not payload size: up to eight bytes past the old payload are
  read. The proof shows this harmless: the promised prefix is right and no live payload is touched.

## Model

| member | source | states |
|---|---|---|
| `CrashRecovery.CommitPrefix` | MIT6.S081/Lab/Lab1/kernel/log.c:194-203 | Stop a commit after any k of its block writes: recovery then yields the old home blocks if k is at most the number of listed blocks (the header has not been written) and all the new ones otherwise; a complete commit leaves the new blocks in place and an empty header. |
| `CrashRecovery.RecoverPrefix` | MIT6.S081/Lab/Lab1/kernel/log.c:117-123 | Stop a recovery after any number of its block writes: what the next recovery yields is unchanged; a complete one has installed it and emptied the header. |
| `CrashRecovery.RecoveryIsIdempotent` | MIT6.S081/Lab/Lab1/kernel/log.c:117-123 | After any list of recoveries cut short anywhere, the recovery that completes installs what the first would have installed. |
| `CrashRecovery.CommitPoint` | MIT6.S081/Lab/Lab1/kernel/log.c:178-203 | Once write_log and the first write_head are on disk, the header lists exactly the group, each slot holds its cached block, and recovery yields the committed blocks. |
| `CrashRecovery.CommitTail` | MIT6.S081/Lab/Lab1/kernel/log.c:194-203 | Every prefix of a commit past the header write recovers to the new blocks. |
| `CrashRecovery.CommitIsRecovery` | MIT6.S081/Lab/Lab1/kernel/log.c:194-203 | What a commit writes after its commit point is what a recovery started at that moment would write. |
| `CrashRecovery.HeadRoundTrip` | MIT6.S081/Lab/Lab1/kernel/log.c:87-114 | The header write_head produces is well formed and read_head reads back the list it was given, whatever the header block held before. |
| `CrashRecovery.InstallPrefix` | MIT6.S081/Lab/Lab1/kernel/log.c:69-83 | Installing any prefix of the listed slots does not change what recovery yields; installing all of them makes the home blocks equal to it. |
| `CrashRecovery.SlotsFilled` | MIT6.S081/Lab/Lab1/kernel/log.c:178-191 | write_log fills slot i with the cached contents of the i-th listed block and touches neither header nor home blocks. |
| `CrashRecovery.ReplayAt` | MIT6.S081/Lab/Lab1/kernel/log.c:69-83 | After a series of block writes a block holds what the last write to it carried, or what it held before if none did. |
| `Storage.LastIndex` | MIT6.S081/Lab/Lab1/kernel/log.c:69-83 | The slot that decides a block listed more than once: the last one. |
| `LogSafety.StepKeeps` | MIT6.S081/Lab/Lab1/kernel/log.c:126-235 | Every step of every process, disk write, crash and restart keeps the invariant that ties disk, cache, header list, reservations and history together. |
| `LogSafety.CrashSafety` | MIT6.S081/Lab/Lab1/kernel/log.c:68-235 | Stop any interleaving of operations, commits, crashes and recoveries anywhere and recover: the home blocks are the boot contents with exactly the durable updates applied in order, and no operation is split between durable and lost. That the updates are what the operations wrote is LogAtomic. |
| `LogSafety.ReadersSeeAll` | MIT6.S081/Lab/Lab1/kernel/log.c:126-235 | While no recovery is running, readers see every update in order; once nobody is inside an operation and no commit is running, everything is durable. |
| `LogSafety.DurableStays` | MIT6.S081/Lab/Lab1/kernel/log.c:126-203 | No step, a crash included, loses or reorders a durable update. |
| `LogSafety.ReservedBounds` | MIT6.S081/Lab/Lab1/kernel/log.c:126-142 | Unused budgets of the outstanding operations are between 0 and MAXOPBLOCKS times their number, and each is part of the sum. |
| `LogSafety.CommitStepRefines` | MIT6.S081/Lab/Lab1/kernel/log.c:178-203 | The write the machine issues in its k-th commit step is the k-th write of the commit sequence. |
| `LogSafety.RecoverStepRefines` | MIT6.S081/Lab/Lab1/kernel/log.c:69-123 | The same for recovery. |
| `LogSafety.PanicsExactly` | MIT6.S081/Lab/Lab1/kernel/log.c:126-235 | With a log of more than LOGSIZE blocks, a step panics exactly in two cases: log_write finds the list full, even if the block is already listed, or a write of a commit finds every buffer pinned or held by somebody else. end_op's own panic never happens. |
| `LogSafety.CommitPanicsExactly` | MIT6.S081/Lab/Lab1/kernel/log.c:178-203 | With nobody else holding a buffer, a commit panics exactly when its group is as large as the buffer pool, and then at its first write; a smaller group is written to the end and is durable. |
| `LogSafety.WithinBudgetNoPanic` | MIT6.S081/Lab/Lab1/kernel/log.c:126-235 | No step panics as long as an operation calling log_write has logged fewer than MAXOPBLOCKS blocks and a committing group together with the buffers others hold is smaller than the pool. |
| `LogAtomic.Refines` | MIT6.S081/Lab/Lab1/kernel/log.c:68-235 | The log refines a disk that changes atomically: from the events alone one computes what readers see (each log_write at once, after a crash what was saved) and what is saved (all that readers see, at each commit's header write); in every run readers see exactly the one, and a crash at any moment recovers exactly the other. |
| `LogAtomic.LastWriteIsSeen` | MIT6.S081/Lab/Lab1/kernel/log.c:206-235 | In every run a block holds what the last log_write put there, until a crash. |
| `LogAtomic.LastWriteIsSaved` | MIT6.S081/Lab/Lab1/kernel/log.c:178-235 | Once a commit has written its header after the last log_write of a block, every later crash recovers what was written. |
| `LogAtomic.UnwrittenStays` | MIT6.S081/Lab/Lab1/kernel/log.c:68-235 | A block that no log_write names stays as booted, for readers and after a crash at any moment. |
| `LogAtomic.InsideExactly` | MIT6.S081/Lab/Lab1/kernel/log.c:126-175 | The machine counts as inside an operation exactly the processes that have called begin_op and not end_op since. |
| `LogAtomic.CommitsBetween` | MIT6.S081/Lab/Lab1/kernel/log.c:147-175 | When a commit saves what readers see, every operation that began has ended. |
| `LogAtomic.QuietIsSaved` | MIT6.S081/Lab/Lab1/kernel/log.c:147-203 | With nobody inside an operation and no commit running, everything readers see is saved. |
| `LogAtomic.PinsAreToInstall` | MIT6.S081/Lab/Lab1/kernel/log.c:69-84 | During a commit a buffer is pinned for exactly the listed blocks whose home writes are still to come. |
| `LogFull.RewritePanics` | MIT6.S081/Lab/Lab1/kernel/log.c:218-227 | A concrete run from boot in which three operations log ten distinct blocks each and the first then logs one of its own blocks again: log_write panics although the block would have been absorbed. |
| `LogFull.FullGroupPanics` | MIT6.S081/Lab/Lab1/kernel/log.c:178-203 | A concrete run from boot in which three operations log ten distinct blocks each and end, nobody else holds a buffer, and the commit panics at its first write. |
| `LogBudget.BlocksAreCalls` | MIT6.S081/Lab/Lab1/kernel/log.c:126-227 | In every run an operation in progress has logged at most as many distinct blocks as it has called log_write since its begin_op. |
| `LogBudget.OnlyCommitsPanic` | MIT6.S081/Lab/Lab1/kernel/log.c:126-227 | A run whose operations each call log_write at most MAXOPBLOCKS times panics if and only if a write of a commit finds every buffer pinned or held: over whole runs, the reservation in begin_op rules out the panics of log_write and end_op. |
| `LogBudget.GroupAtMost` | MIT6.S081/Lab/Lab1/kernel/log.c:126-142 | If operations make at most c calls each, listed blocks and what active operations may still log never exceed MAXOPBLOCKS + 2c (and there are none for c = 0). |
| `LogBudget.NeverPanicsExactly` | MIT6.S081/Lab/Lab1/kernel/log.c:126-235 | The exact bound, for logs of more than LOGSIZE blocks: no run with at most c calls per operation and at most h buffers held by others during a commit ever panics, if and only if c = 0 or MAXOPBLOCKS + 2c + h is below NBUF. For the other direction a run from boot that panics is built for every such c and h. |
| `LogMoments.BecomesDurable` | MIT6.S081/Lab/Lab1/kernel/log.c:178-203 | Updates become durable only in a commit, when nobody is inside an operation, and then all at once. |
| `LogMoments.DurableMoment` | MIT6.S081/Lab/Lab1/kernel/log.c:126-235 | In every run the durable updates are exactly those made up to some moment at which nobody was inside an operation. |
| `LogMoments.RecoversMoment` | MIT6.S081/Lab/Lab1/kernel/log.c:68-235 | Stop any run anywhere and recover: the home blocks are those first booted, or what readers saw at an earlier moment when nobody was inside an operation. |
| `LogMoments.ConsistentAfterCrash` | MIT6.S081/Lab/Lab1/kernel/log.c:68-235 | Any property of the home blocks that holds at boot, and of what readers see whenever nobody is inside an operation, holds after a crash at any moment and recovery. |
| `LogSleep.EventKeeps` | MIT6.S081/Lab/Lab1/kernel/log.c:126-175 | Every interleaving of begin_op, log_write, end_op and the end of a commit over the process table keeps the count of outstanding operations right, a single committer, and every sleeper's reason. |
| `LogSleep.SleepersHaveReason` | MIT6.S081/Lab/Lab1/kernel/log.c:126-175 | In every run, whenever the log's lock is free, a process asleep in begin_op has reason to be (a commit runs, or ten more blocks might not fit), and some other process is inside an operation or commits: nobody sleeps on an idle log. |
| `LogSleep.CommitsAlone` | MIT6.S081/Lab/Lab1/kernel/log.c:147-175 | In every run end_op finds no commit running, so its panic does not happen, and while one runs nobody is inside an operation. |
| `LogProgress.GoesOn` | MIT6.S081/Lab/Lab1/kernel/log.c:126-235 | A process in begin_op, log_write, end_op or commit always has a next step unless it waits for a lock that is held, for a wakeup or for the scheduler, or log_write panics on a full list. |
| `LogProgress.Advances` | MIT6.S081/Lab/Lab1/kernel/log.c:126-235 | Each of its steps leaves it less to do, except that a woken sleeper looks again, the timer may preempt it, and a commit takes its disk writes. |
| `LogProgress.BeginAgrees` | MIT6.S081/Lab/Lab1/kernel/log.c:126-142 | begin_op waits exactly when the log machine blocks, and otherwise changes struct log as the machine changes its state. |
| `LogProgress.WriteAgrees` | MIT6.S081/Lab/Lab1/kernel/log.c:218-235 | log_write panics exactly when the machine does, and counts a block exactly when the machine lists it. |
| `LogProgress.EndAgrees` | MIT6.S081/Lab/Lab1/kernel/log.c:147-165 | end_op starts a commit exactly when the last operation ends, panics exactly when the machine does, and the two agree afterwards. |
| `Log.Log.WriteLog` | MIT6.S081/Lab/Lab1/kernel/log.c:178-191 | The loop writes exactly the specified slot writes from the cached contents, and panics only when there is something to write and no free buffer. |
| `Log.Log.WriteHead` | MIT6.S081/Lab/Lab1/kernel/log.c:103-114 | Writes one header block whose list reads back as the in-memory one; other words of the block are kept. |
| `Log.Log.ReadHead` | MIT6.S081/Lab/Lab1/kernel/log.c:87-97 | The in-memory list becomes the list in the header block, and nothing else changes. |
| `Log.Log.InstallTrans` | MIT6.S081/Lab/Lab1/kernel/log.c:69-83 | The loop issues exactly the specified install writes, copies cache and disk together, and outside recovery drops exactly one pin of each listed block. |
| `Log.Log.InstallOne` | MIT6.S081/Lab/Lab1/kernel/log.c:73-82 | One round: the slot goes to its home block on disk and in the cache, and the pin is dropped unless recovering. |
| `Log.Log.Commit` | MIT6.S081/Lab/Lab1/kernel/log.c:194-203 | Issues exactly the commit sequence whose prefixes are proved crash safe, leaves the disk equal to what readers see, and unpins the group; it panics exactly when there is something to commit and every buffer is referenced. |
| `Log.Log.RecoverFromLog` | MIT6.S081/Lab/Lab1/kernel/log.c:117-123 | On an unused cache it never panics, issues exactly the recovery sequence, and leaves the recovered home blocks. |
| `Log.Log.LogWrite` | MIT6.S081/Lab/Lab1/kernel/log.c:215-235 | Absorbs or appends the block, pinning it exactly when it is new; false exactly in the three cases in which the code panics. |
| `Log.Log.Update` | MIT6.S081/Lab/Lab1/kernel/log.c:206-235 | bread, change, log_write, brelse keeps the log valid, so the pinned block stays in the cache with the new contents. |
| `Log.Log.constructor` | MIT6.S081/Lab/Lab1/kernel/log.c:55-65 | An empty list, nobody inside an operation, no commit running. |
| `Log.CommitTrace` | MIT6.S081/Lab/Lab1/kernel/log.c:194-203 | The writes up to the commit point followed by the recovery writes are the commit sequence, and leave the updated home blocks. |
| `Log.BreadAvailable` | MIT6.S081/Lab/Lab1/kernel/bio.c:59-89 | A referenced block is cached, so bread finds it without needing a free buffer; with no buffer unreferenced, an unreferenced block is not cached, so bread of it must panic. |
| `Log.Log.EndOp` | MIT6.S081/Lab/Lab1/kernel/log.c:147-175 | The last operation out commits the whole group; earlier ones write nothing. (The two wakeups are in LogSleep.) |
| `Log.NoneFreeExactly` | MIT6.S081/Lab/Lab1/kernel/bio.c:59-89 | No buffer is unreferenced if and only if as many distinct blocks are referenced as there are buffers. |
| `Log.CommitLacksBuffer` | MIT6.S081/Lab/Lab1/kernel/log.c:178-203 | With nothing referenced but the listed blocks and others, the condition under which Log.Log.Commit panics holds exactly when the two together number NBUF; for a group alone, exactly when it has the largest size begin_op admits. |
| `BufferCache.Cache.constructor` | MIT6.S081/Lab/Lab1/kernel/bio.c:37-53 | The links form a ring with every buffer on it exactly once; every read shows the disk. |
| `BufferCache.Cache.Lookup` | MIT6.S081/Lab/Lab1/kernel/bio.c:65-72 | The forward search finds the buffer of the block if and only if there is one. |
| `BufferCache.Cache.FindFree` | MIT6.S081/Lab/Lab1/kernel/bio.c:76-87 | The backward search finds the unreferenced buffer nearest the least recently used end, or none if and only if all are referenced. |
| `BufferCache.Cache.Bwrite` | MIT6.S081/Lab/Lab1/kernel/bio.c:107-112 | One disk write, of the buffer to its own block. |
| `BufferCache.Cache.Brelse` | MIT6.S081/Lab/Lab1/kernel/bio.c:117-137 | Drops one reference and, at the last, moves exactly that buffer to the front of the ring; otherwise the order stays. |
| `BufferCache.Cache.Bpin` | MIT6.S081/Lab/Lab1/kernel/bio.c:140-144 | One more reference, and nothing else. |
| `BufferCache.Cache.Bunpin` | MIT6.S081/Lab/Lab1/kernel/bio.c:147-151 | One reference less; the last may go only when the disk has the contents. |
| `BufferCache.UpdateCoherent` | MIT6.S081/Lab/Lab1/kernel/bio.c:59-151 | Changing one buffer together with its block's entries keeps the cache coherent: one buffer per block, counts equal to references, unreferenced buffers clean. |
| `BufferCache.RecycleCoherent` | MIT6.S081/Lab/Lab1/kernel/bio.c:76-87 | Recycling is coherent only for an unreferenced buffer, so a pinned block is never lost; the recycled block had no references. |
| `BufferCache.MoveToFrontLinked` | MIT6.S081/Lab/Lab1/kernel/bio.c:126-134 | The six pointer writes turn the ring of a list into the ring of the list with that buffer first. |
| `BufferCache.InsertFrontLinked` | MIT6.S081/Lab/Lab1/kernel/bio.c:45-52 | The four pointer writes of binit insert a buffer after the head. |
| `BufferCache.Cache.Bget` | MIT6.S081/Lab/Lab1/kernel/bio.c:59-89 | One more reference to the cached buffer, or the recycled least recently used unreferenced one; it panics exactly when the block is not cached and all buffers are referenced, waits exactly when somebody has the buffer locked, and no other buffer changes. |
| `BufferCache.Cache.Bread` | MIT6.S081/Lab/Lab1/kernel/bio.c:93-103 | Unless it has to wait, the returned buffer is locked and holds the latest contents of the block, from the cache or from disk. |
| `CacheOrder.RingIsRecency` | MIT6.S081/Lab/Lab1/kernel/bio.c:66-134 | Whatever buffers are released in whatever order, the ring lists all buffers by the time of their last release, the latest first. |
| `CacheOrder.OldestFirst` | MIT6.S081/Lab/Lab1/kernel/bio.c:77-88 | The buffer bget recycles was released before every other one that nobody references. |
| `CacheOrder.FrontIsTouch` | MIT6.S081/Lab/Lab1/kernel/bio.c:116-134 | What brelse does to the ring at the last reference is to put the buffer first. |
| `ProcSafety.StepKeeps` | MIT6.S081/Lab/Lab1/kernel/proc.c:438-597 | Every step of any process or of the scheduler keeps status, channel and lock in step with the place in the code, and keeps every waker's scan complete behind it. |
| `ProcSafety.NoLostWakeup` | MIT6.S081/Lab/Lab1/kernel/proc.c:529-573 | In every interleaving, when wakeup(c) returns to a caller that holds l, no process that gave up l in sleep(c, l) is still asleep, from then until the caller lets go of l. |
| `ProcSafety.StepPutsToSleep` | MIT6.S081/Lab/Lab1/kernel/proc.c:529-555 | Only the holder of l falls asleep on (c, l), and it gives l up in that very step. |
| `ProcSafety.OtherChange` | MIT6.S081/Lab/Lab1/kernel/proc.c:438-573 | All that a step can do to another process. |
| `ProcSafety.StatusStep` | MIT6.S081/Lab/Lab1/kernel/proc.c:105-597 | The only status transitions, and the step that makes each. |
| `ProcSafety.Bystander` | MIT6.S081/Lab/Lab1/kernel/proc.c:438-573 | A step takes no lock and no place in the code from another process. |
| `ProcSafety.KeepsProcLock` | MIT6.S081/Lab/Lab1/kernel/proc.c:438-597 | A held p->lock is taken away by nobody. |
| `ProcSafety.DoneSurvives` | MIT6.S081/Lab/Lab1/kernel/proc.c:560-573 | That a wakeup is complete under l is forgotten only when l is released. |
| `ProcProgress.GoesOn` | MIT6.S081/Lab/Lab1/kernel/proc.c:438-573 | A process inside sleep, wakeup, yield or exit that waits for no lock, no wakeup and not for the scheduler can take its next step, which brings it one place further. |
| `ProcProgress.LeavesLess` | MIT6.S081/Lab/Lab1/kernel/proc.c:438-573 | Each such step leaves less to do: the loop of wakeup ends, and sleep has a fixed number of steps on each side of its wait. |
| `ProcProgress.KillWakes` | MIT6.S081/Lab/Lab1/kernel/proc.c:576-597 | kill marks its target and leaves it not asleep. |
| `ProcProgress.TestWakes` | MIT6.S081/Lab/Lab1/kernel/proc.c:557-573 | The test in wakeup makes exactly a sleeper on the channel runnable. |
| `ProcProgress.CleanKept` | MIT6.S081/Lab/Lab1/kernel/proc.c:148-170 | A free entry is not marked killed and has no channel, unless kill is aimed at the free entry itself. |
| `ProcProgress.TidyKept` | MIT6.S081/Lab/Lab1/kernel/proc.c:475-555 | Out of sleep or exit, or off the processor, no process still holds its own lock, and only one asleep or just waking has a channel. |
| `WaitSafety.EventKeeps` | MIT6.S081/Lab/Lab1/kernel/proc.c:273-428 | Every interleaving of fork, exit, wait, sleep, wakeup, kill and the scheduler keeps the exit/wait invariant. |
| `WaitSafety.WaitersHaveNoZombies` | MIT6.S081/Lab/Lab1/kernel/proc.c:340-428 | In every state reachable from userinit in which wait_lock is free, no process asleep in wait, or committed to that sleep, has a zombie child, its own or inherited through reparent. |
| `WaitSafety.ZombiesHaveLiveParents` | MIT6.S081/Lab/Lab1/kernel/proc.c:324-428 | In every reachable state a zombie has a parent and that parent is alive. |
| `WaitSafety.BootInv` | MIT6.S081/Lab/Lab1/kernel/proc.c:226-248 | The table userinit leaves satisfies the invariant. |
| `WaitSafety.Parents` | MIT6.S081/Lab/Lab1/kernel/proc.c:273-428 | A parent changes only in fork, in reparent to init, and when wait frees the child. |
| `WaitSafety.Statuses` | MIT6.S081/Lab/Lab1/kernel/proc.c:273-428 | The only status changes, and the place in fork, exit or wait that makes each. |
| `WaitSafety.NewZombieChild` | MIT6.S081/Lab/Lab1/kernel/proc.c:324-379 | A process gets a zombie child only from an exiting child or by inheritance, with wait_lock held by the one who does it. |
| `WaitSafety.HandshakeAt` | MIT6.S081/Lab/Lab1/kernel/proc.c:340-428 | After any event, a sleeper in wait with a zombie child is init being woken at that moment. |
| `WaitSafety.FreshSleeperScanned` | MIT6.S081/Lab/Lab1/kernel/proc.c:390-426 | A process that goes to sleep in wait has scanned the whole table and has no zombie child. |
| `WaitSafety.ParentLives` | MIT6.S081/Lab/Lab1/kernel/proc.c:324-428 | Every recorded parent is alive after every event. |
| `WaitSafety.DisownedKept` | MIT6.S081/Lab/Lab1/kernel/proc.c:324-379 | An exiting process past reparent has no children. |
| `WaitSafety.MakersKept` | MIT6.S081/Lab/Lab1/kernel/proc.c:273-319 | No two processes are making the same child. |
| `WaitAnswer.WaitAnswers` | MIT6.S081/Lab/Lab1/kernel/proc.c:396-428 | In every reachable state a process at the end of its scan returns -1 exactly if it is killed or no process has it as parent, and goes to sleep exactly otherwise. |
| `WaitAnswer.WaitReturns` | MIT6.S081/Lab/Lab1/kernel/proc.c:384-430 | Whenever wait returns it has freed exactly one zombie child, or none, and then copying out failed, the process has been killed, or it has no child. |
| `WaitAnswer.KidsKnown` | MIT6.S081/Lab/Lab1/kernel/proc.c:396-409 | havekids says whether a child lies before the scan position. |
| `WaitAnswer.NoneHalfMade` | MIT6.S081/Lab/Lab1/kernel/proc.c:273-321 | In every reachable state each process that is USED is being made by somebody: fork leaves none behind. |
| `WaitProgress.GoesOn` | MIT6.S081/Lab/Lab1/kernel/proc.c:273-430 | A process in fork, exit or wait always has a next step, whatever is chosen for it, unless it waits for a held lock, a wakeup or the scheduler. |
| `WaitProgress.Advances` | MIT6.S081/Lab/Lab1/kernel/proc.c:273-430 | Each of its steps leaves it less to do, except that a woken waiter scans again and the timer may preempt it. |
| `WaitProgress.MayCall` | MIT6.S081/Lab/Lab1/kernel/proc.c:273-430 | An idle process may call wait or, unless it is init, exit while wait_lock is free, and fork into any entry whose lock is free. |
| `Pipe.StoreAppends` | MIT6.S081/Lab/Lab1/kernel/pipe.c:93-95 | Storing a byte appends it to the queue, also when the 32-bit counter wraps. |
| `Pipe.TakeRemoves` | MIT6.S081/Lab/Lab1/kernel/pipe.c:118-121 | Taking a byte removes the oldest, also when the counter wraps. |
| `Pipe.Extremes` | MIT6.S081/Lab/Lab1/kernel/pipe.c:86-116 | nread == nwrite and nwrite == nread + PIPESIZE, in wrapping arithmetic, say exactly empty and full. |
| `Pipe.Buffer.constructor` | MIT6.S081/Lab/Lab1/kernel/pipe.c:23-56 | A new pipe is empty and open at both ends. |
| `Pipe.Buffer.WriteSome` | MIT6.S081/Lab/Lab1/kernel/pipe.c:83-98 | The write loop between two sleeps appends exactly the bytes it advances over and stops at the end, at a failed copyin, or when the pipe is full. |
| `Pipe.Buffer.ReadSome` | MIT6.S081/Lab/Lab1/kernel/pipe.c:115-124 | The read loop returns the oldest bytes, up to n; a byte whose copyout fails is consumed and lost. |
| `PipeSafety.EventKeeps` | MIT6.S081/Lab/Lab1/kernel/pipe.c:59-130 | Every interleaving of any number of readers, writers and closers keeps the pipe invariant. |
| `PipeSafety.RingChanger` | MIT6.S081/Lab/Lab1/kernel/pipe.c:77-130 | Only the lock's holder changes the ring, and if it ends emptiness or fullness it is on its way to wake the other side. |
| `PipeSafety.LostCleared` | MIT6.S081/Lab/Lab1/kernel/pipe.c:77-103 | When that ends, the readers have been woken under the lock. |
| `PipeRuns.Fifo` | MIT6.S081/Lab/Lab1/kernel/pipe.c:77-130 | In every run the stored bytes are the consumed bytes followed by the queue, so consumption is a prefix in order and at most PIPESIZE bytes are in flight. |
| `PipeRuns.ReadsAreContiguous` | MIT6.S081/Lab/Lab1/kernel/pipe.c:115-129 | What one call of piperead copies out is a contiguous stretch of the stream. |
| `PipeRuns.NeverBothStuck` | MIT6.S081/Lab/Lab1/kernel/pipe.c:77-130 | In a run without kills, whenever the lock is free, a reader sleeps only with reason and a reader and a writer are never both asleep. |
| `PipeRuns.FreedIsUnused` | MIT6.S081/Lab/Lab1/kernel/pipe.c:59-74 | Once pipeclose has freed the pipe, nobody is inside it. |
| `PipeRuns.SleepersHaveReason` | MIT6.S081/Lab/Lab1/kernel/pipe.c:77-130 | Whenever the lock is free, a writer sleeps only on a full pipe with the read end open, and a reader only on an empty pipe with the write end open, unless since the readers were last woken a killed writer has left bytes without waking them. |
| `PipeRuns.NoKillNoLoss` | MIT6.S081/Lab/Lab1/kernel/pipe.c:77-130 | Without kills no writer leaves readers unwoken. |
| `PipeCalls.ReadAnswers` | MIT6.S081/Lab/Lab1/kernel/pipe.c:105-130 | In every run, what piperead answers with are bytes it has taken in this call, all that were asked for unless copying failed or the ring is empty; it answers with nothing only if nobody can write any more. |
| `PipeCalls.WriteAnswers` | MIT6.S081/Lab/Lab1/kernel/pipe.c:77-103 | In every run, a write has stored a first part of its own bytes in order, and all of them when its loop ends, unless copying failed. |
| `PipeCalls.GivesUp` | MIT6.S081/Lab/Lab1/kernel/pipe.c:85-114 | A read gives up before its first byte only if killed while the pipe is empty and can still be written; a write before its last only if killed or nobody can read. |
| `PipeProgress.GoesOn` | MIT6.S081/Lab/Lab1/kernel/pipe.c:59-130 | A process in a call of the pipe always has a next step unless it waits for a held lock, a wakeup or the scheduler. |
| `PipeProgress.Advances` | MIT6.S081/Lab/Lab1/kernel/pipe.c:59-130 | Each of its steps leaves it less to do, except that a woken sleeper looks again and the timer may preempt it. |
| `PipeProgress.MayCall` | MIT6.S081/Lab/Lab1/kernel/pipe.c:59-130 | An idle process may read, write or close while the end it wants is open to it. |
| `PipeProgress.MayYield` | MIT6.S081/Lab/Lab1/kernel/proc.c:495-503 | The timer may take the processor from anybody who holds no lock, in a call of the pipe too. |
| `PipeProgress.NeverLeaked` | MIT6.S081/Lab/Lab1/kernel/pipe.c:59-75 | In every run, once both ends are closed the pipe is freed or a closer is on its way to free it. |
| `PipeKill.KillStrandsReader` | MIT6.S081/Lab/Lab1/kernel/pipe.c:85-90 | A concrete run in which a writer is killed after its first byte: it returns without waking, and a reader stays asleep on a pipe that is not empty. |
| `PipeKill.GivingUpStrands` | MIT6.S081/Lab/Lab1/kernel/pipe.c:85-90 | From any state of the invariant with nothing lost, a writer that gives up because it was killed (or nobody can read) leaves a reader asleep on a pipe that is not empty if and only if it had stored bytes since it last woke the readers and a reader was asleep. |
| `PipeKill.LostExactly` | MIT6.S081/Lab/Lab1/kernel/pipe.c:77-130 | Bytes count as lost exactly from such a departure until the next completed wakeup of the readers. |
| `Fs.FileSystem.Balloc` | MIT6.S081/Lab/Lab1/kernel/fs.c:65-86 | The first free block, marked and zeroed; it panics exactly when every bit is set. |
| `Fs.FileSystem.Bfree` | MIT6.S081/Lab/Lab1/kernel/fs.c:90-103 | Clears the bit of b and nothing else, or panics exactly when it is clear already. |
| `Fs.FileSystem.Bmap` | MIT6.S081/Lab/Lab1/kernel/fs.c:378-405 | The block that holds block bn of the file, allocating what is missing without changing any byte of any file; an existing block changes nothing. |
| `Fs.FileSystem.BmapEntry` | MIT6.S081/Lab/Lab1/kernel/fs.c:389-402 | The same for an entry of the indirect block. |
| `Fs.FileSystem.Itrunc` | MIT6.S081/Lab/Lab1/kernel/fs.c:410-437 | Frees exactly the blocks the inode held, direct, indirect and entries; bfree's panic does not happen. |
| `Fs.FileSystem.FreeDirects` | MIT6.S081/Lab/Lab1/kernel/fs.c:416-421 | The loop over the direct blocks frees exactly those. |
| `Fs.FileSystem.FreeEntries` | MIT6.S081/Lab/Lab1/kernel/fs.c:424-430 | The loop over the indirect block frees exactly its entries. |
| `Fs.FileSystem.Readi` | MIT6.S081/Lab/Lab1/kernel/fs.c:456-477 | The bytes of the file from off on, up to n of them and not past its end; nothing when off is past the end. |
| `Fs.FileSystem.CopyOne` | MIT6.S081/Lab/Lab1/kernel/fs.c:497-508 | One turn of the loop writes the piece that fits in the block, across the direct/indirect boundary and at unaligned ends. |
| `Fs.Finished` | MIT6.S081/Lab/Lab1/kernel/fs.c:487-517 | All pieces copied and the size set, the file is the old one overwritten and no other file has changed. |
| `Fs.FileSystem.Writei` | MIT6.S081/Lab/Lab1/kernel/fs.c:487-517 | -1 and no change exactly when off is past the end or the file would be too large; otherwise the file is the old one with the bytes laid over it, growing as needed, and every other file is the same. If no block is left, exactly a first part of the bytes has been copied and no size has changed. |
| `FsSafety.AllocationKeeps` | MIT6.S081/Lab/Lab1/kernel/fs.c:65-86 | Allocation keeps block ownership and every byte of every file, and the block is nobody's yet. |
| `FsSafety.SetAddrGrows` | MIT6.S081/Lab/Lab1/kernel/fs.c:378-388 | Attaching a fresh block as a direct or indirect block keeps ownership and every byte. |
| `FsSafety.SetEntryGrows` | MIT6.S081/Lab/Lab1/kernel/fs.c:389-402 | Attaching it as an entry of the indirect block does too. |
| `FsSafety.WriteKeeps` | MIT6.S081/Lab/Lab1/kernel/fs.c:497-508 | Writing a data block changes the bytes of that block of that file only, and no bitmap bit. |
| `FsSafety.SetSizeKeeps` | MIT6.S081/Lab/Lab1/kernel/fs.c:510-515 | Growing the size over blocks that are there keeps all bytes. |
| `FsSafety.FreeStep` | MIT6.S081/Lab/Lab1/kernel/fs.c:410-437 | Midway through a truncation the block of a slot not yet freed is still marked: owned once, it cannot have been freed already. |
| `FsSafety.TruncationKeeps` | MIT6.S081/Lab/Lab1/kernel/fs.c:410-437 | Truncation leaves an empty file, keeps ownership, and leaves every other file as it was. |
| `FsBlocks.EmptyIsGood` | MIT6.S081/Lab/Lab1/kernel/fs.c:65-103 | A volume with empty inodes and its metadata blocks marked satisfies block ownership. |
| `FsBlocks.SmallVolume` | MIT6.S081/Lab/Lab1/kernel/fs.c:65-103 | A concrete volume of that kind, with blocks free and taken. |
| `FsDisk.EntryIsWord` | MIT6.S081/Lab/Lab1/kernel/fs.c:370-411 | The jth address of an indirect block is the jth word of the block on disk. |
| `FsDisk.InodeReads` | MIT6.S081/Lab/Lab1/kernel/fs.c:222-308 | What iupdate writes for an inode is what ilock reads back, and the other inodes in the block stay. |
| `FsDisk.IupdateChanges` | MIT6.S081/Lab/Lab1/kernel/fs.c:222-237 | iupdate on the disk is the change of that inode in the volume and of no other inode and no other block. |
| `FsDisk.BlockChanges` | MIT6.S081/Lab/Lab1/kernel/fs.c:65-115 | Writing a bitmap or data block is the change of that block in the volume, inodes untouched. |
| `FsDisk.SameHomeSameFiles` | MIT6.S081/Lab/Lab1/kernel/fs.c:370-411 | Two images that agree outside the log area hold the same files, and one is in good order (block ownership, no holes) if the other is. |
| `FsDisk.VolumeSurvives` | MIT6.S081/Lab/Lab1/kernel/log.c:68-235 | If readers see block ownership intact whenever nobody is inside an operation, then after a crash at any moment and recovery it is intact, and every file is as at boot or as readers saw it at one such moment, the same for all files. |
| `Bits.OneBit` | MIT6.S081/Lab/Lab1/kernel/fs.c:74-99 | Setting or clearing one bit of a bitmap byte, in integer arithmetic, changes that bit and no other. |
| `Vm.Kernel.constructor` | MIT6.S081/Lab/Lab1/kernel/kalloc.c:27-31 | kinit puts every whole page from the kernel's end to the top of memory on the free list. |
| `Vm.Kernel.Freerange` | MIT6.S081/Lab/Lab1/kernel/kalloc.c:34-40 | Exactly the whole pages between the two addresses go to the list. |
| `Vm.Kernel.Kalloc` | MIT6.S081/Lab/Lab1/kernel/kalloc.c:69-82 | Takes the first page of the list, filled with junk; 0 exactly when the list is empty. |
| `Vm.Kernel.Uvmcreate` | MIT6.S081/Lab/Lab1/kernel/vm.c:192-200 | A new root with nothing mapped, and every other page and table unchanged; 0 exactly when no page is free. |
| `Vm.Kernel.MakeTable` | MIT6.S081/Lab/Lab1/kernel/vm.c:88-95 | A zeroed page hung where there was none. |
| `Vm.Kernel.Walkaddr` | MIT6.S081/Lab/Lab1/kernel/vm.c:104-121 | The physical page of a valid user mapping and 0 otherwise, MAXVA and beyond included; nothing changes. |
| `Vm.TouchedExactly` | MIT6.S081/Lab/Lab1/kernel/vm.c:138-160 | The pages mappages maps are those with a byte of the range, and no others. |
| `Vm.Kernel.Kfree` | MIT6.S081/Lab/Lab1/kernel/kalloc.c:47-63 | The page goes to the front of the list; it panics exactly for an address that is not the start of a page of the allocator. |
| `Vm.Kernel.Walk` | MIT6.S081/Lab/Lab1/kernel/vm.c:81-98 | The place of the leaf entry of the page, if it has a table; with alloc, tables are made on the way and it fails only without free pages; it panics exactly beyond MAXVA; no mapping changes. |
| `Vm.Kernel.MapPages` | MIT6.S081/Lab/Lab1/kernel/vm.c:147-158 | The loop maps the pages one by one and changes no other entry; it panics exactly at the first page already mapped or beyond MAXVA and fails exactly at the first that needs a table when no page is free. |
| `Vm.Kernel.Mappages` | MIT6.S081/Lab/Lab1/kernel/vm.c:138-160 | All pages that the bytes touch, aligned or not, are mapped in this way; size 0 panics. |
| `Vm.Kernel.UnmapPages` | MIT6.S081/Lab/Lab1/kernel/vm.c:174-186 | The loop clears exactly the entries of the range and, with do_free, frees exactly their pages; it panics exactly at the first entry that is beyond MAXVA, not mapped, not a leaf, or whose page kfree refuses. |
| `Vm.Kernel.Uvmunmap` | MIT6.S081/Lab/Lab1/kernel/vm.c:166-187 | The same from an address; one inside a page panics before anything changes. |
| `Vm.Kernel.Uvmclear` | MIT6.S081/Lab/Lab1/kernel/vm.c:333-341 | Takes the user flag from one entry, mapped or not; page, other flags and all other entries stay; it panics exactly beyond MAXVA and without a table. |
| `PageTable.MapKeeps` | MIT6.S081/Lab/Lab1/kernel/vm.c:138-160 | Mapping keeps the three-level tree unshared, gives the page one owner, and changes one leaf entry of one tree. |
| `PageTable.UnmapKeeps` | MIT6.S081/Lab/Lab1/kernel/vm.c:166-187 | Clearing a leaf keeps the trees and leaves its page to nobody. |
| `PageTable.LinkKeeps` | MIT6.S081/Lab/Lab1/kernel/vm.c:88-95 | Hanging a zeroed table page keeps the trees and every leaf entry. |
| `PageTable.NewTableKeeps` | MIT6.S081/Lab/Lab1/kernel/vm.c:88-95 | kalloc, memset and the new entry together change no mapping and no page in use. |
| `PageTable.FlagsKeep` | MIT6.S081/Lab/Lab1/kernel/vm.c:333-341 | Changing a leaf's flags keeps the trees and every other entry. |
| `PageTable.AllocKeeps` | MIT6.S081/Lab/Lab1/kernel/kalloc.c:69-82 | Taking the first page keeps the list acyclic and complete, and every page either free, a table, or in use. |
| `PageTable.ReleaseKeeps` | MIT6.S081/Lab/Lab1/kernel/kalloc.c:47-63 | Giving back a page that nothing maps does too. |
| `PageTable.MakeIs` | MIT6.S081/Lab/Lab1/kernel/vm.c:138-160 | Page number and flags read back from a page-table entry as they were packed (Sv39, section 4.4 of the RISC-V Privileged Architecture). |
| `PageTable.InvalidKeeps` | MIT6.S081/Lab/Lab1/kernel/vm.c:333-341 | An invalid entry may change as long as it stays invalid. |
| `PageInit.UnclaimedOk` | MIT6.S081/Lab/Lab1/kernel/kalloc.c:27-31 | The state before freerange satisfies the page invariant. |
| `PageInit.AdoptKeeps` | MIT6.S081/Lab/Lab1/kernel/vm.c:192-200 | A zeroed page made a root keeps the invariant and every leaf entry of every other tree. |
| `UserMemory.GrowOne` | MIT6.S081/Lab/Lab1/kernel/vm.c:230-242 | One page taken and mapped, or given back. |
| `UserMemory.ShrinkRestores` | MIT6.S081/Lab/Lab1/kernel/vm.c:221-262 | Unmapping what a failed growth had added restores every mapping and every page in use. |
| `UserMemory.ExtendedMore` | MIT6.S081/Lab/Lab1/kernel/vm.c:221-244 | Growing twice is growing by both. |
| `UserMemory.Uvmalloc` | MIT6.S081/Lab/Lab1/kernel/vm.c:221-244 | Grows the address space with zeroed user pages, or leaves every mapping and every page in use as it was; it panics only at a page already mapped or beyond MAXVA. |
| `UserMemory.Uvmdealloc` | MIT6.S081/Lab/Lab1/kernel/vm.c:251-262 | Unmaps and frees exactly the pages between the two sizes; it panics only at a page that cannot be unmapped. |
| `UserMemory.Uvmcopy` | MIT6.S081/Lab/Lab1/kernel/vm.c:301-328 | The child gets equal bytes and flags in pages of its own, or everything in use is as before; it panics only at a page the parent lacks, the child has, or beyond MAXVA. |
| `UserView.GrownReached` | MIT6.S081/Lab/Lab1/kernel/vm.c:221-244 | After uvmalloc has succeeded walkaddr accepts every page it added, and the entry allows the user to read, write and run. |
| `UserView.GrownTakesAll` | MIT6.S081/Lab/Lab1/kernel/vm.c:221-244 | copyout within the memory added goes through to the end. |
| `UserView.GrownBytes` | MIT6.S081/Lab/Lab1/kernel/vm.c:221-244 | What uvmalloc added reads as zeros, and every other address of every address space holds what it held. |
| `UserView.GrownOwn` | MIT6.S081/Lab/Lab1/kernel/vm.c:221-244 | It keeps user-accessible pages the allocator's. |
| `UserView.ShrunkBytes` | MIT6.S081/Lab/Lab1/kernel/vm.c:251-262 | After pages have been unmapped nothing can be used there, and every other address of every address space holds what it held. |
| `UserView.ChildSees` | MIT6.S081/Lab/Lab1/kernel/vm.c:301-328 | After uvmcopy the child can use exactly the addresses the parent can, with the same permissions, and finds the same bytes. |
| `FreeTables.CutGone` | MIT6.S081/Lab/Lab1/kernel/vm.c:287-292 | Unmapping all leaves and cutting the tree accounts for every page. |
| `FreeTables.DropKeeps` | MIT6.S081/Lab/Lab1/kernel/vm.c:281 | Freeing a table page with nothing valid in it keeps the rest well formed. |
| `FreeTables.ClearCell` | MIT6.S081/Lab/Lab1/kernel/vm.c:276 | Clearing the entry of a freed subtree restores the invariant at that entry. |
| `FreeTables.Freewalk` | MIT6.S081/Lab/Lab1/kernel/vm.c:267-282 | Every table page of the subtree goes back to the list once and no other table, mapping or page in use changes; it panics exactly when a valid leaf is left below. |
| `FreeTables.Uvmfree` | MIT6.S081/Lab/Lab1/kernel/vm.c:287-292 | Each page of the address space, leaf or table, is on the free list afterwards and every other page has the role and contents it had; it panics exactly when a page below sz is missing or something is mapped from sz on. |
| `CopyUser.Copyout` | MIT6.S081/Lab/Lab1/kernel/vm.c:347-366 | Writes the bytes at the user address and changes no other byte of any address space; on failure exactly the bytes before the first unreachable page are written. |
| `CopyUser.Copyin` | MIT6.S081/Lab/Lab1/kernel/vm.c:372-391 | Returns the bytes at the user address, all of them exactly when every page can be reached, and changes nothing. |
| `CopyUser.ReadsBack` | MIT6.S081/Lab/Lab1/kernel/vm.c:347-391 | copyin after copyout at the same address returns what was written. |
| `CopyUser.OnePlace` | MIT6.S081/Lab/Lab1/kernel/vm.c:104-121 | A page users can reach has one address in one tree. |
| `CopyUser.PieceByte` | MIT6.S081/Lab/Lab1/kernel/vm.c:350-364 | One memmove of the loop, byte by byte, for every tree and address. |
| `Malloc.Heap.Init` | CSAPP/Lab/Lab7/mm.c:164-177 | Prologue, epilogue and a first free chunk; it succeeds exactly when that chunk fits, and its stores go astray exactly on a heap of less than 16 bytes. |
| `Malloc.Heap.Free` | CSAPP/Lab/Lab7/mm.c:217-224 | The payload is gone and every other is untouched; neighbours are joined, so no two free blocks touch. |
| `Malloc.Heap.FindFit` | CSAPP/Lab/Lab7/mm.c:117-146 | The first suitable block in next-fit order from pre_listp; 0 exactly when no block suits; both loops end. |
| `Malloc.Heap.Place` | CSAPP/Lab/Lab7/mm.c:148-159 | The block becomes allocated and a rest of at least 8 bytes becomes a free block. |
| `Malloc.Heap.Coalesce` | CSAPP/Lab/Lab7/mm.c:76-99 | In all four cases the free block is joined with its free neighbours, pre_listp stays on the chain, and no payload changes. |
| `Malloc.Heap.ExtendHeap` | CSAPP/Lab/Lab7/mm.c:101-115 | A free block of at least the size asked for at the end, joined with a free last block; 0 exactly when mem_sbrk refuses. |
| `Malloc.FreeSuits` | CSAPP/Lab/Lab7/mm.c:197-211 | A large enough free block suits, so the search after extend_heap succeeds. |
| `Malloc.PayloadsApart` | CSAPP/Lab/Lab7/mm.c:183-244 | Live payloads are 8-aligned, inside the heap, and at least a header and a footer apart. |
| `Malloc.CoalescedKept` | CSAPP/Lab/Lab7/mm.c:76-99 | Rewriting the tags of the merged block keeps all tags and all payloads. |
| `Malloc.StillOnChain` | CSAPP/Lab/Lab7/mm.c:101-115 | Extending and coalescing lose no block start before the old epilogue, so pre_listp stays valid. |
| `Malloc.ReadsTags` | CSAPP/Lab/Lab7/mm.c:46-63 | The macros read sizes, flags and neighbours of the block list. |
| `Malloc.Heap.Malloc` | CSAPP/Lab/Lab7/mm.c:183-212 | A new 8-aligned payload of at least the size asked for, all others untouched; 0 for size 0, and otherwise exactly when no free block suits and memory has no room for the growth. |
| `Malloc.Heap.Realloc` | CSAPP/Lab/Lab7/mm.c:229-244 | A new payload that agrees with the old one as far as both and size reach, the old one gone, all others untouched; or 0 and no change under malloc's condition. |
| `Blocks.CoalescedFits` | CSAPP/Lab/Lab7/mm.c:76-99 | Coalescing keeps the tiling and leaves no two adjacent free blocks. |
| `Blocks.PlacedFits` | CSAPP/Lab/Lab7/mm.c:148-159 | Placing keeps both. |
| `Blocks.ExtendedFits` | CSAPP/Lab/Lab7/mm.c:101-115 | Extending keeps the tiling, with at most the new block next to a free one. |
| `Blocks.ExtentsApart` | CSAPP/Lab/Lab7/mm.c:183-244 | Blocks, header to footer, are disjoint. |
| `HeapTags.SpliceTagged` | CSAPP/Lab/Lab7/mm.c:76-159 | Rewriting the bytes of some blocks keeps the tags of all others. |
| `HeapTags.SpliceLive` | CSAPP/Lab/Lab7/mm.c:76-159 | It also keeps what they hold. |
| `HeapTags.LiveIndex` | CSAPP/Lab/Lab7/mm.c:183-244 | Every live payload is that of one allocated block between prologue and epilogue. |
| `Memlib.Memory.Sbrk` | CSAPP/Lab/Lab7/memlib.c:58-69 | The old break, or -1 and no change exactly when the increment is negative or does not fit. |
| `Memlib.Memory.Put` | CSAPP/Lab/Lab7/mm.c:41-42 | The word reads back and no other byte changes. |
| `Memlib.BytesOfWord` | CSAPP/Lab/Lab7/mm.c:41-42 | A 32-bit word is its four little-endian bytes. |
| `Umalloc.Allocator.Free` | MIT6.S081/Lab/Lab1/user/umalloc.c:25-44 | The block goes back and exactly its units are free again, on a ring that is circular, ascending and coalesced; pointers, sizes and freep are exactly what inserting it after the block before it gives. |
| `Umalloc.Allocator.Malloc` | MIT6.S081/Lab/Lab1/user/umalloc.c:64-90 | A block not handed out before, of the units asked for: if some block is large enough, the first one around the ring from freep on, whole or its end; 0 exactly when no block is large enough and sbrk refuses: after one morecore the search succeeds; the loop ends. |
| `Umalloc.Allocator.Morecore` | MIT6.S081/Lab/Lab1/user/umalloc.c:47-61 | Exactly the units asked for, or 4096 if that is more, are got from sbrk and join the ring; or 0 and no change. |
| `Umalloc.Allocator.Search` | MIT6.S081/Lab/Lab1/user/umalloc.c:30-32 | The loop ends at the one place where the block belongs. |
| `Umalloc.Allocator.Take` | MIT6.S081/Lab/Lab1/user/umalloc.c:74-84 | The whole block or its end is handed out, and freep is the block before it. |
| `Umalloc.Allocator.Start` | MIT6.S081/Lab/Lab1/user/umalloc.c:69-72 | The first call makes the ring of base alone. |
| `Umalloc.Allocator.constructor` | MIT6.S081/Lab/Lab1/user/umalloc.c:21-22 | Nothing handed out and no list yet. |
| `Umalloc.Stops` | MIT6.S081/Lab/Lab1/user/umalloc.c:30-32 | The two tests of free's loop together hold at the block's place and nowhere else. |
| `Umalloc.PlaceOf` | MIT6.S081/Lab/Lab1/user/umalloc.c:30-32 | There is such a place. |
| `Umalloc.NoBlock` | MIT6.S081/Lab/Lab1/user/umalloc.c:73-88 | Once around without a fit means no block fits. |
| `Umalloc.FreeBooks` | MIT6.S081/Lab/Lab1/user/umalloc.c:25-44 | free keeps the books: every unit from sbrk is in exactly one block, free or handed out. |
| `Umalloc.MoreBooks` | MIT6.S081/Lab/Lab1/user/umalloc.c:47-61 | So does what sbrk gives. |
| `Umalloc.WholeBooks` | MIT6.S081/Lab/Lab1/user/umalloc.c:75-77 | So does handing out a whole block. |
| `Umalloc.SplitBooks` | MIT6.S081/Lab/Lab1/user/umalloc.c:78-82 | And so does handing out the end of one. |
| `FreeRing.InsertKeeps` | MIT6.S081/Lab/Lab1/user/umalloc.c:25-44 | Inserting with both merges keeps the ring circular, in address order and without touching blocks, and frees exactly the block's units. |
| `FreeRing.UnlinkKeeps` | MIT6.S081/Lab/Lab1/user/umalloc.c:75-77 | Unlinking keeps the ring and takes exactly the block's units. |
| `FreeRing.SplitKeeps` | MIT6.S081/Lab/Lab1/user/umalloc.c:78-82 | Splitting keeps the ring and takes exactly the end's units. |
| `ShellPrint.RoundTrip` | MIT6.S081/Lab/Lab1/user/sh.c:266-446 | For every command of whole words, at most nine to an EXEC, and the three redirections, parsing its canonical parenthesised text gives that command, every string pointer reading as the word it stands for. |
| `ShellPrint.CanonicalMeansTheSame` | MIT6.S081/Lab/Lab1/user/sh.c:266-446 | Every line the parser accepts is such a command, and its canonical text parses to the same command. |
| `ShellPrint.LineParses` | MIT6.S081/Lab/Lab1/user/sh.c:345-446 | The round trip inside any enclosing block: parseline stops exactly where the text does. |
| `ShellPrint.WordsParse` | MIT6.S081/Lab/Lab1/user/sh.c:416-446 | Printed arguments are read back, and nothing else. |
| `ShellPrint.RedirParses` | MIT6.S081/Lab/Lab1/user/sh.c:375-397 | A printed redirection is read back with its kind and file. |
| `ShellPrint.BlockParses` | MIT6.S081/Lab/Lab1/user/sh.c:400-413 | A parenthesised command is read back with the redirections after it. |
| `ShellPrint.AfterWord` | MIT6.S081/Lab/Lab1/user/sh.c:266-308 | A word is read whole. |
| `ShellGrammar.Takes` | MIT6.S081/Lab/Lab1/user/sh.c:328-446 | Every text whose tokens are a line of the grammar, however spaced, is accepted and gives the command the grammar says; precedence and nesting are in the shape of the grammar. |
| `ShellGrammar.LineTakes` | MIT6.S081/Lab/Lab1/user/sh.c:344-360 | parseline reads a line of the grammar and stops at its end. |
| `ShellGrammar.PipeTakes` | MIT6.S081/Lab/Lab1/user/sh.c:362-372 | parsepipe reads a pipeline of execs and stops at the first thing that is not part of it. |
| `ShellGrammar.ExecTakes` | MIT6.S081/Lab/Lab1/user/sh.c:374-446 | parseexec reads a simple command with its redirections, in any order, or a parenthesised line. |
| `ShellExact.AcceptsExactly` | MIT6.S081/Lab/Lab1/user/sh.c:328-446 | A text is accepted if and only if its tokens are a line of the grammar with at most nine arguments to a command. |
| `ShellExact.LineOfMeans` | MIT6.S081/Lab/Lab1/user/sh.c:344-446 | Written with parentheses only where the grammar needs them, every command means itself. |
| `ShellExact.PlainRoundTrip` | MIT6.S081/Lab/Lab1/user/sh.c:328-446 | The round trip without needless parentheses, for every spacing. |
| `ShellExact.PlainTextRoundTrip` | MIT6.S081/Lab/Lab1/user/sh.c:328-446 | Every command can be written so, and its text is read back as the command. |
| `ShellExact.Precedence` | MIT6.S081/Lab/Lab1/user/sh.c:344-372 | Three words with bars and semicolons between them in the four ways: a bar binds tighter than a semicolon, and both nest to the right. |
| `ShellExact.Characters` | MIT6.S081/Lab/Lab1/user/sh.c:262-308 | Which characters separate words, which are tokens of their own, and that any other is part of a word. |
| `ShellTokens.ParsedIsSound` | MIT6.S081/Lab/Lab1/user/sh.c:266-446 | Whatever text parses, each of its strings is a whole token of it, and every argv has room for its closing null. |
| `ShellTokens.ReadsAsToken` | MIT6.S081/Lab/Lab1/user/sh.c:450-493 | With a NUL at the end of every string, each pointer reads as exactly its token: no NUL lands inside another token. |
| `ShellTokens.TokenSound` | MIT6.S081/Lab/Lab1/user/sh.c:266-308 | A word token is maximal: word characters up to the end or another kind of character. |
| `ShellCode.Parser.PeekFor` | MIT6.S081/Lab/Lab1/user/sh.c:311-320 | Skips white space and tests the next character. |
| `ShellCode.Parser.NextToken` | MIT6.S081/Lab/Lab1/user/sh.c:266-308 | The loops compute kind, bounds and rest of the next token. |
| `ShellCode.Parser.ReadRedirs` | MIT6.S081/Lab/Lab1/user/sh.c:375-397 | The loop collects exactly the redirections in front, or panics exactly when a file name is missing. |
| `ShellCode.Parser.ReadArgs` | MIT6.S081/Lab/Lab1/user/sh.c:426-445 | The loop collects arguments and the redirections between them, panics exactly on a symbol or at the tenth argument. |
| `ShellCode.Parser.ReadExec` | MIT6.S081/Lab/Lab1/user/sh.c:416-446 | parseexec is its specification on the text that is left. |
| `ShellCode.Parser.ReadBlock` | MIT6.S081/Lab/Lab1/user/sh.c:400-413 | parseblock is. |
| `ShellCode.Parser.ReadPipe` | MIT6.S081/Lab/Lab1/user/sh.c:362-372 | parsepipe is. |
| `ShellCode.Parser.ReadLine` | MIT6.S081/Lab/Lab1/user/sh.c:345-359 | parseline is, with its loop over &. |
| `ShellCode.Parser.Nulterminate` | MIT6.S081/Lab/Lab1/user/sh.c:450-493 | Exactly the characters at the ends of the command's strings become NUL. |
| `ShellCode.Parser.TerminateArgs` | MIT6.S081/Lab/Lab1/user/sh.c:465-467 | The loop over argv does this for the arguments. |
| `ShellCode.Parser.ReadCommand` | MIT6.S081/Lab/Lab1/user/sh.c:328-342 | parsecmd: the command of the line or a panic, and afterwards every string pointer reads in the buffer as exactly its token. |
| `Regex.Match` | MIT6.S081/Lab/Lab1/user/grep.c:71-80 | True exactly when some position of the text (only the first, after ^) has a prefix in the language of the pattern. |
| `Regex.MatchHere` | MIT6.S081/Lab/Lab1/user/grep.c:83-94 | True exactly when a prefix of the text is in the language of the pattern's items, the whole text if the last is $; terminates. |
| `Regex.MatchStar` | MIT6.S081/Lab/Lab1/user/grep.c:97-104 | True exactly when the starred character covers some prefix and the rest matches after it; terminates. |
| `Regex.BeginsStar` | MIT6.S081/Lab/Lab1/user/grep.c:97-104 | How a starred item unfolds in the language. |
| `Regex.BeginsOne` | MIT6.S081/Lab/Lab1/user/grep.c:91-93 | How a single character or dot unfolds. |
| `Regex.BeginsEnd` | MIT6.S081/Lab/Lab1/user/grep.c:89-90 | A final $ matches exactly at the end. |
| `Lru.SetsAreLru` | CSAPP/Lab/Lab5/csim.c:39-88 | Over any trace each set holds exactly the E most recently used of its tags, in order of recency. |
| `Lru.RecencyIsLru` | CSAPP/Lab/Lab5/csim.c:39-72 | That order lists every tag used, each once, by the time of its last use. |
| `Lru.TouchTake` | CSAPP/Lab/Lab5/csim.c:39-72 | Moving to the front and cutting to E lines keeps exactly what a longer list would keep in front. |
| `Lru.Conservation` | CSAPP/Lab/Lab5/csim.c:39-88 | Hits and misses add up to the accesses, and misses to evictions plus valid lines. |
| `Lru.MoreLinesMoreHits` | CSAPP/Lab/Lab5/csim.c:39-88 | With one more line per set, what a set holds extends what it held, and hits do not decrease. |
| `Lru.ModifyIsTwoAccesses` | CSAPP/Lab/Lab5/csim.c:82-87 | An M record counts and leaves the cache exactly as a load followed by a store. |
| `CacheReuse.SameLine` | CSAPP/Lab/Lab5/csim.c:74-88 | Two addresses have the same set and tag exactly if they lie in the same block. |
| `CacheReuse.HitsExactly` | CSAPP/Lab/Lab5/csim.c:39-72 | An access hits exactly when its block has been accessed before and fewer than E other blocks of its set since. |
| `CacheReuse.CountersExactly` | CSAPP/Lab/Lab5/csim.c:39-88 | Hits, misses and evictions of a whole trace, computed from the block numbers alone. |
| `CacheReuse.Place` | CSAPP/Lab/Lab5/csim.c:52-71 | A tag's place in the order of recency is the number of others used since. |
| `Csim.LineSet.Search` | CSAPP/Lab/Lab5/csim.c:42-50 | The first line with the tag, or -1 exactly when no valid line has it. |
| `Csim.LineSet.MoveToFront` | CSAPP/Lab/Lab5/csim.c:52-71 | The shift loop puts the line in front of those before it and leaves the others. |
| `Csim.Cache.AccessLine` | CSAPP/Lab/Lab5/csim.c:39-72 | Lines and counters change as true LRU with counters does. |
| `Csim.Cache.AccessMemory` | CSAPP/Lab/Lab5/csim.c:74-88 | Set index and tag are taken from the address, and an M record costs one access and one more hit. |
| `Csim.Cache.constructor` | CSAPP/Lab/Lab5/csim.c:90-164 | All lines are invalid and all counters zero. |

## Left out

- The device: a disk block is read or written in one atomic step; there is one disk device, and `virtio_disk.c` is not part of this model.
- Spinlock internals and interrupts: acquiring and releasing are atomic steps, and `noff`, `sched`'s own checks and interrupt nesting do not appear. Sleep locks are a flag per buffer, which does not say who holds it.
- The bodies of `Log`, `BufferCache`, `Fs`, `Vm`, `UserMemory`, `FreeTables` and `CopyUser` run for one caller at a time; interleaving is in `LogMachine`, `LogSleep`, `ProcTable`, `WaitExit` and `PipeMachine`.
- LogSafety.CrashSafety: the operations' own code is any sequence of calls of log_write within begin_op and end_op, each naming its block and contents.
- LogSafety.PanicsExactly: speaks of the steps of log.c and the buffers a commit reads; an operation's own bread before log_write can lack a buffer too, and `Log.Log.Update` says when.
- BufferCache.Cache.Bget: who waits for a locked buffer has its reference; getting the lock later is not modelled.
- BufferCache.Cache.Bread: likewise.
- BufferCache.Cache.Brelse: the caller holds the lock, and has written or logged what it changed before it gives up the last reference, as the interface comment of bio.c asks (bio.c:8-10).
- BufferCache.Cache.Bunpin: likewise for what was changed.
- Preemption inside proc.c, pipe.c and log.c: a process is preempted only while it holds no lock and is outside these functions, about to take their lock, or at the points of fork and commit where it holds none.
- Process identifiers, names and exit statuses: a process is its entry in the table, and wait's answer is which child it has freed, if any.
- The process table may have any size; the number of processors and their contexts do not appear, only which process the scheduler switches to.
- mkfs, the superblock and inode numbers: the volume's layout and the first marked bits are a precondition (`FsBlocks.Good`, which `FsBlocks.SmallVolume` meets). Inode types and link counts, directories and path names are not modelled.
- Fs.FileSystem.Readi: reads into kernel memory; copying to user memory, which can fail, is `CopyUser`.
- Fs.FileSystem.Writei: writes from kernel memory likewise.
- Fs.FileSystem.Balloc: works on blocks as the file system sees them through the log; that each change reaches `log_write` is not restated there.
- FsDisk.VolumeSurvives: that the volume is in good order whenever nobody is inside an operation is its hypothesis; `Fs` proves each function alone to keep it, not operations that interleave.
- Vm.Kernel.Kfree: the page is mapped by nobody and is no table, as its callers see to.
- Vm.Kernel.Mappages: the pages mapped are not mapped elsewhere already, so the kernel's own direct map, which `kvmmap` builds, is not modelled.
- UserMemory.Uvmcopy: the parent's mapped pages are leaves for the allocator's pages, as uvmalloc leaves them.
- FreeTables.Freewalk: valid entries of the lowest tables carry a permission bit; for one that carries none the code would walk a data page as a table.
- FreeTables.Uvmfree: likewise.
- CopyUser.Copyout: user-accessible pages are the allocator's (`CopyUser.UsersOwn`). copyinstr and uvminit are not modelled.
- CopyUser.Copyin: likewise.
- Malloc.Heap.Init: the heap is empty and memory is below 2^31 bytes; what stores through address -1 do is not modelled.
- Malloc.Heap.Malloc: sizes up to 2^32 - 16; beyond, the adjusted size wraps around.
- Malloc.Heap.Free: takes a live payload; NULL and stray pointers, which the code does not check, are excluded.
- Malloc.Heap.Realloc: likewise.
- Umalloc.Allocator.Free: takes a block that was handed out, which the code does not check.
- Umalloc.Allocator.Malloc: requests are below 0x7FFF0000 bytes, since sbrk takes an int; whether it grants, and where, are parameters.
- ShellCode.Parser.ReadCommand: command nodes are values, so malloc of nodes and filling argv in place do not appear; a panic is a None result. Running commands is not modelled.
- Lru.SetsAreLru: at least one line per set; trace parsing, options and printing in csim.c are not modelled.
- Regex.Match: the loop over files and buffers in grep.c is not modelled.
- The other labs in the repository: bit puzzles, the simpler allocator example and the failed heap attempt, bounded buffers, the proxy, the job-control shell, networking, timing and test drivers.
