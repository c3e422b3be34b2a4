# xv6 kernel core: a verified model

This project models the hard parts of an xv6 kernel for RISC-V that has five
scheduling policies, and proves properties of the model with Dafny 4.11. Check it
with `dafny verify dfyconfig.toml`.

The C code changes things in place, so most of the model is imperative: a class
for each C record with the methods of its source file, loops where the source
loops, and a contract that ties the new state to a function of the old one.
Beside each class stands a module of values that defines those functions and
proves what the source promises about them. Where processes, CPUs or a device
interleave, the model is a transition system, or a class whose methods are the
stretches that run under one lock, in any order.

| part | files |
|---|---|
| shared types and list facts | `Common`, `Blocks` |
| write-ahead log, crash recovery | `Wal`, `LogRun`, `LogBudget`, `Log` |
| commit among readers | `CommitTurns`, `CommitSteps`, `CommitCrowd` |
| buffer cache, and the log on top of it | `LruList`, `BufferCache`, `LogBuffers` |
| file blocks, bytes and transactions | `BlockMap`, `FileBytes`, `FileTxn`, `FileSys`, `FileCrash`, `FileGroup`, `FileBudget`, `FileWriters` |
| page tables and page pool | `Sv39`, `PageTree`, `PageMaps`, `PageCount`, `Vm` |
| user heap | `FreeList`, `Umalloc` |
| multilevel feedback queue | `Mlfq`, `MlfqQueues`, `MlfqRuns` |
| highest response ratio next | `Hrrn` |
| sleep and wakeup | `SleepWakeup` |
| virtio disk queue | `Virtqueue`, `VirtioDisk` |
| pipes | `Pipe` |
| grep | `Grep`, `GrepLaws` |

## Main results

* **Crash atomicity.** Cut `commit` off after any of its disk writes, then cut off
  any number of recoveries after any of theirs, and let one finish: all home blocks
  are new if the non-empty header had been written, all old otherwise. Over whole
  runs of `begin_op`, `log_write`, `end_op` and crashes, the log refines a
  transactional store, and only whole operations survive.
* **Commit among readers.** Take `commit` one buffer step at a time and let any
  number of other processes get, lock, read and release buffers between any two of
  its steps, under any schedule. Every step of one process leaves every other
  process its references, its locks and what is in the buffers it has locked. The
  commit still issues exactly the writes of an undisturbed one, in order; a crash at
  any moment leaves all home blocks new or all old; and a reader sees the contents
  being committed from the first step to the last. Left alone, the commit comes to
  its end unless a lock it needs is taken or there is no buffer.
* **Crash of a file write.** Run the transactions of `filewrite` through the log and
  crash it anywhere, any number of times: the recovered disk is exactly a state
  between two transactions. The file has a whole number of them, no fewer than were
  committed, and every other file is unchanged. Let several processes write
  different files at once, their transactions interleaved block by block and sharing
  commits: the recovered disk is exactly that of a moment at which no transaction
  was open, and every file has a whole number of its own writer's transactions, no
  fewer than were committed. However they interleave, no transaction logs more than
  its ten blocks and no file ever has a hole, so in a log of LOGSIZE + 1 blocks a
  `log_write` of theirs panics exactly if the log is full and lists the block.
* **Log reservation.** Under every interleaving the blocks in the log plus the
  unused budgets stay within LOGSIZE, and `begin_op` admits an operation if and only
  if no commit is due and the blocks logged since the last one fit beside a full
  reservation for each running operation and the new one. `log_write`'s own guard,
  at `log.size - 1`, keeps this promise if and only if the log area has LOGSIZE + 1
  blocks; `mkfs` makes it LOGSIZE, one short, so a run exists in which an operation
  within its budget panics. In a log of LOGSIZE + 1 blocks, a transaction of at most
  ten blocks has every new block admitted, and a listed one exactly if the log is
  not full.
* **Logged blocks stay cached.** `log_write` pins the buffer of a block it lists and
  only `install_trans` unpins it, so whatever other processes do, the buffer is not
  recycled in between and `bread` returns what was logged last. A commit whose pins
  are the only references finds its buffers if and only if it has fewer than NBUF
  blocks; NBUF equals LOGSIZE, so a full log cannot be committed, and the panic
  comes before the first write.
* **Block ownership.** After every operation, also on out-of-space paths, a bitmap
  bit is set exactly for metadata and for blocks that exactly one place of exactly
  one inode stores, and no file has a hole. `itrunc` frees exactly the inode's
  blocks, each while it is still marked. Every transaction of `filewrite` logs at
  most ten blocks.
* **Files are byte sequences.** `writei` and `filewrite` overwrite or extend the
  sequence and touch no other file; `readi` returns a slice of it, across the direct
  and indirect blocks. Where the source ends in unreadable memory, the bytes copied
  before the fault are in the file too, but not logged. `filewrite` stops short only
  if the disk is full, `writei` refuses what comes next, or the readable source ends
  in the next block.
* **Page tables are maps.** The three-level tree of encoded entries refines a map
  from pages to entries; `walk` leaves all maps alone, `mappages` and `uvmunmap`
  change exactly their range, a failed `uvmalloc` or `uvmcopy` restores every map,
  and `uvmfree` returns every page. `uvmalloc` and `uvmcopy` fail if and only if the
  free pages are fewer than the user pages asked for plus the tables that are
  missing on the way to them, and otherwise take exactly that many. From `kinit` on,
  every whole page between the kernel and PHYSTOP has exactly one role.
* **The K&R heap** stays circular, ordered and coalesced; live and free blocks are
  disjoint; units are conserved; an ordered coalesced list is determined by the
  units it covers.
* **The buffer cache is transparent.** The list holds every buffer once; no two
  buffers hold one block; a referenced buffer is never recycled; a buffer neither
  locked nor pinned is as on disk; `bread` returns the latest contents; the victim
  is the unreferenced buffer moved to the front longest ago. That is the one
  released longest ago as long as `bunpin` never drops a last reference, and
  `Bunpin` states that exactly this breaks it.
* **MLFQ.** In every run no level holds a process twice, so "queue full" cannot
  happen. Under this policy a process is runnable if and only if it is queued, once,
  at its own level; the dispatcher serves the head of the lowest non-empty level;
  level and slice are functions of the ticks used. A tick takes the CPU away exactly
  when the total of ticks ends a slice, so no process is charged more than its slice
  before it is dispatched again, and of two processes at one level the one that was
  queued first runs first. One event breaks the equivalence: `kill` makes a sleeper
  runnable without queueing it, and that process then never runs, however long the
  run, while the queues do not drain.
* **No lost wakeup, and no other one**, over every interleaving of the steps of
  `sleep`, `wakeup`, `kill` and the scheduler: who was in `sleep(chan, lk)` when the
  waker took `lk` no longer sleeps in that call when `wakeup(chan)` returns, and who
  has left a call it slept in was woken by a wakeup of that channel or a kill. Who
  holds a process lock never waits, and every call ends after a bounded number of
  its own steps.
* **Virtqueue.** With a device that completes requests in any order: disjoint
  descriptor triples, no panic in `free_desc`, no ring slot overwritten across
  16-bit wrap-around, and `virtio_disk_rw` returns only after the device has carried
  out its own request as asked, with what it read or wrote in the buffer.
* **Pipes** are first-in first-out with at most PIPESIZE bytes outstanding, also
  after the 32-bit counts wrap. A failed copy-out loses the one byte it consumed,
  and exactly then is a byte lost.
* **grep** matches exactly the language its pattern denotes: a plain pattern is
  found wherever it occurs in the text, or at the start, at the end, or as the whole
  text with `^` and `$`. It prints exactly the matching lines, and its output does
  not depend on how `read` cuts up the input, or where it fails. It stops at the
  first line that has 1023 or more characters or a NUL.
* **HRRN.** The timer may tick between one table entry and the next, so a process
  has its ratio at the tick at which the scan reads it. For every two processes, the
  32-bit test orders them by their exact ratios if and only if their cross products
  lose equally many multiples of 2^32 or the one that loses more is still the
  larger. The scan picks the first runnable process of the highest ratio if and only
  if this holds of the products that process is compared by. With exactly one
  product beyond 2^31 it picks the wrong one of two.

## Model

| member | source | states |
|---|---|---|
| `Wal.PutHead` | kernel/log.c:102-114 | a written header reads back as the list it was given |
| `Wal.CommitWrites` | kernel/log.c:193-203 | an empty transaction writes nothing, one of n blocks writes 2n + 2 blocks |
| `Wal.ApplyDistinct` | kernel/log.c:68-83 | writes to distinct blocks each take effect and touch nothing else |
| `Wal.CutKeepsRedone` | kernel/log.c:116-123 | recovery is idempotent: completing the recovery of a cut recovery completes the first one |
| `Wal.RebootIsRedone` | kernel/log.c:116-123 | any number of cut recoveries and one complete one install what the header named and clear it |
| `Wal.CrashBeforeHeader` | kernel/log.c:178-203 | a crash before the header write leaves every home block old |
| `Wal.CrashAfterHeader` | kernel/log.c:193-203 | a crash after it, then any crashes during recovery, leaves every home block new |
| `Wal.CrashAtomicity` | kernel/log.c:193-203 | all home blocks new exactly when the non-empty header was written, all old otherwise, after any crashes |
| `LogRun.CrashAnywhere` | kernel/log.c:193-203 | a crash may come at any moment, and within a commit after any of its writes |
| `LogRun.CommitInstalls` | kernel/log.c:193-203 | an undisturbed commit puts every listed block home and leaves a clean log |
| `LogRun.StepRefines` | kernel/log.c:126-235 | every step, crashes included, is a step of the transactional store |
| `LogRun.ExecRefines` | kernel/log.c:126-235 | every run of the log refines the store on the same events |
| `LogRun.StoreRun` | kernel/log.c:146-175 | the store's value is the replay of the run's writes, and it closes only with no operation open |
| `LogRun.CrashKeepsWholeOps` | kernel/log.c:146-175 | after a crash the disk holds exactly the writes of a prefix in which every operation begun has ended |
| `LogRun.StepInv` | kernel/log.c:126-235 | every step keeps the listed blocks distinct, at home, pinned and within the log |
| `LogBudget.RunReserved` | kernel/log.c:126-142 | under every interleaving, blocks listed plus unused budgets stay within LOGSIZE |
| `LogBudget.BeginAdmittedExactly` | kernel/log.c:126-142 | after every run, crashes included, an operation is admitted if and only if no commit is due and the blocks logged since the last one plus a full reservation for each running operation and the new one fit LOGSIZE |
| `LogBudget.AppendsAdmittedExactly` | mkfs/mkfs.c:25 | every operation within its budget is admitted in every reachable state if and only if the log area has LOGSIZE + 1 blocks |
| `LogBudget.FullLogRefusesAbsorption` | kernel/log.c:214-222 | in a full log even rewriting an already listed block is refused |
| `LogBudget.TransactionAdmitted` | kernel/log.c:206-235 | in a log of LOGSIZE + 1 blocks, a transaction of at most ten different blocks has every new block admitted, and a listed one exactly if the log is not full |
| `LogBuffers.FullNeeds` | kernel/bio.c:76-88 | all buffers in use takes at least NBUF references |
| `LogBuffers.Device.constructor` | kernel/log.c:54-65 | a device without logged blocks |
| `LogBuffers.Device.LoggedStays` | kernel/log.c:205-235 | the buffer of a logged block is referenced, holds that block alone, and has its latest contents |
| `LogBuffers.Device.ReadsLatest` | kernel/bio.c:92-103 | for every block no one has locked, the cache's latest contents are the last logged ones, or else the disk's |
| `LogBuffers.Device.FullExactly` | kernel/bio.c:58-88 | with the log's pins the only references, bget finds a buffer for a block not in the log if and only if fewer than NBUF blocks are logged |
| `LogBuffers.Device.Get` | kernel/bio.c:58-88 | bget by any process leaves every logged block pinned and in place |
| `LogBuffers.Device.Lock` | kernel/bio.c:92-103 | so does locking, and the locked buffer holds the block as the log accounts for it |
| `LogBuffers.Device.Edit` | kernel/bio.c:1-14 | so does a change under the lock |
| `LogBuffers.Device.Record` | kernel/log.c:224-233 | log_write makes the changed buffer the block's logged contents and pins it exactly if it was not listed |
| `LogBuffers.Device.Unlock` | kernel/bio.c:119-122 | releasing the lock of a buffer whose change was logged keeps what the log accounts for |
| `LogBuffers.Device.Drop` | kernel/bio.c:124-136 | so does dropping the reference |
| `LogBuffers.Device.Write` | kernel/bio.c:106-112 | bwrite changes exactly the block on the device |
| `LogBuffers.Device.Unpin` | kernel/log.c:77-79 | bunpin takes exactly the block's own pin, and every other pin stays |
| `Log.LogDevice.constructor` | kernel/log.c:54-65 | recovers the disk and leaves the log valid and empty |
| `Log.LogDevice.CopyOut` | kernel/log.c:183-190 | the logged buffer goes to its slot, and every reference taken is returned; panics exactly if bget finds no buffer |
| `Log.LogDevice.WriteLog` | kernel/log.c:178-191 | writes exactly the listed buffers to their slots, in order |
| `Log.LogDevice.WriteHead` | kernel/log.c:102-114 | writes exactly the header |
| `Log.LogDevice.ReadHead` | kernel/log.c:86-97 | the list becomes the one on disk |
| `Log.LogDevice.InstallOne` | kernel/log.c:73-82 | the slot goes home and, unless recovering, exactly that block's pin goes |
| `Log.LogDevice.InstallTrans` | kernel/log.c:68-83 | writes each slot home, and unpins exactly the listed buffers unless recovering |
| `Log.LogDevice.RecoverFromLog` | kernel/log.c:116-123 | is the uncut recovery, and leaves the log valid |
| `Log.LogDevice.Commit` | kernel/log.c:193-203 | issues exactly the commit's writes and empties the list; with no other reference it succeeds if and only if fewer than NBUF blocks are listed, and otherwise writes nothing |
| `Log.LogDevice.BeginOp` | kernel/log.c:126-142 | admits exactly if no commit is in progress and lh.n + (outstanding + 1) * MAXOPBLOCKS is within LOGSIZE, which is when the step is enabled; otherwise changes nothing |
| `Log.LogDevice.LogWrite` | kernel/log.c:214-235 | refuses exactly on the guard, otherwise is the step on the locked buffer's contents: absorb, or append and pin |
| `Log.LogDevice.EndOp` | kernel/log.c:146-175 | ends the operation, and the last one out commits exactly the listed blocks |
| `CommitTurns.WriteAt` | kernel/log.c:193-203 | which block the k-th write of a commit goes to, and what it carries |
| `CommitTurns.Plan.Carries` | kernel/log.c:68-203 | the k-th turn writes what bread returns for its source then, or the header with the list in it |
| `CommitTurns.Plan.ReaderSees` | kernel/bio.c:92-103 | at every stage bread of a home block returns what it returned when the commit began |
| `CommitSteps.Committer.constructor` | kernel/log.c:193-203 | a commit that has issued nothing, whatever other processes hold |
| `CommitSteps.Committer.Get` | kernel/bio.c:58-88 | panics exactly if bget finds no buffer; otherwise the committer has its reference, and other processes keep theirs |
| `CommitSteps.Committer.Lock` | kernel/bio.c:92-103 | waits exactly if someone holds the lock; otherwise the committer has the block as the log accounts for it, and other processes keep their references and locks |
| `CommitSteps.Committer.Copy` | kernel/log.c:183-188 | issues exactly the next write of the commit, into no buffer another process has locked |
| `CommitSteps.Committer.Release` | kernel/log.c:78-79 | unpins exactly the block just installed, and takes no reference of another process |
| `CommitSteps.Committer.Unlock` | kernel/bio.c:117-122 | gives up that lock, and every other process keeps its references, locks and contents |
| `CommitSteps.Committer.Drop` | kernel/bio.c:124-136 | gives up that reference, which is gone, and no other process's, and after the destination's begins the next turn |
| `CommitSteps.Committer.Step` | kernel/log.c:178-203 | every step keeps the invariant and other processes' references, locks and contents, and panics or waits exactly when bget or acquiresleep does |
| `CommitSteps.Committer.ReaderGet` | kernel/bio.c:58-88 | a reader's bget at any moment of a commit keeps the invariant and every other reference and lock, the committer's and other readers' alike |
| `CommitSteps.Committer.ReaderLock` | kernel/bio.c:92-103 | a reader that gets a lock at any moment sees what is being committed; all other references and locks stay, with what is in the buffers |
| `CommitSteps.Committer.ReaderUnlock` | kernel/bio.c:117-122 | its release keeps the invariant, its own reference, and all other references and locks |
| `CommitSteps.Committer.ReaderDrop` | kernel/bio.c:124-136 | its reference is gone, and all other references and locks stay |
| `CommitSteps.Committer.Done` | kernel/log.c:193-203 | after any interleaving, the writes issued are exactly the commit's, and the outcome is the commit step of the log |
| `CommitSteps.Committer.Crash` | kernel/log.c:116-203 | a crash at any moment, and any cut-off recoveries, leave every home block new if the header was written and every one old otherwise |
| `CommitSteps.Committer.Prefix` | kernel/log.c:193-203 | at every moment the writes issued are a prefix of the commit's, and all of them once it is done |
| `CommitCrowd.Crowd.constructor` | kernel/log.c:193-203 | a commit with no reader yet |
| `CommitCrowd.Crowd.Admit` | kernel/bio.c:58-88 | a reader that had its reference before the commit began joins the run |
| `CommitCrowd.Crowd.Advance` | kernel/log.c:178-203 | a step of the commit, which waits or panics exactly when acquiresleep or bget does; every reader stands where it was, and one with a lock still has what is being committed |
| `CommitCrowd.Crowd.Enter` | kernel/bio.c:58-88 | a new reader gets a reference of its own, exactly if there is a buffer; every other process keeps its own |
| `CommitCrowd.Crowd.Proceed` | kernel/bio.c:92-136 | a reader's next step waits exactly if it needs a lock that is taken; every other reader stands where it was |
| `CommitCrowd.Crowd.Play` | kernel/bio.c:58-136 | a move takes exactly its own process one step on, waits exactly for a taken lock, and panics exactly if bget finds no buffer |
| `CommitCrowd.Crowd.Run` | kernel/log.c:193-203 | under every schedule of any number of readers, every process is where its own moves have taken it, the writes issued are a prefix of the commit's, all of them and in order once it is done, and every reader with a lock has what is being committed |
| `CommitCrowd.Crowd.Finish` | kernel/log.c:193-203 | left alone, the commit issues the rest of its writes, unless the lock it needs is taken or bget finds no buffer |
| `BufferCache.Cache.constructor` | kernel/bio.c:36-53 | every buffer on the list once, nothing cached |
| `BufferCache.Cache.FindCached` | kernel/bio.c:66-73 | finds a buffer of the block if there is one |
| `BufferCache.Cache.FindVictim` | kernel/bio.c:76-87 | finds the unreferenced buffer moved to the front longest ago, if any is unreferenced |
| `BufferCache.Cache.Bget` | kernel/bio.c:58-89 | panics exactly if the block is uncached and all buffers are in use; recycles only an unreferenced, least recent buffer; loses no contents |
| `BufferCache.Cache.Bread` | kernel/bio.c:92-103 | the buffer holds the block asked for and its latest contents, whatever ran since bget |
| `BufferCache.Cache.Modify` | kernel/bio.c:1-14 | changing a locked buffer changes the latest contents of its block and of no other |
| `BufferCache.Cache.Bwrite` | kernel/bio.c:106-112 | panics exactly without the lock; updates the disk and leaves the latest contents alone |
| `BufferCache.Cache.MoveFront` | kernel/bio.c:128-133 | b goes first and the rest keep their order |
| `BufferCache.Cache.Unlock` | kernel/bio.c:117-122 | panics exactly without the lock, otherwise gives up that lock alone |
| `BufferCache.Cache.Drop` | kernel/bio.c:124-136 | drops that reference; the last one moves the buffer to the front |
| `BufferCache.Cache.Brelse` | kernel/bio.c:116-137 | the two in a row |
| `BufferCache.Cache.Bpin` | kernel/bio.c:139-144 | one more reference, a pin, which keeps the block cached |
| `BufferCache.Cache.Bunpin` | kernel/bio.c:146-151 | exactly that pin goes; release order survives exactly if it was not the last reference |
| `BufferCache.Cache.PinnedStays` | kernel/bio.c:139-144 | a pinned block is in one buffer, in use, with its latest contents |
| `BufferCache.Cache.IdleReads` | kernel/bio.c:58-103 | a block neither locked nor pinned reads as on disk |
| `BufferCache.MoveToFront` | kernel/bio.c:126-134 | the six stores keep the list circular with every buffer once |
| `BufferCache.RecycleKeeps` | kernel/bio.c:76-84 | recycling a buffer neither locked nor pinned keeps blocks unique and contents latest |
| `LruList.Unlink` | kernel/bio.c:128-129 | two stores take a node out of the circle |
| `LruList.PushFront` | kernel/bio.c:47-51 | four stores put a node behind the header |
| `BlockMap.ExactOwnership` | kernel/fs.c:65-105 | a data block's bit is set if and only if exactly one place of exactly one inode stores it |
| `BlockMap.AllocKeeps` | kernel/fs.c:65-88 | marking and zeroing a free block keeps the invariant and every file's bytes |
| `BlockMap.SetAddrKeeps` | kernel/fs.c:382-398 | storing a fresh block in an empty entry keeps the invariant and every file's bytes |
| `BlockMap.PutWordKeeps` | kernel/fs.c:400-417 | so does storing it in the indirect block |
| `FileSys.FileSystem.constructor` | mkfs/mkfs.c:237-250 | a new disk: exactly the metadata blocks marked in use, no file has a block |
| `FileSys.FileSystem.FindFree` | kernel/fs.c:70-84 | finds the lowest clear bit, or all are set |
| `FileSys.FileSystem.Balloc` | kernel/fs.c:65-88 | allocates the lowest free block, zeroed; 0 exactly when the disk is full; no file changes |
| `FileSys.FileSystem.Bmap` | kernel/fs.c:382-421 | the block of the place, filled if need be; every other place keeps its block, no byte changes, logged blocks are bounded |
| `FileSys.FileSystem.FillAddr` | kernel/fs.c:388-406 | fills an empty direct or indirect entry and nothing else |
| `FileSys.FileSystem.FillListed` | kernel/fs.c:407-417 | fills an empty entry of the indirect block and nothing else |
| `FileSys.FileSystem.Bfree` | kernel/fs.c:90-105 | panics exactly on a free block, otherwise clears its bit alone |
| `FileSys.FileSystem.Itrunc` | kernel/fs.c:423-453 | frees exactly the inode's blocks without a panic, leaves other files and blocks alone, and logs every block it changes and the inode |
| `FileSys.FileSystem.WriteOne` | kernel/fs.c:516-528 | one block's worth copied, logged only if the copy was whole, or no block to be had |
| `FileSys.FileSystem.WriteLoop` | kernel/fs.c:516-528 | the first tot bytes are in the file; stops early only when full or past the source, of which the rest is then copied and not logged |
| `FileSys.FileSystem.Writei` | kernel/fs.c:505-539 | -1 exactly for a refused range; otherwise the file is the old one overwritten or extended, grown by the r bytes returned, every other file is unchanged, no file has a hole, and at most ten blocks are logged for a chunk of three |
| `FileSys.FileSystem.Settle` | kernel/fs.c:530-536 | the size grows exactly if the write ended past it, the inode block is logged, and no byte of any file changes |
| `FileSys.FileSystem.Readi` | kernel/fs.c:471-496 | exactly the bytes off up to min(off + n, size) |
| `FileSys.FileSystem.FileWrite` | kernel/file.c:134-181 | all or the first `done` bytes written in transactions of three blocks of bytes and at most MAXOPBLOCKS logged blocks, offset advanced past them, every other file unchanged; fewer than asked only if the disk is full, writei refuses what comes next or the source ends in the next block; in each state between transactions the file has a prefix of them |
| `FileSys.FileSystem.OneTxn` | kernel/file.c:162-167 | a transaction whose source is readable changes exactly the blocks it logs, to what it logged last, and no other inode |
| `FileTxn.NotedPut` | kernel/fs.c:516-528 | a store keeps what is known of the blocks since the transaction began, whether it is logged or not |
| `FileTxn.HistoryNext` | kernel/file.c:155-174 | one more transaction extends the states of a filewrite |
| `FileCrash.StoresLead` | kernel/log.c:205-235 | on disk, the logged blocks are the whole difference between the states before and after a transaction |
| `FileCrash.PartExists` | kernel/log.c:205-235 | every transaction can be performed by one operation with one log_write for each block |
| `FileCrash.Boundary` | kernel/file.c:155-174 | wherever no operation is open, the writes so far make a state between transactions, none before the last one completed |
| `FileCrash.CrashKeepsWholeWrites` | kernel/file.c:134-181 | after a crash anywhere in a filewrite the disk is a state between two transactions, with no fewer than were committed; the file has that prefix of the source, every other file is unchanged |
| `FileGroup.FilesStep` | kernel/fs.c:505-539 | a step on one job's file keeps what every other job has written and every file no job writes |
| `FileGroup.PointWrites` | kernel/log.c:205-235 | log_writes inside an open transaction leave every earlier moment without an open transaction as it was |
| `FileGroup.GroupStep` | kernel/file.c:155-174 | a step of one job keeps files, inodes on disk, open transactions and past moments of all jobs in order |
| `FileGroup.JobShows` | kernel/file.c:155-174 | as a byte sequence, a job's file is the old one overwritten or extended by its whole transactions |
| `FileGroup.CrashAtMark` | kernel/log.c:116-203 | after a crash anywhere the disk is that of a moment at which no transaction was open, none before the last commit |
| `FileBudget.TabTen` | kernel/file.c:149-155 | what the tab of a transaction holds is at most MAXOPBLOCKS blocks |
| `FileBudget.TabTurn` | kernel/fs.c:516-528 | a turn of the transaction's own loop adds to its tab one data block, and a bitmap block only for a place it filled |
| `FileBudget.TabAside` | kernel/fs.c:516-528 | a step on any other file leaves the tab right |
| `FileBudget.EventsWrites` | kernel/log.c:205-235 | log_writes within the tab keep every log_write of the run within its operation's reservation |
| `FileBudget.BookTurn` | kernel/fs.c:516-528 | one turn keeps all tabs right, all log_writes within reservations and every file without a hole |
| `FileBudget.BookEnd` | kernel/fs.c:530-536 | so do the size, the inode and the end of the transaction |
| `FileBudget.Admits` | kernel/log.c:214-222 | in a log of LOGSIZE + 1 blocks such a log_write panics exactly if the log is full and lists the block |
| `FileWriters.Writers.constructor` | kernel/file.c:155-156 | several filewrites to different inodes, none begun |
| `FileWriters.RefusedExactly` | kernel/fs.c:511-514 | a transaction is refused exactly as writei refuses a lone write of its bytes; one that begins where the file ends, exactly if the file would outgrow MAXFILE blocks |
| `FileWriters.Writers.Begin` | kernel/file.c:157-164 | opens a transaction of at most three blocks of bytes for a range writei does not refuse |
| `FileWriters.Writers.Turn` | kernel/fs.c:516-528 | one turn of writei's loop advances that job alone; it fails exactly if the place has no block, and then the disk is full |
| `FileWriters.Writers.Write` | kernel/fs.c:516-528 | with it, log_writes by that operation that leave in the log exactly what the turn changed; other jobs' files, open transactions and logged blocks stay |
| `FileWriters.Writers.End` | kernel/fs.c:530-538 | the size and the inode are logged, the transaction ends, and the job goes on exactly if all its bytes were written |
| `FileWriters.Writers.Refuse` | kernel/fs.c:511-514 | a refused range is a transaction that logs nothing and ends the job |
| `FileWriters.Writers.NoHoles` | kernel/fs.c:505-539 | in every run of interleaved filewrites no file has a hole |
| `FileWriters.Writers.Admitted` | kernel/log.c:214-222 | in every such run, with a log of LOGSIZE + 1 blocks, a log_write panics exactly if the log is full and lists the block |
| `FileWriters.Writers.Crash` | kernel/file.c:134-181 | in every run of interleaved filewrites, after a crash anywhere and any cut recoveries the disk is exactly that of a moment with no transaction open: each file has a whole number of its job's transactions, no fewer than were committed, and every other file is unchanged |
| `FileBytes.WroteContents` | kernel/fs.c:505-539 | as a byte sequence, the file is the old one overwritten or extended, as far as its size goes |
| `FileBytes.OthersKeep` | kernel/fs.c:505-539 | other files' byte sequences are unchanged |
| `FileBytes.TenBlocks` | kernel/file.c:155-174 | data, bitmap, indirect and inode blocks of one chunk are at most ten |
| `FileBytes.WriteLeavesNoHoles` | kernel/fs.c:505-539 | a write that starts within its file leaves no file with a hole |
| `FileBytes.SizeBound` | kernel/fs.c:382-421 | a file without holes fits the block map |
| `FileBytes.TruncKeeps` | kernel/fs.c:423-453 | freeing all places passed leaves the invariant for the other inodes |
| `Sv39.EntryDecodes` | kernel/riscv.h:360-372 | an entry stored as a word reads back the same but for the offset of its address within the page |
| `Sv39.WordEncodes` | kernel/riscv.h:360-372 | a word survives decoding as an entry |
| `Sv39.FlagBits` | kernel/riscv.h:360-372 | valid, the three permissions and user are bits 0 to 4 of the word, and the page number is what stands from bit 10 on |
| `Sv39.PXSplits` | kernel/riscv.h:374-377 | the shifts and masks of PX are the index triple of the page number |
| `Sv39.SplitNum` | kernel/riscv.h:374-377 | page numbers and index triples correspond one to one |
| `PageTree.PutAt` | kernel/vm.c:165 | storing an encoded entry changes that entry of that table alone |
| `PageTree.PutLookup` | kernel/vm.c:143-172 | a store into the entry of one page changes the map there and nowhere else, in this tree or another |
| `PageTree.HangLookup` | kernel/vm.c:85-103 | adding a table page leaves every map unchanged |
| `PageTree.HangKeeps` | kernel/vm.c:85-103 | and keeps the tree a tree |
| `PageMaps.AddThenShed` | kernel/vm.c:232-256 | shedding what was added restores every map exactly |
| `PageMaps.FreedTree` | kernel/vm.c:276-304 | with one tree gone the other trees' maps are unchanged |
| `PageCount.ChildThere` | kernel/vm.c:85-103 | an entry of an upper table is valid if and only if the table it stands for exists |
| `PageCount.TookNext` | kernel/vm.c:138-172 | the pages taken for a run of user pages and one more are those of both, with shared tables counted once |
| `PageCount.NeedsFew` | kernel/vm.c:230-256 | three free pages for each user page are enough |
| `Vm.Memory.Kfree` | kernel/kalloc.c:42-63 | panics exactly on a misaligned or out-of-range page, otherwise pushes it |
| `Vm.Memory.Kalloc` | kernel/kalloc.c:65-82 | pops the head of the list; 0 exactly when it is empty |
| `Vm.Memory.constructor` | kernel/kalloc.c:26-31 | the pool is exactly the whole pages of the range, all free, and the memory is valid |
| `Vm.Memory.Freerange` | kernel/kalloc.c:33-40 | exactly the whole pages of the range join the pool and the free list |
| `Vm.Memory.Uvmcreate` | kernel/vm.c:201-212 | a root from the pool with an empty map, every other map unchanged; 0 exactly when the pool is empty |
| `Vm.Memory.Walk` | kernel/vm.c:85-103 | finds the entry's place; building tables changes no map; without alloc nothing changes; with it, takes exactly a page for each missing table, and fails exactly if there are fewer |
| `Vm.Memory.Mappages` | kernel/vm.c:138-172 | exactly the first `done` pages of the range are mapped, to the pages that hold pa, all of them on success; fails for want of memory only if the free pages are fewer than the missing tables; panics exactly on a misaligned or empty range, at MAXVA, and at a page already mapped |
| `Vm.Memory.Uvmunmap` | kernel/vm.c:174-199 | exactly the range is unmapped and, with do_free, exactly its pages return |
| `Vm.Memory.Uvmalloc` | kernel/vm.c:230-256 | new zeroed pages with the asked permissions, or every map as before; succeeds if and only if the free pages are enough for the new pages and the tables missing for them, and takes exactly those |
| `Vm.Memory.Uvmdealloc` | kernel/vm.c:258-274 | exactly the pages above the new size are given back |
| `Vm.Memory.Uvmcopy` | kernel/vm.c:306-340 | fresh pages with equal contents and flags, or a child with no pages and every map as before; succeeds if and only if the free pages are enough for the copies and their tables |
| `Vm.Memory.Freewalk` | kernel/vm.c:276-294 | exactly the table pages of the tree join the free list |
| `Vm.Memory.Uvmfree` | kernel/vm.c:296-304 | every page of the process returns and no other page is touched |
| `FreeList.Canonical` | user/umalloc.c:24-44 | an ordered coalesced list is determined by its head and the units it covers |
| `FreeList.ReleaseOrdered` | user/umalloc.c:24-44 | freeing into the right gap keeps the list ordered with no two blocks touching |
| `FreeList.ReleaseCovers` | user/umalloc.c:24-44 | and adds exactly the block's units |
| `FreeList.TakeOrdered` | user/umalloc.c:73-84 | cutting a block's tail keeps the list ordered |
| `FreeList.TakeCovers` | user/umalloc.c:73-84 | and removes exactly the cut units |
| `Umalloc.SbrkRequestExact` | user/umalloc.c:46-61 | the request to sbrk is the recorded size if and only if nbytes is at most 0x7FFFFFE0 |
| `Umalloc.StopsAt` | user/umalloc.c:30-32 | free's loop test holds at exactly one block of the circle |
| `Umalloc.FreeKeeps` | user/umalloc.c:33-43 | free's stores keep links, disjointness and units |
| `Umalloc.TakeKeeps` | user/umalloc.c:73-84 | malloc's stores keep links, disjointness and units |
| `Umalloc.Allocator.FindGap` | user/umalloc.c:30-32 | the search ends at the gap the block belongs in |
| `Umalloc.Allocator.Free` | user/umalloc.c:24-44 | exactly the block's units join the list, which is the released one |
| `Umalloc.Allocator.Morecore` | user/umalloc.c:46-61 | exactly the obtained units join the list, and then something fits |
| `Umalloc.Allocator.Malloc` | user/umalloc.c:63-90 | null exactly if nothing fits and sbrk fails; otherwise the tail of the first free block from freep on that is large enough, with freep at the block before it, disjoint from all live ones, units conserved; except exactly when sbrk succeeds with a truncated size |
| `Mlfq.QueueFits` | kernel/proc.c:284-288 | a queue without repetitions has room for a process taken out of it |
| `Mlfq.StepWellFormed` | kernel/proc.c:267-289 | every event keeps each level free of repetitions |
| `Mlfq.RunWellFormed` | kernel/proc.c:267-289 | so does every run, whatever the policy changes and kills, and each level fits its array |
| `Mlfq.DispatchHead` | kernel/proc.c:737-792 | the dispatcher runs the head of the lowest non-empty level, after refilling empty queues |
| `Mlfq.StepExact` | kernel/proc.c:737-792 | queue entries stay runnable processes at their own level; runnable-iff-queued survives an event if and only if it does not kill a sleeper |
| `Mlfq.RunExact` | kernel/proc.c:737-792 | over every undisturbed run, queued once at its own level exactly when runnable, and charged exactly |
| `Mlfq.StepAccounted` | kernel/trap.c:70-96 | level and slice stay the stated function of total ticks |
| `Mlfq.KillStrays` | kernel/proc.c:957-976 | killing a sleeper makes it runnable and not queued |
| `Mlfq.StrayStarves` | kernel/proc.c:759-785 | such a process is not run in any run in which the queues never drain |
| `Mlfq.DrainRescues` | kernel/proc.c:745-754 | once they drain, the next dispatch leaves no such process |
| `MlfqRuns.LifeCycle` | kernel/proc.c:849-976 | by exactly which events a process enters and leaves each state |
| `MlfqRuns.PolicySet` | kernel/sysproc.c:112-124 | exactly the five policies can be set, at any time |
| `MlfqRuns.TickYields` | kernel/trap.c:70-96 | a tick in user space takes the CPU away if and only if the policy is round robin, or this one and the total of ticks ends a slice; the process then is the last of its level, and otherwise runs on |
| `MlfqRuns.KernelTickYields` | kernel/trap.c:152-157 | a tick in the kernel does so under both policies, and charges no one |
| `MlfqRuns.SliceBound` | kernel/trap.c:77-96 | in every run no process is charged more ticks than its slice has left before it is dispatched again |
| `MlfqRuns.GoesLast` | kernel/proc.c:267-289 | a process that becomes runnable goes to the end of its level |
| `MlfqRuns.StartsFresh` | kernel/proc.c:403-418 | a new process starts at the end of the top level with no ticks |
| `MlfqRuns.QueueOrder` | kernel/proc.c:737-792 | in every run of this policy, of two processes at one level the one queued first is dispatched first |
| `MlfqRuns.RefillAscends` | kernel/proc.c:745-754 | a refill of empty queues is in the order of the table |
| `MlfqQueues.RemoveFirst` | kernel/proc.c:272-281 | removes the first occurrence in place |
| `MlfqQueues.Compact` | kernel/proc.c:596-604 | keeps exactly the non-null entries in order |
| `MlfqQueues.Scheduler.constructor` | kernel/proc.c:61-70 | empty queues, no processes |
| `MlfqQueues.Scheduler.Enqueue` | kernel/proc.c:267-289 | removal and append at the process's level, without the panic |
| `MlfqQueues.Scheduler.MakeRunnable` | kernel/proc.c:849-867 | runnable, and queued exactly under this policy |
| `MlfqQueues.Scheduler.UserTick` | kernel/trap.c:70-96 | is the tick event; the process gives up the CPU exactly under round robin or at the end of its slice, and otherwise runs on |
| `MlfqQueues.Scheduler.RefillAll` | kernel/proc.c:745-754 | queues every runnable process in table order |
| `MlfqQueues.Scheduler.FindRunnable` | kernel/proc.c:759-785 | the first runnable entry by level and position |
| `MlfqQueues.Scheduler.RunEntry` | kernel/proc.c:765-775 | takes that entry out of its level and runs it |
| `MlfqQueues.Scheduler.Dispatch` | kernel/proc.c:737-792 | is the dispatch event |
| `Hrrn.RatioOf` | kernel/proc.c:694-700 | a process that has never run has its waiting time plus one for a ratio, one that has run its waiting time in units of its last run, plus one |
| `Hrrn.NumProduct` | kernel/proc.c:697-705 | overflow in the sums makes no difference to the 32-bit products |
| `Hrrn.AgreesExactly` | kernel/proc.c:694-705 | for all inputs, the 32-bit test orders two processes, each read at its own tick, by their exact ratios if and only if both products wrap equally often or the one that wraps more is still the larger |
| `Hrrn.AgreesIfBothFit` | kernel/proc.c:697-705 | for products below 2^32: if and only if both fit an int or neither does |
| `Hrrn.Select` | kernel/proc.c:688-716 | the choice of the scan with exactly its lock held; none exactly if none is runnable; the first of the highest ratio, each at the tick at which it was read, if every two products wrap equally often |
| `Hrrn.SelectsBestExactly` | kernel/proc.c:688-716 | for every table and every tick at which each entry is read, the scan chooses the first process of the highest ratio if and only if its products keep their order with those it is compared with |
| `Hrrn.PairsFitSelectBest` | kernel/proc.c:688-716 | so it does if every two runnable processes' products wrap equally often |
| `Hrrn.TwoProcs` | kernel/proc.c:688-716 | of two runnable processes it chooses the best if and only if their products keep their order |
| `Hrrn.OverflowMisleads` | kernel/proc.c:701-705 | if only the product of the second and better of two processes does not fit, the scan chooses the first |
| `Hrrn.MisjudgedExample` | kernel/proc.c:701-705 | such a table, ratio 1 against 2^30 + 1 |
| `SleepWakeup.StepInv` | kernel/proc.c:901-952 | every step of every process keeps the lock and state invariant |
| `SleepWakeup.StaysOver` | kernel/proc.c:920-927 | a process told of a wakeup does not sleep again in the same call |
| `SleepWakeup.Tells` | kernel/proc.c:939-949 | holding the sleeper's lock, wakeup finds it asleep or past sleeping |
| `SleepWakeup.NoLostWakeup` | kernel/proc.c:901-952 | in every run, who was in sleep(chan, lk) when the waker took lk is not sleeping in that call when the waker's wakeup(chan) returns |
| `SleepWakeup.LeavesSleep` | kernel/proc.c:935-952 | a step makes a sleeping process runnable if and only if it is a kill of it or a wakeup of the channel of its call that holds its lock |
| `SleepWakeup.OthersKeepState` | kernel/proc.c:935-952 | no step changes another process's state in any other way |
| `SleepWakeup.WokenBy` | kernel/proc.c:901-952 | in every run, a process that no longer sleeps in a call it slept in was woken by a kill or by a wakeup of that call's channel |
| `SleepWakeup.LockPasses` | kernel/proc.c:901-932 | locks pass only by acquire and release, and by sleep, which gives lk up and has it again when it returns |
| `SleepWakeup.OnlyRunning` | kernel/proc.c:901-952 | only a running process takes steps of its own, but for the switches into and out of sleep |
| `SleepWakeup.FreeToAct` | kernel/proc.c:901-952 | a running process may take any free lock, give up or sleep with any lock it has, and call wakeup |
| `SleepWakeup.RunnableMoves` | kernel/proc.c:901-932 | a runnable process can be run, one parked in sleep once its lock is free, and then it runs |
| `SleepWakeup.HolderMoves` | kernel/proc.c:901-952 | in every reachable state the holder of a process lock can take its next step, so none waits for one for ever |
| `SleepWakeup.StepsCount` | kernel/proc.c:901-952 | every step of sleep or wakeup brings the call closer to its end |
| `SleepWakeup.CallSteps` | kernel/proc.c:901-952 | sleep takes ten steps of its own, wakeup at most three for each process and one more |
| `Virtqueue.ChainsDisjoint` | kernel/virtio_disk.c:199-213 | in-flight requests use disjoint descriptor triples, none of them free |
| `Virtqueue.RingHead` | kernel/virtio_disk.c:312-314 | the 16-bit index test sees whether anything is there, and the oldest entry is in its slot |
| `Virtqueue.RingPush` | kernel/virtio_disk.c:271-277 | a new entry overwrites no pending one |
| `Virtqueue.ResultsDone` | kernel/virtio_disk.c:252-260 | a completion puts its own result, and leaves those of other requests, in their buffers |
| `Virtqueue.AckAllIs` | kernel/virtio_disk.c:312-324 | an interrupt acknowledges exactly the completed requests |
| `VirtioDisk.Driver.AllocDesc` | kernel/virtio_disk.c:155-166 | the lowest free descriptor, or none is free |
| `VirtioDisk.Driver.FreeDesc` | kernel/virtio_disk.c:168-182 | panics exactly on a bad or free index, otherwise frees it blank |
| `VirtioDisk.Driver.Alloc3` | kernel/virtio_disk.c:199-213 | three distinct free descriptors, or, exactly if fewer are free, nothing changes |
| `VirtioDisk.Driver.FreeChain` | kernel/virtio_disk.c:184-197 | frees exactly the chain's three descriptors, without a panic |
| `VirtioDisk.Driver.Submit` | kernel/virtio_disk.c:215-281 | posts one request with its own descriptors, or leaves everything alone |
| `VirtioDisk.Driver.Take` | kernel/virtio_disk.c:271-281 | the device sees the posted heads in order, each once |
| `VirtioDisk.Driver.Complete` | kernel/virtio_disk.c:235-269 | following the descriptors, the device does what the driver asked, to the right buffer and sector |
| `VirtioDisk.Driver.Intr` | kernel/virtio_disk.c:294-327 | panics exactly on a failed request, otherwise acknowledges all completed ones |
| `VirtioDisk.Driver.Finish` | kernel/virtio_disk.c:283-292 | returns exactly if its own request was completed and acknowledged, with what the device read or wrote for it in the buffer, and frees exactly its descriptors |
| `Pipe.Tests` | kernel/pipe.c:88 | the full and empty tests are right on wrapped counts |
| `Pipe.Pipe.constructor` | kernel/pipe.c:33-37 | an empty open pipe |
| `Pipe.Pipe.Put` | kernel/pipe.c:95 | stores a byte without overwriting an outstanding one |
| `Pipe.Pipe.Get` | kernel/pipe.c:123 | takes the oldest outstanding byte |
| `Pipe.Pipe.Write` | kernel/pipe.c:76-103 | appends the source's next bytes in order; sleeps exactly if the ring fills up with bytes left to write; fails exactly if the reader is gone or the loop reaches the turn that sees a kill, with the bytes before it stored |
| `Pipe.Pipe.Read` | kernel/pipe.c:105-130 | delivers the next bytes in order; sleeps exactly if the ring is empty with a writer left and no kill; loses one byte exactly if more was asked for and there than fits the destination |
| `Pipe.Pipe.Close` | kernel/pipe.c:58-74 | closes one end; the pipe goes with the second |
| `Grep.MatchHere` | user/grep.c:84-96 | true exactly if a prefix of the text is in the pattern's language |
| `Grep.MatchStar` | user/grep.c:98-106 | true exactly if some run of the starred character leads to a match of the rest |
| `Grep.Match` | user/grep.c:72-82 | true exactly if the pattern matches at the start, or anywhere without a leading caret |
| `Grep.GrepFile` | user/grep.c:11-35 | for every input, prints exactly the matching complete lines up to the first that is too long or has a NUL, however read cuts the input |
| `Grep.PrintLines` | user/grep.c:21-33 | prints the matching lines of the buffer and leaves the rest |
| `GrepLaws.PlainMatches` | user/grep.c:72-96 | a pattern without special characters matches where it occurs, with ^ at the start, with $ at the end, with both the whole text |
| `GrepLaws.StarMatches` | user/grep.c:98-106 | c* stands for every run of c, also the empty one, and .* for every text |
| `GrepLaws.DotMatches` | user/grep.c:92-93 | a dot stands for any one character |
| `GrepLaws.PrintsHits` | user/grep.c:11-35 | of lines that fit, exactly the matching ones are printed, in order; nothing from a line that does not fit on |

## Left out

- Trap entry, context switch, boot code, interrupt controllers: register and CSR manipulation; `swtch` is a step boundary.
- Spinlock internals, fences and the memory model: a section under one lock is one atomic method or step. The scheduler reads the MLFQ queues and compacts them without `mlfq.lock`; the model takes each dispatch as one step, so races between CPUs there are not captured.
- Round robin, first come first served and priority scheduling: simple scans; they appear only as the event by which another policy dispatches.
- `waiting_time` and `ready_time`: not refreshed on all paths, so they have no clean meaning to state.
- UART, console, printf, procdump, virtio feature negotiation, system-call plumbing, ELF loading, user utilities other than grep and malloc, mkfs as a program.
- Directories, path names, link counts and inode allocation.
- Block and page contents are typed rather than bytes: log headers as 32-bit words, bitmap, indirect and data blocks of the file system as sequences of bits, block numbers and bytes, free pages as list links. The on-disk copy of an inode is one record with its in-memory copy.
- Fixed-size tables that the C code stores into element by element (buffers, descriptors, processes, block contents) are sequence or map fields that methods reassign; the arrays of the log header, the MLFQ levels and the pipe are arrays.
- Termination of the waits in `begin_op`, `bget`, `sleep`, `virtio_disk_rw`, `pipewrite` and `piperead`: each pass is one step, and the waits are the interleaving.
- Reference counts of buffers are not bounded by 2^32.
- FileSys.FileSystem.Writei: bytes copied before a fault in user space stay in the cached block; that they vanish if the buffer is recycled before a later write logs the block is not modelled.
- LogBuffers.Device.Unlock: asks that a change has been logged; the one caller that does not is `writei` after such a fault (kernel/fs.c:522-525).
- Log.LogDevice.EndOp: its commit runs undisturbed, as `Log.LogDevice.Commit` does.
- Log.LogDevice.Commit: runs with no other process between its steps and no buffer of the device locked; `CommitSteps.Committer` is the commit with readers between its steps.
- CommitSteps.Committer.Step: the other processes, any number of them, are readers of blocks outside the log on the same device; no operation is open during a commit, so none of them changes a block.
- FileCrash.CrashKeepsWholeWrites: the operations of one filewrite, up to the transaction in which its source ends in unreadable memory; `FileWriters.Writers.Crash` has several filewrites in the same commits.
- FileWriters.Writers.Write: one turn of writei's loop is one step, so steps of different processes do not interleave within a turn; sources are readable, and no two of the filewrites are to the same inode.
- BufferCache.Cache.Bpin: asks for a buffer that has been read, as `log_write`'s callers have.
- Vm.Memory.Mappages: asks for permissions within the ten flag bits with at least one of R, W and X, as every caller passes; an entry without them would be a table pointer.
- Umalloc.Allocator.Malloc: nothing is promised after sbrk has succeeded with a truncated size; memory from sbrk is taken to overlap nothing in use.
- BufferCache.Cache.Bread: latest contents are stated for real devices, numbered from 1; the buffers start out labelled device 0, several of them for the same block.
