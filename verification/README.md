# Verified models of the xv6 kernel and two of its user programs

The project models the parts of xv6 where a mistake is hard to see by reading: the crash-safe file system,
the process protocols, the rings shared with the disk and between processes, the user-level allocator, and
the shell's parser and grep's matcher.

**Log and file system** (kernel/log.c, kernel/fs.c, kernel/file.c, kernel/bio.c, kernel/sysfile.c).
`RedoLog` is the redo log as a list of disk images and proves crash atomicity for a crash after any write of
commit or of recovery.  `LogDevice` is the code that makes those writes.  `GroupCommit` is begin_op, end_op,
log_write, commit, crashes and recovery as one state machine over any number of processes, and `LogRoom` says how
large the log area has to be.  `InodeModel` and `FileSystem` are the bitmap, the inodes with their indirect block,
and reading, writing and truncating files; `WriteSet` is what a write logs, and `FullTransaction` a write that logs
as much as a transaction may.  `DiskImage` is how they lie in the blocks of the disk, `DurableDisk` what a crash
leaves of changes made on the log, and `CrashedWrite` what it leaves of a filewrite.
`BufferRing`, `BufferCache` and `BufferRuns` are the buffer cache: its linked list, its lookup, and what its
callers may rely on.  `Links` is the life of a file's link count.

**Processes** (kernel/proc.c, kernel/sleeplock.c).  `WaitExit` is fork, exit, reparent and wait;
`Scheduler` the hand-over of processes between CPUs; `SleepWakeup` sleep and wakeup around one channel, with
sleep locks and the log as clients.

**Rings** (kernel/virtio_disk.c, kernel/pipe.c).  `VirtioQueue`, `VirtioRuns` and `Virtio` are the disk
driver and the device it talks to, which follows section 2.6 of VIRTIO Version 1.1; `PipeModel`, `Pipe` and
`PipeRuns` are pipes.

**User programs** (user/umalloc.c, user/sh.c, user/grep.c).  `Umalloc` is malloc and free, `ShellSyntax`,
`ShellPrint` and `Shell` the command parser, `Grep` the matcher.  `Basics` holds counting, rings and wrap-around, and
`Param` the constants of kernel/param.h.

## How the models are made

- Code that changes memory in one place at a time is a class or a method with loops and invariants, proved
  against functions on values.  Concurrent code is a state machine: a step is what runs between two points at
  which another process, another CPU, the device or a crash can come in.  A state is reached by a history of
  enabled events from a boot state, and the main results quantify over every history.
- A panic is an outcome.  A result that says a panic is unreachable says so; the others stop the run.
- Widths are written out: the counters of a pipe and the offsets of a file wrap at 2^32, the ring indices at
  2^16, and nlink is kept below 2^15 by a guard on the step that counts a link.
- sbrk, the device, copyin and copyout, kills and the interleaving itself are parameters or events.

## Where the code does not do what it seems to promise

- exit wakes init before it hands its children over, and wakes the parent it read earlier.  So init can be
  asleep in wait with a zombie child (`WaitExit.InitCanMiss`); every other parent cannot.
  `WaitExit.InitStep` says exactly which steps do it, and without them init does not either.
- pipewrite returns -1 from a full pipe without waking the readers, even if it has put bytes in.  So a reader
  can be asleep on a full pipe (`PipeRuns.ReaderCanBeLeft`); `PipeRuns.ReaderStep` says exactly when.
- log_write tests the size of the log before it looks for a block to absorb, and without the lock.  A process
  that has used up its share can therefore be stopped at a write that would have needed no space
  (`GroupCommit.TooBigExactly`, `LogRoom.StoppedAtRepeat`).
- The header counts LOGSIZE blocks besides itself, but mkfs makes a log area of LOGSIZE blocks in all.  In an area
  of that size or less a process within its budget can be stopped (`LogRoom.StoppedInBudget`), and two processes
  that pass the unlocked test together make the list longer than the area (`LogRoom.Overrun`).  write_log then writes
  over the block behind the area before the header is written, and a crash there shows part of a transaction
  (`LogRoom.HalfShown`).  `LogRoom.RoomExactly` and `LogRoom.ConsistentExactly` say for which areas neither can
  happen.  The counts, the waiting and the wakeups of the log are in order for every area
  (`GroupCommit.LogDiscipline`), and a single writer is safe in the area of mkfs (`DurableDisk.OneWriterFits`).
- morecore multiplies in 64 bits but sbrk takes an int, so a request of 2^31 bytes or more gets less than its header
  claims (`Umalloc.AsksForWhatItClaims`).
- install_trans takes a pin off every block it installs, also in recovery, where nobody has pinned them
  (`LogDevice.Log.RecoverFromLog`).
- piperead counts a byte as taken before copyout has stored it, so a failing copyout loses it
  (`Pipe.Pipe.PipeRead`).

## Model

| member | source | states |
|---|---|---|
| RedoLog.RecoveredMeaning | kernel/log.c:69-122 | a completed recovery puts every block the on-disk header lists at its home, changes no other home block and clears the header |
| RedoLog.InterruptedRecovery | kernel/log.c:69-122 | recovery stopped after any of its writes and started again ends with the same home blocks as one that was not disturbed |
| RedoLog.RepeatedCrashes | kernel/log.c:69-122 | the same for any number of crashes, each at any write of the recovery that followed the last one |
| RedoLog.HeaderWritten | kernel/log.c:99-113 | the header write is the commit point: an image with it recovers to the new state |
| RedoLog.CommitAtomic | kernel/log.c:178-202 | a crash after any k writes of commit recovers to all of the old home blocks if k <= n and to all of the new ones if k > n, never to a mix, and clears the header |
| RedoLog.CommitCrashRecover | kernel/log.c:69-202 | crash atomicity with any number of crashes inside the recoveries folded in |
| RedoLog.CommitEnds | kernel/log.c:193-202 | a commit that is not interrupted leaves the new contents at home and the header clear |
| LogDevice.Log.ReadHead | kernel/log.c:86-96 | the in-memory header becomes the list on disk; no disk write happens |
| LogDevice.Log.WriteHead | kernel/log.c:102-113 | exactly one disk write, of a header that lists the blocks in memory |
| LogDevice.Log.InstallTrans | kernel/log.c:69-82 | the loop's disk writes are, one for one, those of the recovery that the crash lemmas are about, and each listed block loses one pin |
| LogDevice.Log.WriteLog | kernel/log.c:178-190 | the loop's disk writes are the first n writes of the commit that the crash lemmas are about |
| LogDevice.Log.Commit | kernel/log.c:193-202 | the sequence of disk images a commit goes through is the one CommitAtomic quantifies over; an empty transaction writes nothing |
| LogDevice.Log.RecoverFromLog | kernel/log.c:116-122 | the sequence of disk images is the one InterruptedRecovery quantifies over, and the last one is the recovered image; each listed block loses one pin, though nobody pinned it |
| LogDevice.Log.LogWrite | kernel/log.c:214-234 | panics exactly as the tests of the log's size and of outstanding say, and then changes nothing; otherwise the block is listed once, whether it was new or absorbed, and its pin count goes up by one only when it is new |
| GroupCommit.StepKeeps | kernel/log.c:126-234 | every step of begin_op, log_write, end_op, commit, a crash and recovery keeps the invariant, unless the list outgrows the log area: reserved log space, distinct blocks, and what recovery would show |
| GroupCommit.RunKeeps | kernel/log.c:126-234 | the invariant holds in every state of every interleaving and for every size of the log area, until the list outgrows it |
| GroupCommit.RunWide | kernel/log.c:126-234 | what the accounting says of counts, sleepers and the list holds in every state of every interleaving for every size of the log area, also after the list has outgrown it |
| GroupCommit.LogDiscipline | kernel/log.c:126-174 | in every run, for every size of the log area, the log holds at most LOGSIZE distinct blocks, a commit has no operation in progress, the panics of end_op and of log_write outside a transaction are unreachable, and a begin_op sleeper still has to wait and has an operation or commit under way that will wake it |
| GroupCommit.TooBigExactly | kernel/log.c:218-219 | the size panic strikes exactly when the list has filled the log area or the header, whichever is smaller; when it has filled the header, only at a process that has used its MAXOPBLOCKS and writes again to a logged block |
| GroupCommit.CommitPoint | kernel/log.c:146-202 | until the list outgrows the log area, only the header write changes what recovery shows, and it makes everything logged so far durable at once with no operation in progress |
| GroupCommit.CrashConsistency | kernel/log.c:126-234 | in every state of every run in which the list has fitted the log area, recovery would show the file system as it was at an earlier moment with no call in progress |
| GroupCommit.CompletedCommitIsDurable | kernel/log.c:146-174 | when end_op's commit of a list that fits is done, recovery shows everything logged before it |
| LogRoom.StoppedAtRepeat | kernel/log.c:214-219 | for every log area of more than LOGSIZE blocks, a run that reaches the size panic: three operations log ten blocks each and one writes again to a block of its own |
| LogRoom.StoppedInBudget | kernel/log.c:214-219 | for every log area of LOGSIZE blocks or fewer, a run in which a process within its budget is stopped by the size panic, before the header is full |
| LogRoom.Overrun | mkfs/mkfs.c:18-103 | for every log area of 2 to LOGSIZE blocks, such as the LOGSIZE blocks that mkfs writes into the superblock, a run in which two processes pass the unlocked test and the list outgrows the log area, so that the log block of the last entry is a home block |
| LogRoom.HalfShown | kernel/log.c:178-202 | for every log area of 2 to LOGSIZE blocks, such a run goes on through the calls to end_op and through write_log to a crash after which recovery shows part of a transaction: the home blocks are at no earlier moment without a call in progress what had been logged |
| LogRoom.RoomExactly | kernel/log.c:214-234 | the list fits the log area and only a full header stops anybody, in every run, if and only if the log area has more than LOGSIZE blocks |
| LogRoom.ConsistentExactly | kernel/log.c:126-234 | recovery shows whole calls only, in every state of every run, if and only if the log area has more than LOGSIZE blocks, or one block, so that nothing can be logged |
| InodeModel.WordRoundTrip | kernel/fs.c:394-399 | a block number stored in an indirect block reads back, and no other entry changes |
| InodeModel.OneSlotEach | kernel/fs.c:378-437 | each allocated data block is in exactly one slot of one inode |
| InodeModel.GrowEntry | kernel/fs.c:394-399 | allocating a block into an empty entry of the indirect block keeps ownership exact, changes no file's bytes and no other slot |
| InodeModel.WroteChunk | kernel/fs.c:493-502 | copying bytes into the block that holds their offset extends the written part of that file and touches no other file |
| InodeModel.WriteEnds | kernel/fs.c:504-511 | with the bytes copied, setting the size makes the contents the splice, leaves no hole and every other file as it was |
| InodeModel.TruncEnds | kernel/fs.c:410-437 | with every slot freed, the inode is empty and every other file as it was |
| FileSystem.FileSystem.Balloc | kernel/fs.c:51-86 | takes the lowest free bit and zeroes the block, or panics exactly when every bit is set |
| FileSystem.FileSystem.Bmap | kernel/fs.c:378-405 | returns the block of the slot, allocating it and the indirect block on demand; panics exactly when the bitmap has fewer clear bits than that takes; ownership stays exact, no file's bytes change, the blocks taken are the lowest free ones, and the logged blocks are exactly the new ones with their bitmap blocks and the indirect block |
| FileSystem.FileSystem.Writei | kernel/fs.c:483-514 | refuses gaps, overflow and over-long files without change; otherwise panics exactly when the bitmap has fewer clear bits than there are blocks to map, or else splices the bytes at off, leaves every other file alone and keeps every block below the size mapped; every block that changed is logged, the logged blocks are exactly the data blocks, the bitmap blocks of what was taken, the indirect block if it got an entry and the inode's block, and they are at most MaxLogged |
| WriteSet.TouchedExactly | kernel/fs.c:483-514 | on a disk whose areas follow each other none of those blocks is another, so their number is exact |
| WriteSet.NeededJoin | kernel/fs.c:378-405 | mapping one range of slots after another allocates as many blocks as mapping both |
| WriteSet.GrownUnique | kernel/fs.c:51-86 | which blocks a number of allocations takes depends only on the bitmap |
| FileSystem.FileSystem.Readi | kernel/fs.c:456-476 | returns exactly the slice clipped to the size and changes nothing: bmap never allocates on a read |
| FileSystem.FileSystem.Itrunc | kernel/fs.c:410-437 | clears exactly the bits of the blocks the inode owned, empties it, leaves every other file alone, and bfree's panic is unreachable |
| FileSystem.FileSystem.ChunkFits | kernel/file.c:148-156 | the chunk size of filewrite keeps the bound on logged blocks within MAXOPBLOCKS for every offset |
| FileSystem.FileSystem.WriteTransaction | kernel/file.c:161-167 | the set logged between begin_op and end_op is that of writei, has at most MAXOPBLOCKS blocks, and on a disk whose areas follow each other exactly LogSize of them |
| FullTransaction.WorstWrite | kernel/file.c:148-167 | whenever a chunk lies in four blocks, three of them and the indirect block are new, and the four lowest clear bits lie in different bitmap blocks, the transaction that writes it goes through and what it logs is exactly MAXOPBLOCKS blocks |
| FullTransaction.TenBlocks | kernel/file.c:148-167 | there is a consistent disk without holes and a write to it for which that is so, and what that write logs is ten blocks: the bound is attained |
| FileSystem.FileSystem.AcceptedAll | kernel/file.c:148-175 | filewrite's chunks cover everything exactly if it all fits the largest file |
| FileSystem.FileSystem.FileWrite | kernel/file.c:148-175 | one transaction for each chunk, as many as k bytes have chunks and one more if writei refuses the next, none after a refusal; each leaves bitmap and block pointers in agreement and a whole number of chunks written, and its logged set is what writei of that chunk logs and has at most MAXOPBLOCKS blocks; filewrite panics exactly when the bitmap has fewer clear bits than the whole write takes; otherwise the file is spliced with k bytes, k being exactly the whole chunks that fit, the offset moves by k, and -1 is returned exactly when k is short |
| DiskImage.WrittenOut | kernel/fs.h:9-51 | every file system whose bitmap and block pointers agree and that has no holes can be written out as the blocks of a disk: bitmap, inodes and data read back from them are those of the file system |
| DiskImage.OneDisk | kernel/fs.h:9-51 | the blocks of a disk determine bitmap, inodes and data blocks: they show one file system at most |
| DurableDisk.LoggedAll | kernel/log.c:126-234 | in every run in which one process changes the disk, in operations that log what they change, what has been logged shows at every step the disk after the operations that have ended, but for the blocks of one under way |
| DurableDisk.OneWriterFits | kernel/log.c:126-234 | if only one process logs, the list never outgrows a log area of more than LOGSIZE - MAXOPBLOCKS blocks, such as that of mkfs, in any run |
| DurableDisk.CrashBetween | kernel/log.c:69-234 | in every such run with such a log area, a crash at any step, with any number of crashes in the recoveries after it, leaves the disk between two of the operations, with every operation of a completed commit |
| DurableDisk.CrashShowsFiles | kernel/log.c:126-234 | with any number of writers, if what has been logged shows consistent bitmap and block pointers and no holes whenever no call is in progress, recovery shows them at every step of the run until the list outgrows the log area |
| CrashedWrite.CrashedFileWrite | kernel/file.c:148-175 | in every run of the log that makes the transactions of a filewrite, a crash at any step and any number of crashes in the recoveries leave a disk whose bitmap and block pointers agree, without holes, with a whole number of filewrite's chunks spliced into the file, every other file as it was, and no chunk lost that a completed commit has taken |
| Umalloc.FreeAndLiveDisjoint | user/umalloc.c:24-90 | no unit of memory is both on the free list and in a live block |
| Umalloc.FreeKeeps | user/umalloc.c:33-42 | in all four merge cases the list stays circular, sorted and coalesced, and the free and live units are still exactly those obtained |
| Umalloc.SplitKeeps | user/umalloc.c:78-82 | cutting a request off the tail of a free block keeps the heap invariant |
| Umalloc.RemoveKeeps | user/umalloc.c:76-77 | unlinking a block that fits exactly keeps the heap invariant |
| Umalloc.GrowKeeps | user/umalloc.c:47-60 | fresh memory above everything obtained before can be added as one block |
| Umalloc.Heap.FindPlace | user/umalloc.c:30-32 | the search of free terminates at the block after which the freed one belongs, also at the wrap point of the circular list |
| Umalloc.Heap.Free | user/umalloc.c:25-44 | the block leaves the live set, its units are free, every other live block is as it was, and the heap invariant holds |
| Umalloc.Heap.Morecore | user/umalloc.c:47-61 | for a request whose bytes fit sbrk's int: sbrk is asked for exactly the bytes the new header will claim; on success a free block of at least nu units exists and the obtained memory grows by exactly what was asked for; on failure nothing changes |
| Umalloc.AsksForWhatItClaims | user/umalloc.c:47-90 | for every argument of malloc, the int that reaches sbrk is the size that the header will claim if and only if that size is below 2^31 |
| Umalloc.Heap.Malloc | user/umalloc.c:64-90 | for such a request: terminates; returns a new live block of exactly the units requested that overlaps no other, or NULL, only if sbrk failed; it asks for memory at most once |
| WaitExit.StepKeeps | kernel/proc.c:286-441 | every step of fork, wait, exit, reparent, kill, sleep and scheduling keeps the invariant on locks, parents and children |
| WaitExit.NoMissedExit | kernel/proc.c:328-441 | in every run a parent other than init is never asleep in wait while a child of it is a zombie |
| WaitExit.NoOrphans | kernel/proc.c:286-441 | in every run every live process but init has a parent whose slot is in use by a process that has not exited |
| WaitExit.InitStep | kernel/proc.c:346-397 | the same promise to init survives a step if and only if the step is not one of the two that hand it a zombie unannounced |
| WaitExit.InitCanMiss | kernel/proc.c:346-397 | a run from boot that ends with init asleep in wait and a zombie child |
| WaitExit.InitNeverMisses | kernel/proc.c:346-397 | in every run without those two steps init is not asleep in wait with a zombie child either |
| Scheduler.StepKeeps | kernel/proc.c:450-611 | every step of scheduler, sched, yield, sleep, exit, wakeup, kill, fork and freeproc keeps the hand-over invariant |
| Scheduler.Exclusive | kernel/proc.c:450-516 | in every run no process is the current process of two CPUs |
| Scheduler.RunningIsExecuted | kernel/proc.c:450-516 | in every run a process is RUNNING if and only if some CPU is executing it and has not yet set it aside |
| Scheduler.ResumeIsSafe | kernel/proc.c:450-505 | when scheduler switches to a process, its context was left by a completed switch and has not been resumed since, and it is current nowhere |
| Scheduler.SchedChecks | kernel/proc.c:487-505 | in every run, at the switch in sched the process holds its own lock, which yield, sleep and exit have taken before, and is not RUNNING |
| SleepWakeup.StepKeeps | kernel/proc.c:540-577 | every step of sleep, wakeup, kill and of the code under lk keeps the invariant that a sleeper whose condition holds is one the holder of lk has yet to wake |
| SleepWakeup.NoLostWakeup | kernel/proc.c:540-577 | in every run, with lk and the process's lock free, nobody sleeps on the channel with its condition true |
| SleepWakeup.SleeperWillWake | kernel/proc.c:540-577 | in every run a sleeper whose condition holds is ahead of a wakeup scan, or of one that must still be made before lk is released |
| SleepWakeup.LockingRun | kernel/sleeplock.c:21-38 | the processes between acquiresleep and releasesleep are exactly the one the lock names, or none |
| SleepWakeup.SleepLockSafe | kernel/sleeplock.c:21-38 | in every run at most one process owns a sleep lock, and nobody is left asleep on a free one |
| SleepWakeup.LogSleepersWait | kernel/log.c:126-174 | in every run of begin_op, end_op and the code that changes the log, with log.lock and its own lock free, a process asleep in begin_op still has to wait and has a commit or an operation under way |
| SleepWakeup.LoggingRun | kernel/log.c:126-174 | every such run is one of sleep and wakeup that keeps their rule, and with no operation and no commit under way the log is empty |
| SleepWakeup.ClearEnablesNobody | kernel/log.c:193-202 | that commit empties the list without holding log.lock lets no sleeper go on |
| VirtioQueue.AtMostTwo | kernel/virtio_disk.c:117-249 | at most two requests are in flight, so at most two entries of either ring are outstanding |
| VirtioQueue.SeesCompletions | kernel/virtio_disk.c:256-257 | the modulo-NUM comparison sees a completion exactly when there is one, however often the 16-bit index has wrapped, and the entry it looks at is the oldest unseen one |
| VirtioQueue.SeesAvail | kernel/virtio_disk.c:230-236 | a device whose index differs from avail's finds the oldest head it has not fetched |
| VirtioQueue.RequestIntact | kernel/virtio_disk.c:187-224 | from submission until it is freed a chain reads, to a device that follows it, as the request that was submitted |
| VirtioQueue.PostKeeps | kernel/virtio_disk.c:177-236 | submitting a request keeps the partition of descriptors, the buffer flags and both rings in order |
| VirtioQueue.FinishKeeps | kernel/virtio_disk.c:241-248 | freeing a finished chain keeps them in order and gives back exactly its three descriptors |
| VirtioRuns.StepKeeps | kernel/virtio_disk.c:117-270 | every step of driver and device is safe and keeps the invariant |
| VirtioRuns.RunSafe | kernel/virtio_disk.c:117-270 | in every run and any completion order the device finds what was posted, a completion releases the buffer its request was submitted with, free_desc does not panic, and virtio_disk_rw waits for descriptors only while two requests are in flight |
| VirtioRuns.RunPartition | kernel/virtio_disk.c:117-166 | in every run each descriptor is free or in exactly one three-descriptor chain, and at most two requests are in flight |
| VirtioRuns.LeftIsUnseen | kernel/virtio_disk.c:256-257 | the entries between the two indices are exactly the completions not yet seen, and each names a request with a buffer |
| VirtioRuns.IntrKeeps | kernel/virtio_disk.c:252-270 | the loop of virtio_disk_intr keeps the invariant round by round and leaves no completion unseen |
| Virtio.Driver.AllocDesc | kernel/virtio_disk.c:117-126 | takes the lowest free descriptor, or reports that there is none |
| Virtio.Driver.FreeChain | kernel/virtio_disk.c:143-152 | frees exactly the three descriptors of a formatted chain, without a panic |
| Virtio.Driver.Alloc3Desc | kernel/virtio_disk.c:155-166 | takes three descriptors exactly when three are free, and otherwise leaves the flags as they were |
| Virtio.Driver.Submit | kernel/virtio_disk.c:169-236 | succeeds exactly when three descriptors are free, and then performs the protocol's submission step |
| Virtio.Driver.Intr | kernel/virtio_disk.c:252-270 | handles, in order, every completion the indices show, up to the first with a bad status, at which it panics |
| Virtio.Driver.Finish | kernel/virtio_disk.c:238-248 | performs the protocol's last step without a panic |
| PipeModel.Counters | kernel/pipe.c:85-118 | the tests for full and empty on the wrapping 32-bit counters hold exactly when the pipe is full or empty |
| Pipe.Pipe.Put | kernel/pipe.c:95 | one more byte is in the pipe, last |
| Pipe.Pipe.Get | kernel/pipe.c:120 | the byte returned is the oldest one not yet taken |
| Pipe.Pipe.PipeWrite | kernel/pipe.c:77-100 | puts in as many of the caller's bytes as there is room and copyin can read, in order; gives up exactly when the pipe is full before it is done, by failing with the read end closed or the caller killed and by sleeping otherwise |
| Pipe.Pipe.PipeRead | kernel/pipe.c:103-127 | takes bytes in order from the front; sleeps or fails exactly on an empty pipe with the write end open; takes exactly what there is, what is wanted or one more than copyout can store, whichever is least, and that one more is lost |
| PipeRuns.WriterSleepsOnFull | kernel/pipe.c:59-127 | in every run a sleeping writer implies a full pipe with its read end open |
| PipeRuns.ReaderStep | kernel/pipe.c:86-89 | that sleeping readers imply an empty pipe with its write end open survives a step if and only if the step is not a pipewrite, killed or without a reader, that wants more than there is room for, with room left and all of it readable |
| PipeRuns.ReaderCanBeLeft | kernel/pipe.c:86-89 | a run that ends with a reader asleep on a full pipe |
| PipeRuns.ReaderSleepsOnEmpty | kernel/pipe.c:59-127 | in every run without such a failure a sleeping reader implies an empty pipe with its write end open |
| BufferRing.Unlink | kernel/bio.c:128-129 | the two pointer writes take a buffer out of the ring and leave the rest in order |
| BufferRing.PushFront | kernel/bio.c:130-133 | the four pointer writes put a buffer first in the ring |
| BufferRing.MoveToFront | kernel/bio.c:126-134 | moving a buffer to the front leaves a list of all buffers, each once |
| BufferCache.Cache.constructor | kernel/bio.c:37-53 | the ring holds all NBUF buffers |
| BufferCache.Cache.Bget | kernel/bio.c:59-89 | a buffer that holds the block gets a reference; failing that, the least recently used one without references is given the block; it panics exactly when there is neither |
| BufferCache.Cache.Brelse | kernel/bio.c:117-137 | drops a reference, and on the last one moves the buffer to the front of the list |
| BufferRuns.StepKeeps | kernel/bio.c:59-151 | every step of bget, bread, bwrite, brelse, bpin and bunpin keeps counts, uniqueness and contents in order, and no count goes below zero |
| BufferRuns.BgetSteps | kernel/bio.c:59-89 | the buffer bget picks by walking the list is one the model may hit or recycle, and it panics exactly when there is none |
| BufferRuns.StepBufs | kernel/bio.c:59-151 | each step changes identities and counts as the cache method it stands for does |
| BufferRuns.ReadsLatest | kernel/bio.c:93-103 | in every run what bread returns is what was last written to the block |
| BufferRuns.OneBufferEach | kernel/bio.c:59-89 | in every run at most one buffer holds a block of a device other than 0 |
| BufferRuns.PinnedStays | kernel/bio.c:68-89 | in every run a buffer that is pinned, held or waited for is not recycled, and only its holder changes its data |
| Links.StepKeeps | kernel/sysfile.c:120-284 | every step of link, unlink, create, open, close and iput keeps link counts and reference counts in order |
| Links.LinksCovered | kernel/sysfile.c:120-284 | in every run a file's nlink is at least the number of directory entries naming it plus the names being added |
| Links.FreedIsUnnamed | kernel/fs.c:333-358 | in every run, from iput's test, through the unlocked truncation, to the moment the inode is freed, it is a file that no directory entry names and that nobody else refers to or can come to refer to |
| Links.EntryNamesFile | kernel/sysfile.c:211-212 | in every run an entry names an allocated file with nlink at least 1, so the panic of unlink is unreachable |
| ShellSyntax.ParsedTokens | user/sh.c:267-447 | whatever the line, a command that parses has at most nine arguments to an exec, and every argument and file name is a longest run of word characters |
| ShellPrint.PrintReads | user/sh.c:346-447 | a printed command is read back wherever it stands before the end of the line or a closing parenthesis |
| ShellPrint.RoundTrip | user/sh.c:329-447 | parsing the parenthesised printing of a command tree gives the tree back |
| Shell.ReadToken | user/sh.c:267-309 | the loops compute the token function, in which a word is a longest run of word characters |
| Shell.ReadPeek | user/sh.c:312-321 | the loop skips white space and looks at one character |
| Shell.ReadRedirs | user/sh.c:376-398 | the loop computes the recursive definition of a list of redirections, or its error |
| Shell.ReadWords | user/sh.c:430-446 | the loop computes the recursive definition of arguments and redirections, with the error for a tenth argument |
| Shell.ReadLine | user/sh.c:346-360 | terminates and computes the grammar's line |
| Shell.NulTerminate | user/sh.c:451-494 | writes a NUL at the end of every counted string of the tree and changes nothing else |
| Shell.NoEndInside | user/sh.c:267-309 | no end pointer lies inside a counted string |
| Shell.StringsIntact | user/sh.c:451-494 | with those NULs written each counted string reads as exactly its token |
| Shell.ReadCmd | user/sh.c:329-343 | the tree is that of the line, an error leaves the line alone, and every argument and file name reads, as a C string in the buffer, as the token that gettoken delimited |
| Grep.OneHere | user/grep.c:91-92 | a match of a character and a pattern begins with a fitting character |
| Grep.ManyHere | user/grep.c:87-104 | a match of a star and a pattern is some number of fitting characters and a match of the pattern |
| Grep.MatchHere | user/grep.c:83-94 | true exactly when a prefix of the text is in the pattern's language, all of the text if the pattern ends in $ |
| Grep.MatchStar | user/grep.c:97-104 | true exactly when the rest matches after some number of fitting characters |
| Grep.Match | user/grep.c:71-80 | true exactly when some position of the text, or only its start after ^, begins such a match |

## Left out

- Writei: does not model a failing copy from user memory, after which the source still returns n.
- Malloc: a request that does not fit sbrk's int is left out, because the header then claims memory that was never obtained and nothing can be promised.
- Morecore: the same.
- CrashBetween: the changes are those of one process at a time; operations that change the file system at the same time, each between others' log_writes, are covered only by CrashShowsFiles.
- SchedChecks: the tests of noff and of the interrupt flag are not modelled.
- Readi: does not model a failing copy to user memory.
- PinnedStays: starts after a recovery that found an empty log, because install_trans during recovery unpins buffers that nobody pinned.
- OneBufferEach: says nothing of device 0, whose block 0 is the identity every buffer has before its first use.
- LinksCovered: counts the entries that name files; entries that name directories, "." and ".." and the link counts of directories are not modelled.
- ReadExec: collects arguments and redirections and builds the tree at the end, where the source fills the exec node in place while redirections already point at it.
- Driver: the descriptor table and the rings are sequences that each method replaces, not shared memory that the device reads while the driver writes it.
- NoLostWakeup: lk is not the process's own lock; the case in which it is, wait's, is part of the wait and exit model.
- The order in which memory operations of different CPUs and of the device become visible.
- kernel/vm.c, page tables, exec, traps, the console, the UART, the PLIC and kalloc.
- mkfs: file systems start from a well-formed image.
- Path lookup, the inode cache's slots, directory contents as bytes, and the file table.
- The number of blocks that itrunc logs.
- That a run goes on: only what every reachable state satisfies is proved, and that loops end.
- runcmd and the rest of the shell, the reading of lines in grep, and the other user programs.
