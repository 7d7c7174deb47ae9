# Proofs about the xv6 kernel with copy-on-write fork

This project models the parts of xv6 for RISC-V, with copy-on-write fork, whose correctness
spans many functions, and proves what they promise for every input, every interleaving and
every run. `dafny verify dfyconfig.toml` checks all of it with Dafny 4.11.

Three kinds of files belong together for each part:

* a *machine*: a datatype of states and a datatype of steps. A step is one critical section
  of the code, or one write to the disk, of any process. Theorems are about all runs.
* a *class* with the source's fields, whose methods have the source's branches and loops. Each
  method is proved against a function of the old state. For the log, the memory and the
  process table `Valid` also holds the history of the object: a run of the machine from its boot
  to the present fields. So what is proved of all runs holds of what the methods do.
* *lemmas* about the functions that specify the methods.

## What is proved

**Redo log and buffer cache** (`BufferCache`, `RedoLog*`). The machine has any number of
processes that read, log, begin and end operations, one of which commits, and a crash that may
come at any step and leave the block in flight with any content; only the header write is
atomic. Every run is a run of a specification with three variables: the disk as the file system
sees it, the disk that survives a crash, and the operations under way. Atomicity, coherence,
admission and recovery follow. `Bcache` is the ring of buffers with its next and prev links.

**Copy-on-write memory** (`CowMemory`, `PageRefs`, `CowProof`, `CowSteps`, `CowFork`,
`CowTheorems`, `CowCode`, `CowCopy`). The machine interleaves faults, forks, sbrk, exit and the
kernel's own allocations of any number of processes, at the granularity of the reference-count
lock and the free-list lock. Every run is a run of a machine in which fork copies every page,
and each page has its rights.
In every reachable state the counts are exact. `CowHandler` looks up the reference count of the
wrong page, one below RAM whose count is always 0, so it always copies. The model does the same,
and that is a theorem (`HandlerAlwaysCopies`).

**Page tables** (`PageTable`, `PageTableCode`). The three-level tree is a map from page numbers.

**File blocks** (`FileLayout`, `FileBlocks`, `FileCode`, `FileIo`, `FileTrunc`). Bytes of blocks
on disk, bitmap and inodes included, against one byte sequence per inode and an owner for each
block.

**Sleep, wakeup, fork, exit, wait** (`SleepWakeup`, `ExitWait*`). Machines at the granularity of
the locks, and the sequential code of exit and wait. A history of who forked whom ties parent
pointers, and what wait returns, to the calls of fork.

**The K&R allocator** (`HeapBlocks`, `Umalloc`), **the virtio queue** (`VirtioQueue`, `Virtio`),
**the shell parser** (`Shell*`), which accepts exactly the sentences of a grammar over tokens and
returns what they mean, and **pipes** (`Pipe`).

`Runs` and `Counting` hold induction over runs and facts about finite sets; `Bytes` is
little-endian words in blocks.

## Reading the contracts

* A panic that the model shows to be unreachable is a precondition of the method that would
  panic, discharged by its callers; where callers can reach it, the method returns it.
* What comes from outside is a parameter: what sbrk returns (`more`), how much of a user buffer
  can be accessed (`room`, `readable`), for how many pages there are page tables (`tables`), whether
  a status can be copied out (`canCopy`), where in physical memory the kernel ends.
* In the copy-on-write machine process 0 stands for the kernel and process 1 for the first user
  process. Pages the kernel takes for page tables, trapframes and pipes are allocated and freed
  by steps of their own, anywhere in a run.
* `Valid` of each class holds the invariant; `spec`, `owner`, `live`, `reqs`, `written` and the
  like are ghost fields that say what the concrete fields mean.
* The log is taken to be larger than LOGSIZE, as the check in log_write needs.
* NBUF and LOGSIZE are both 30, so a transaction that fills the log pins every buffer and its
  commit finds none for the log block; and a log_write that would be absorbed panics when the log
  is full. `RedoLogFull` has runs from a boot in which both happen; `CommitTransaction` and
  `AbsorbingWritePanicsIff` give the exact conditions.
* A writer that is killed in pipewrite wakes no reader. `Valid` of `PipeRing` says that this is the
  only way for a reader to sleep on a pipe with bytes in it, and `ReaderPassedBy` that it happens.

## Model

| member | source | states |
|---|---|---|
| BufferCache.Get | kernel/bio.c:59-89 | what bget does as a value: a buffer that already holds the block gains a reference; otherwise an unused buffer is recycled, every buffer nearer the tail being in use; there is no buffer exactly when none matches and none is unused |
| BufferCache.FindFrom | kernel/bio.c:66-73 | the first loop finds the first match from the most recently used end, and nothing before it matches |
| BufferCache.UnusedBefore | kernel/bio.c:77-87 | the second loop finds the last unused buffer, and everything after it is in use |
| BufferCache.MoveToFront | kernel/bio.c:128-133 | moving a buffer to the front keeps each of the NBUF buffers in the order exactly once, and all others in the order they were in |
| BufferCache.Unref | kernel/bio.c:124-136 | dropping a reference changes that count only, and moves the buffer to the front exactly when the count reaches 0; all other buffers stay in their order |
| BufferCache.UnlinkRing | kernel/bio.c:128-129 | two pointer writes take one buffer out of the doubly linked ring and leave a ring of the rest in the same order |
| BufferCache.LinkRing | kernel/bio.c:130-133 | four pointer writes put a buffer at the front of the ring |
| BufferCache.RingVisitsEachOnce | kernel/bio.c:36-52 | next and prev are inverse at every buffer of a ring, and no buffer is its own neighbour |
| BufferCache.Bcache.constructor | kernel/bio.c:37-53 | binit links all NBUF buffers into one ring, the last one first |
| BufferCache.Bcache.LinkFirst | kernel/bio.c:47-51 | the loop body of binit, and the end of brelse, keep a ring |
| BufferCache.Bcache.Bget | kernel/bio.c:59-89 | on arrays of links, bget returns what Get returns, and keeps the ring |
| BufferCache.Bcache.Recycle | kernel/bio.c:77-88 | the second loop of bget, against Get |
| BufferCache.Bcache.Unlink | kernel/bio.c:128-129 | unlinking in place leaves the ring that MoveToFront starts from |
| BufferCache.Bcache.Brelse | kernel/bio.c:124-136 | on arrays of links, brelse does what Unref does, and keeps the ring |
| BufferCache.Bcache.Bpin | kernel/bio.c:140-144 | one more reference, nothing else changes |
| BufferCache.Bcache.Bunpin | kernel/bio.c:147-151 | one reference less, nothing else changes |
| RedoLog.PutHeader | kernel/log.c:103-114 | the header block that write_head builds reads back as the entries it was built from |
| RedoLogProof.StepLogWrite | kernel/log.c:215-235 | a log_write, appending or absorbed, is exactly one block update of the transaction specification |
| RedoLogProof.StepCopyToLog | kernel/log.c:179-191 | copying a cached block to the log area changes nothing that survives a crash |
| RedoLogProof.StepWriteHead | kernel/log.c:103-114 | writing the non-empty header is the commit: all updates since the last commit survive from here on, and no operation is under way |
| RedoLogProof.StepInstallBlock | kernel/log.c:69-83 | installing one block, while other processes read, changes nothing that survives and nothing a reader can see |
| RedoLogProof.StepWriteEmptyHead | kernel/log.c:103-123 | erasing the header after installation changes nothing that survives |
| RedoLogProof.StepBeginOp | kernel/log.c:127-142 | begin_op admits an operation only with room for all it may log |
| RedoLogProof.StepEndOp | kernel/log.c:147-175 | end_op ends one operation; the last one starts the commit |
| RedoLogProof.StepReadHead | kernel/log.c:87-97 | recovery reads exactly the entries that are on disk |
| RedoLogProof.StepCrash | kernel/log.c:117-123 | a crash at any step, with the block in flight torn in any way, leaves exactly the durable blocks to be recovered |
| RedoLogTheorems.StepSimulates | kernel/log.c:69-235 | every step of any process is the transaction event that it stands for |
| RedoLogTheorems.RunSimulates | kernel/log.c:69-235 | every run, with any interleaving and any crashes, is a run of the transaction specification side by side with it: each step is the event it stands for, with its process, block and data |
| RedoLogTheorems.FromBoot | kernel/log.c:55-66 | the same for runs that start at boot from any well-formed disk |
| RedoLogTheorems.DurableIsQuiescent | kernel/log.c:194-203 | what would survive a crash is the disk as it was seen at an earlier moment of the same run with no operation under way |
| RedoLogTheorems.CrashAtomicity | kernel/log.c:69-203 | after any run with any crashes, what survives the next crash is the disk as the file system saw it after some first part of that run, with no operation under way: each operation is in it as a whole or not at all |
| RedoLogTheorems.RecoveryRestores | kernel/log.c:117-123 | after a crash at any moment of any run, recovery, interrupted by any number of further crashes, ends with exactly the blocks that survived at the first crash at home, an empty log, and a cache that agrees |
| RedoLogTheorems.CommitPoint | kernel/log.c:194-203 | in every run, until the header write the old blocks are at home behind an empty log, and afterwards all of the transaction survives; no operation is under way during a commit |
| RedoLogTheorems.SleepsOnlyWhileBusy | kernel/log.c:127-175 | in every run, a process sleeps on the log only while an operation is outstanding or a commit runs; the end_op panic is unreachable |
| RedoLogTheorems.AppendNeverPanics | kernel/log.c:127-222 | in every run, entries and unused reservations together fit in LOGSIZE, so an appending log_write within its allowance does not panic |
| RedoLogTheorems.AbsorbingWritePanicsIff | kernel/log.c:219-233 | a log_write of a block that is in the log, which needs no space, still panics if and only if the log is full, and otherwise changes the buffer and nothing else |
| RedoLogTheorems.WritePanicsIff | kernel/log.c:219-224 | inside an operation the panics of log_write happen if and only if the log is full |
| RedoLogFull.LogFills | kernel/log.c:127-235 | from any disk with at least LOGSIZE home blocks there is a run that fills the log |
| RedoLogFull.AbsorbedWriteCanPanic | kernel/log.c:219-233 | and one that goes on to a log_write that would be absorbed and panics |
| RedoLogFull.CommitCanPanic | kernel/log.c:179-203 | and one in which the commit of the full log finds no buffer for its first block |
| RedoLogFull.BootsUp | kernel/log.c:55-123 | from any well-formed disk there is a run through recovery to an empty log |
| RedoLogCode.LogBufferAvailableIff | kernel/log.c:179-203 | with no buffer in use, bread of a log block finds one if and only if fewer than NBUF blocks are pinned |
| RedoLogCode.SpareIff | kernel/log.c:179-203 | with no buffer in use by a process, some buffer is unused if and only if fewer than NBUF blocks are pinned |
| RedoLogCode.ReachedIsRun | kernel/log.c:55-235 | what the methods have done since the boot is a run of the machine, in step with the specification |
| RedoLogCode.Log.constructor | kernel/log.c:55-66 | the state after boot, with an empty cache and an empty history |
| RedoLogCode.Log.WriteLogBlocks | kernel/log.c:179-191 | write_log copies every entry if and only if some buffer is unused, while other processes use any buffers that it does not need |
| RedoLogCode.Log.Encode | kernel/log.c:108-111 | the loop that fills the header block computes PutHeader |
| RedoLogCode.Log.Decode | kernel/log.c:92-95 | the loop that reads the header computes its entries |
| RedoLogCode.Log.WriteHeader | kernel/log.c:103-114 | write_head: with entries it makes the current blocks durable, without it changes nothing durable; it fails exactly when no buffer is unused |
| RedoLogCode.Log.ReadHeader | kernel/log.c:87-97 | read_head leaves the entries of the disk in memory |
| RedoLogCode.Log.InstallTrans | kernel/log.c:69-83 | install_trans, at recovery or after a commit, installs all entries |
| RedoLogCode.Log.CommitTransaction | kernel/log.c:194-203 | commit makes the current blocks durable and empties the log if and only if some buffer is unused |
| RedoLogCode.Log.BeginOperation | kernel/log.c:127-142 | begin_op sleeps exactly when a commit runs or the entries and a whole reservation for every operation, this one included, do not fit in LOGSIZE |
| RedoLogCode.Log.WriteToLog | kernel/log.c:215-235 | log_write panics exactly when the source does, and otherwise updates the one block, appends or absorbs, and pins |
| RedoLogCode.Log.EndOperation | kernel/log.c:147-175 | end_op of the last operation leaves the current blocks at home and durable behind an empty log, unless there is something to commit and no unused buffer; any other end_op touches no block |
| RedoLogCode.Log.Leave | kernel/log.c:151-164 | the first critical section of end_op |
| RedoLogCode.Log.FinishOperation | kernel/log.c:170-173 | the second critical section of end_op, after the commit |
| RedoLogCode.Log.RecoverFromLog | kernel/log.c:117-123 | recovery leaves the durable blocks at home, and an empty log |
| RedoLogTheorems.ReadersSeeLatest | kernel/bio.c:93-103 | in every run, a locked and valid buffer holds the latest logged content of its block |
| RedoLogTheorems.DirtyBuffersStay | kernel/bio.c:59-151 | in every run: a buffer that differs from its home block is logged and referenced; bget gives no referenced buffer to another block; a valid buffer without references equals the disk; no block is cached twice |
| RedoLogCode.Log.Bread | kernel/bio.c:93-103 | bread returns the block locked and valid, waits with a reference exactly for a buffer that is locked, or fails exactly when no buffer is available |
| RedoLogCode.Log.Brelse | kernel/bio.c:117-137 | brelse gives up lock and reference |
| RedoLogProof.StepBget | kernel/bio.c:59-89 | a bget by any process, at any moment, leaves the meaning of the log and cache unchanged |
| RedoLogTheorems.ReadersSeeLastWrite | kernel/bio.c:93-103 | after a log_write of a block, and until the next log_write of it or the next crash, whoever has read the block finds that data |
| PageRefs.TakeFree | kernel/kalloc.c:111-115 | kalloc takes a page from the list: counts, owners and list stay in agreement |
| PageRefs.Adopt | kernel/kalloc.c:117-119 | the page gets count 1 and its one owner |
| PageRefs.DropShared | kernel/kalloc.c:84-88 | kfree of a shared page: one owner and one count less |
| PageRefs.DropLast | kernel/kalloc.c:90-91 | kfree of the last reference: the count becomes 0 and the page is in hand |
| PageRefs.PushFree | kernel/kalloc.c:96-99 | the page goes back to the list, where it was not |
| PageRefs.SoleHolder | kernel/kalloc.c:17-25 | a page that may be written has count 1 |
| PageRefs.HandsDecide | kernel/kalloc.c:17-121 | who holds what determines all counts and the contents of the free list |
| CowCode.Memory.constructor | kernel/kalloc.c:50-68 | kinit puts every page from the end of the kernel on the free list once, with count 0 |
| CowCode.Memory.Kalloc | kernel/kalloc.c:106-121 | kalloc fails exactly when the list is empty, and otherwise fills the page and sets its count to 1 |
| CowCode.Memory.DropRef | kernel/kalloc.c:82-90 | the reflock section of kfree, and whether the last reference is gone |
| CowCode.Memory.PushPage | kernel/kalloc.c:92-99 | the page is filled and put on the free list |
| CowCode.Memory.Kfree | kernel/kalloc.c:75-100 | kfree lowers a count above 1, and otherwise clears it, fills the page and puts it on the list |
| CowTheorems.CountsAreExact | kernel/kalloc.c:17-121 | in every reachable state of any interleaving, the count of each page is the number of its owners |
| CowTheorems.FreeListIsExact | kernel/kalloc.c:75-121 | in every reachable state the free list has no page twice, and holds exactly the pages with count 0 that no process has in hand |
| CowTheorems.CountsAreBounded | kernel/kalloc.c:17 | no count exceeds the number of processes and the kernel, at most NPROC + 1, so the 32-bit counters do not wrap |
| CowTheorems.NothingLeaks | kernel/kalloc.c:60-100 | whenever no process has memory, every page is on the free list |
| CowMemory.CowIndexOutsideRam | kernel/trap.c:44 | the index that CowHandler computes from the PTE is a quarter of the page number, below RAM |
| CowProof.FaultReadsZero | kernel/trap.c:43-44 | in every state of the invariant the count that CowHandler reads is 0 |
| CowProof.StepFault | kernel/trap.c:39-51 | the test of the count: what every process sees stays the same |
| CowSteps.StepCopy | kernel/trap.c:52-56 | copying into the new page: what every process sees stays the same |
| CowSteps.StepDropCow | kernel/trap.c:61 | the kfree of the shared page, before the PTE is changed |
| CowProof.StepSetPte | kernel/trap.c:63-64 | the PTE write: counts stay exact and what every process sees stays the same |
| CowTheorems.HandlerAlwaysCopies | kernel/trap.c:43-53 | in every run the handler goes on to kalloc; the branch that makes the page writable in place is not taken |
| CowCode.Memory.TestCount | kernel/trap.c:43-51 | the same for the method |
| CowCode.Memory.CopyPage | kernel/trap.c:52-56 | the memmove of the handler |
| CowCode.Memory.CowHandler | kernel/trap.c:39-66 | -1 exactly when the page is not a user copy-on-write page, -2 exactly when memory has run out, and otherwise an entry for a private page with the same bytes and rights that is writable and no longer copy-on-write; no process sees a difference |
| PageRefs.Share | kernel/vm.c:337 | incref for a page that both parent and child map read-only |
| CowSteps.StepStore | kernel/vm.c:378-382 | a store through a writable page changes what its process sees in one page, and nothing for any other process |
| CowSteps.StepDropUnmap | kernel/vm.c:196-200 | uvmunmap gives up one page |
| CowFork.StepMapPage | kernel/vm.c:251-257 | uvmalloc maps a zero page |
| CowFork.StepForkMap | kernel/vm.c:322-334 | uvmcopy clears PTE_W in the parent and maps the page in the child: what every process sees stays the same |
| CowFork.StepForkRef | kernel/vm.c:337 | the incref that follows |
| CowFork.StepForkDone | kernel/vm.c:339 | uvmcopy has returned: the child sees what the parent sees at that moment |
| CowFork.StepForkFail | kernel/vm.c:340-342 | a failed uvmcopy |
| CowTheorems.NextSimulated | kernel/vm.c:181-389 | every step of fork, fault, copyout, sbrk and exit is the event of the eagerly copying machine that it stands for, on the page and process it names |
| CowTheorems.RefinesEagerCopy | kernel/vm.c:316-389 | every run, with any interleaving, goes side by side with a run of the machine in which fork duplicates all pages at once, with their rights: each store, duplication, added, released page and exit is that very event |
| CowTheorems.WritesAreServed | kernel/vm.c:316-389 | in every run, a store that the eager machine allows is either done at once or enters CowHandler, never both, and no other store is done or enters it |
| CowTheorems.SeesItsMemory | kernel/vm.c:316-389 | in every run, the page table of each user process reaches exactly the pages below its size, with exactly the bytes of that machine; an entry is writable or copy-on-write exactly where that machine allows a write, and executable and user-accessible exactly where it does |
| CowTheorems.WritableIsNotShared | kernel/vm.c:322-343 | in every run, wherever its process is in fork, sbrk, a fault or exit, a page mapped writable has that mapping as its only owner |
| CowCode.Memory.Uvmunmap | kernel/vm.c:181-202 | removes the range from the table and from what the process sees, and frees each page |
| CowCode.Memory.Uvmdealloc | kernel/vm.c:266-277 | the size it returns; every byte below it that was mapped still is, no page from there on is, and the pages that stay are unchanged |
| CowCode.Memory.GrowOne | kernel/vm.c:245-257 | one turn of the loop of uvmalloc, with both failures |
| CowCode.Memory.Uvmalloc | kernel/vm.c:236-259 | succeeds exactly when pages and tables suffice; then every byte below the new size is mapped and no page beyond it, the new pages are zero with the given rights and the old ones unchanged; otherwise tables, counts and free pages are as before |
| CowCode.ZeroedMeans | kernel/vm.c:245-257 | exactly the pages [lo, hi) of that process are zero, all else is as it was |
| CowCode.Memory.BeginFork | kernel/vm.c:316-322 | the start of uvmcopy, with an empty table for the child |
| CowCode.Memory.ShareAll | kernel/vm.c:322-338 | the loop of uvmcopy, until it is done or there is no page table for the next page |
| CowCode.Memory.IsRun | kernel/vm.c:181-389 | what the methods have done since the boot is a run of the machine, to which the theorems about all runs apply |
| CowCode.Memory.ShareOne | kernel/vm.c:322-338 | one turn of the loop of uvmcopy: both entries name the page, neither is writable, and both are copy-on-write exactly when the entry was writable or copy-on-write before |
| CowCode.Memory.FinishFork | kernel/vm.c:339 | the end of uvmcopy: the child has a copy of all the parent sees |
| CowCode.Memory.UndoFork | kernel/vm.c:340-342 | the error path of uvmcopy: the child is gone, and the entry at which it failed is write-protected like those before it |
| CowCode.Memory.Uvmcopy | kernel/vm.c:316-343 | on success both tables have the same entries: the page and the other flags as before, not writable, copy-on-write exactly where it was writable or copy-on-write; both processes see the same bytes and have the same rights; on failure the child is gone, the counts and free pages are as before, and nobody sees a difference |
| CowCode.SameProcsSameAllocs | kernel/vm.c:247-255 | a rolled-back uvmalloc leaves all counts and the set of free pages as before |
| CowCode.ProtectedAllocs | kernel/vm.c:340-342 | a rolled-back uvmcopy leaves all counts and the set of free pages as before |
| CowCode.Memory.FreeMemory | kernel/vm.c:302-307 | uvmfree gives back all pages of a process |
| CowCopy.StorePage | kernel/vm.c:378-382 | the memmove of copyout |
| CowCopy.Copyout | kernel/vm.c:362-389 | writes exactly the given bytes at the given address, breaking sharing where needed; stops exactly at the first page that is not a writable user page, or that needs a copy when memory has run out |
| CowCopy.Copyin | kernel/vm.c:395-414 | reads exactly the bytes of the process; stops exactly at the first page that is not a user page |
| CowCopy.Copyinstr | kernel/vm.c:421-457 | reads up to and including the first NUL; fails exactly without a NUL in the first max readable bytes |
| PageTable.PxDigits | kernel/vm.c:89-106 | the three indices are the nine-bit digits of the page number, the highest for the root |
| PageTable.PxInjective | kernel/vm.c:89-106 | the three 9-bit indices determine the page number |
| PageTable.PathIsLast | kernel/vm.c:94-105 | walk reaches a last-level table exactly when it is on the path of the address |
| PageTable.OwnEntry | kernel/vm.c:94-105 | no two addresses share an entry of a last-level table |
| PageTable.LeafPut | kernel/vm.c:164-168 | writing the entry walk returns changes the map at that address only |
| PageTable.TableLinked | kernel/vm.c:99-102 | linking in an empty table page keeps the tree and does not change the map |
| PageTableCode.AddressSpace.constructor | kernel/vm.c:207-215 | uvmcreate: an empty map |
| PageTableCode.AddressSpace.AddTable | kernel/vm.c:99-102 | a table page comes from the pool, none is lost, the map is unchanged |
| PageTableCode.AddressSpace.Walk | kernel/vm.c:89-106 | finds the entry of the address; fails without alloc exactly when there is none, with alloc only when pages have run out; the map is unchanged |
| PageTableCode.AddressSpace.Mappages | kernel/vm.c:147-175 | maps exactly the pages up to where table pages ran out, all of them on success, and nothing else |
| PageTableCode.AddressSpace.Uvmunmap | kernel/vm.c:181-202 | unmaps exactly the range and hands back its pages in order |
| PageTableCode.UnderNext | kernel/vm.c:285-291 | the tables below the entries of a page are disjoint from each other and from it |
| PageTableCode.EmptyMapNoLeaves | kernel/vm.c:292-293 | without mappings freewalk meets no leaf, so its panic is unreachable |
| PageTableCode.AddressSpace.Freewalk | kernel/vm.c:282-297 | frees each table page below and including t once, and no other; it terminates on the level |
| PageTableCode.AddressSpace.Uvmfree | kernel/vm.c:302-307 | all table pages are back, each once, and each mapped page is handed back once |
| FileLayout.WithBit | kernel/fs.c:75-77 | setting or clearing one bit of a byte leaves the other seven |
| FileLayout.PutBit | kernel/fs.c:75-77 | the same for the bits of a bitmap block |
| FileLayout.PutInode | kernel/fs.c:226-241 | writing an inode into its block leaves the other inodes of the block |
| FileLayout.InodeRoundTrip | kernel/fs.c:226-241 | an inode read back from its words is the inode that was written |
| FileBlocks.OwnershipIsExact | kernel/fs.c:66-105 | a data block is marked in the bitmap exactly when an inode slot or an indirect entry names it, and no two name it |
| FileBlocks.Taken | kernel/fs.c:66-88 | marking and zeroing an unmarked block changes no file; nobody named the block |
| FileBlocks.Returned | kernel/fs.c:92-105 | clearing the mark of a block nobody names changes no file |
| FileBlocks.NameInInode | kernel/fs.c:388-406 | naming a zero block in an empty slot changes no file content |
| FileBlocks.NameInBlock | kernel/fs.c:407-415 | the same for an entry of the indirect block |
| FileBlocks.Rewritten | kernel/fs.c:520-527 | rewriting a data block changes that block of that file, and no other |
| FileBlocks.CutDirect | kernel/fs.c:432-437 | giving up a direct block leaves all other files |
| FileBlocks.CutPointer | kernel/fs.c:439-449 | giving up the indirect block leaves all other files |
| FileBlocks.IndirectBlocks | kernel/fs.c:441-447 | the entries of the indirect block name precisely the remaining blocks of the inode, each once |
| FileCode.FileSystem.Balloc | kernel/fs.c:66-88 | returns the lowest unmarked block, marked and zeroed, or 0 exactly when all are marked |
| FileCode.FileSystem.Bfree | kernel/fs.c:92-105 | clears the mark of a marked block and nothing else |
| FileCode.FileSystem.AllocInInode | kernel/fs.c:388-406 | allocation into an inode slot, and its failure |
| FileCode.FileSystem.AllocInBlock | kernel/fs.c:407-415 | allocation into an indirect entry, and its failure |
| FileCode.FileSystem.EnsureIndirect | kernel/fs.c:400-406 | the indirect block exists afterwards, or the disk is full |
| FileCode.FileSystem.Bmap | kernel/fs.c:383-421 | returns addrs[bn] for the first twelve blocks and word bn - 12 of the indirect block for the others, allocating only what is missing; 0 only when the disk is full; file contents are unchanged; at most two bitmap blocks and one indirect block are logged |
| FileCode.FileSystem.Iupdate | kernel/fs.c:226-241 | puts the inode on disk, changes no file, and logs one block |
| FileIo.Readi | kernel/fs.c:472-496 | returns exactly the requested slice of the file, cut at its size, or -1 when the destination gives out; reads no block that is not mapped, so it allocates and logs nothing |
| FileIo.WriteTurn | kernel/fs.c:516-528 | one turn of the loop of writei |
| FileIo.WriteLoop | kernel/fs.c:516-528 | writes a prefix of the source, all of it unless the disk is full; at most MAXOPBLOCKS blocks are logged for three blocks of source |
| FileIo.Writei | kernel/fs.c:506-539 | -1 for exactly the three refused cases; otherwise the content with exactly [off, off+tot) replaced, the size the larger of the two, every other file unchanged, and tot short only when the disk is full |
| FileIo.WroteContent | kernel/fs.c:516-531 | block by block writing amounts to a splice of the byte sequence |
| FileIo.OthersContent | kernel/fs.c:516-528 | and the content of every other inode is the same |
| FileTrunc.FreeDirect | kernel/fs.c:432-437 | the loop over the direct blocks |
| FileTrunc.FreeIndirect | kernel/fs.c:439-449 | the loop over the indirect block |
| FileTrunc.Itrunc | kernel/fs.c:426-453 | exactly the blocks of the inode become free, its size is 0, every other file is unchanged; the panic of bfree is unreachable |
| FileIo.AccountTotal | kernel/file.c:149-155 | four data blocks, four bitmap blocks, one indirect block and one inode block are at most MAXOPBLOCKS |
| FileTrunc.WriteChunk | kernel/file.c:157-174 | one chunk, with the reason when it is not written as a whole |
| FileTrunc.FileWrite | kernel/file.c:149-175 | the chunk loop writes a prefix of the source at off, returns n exactly when all of it was written, stops short only when off is past the end, the disk is full or the next chunk would pass the largest file size, and no chunk logs more than MAXOPBLOCKS blocks |
| SleepWakeup.StepKeeps | kernel/proc.c:541-585 | each critical section of sleep, wakeup, kill and the scheduler keeps: locks have one holder; a wakeup has left no sleeper behind it |
| SleepWakeup.NoLostWakeup | kernel/proc.c:541-585 | in every run, when a wakeup under the condition lock ends, every process that had called sleep on the channel with that lock is RUNNABLE; none is asleep or about to be |
| ExitWait.CoreKept | kernel/proc.c:280-474 | every step of fork, exit, wait and the scheduler, at lock granularity, keeps the invariant of the process table |
| ExitWaitTheorems.SleepKept | kernel/proc.c:391-435 | and the invariant about sleepers in wait |
| ExitWaitTheorems.StepKeeps | kernel/proc.c:280-501 | both together |
| ExitWaitTheorems.ParentsAreAlive | kernel/proc.c:331-386 | in every run, no parent pointer names an UNUSED or ZOMBIE slot |
| ExitWaitTheorems.NoSleeperWithZombie | kernel/proc.c:347-435 | in every run, whenever wait_lock is free, no process asleep in wait, or about to be, has a zombie child |
| ExitWaitFamily.FamilyKept | kernel/proc.c:280-435 | every step keeps: who forked whom is recorded, the parent of a started process is its forker, or init when that one exits, and no process is lost before wait frees it |
| ExitWaitFamily.ParentIsForker | kernel/proc.c:316-341 | in every run, from the moment it is RUNNABLE until it is freed, the parent of a process is the one that forked it while that one is not in exit, and init once that one has exited |
| ExitWaitFamily.ForkedUntilReaped | kernel/proc.c:280-421 | in every run, a process that fork made is in the table until wait frees it |
| ExitWaitFamily.NoChildrenLeft | kernel/proc.c:402-430 | in every run, wait reports no children only if every process that the caller ever forked has been freed |
| ExitWaitFamily.ReapsForked | kernel/proc.c:402-421 | in every run, wait returns a process that the caller forked, or, to init, one whose forker has exited |
| ExitWaitTheorems.ReapsOnce | kernel/proc.c:402-421 | in every run, wait frees a process that exited, left its CPU and was not returned before, as its current parent, and finds the status that the process gave to exit |
| ExitWaitTheorems.ReapedHadExited | kernel/proc.c:391-435 | in every run, what wait has returned had exited, and a process that still has its slot was not returned |
| ExitWaitTheorems.NoChildrenIsTrue | kernel/proc.c:426-430 | wait finds no children only if there are none |
| ExitWaitTheorems.ZombieHasNoChildren | kernel/proc.c:331-341 | no process is the child of a zombie |
| ExitWaitCode.ProcTable.constructor | kernel/proc.c:233-256 | the table after userinit: a start of the machine, with an empty history |
| ExitWaitCode.ProcTable.Others | kernel/proc.c:280-501 | between calls of the methods other processes may take any steps of the machine |
| CowCode.Memory.Fork | kernel/proc.c:280-297 | fork succeeds exactly when there is a slot and uvmcopy succeeds; then the child sees what the parent sees, and otherwise counts, free pages and what anybody sees are as before |
| ExitWaitCode.ProcTable.WakeupInit | kernel/proc.c:336-338 | the wakeup of reparent makes exactly the sleepers on init RUNNABLE |
| ExitWaitCode.ProcTable.WakeupParent | kernel/proc.c:373-374 | the wakeup of exit, for the parent |
| ExitWaitCode.ProcTable.ReparentOne | kernel/proc.c:335-340 | one turn of the loop of reparent |
| ExitWaitCode.ProcTable.ReparentAll | kernel/proc.c:331-341 | all children, and no other process, have init as parent |
| ExitWaitCode.ProcTable.Exit | kernel/proc.c:347-386 | the process is a zombie with its exit status, its children belong to init, the parent and, if there were children, init are awake; nothing else changes |
| ExitWaitCode.ProcTable.WaitScanAll | kernel/proc.c:401-424 | the scan stops at the first zombie child, or knows whether there are children |
| ExitWaitCode.ProcTable.ReapAt | kernel/proc.c:408-421 | the slot is freed and its pid returned, or nothing changes when the status cannot be copied out |
| ExitWaitCode.ProcTable.Leave | kernel/proc.c:426-430 | wait gives up and nothing has changed |
| ExitWaitCode.ProcTable.SleepInWait | kernel/proc.c:432-433 | the three critical sections of sleep |
| ExitWaitCode.ProcTable.Wait | kernel/proc.c:391-435 | each of the five outcomes exactly in its case, with its whole effect on the table; the status is the one the child gave to exit, and there are no children only when all that the process ever forked have been freed |
| SleepWakeup.LockStepsAreSteps | kernel/sleeplock.c:22-41 | a step of a sleep-lock is one or two steps of the machine with sleep and wakeup |
| SleepWakeup.LockRunsAreRuns | kernel/sleeplock.c:22-41 | every run of sleep-lock steps is, but for who holds which sleep-lock, a run of the machine with sleep and wakeup |
| SleepWakeup.LockWakesAll | kernel/sleeplock.c:35-41 | so in every run of sleep-lock steps, when the wakeup of releasesleep ends, no waiter is asleep or about to be |
| SleepWakeup.LockStepKeeps | kernel/sleeplock.c:22-41 | each step keeps: the holder is recorded, and no waiter is bound to sleep on a free lock |
| SleepWakeup.MutualExclusion | kernel/sleeplock.c:22-41 | in every run a sleep-lock has at most one holder |
| SleepWakeup.NoWaiterWhileFree | kernel/sleeplock.c:22-41 | in every run no process sleeps, or is about to, on a sleep-lock that is free and that nobody is releasing |
| HeapBlocks.ShrunkOrdered | user/umalloc.c:75-84 | taking units from a block leaves an address-ordered, coalesced list |
| HeapBlocks.ShrunkLive | user/umalloc.c:75-84 | the new block is disjoint from every free and every live block |
| HeapBlocks.ShrunkPartition | user/umalloc.c:75-84 | every unit from sbrk is in exactly one free or live block, as before |
| HeapBlocks.InsertedOrdered | user/umalloc.c:30-43 | free keeps the list ordered and coalesced, joining on either side, both or neither |
| HeapBlocks.InsertedLive | user/umalloc.c:30-43 | the other live blocks stay disjoint from the list |
| HeapBlocks.InsertedPartition | user/umalloc.c:30-43 | no unit is lost or doubled |
| Umalloc.InsertedRing | user/umalloc.c:33-42 | the header writes of free produce the ring of the new list |
| Umalloc.ShrunkRing | user/umalloc.c:76-82 | the header writes of malloc produce the ring of the new list |
| Umalloc.HeadersOutside | user/umalloc.c:24-90 | no header that malloc and free write to lies in the payload of a live block |
| Umalloc.RequestFits | user/umalloc.c:52-54 | sbrk is asked for what malloc needs if and only if the request is at most 0x7FFFFFE0 bytes; the units are just enough for the request |
| Umalloc.Heap.constructor | user/umalloc.c:21-22 | no blocks, no core |
| Umalloc.Heap.FindPlace | user/umalloc.c:30-32 | the search of free ends, at the one place where the block belongs |
| Umalloc.Heap.Free | user/umalloc.c:24-44 | the block joins the list at its place and stops being live; no word in the payload of another live block changes |
| Umalloc.Heap.Morecore | user/umalloc.c:46-61 | adds what sbrk gave to the list, enough for the request, or nothing |
| Umalloc.Heap.Take | user/umalloc.c:75-85 | the block that malloc returns |
| Umalloc.Heap.Malloc | user/umalloc.c:63-90 | ends; returns a new live block whose payload is the request rounded up to units, disjoint from all others, or 0 only when no free block is large enough and sbrk fails; no word in the payload of a live block changes |
| VirtioQueue.BlockStarts | kernel/virtio_disk.c:218 | the first sector of a block is at its byte of the disk if and only if the block number is below 2^31 |
| VirtioQueue.DescriptorsAddUp | kernel/virtio_disk.c:157-213 | free descriptors and three for each request in flight are NUM |
| VirtioQueue.PendingCount | kernel/virtio_disk.c:272-277 | no more entries are unread than requests in flight |
| VirtioQueue.RingAppend | kernel/virtio_disk.c:272-277 | writing the next ring entry keeps all unread ones |
| VirtioQueue.WrappedPlace | kernel/virtio_disk.c:272 | the 16-bit index names the same slot before and after it wraps |
| Virtio.NewEntry | kernel/virtio_disk.c:272-277 | there is room in the ring for each request that gets descriptors |
| Virtio.Disk.constructor | kernel/virtio_disk.c:144-146 | all descriptors free, rings empty |
| Virtio.Disk.AllocDesc | kernel/virtio_disk.c:157-166 | the lowest free descriptor, or -1 exactly when there is none |
| Virtio.Disk.FreeDesc | kernel/virtio_disk.c:170-182 | the descriptor is free and cleared, and waiters wake |
| Virtio.Disk.Alloc3Desc | kernel/virtio_disk.c:202-213 | three different descriptors exactly when three are free; otherwise all is given back |
| Virtio.Disk.Submit | kernel/virtio_disk.c:238-277 | the request owns its three descriptors, shared with none, and its command header says type and sector |
| Virtio.Disk.Start | kernel/virtio_disk.c:216-281 | virtio_disk_rw up to its sleep: a request for the block is published exactly when three descriptors are free; a process waits for descriptors only while fewer are |
| Virtio.Disk.DeviceTakes | kernel/virtio_disk.c:271-277 | the device finds the next published chain: the command, the data, which it may write exactly when the request is a read, and the status; the sector is at byte blockno * BSIZE of the disk, and the sectors of requests for different blocks do not overlap |
| Virtio.Disk.DeviceCompletes | kernel/virtio_disk.c:309-314 | the device completes any chain it has, in any order, without overwriting an unread entry |
| Virtio.Disk.IntrOne | kernel/virtio_disk.c:312-323 | one turn of the interrupt loop clears b->disk of the request that completed, which was set |
| Virtio.Disk.Intr | kernel/virtio_disk.c:295-327 | each completion since the last interrupt clears its buffer, once and in order, and no other buffer |
| Virtio.Disk.FreeChain | kernel/virtio_disk.c:186-197 | frees the three descriptors of the chain |
| Virtio.Disk.Finish | kernel/virtio_disk.c:288-289 | the request is gone and three more descriptors are free |
| ShellGrammar.SkipSpace | user/sh.c:273-274 | skips all spaces and nothing else |
| ShellGrammar.WordEnd | user/sh.c:298-299 | the end of the word |
| ShellGrammar.GetToken | user/sh.c:267-309 | moves on unless at the end; a word token is a whole word of the text |
| ShellTokens.NothingLost | user/sh.c:267-309 | the tokens of any text, put together, are the text without its spaces |
| ShellTokens.RenderToks | user/sh.c:267-309 | a text is read as the tokens it was written with, whatever the space between them, as long as two words, or > and >, do not touch |
| ShellSentences.RedirsAccept | user/sh.c:376-398 | redirections wrap the command in the order in which they stand, the first one innermost |
| ShellSentences.RedirsOnly | user/sh.c:376-398 | and whatever parseredirs accepts is such |
| ShellSentences.ArgsAccept | user/sh.c:432-443 | words and redirections in any order: the words go to the exec command in their order, the redirections around it in theirs |
| ShellSentences.ArgsOnly | user/sh.c:432-443 | and whatever the loop accepts is such, with fewer than MAXARGS words |
| ShellSentences.UnitAccept | user/sh.c:401-447 | a simple command, or a line in parentheses with its redirections, is read as what it means |
| ShellSentences.UnitOnly | user/sh.c:401-447 | and whatever parseexec accepts is one of the two |
| ShellSentences.PipeAccept | user/sh.c:363-373 | a | b | c is read as pipes nested to the right |
| ShellSentences.PipeOnly | user/sh.c:363-373 | and whatever parsepipe accepts is such |
| ShellSentences.BacksAccept | user/sh.c:351-354 | each & puts the command before it in the background |
| ShellSentences.BacksOnly | user/sh.c:351-354 | and the loop takes exactly the ampersands |
| ShellSentences.LineAccept | user/sh.c:346-360 | the tokens of a sentence, anywhere in a text, are read as what it means, up to the closing parenthesis or the end |
| ShellSentences.LineOnly | user/sh.c:346-360 | and whatever parseline accepts is a sentence |
| ShellSentences.ParsesExactly | user/sh.c:329-447 | parsecmd accepts a text if and only if it is a sentence of the grammar, and returns what the sentence means |
| ShellRoundTrip.ParsesAsWritten | user/sh.c:329-447 | the text of a sentence in any layout is parsed to what the sentence means |
| ShellRoundTrip.LineOfTree | user/sh.c:329-447 | every command tree is the meaning of a sentence with parentheses only around what the grammar would read otherwise |
| ShellRoundTrip.RoundTrip | user/sh.c:329-447 | parsing the printed text of any tree with at most nine plain words per command gives the tree |
| Shell.SkipSpaces | user/sh.c:273-274 | the loop over spaces |
| Shell.NextToken | user/sh.c:267-309 | gettoken on the buffer returns what GetToken says |
| Shell.PeekToken | user/sh.c:312-321 | peek on the buffer |
| Shell.Redirs | user/sh.c:376-398 | parseredirs on the buffer |
| Shell.Args | user/sh.c:432-443 | the loop of parseexec on the buffer |
| Shell.Simple | user/sh.c:417-447 | parseexec on the buffer |
| Shell.Block | user/sh.c:401-414 | parseblock on the buffer |
| Shell.Pipeline | user/sh.c:363-373 | parsepipe on the buffer |
| Shell.Backs | user/sh.c:351-354 | the loop of parseline over & on the buffer |
| Shell.Line | user/sh.c:346-360 | parseline on the buffer; the mutual recursion ends because text is consumed |
| Shell.StopsBetweenWords | user/sh.c:451-494 | nulterminate writes only where no word character stands |
| Shell.WordReads | user/sh.c:451-494 | after nulterminate each word reads as its token |
| Shell.Nulterminate | user/sh.c:451-494 | writes NUL at exactly the ends of the words |
| Shell.Parsecmd | user/sh.c:329-343 | accepts exactly the sentences and returns what they mean, and every argument and file name in the buffer is a C string equal to its token |
| Pipe.CountersTell | kernel/pipe.c:88-123 | the wrapped 32-bit counters tell full and empty apart, and name the slots of the unwrapped ones |
| Pipe.HoldsMore | kernel/pipe.c:95 | writing one byte keeps all pending bytes |
| Pipe.PipeRing.constructor | kernel/pipe.c:23-55 | an empty pipe, open at both ends |
| Pipe.PipeRing.WriteSome | kernel/pipe.c:83-98 | from one wait to the next pipewrite appends a part of the source, in order; it stops exactly when the pipe is closed or the writer killed, the ring is full, all is written, or the source gives out; readers wake unless the writer was killed |
| Pipe.PipeRing.ReadSome | kernel/pipe.c:120-126 | piperead returns the next pending bytes in order, as many as asked for, pending or accepted, and wakes all writers |
| Pipe.PipeRing.Await | kernel/pipe.c:112-119 | a reader sleeps exactly while nothing is pending and the write end is open |
| Pipe.PipeRing.Close | kernel/pipe.c:59-74 | the pipe is freed exactly when both ends are closed, and all who wait for the closed end wake |
| Pipe.PipeRing.PutSome | kernel/pipe.c:83-98 | the loop of pipewrite up to the next sleep |
| Pipe.ReaderPassedBy | kernel/pipe.c:84-87 | a reader can sleep on a pipe that is not empty, when a writer is killed after its first byte |

## Left out

- RedoLogCode.Log.WriteLogBlocks: asks that no other process uses a buffer of the log or of a logged block, because a method does not wait for a sleep-lock; waiting is the `Lock` step of the machine, over which the theorems range.
- RedoLogCode.Log.WriteHeader: as WriteLogBlocks.
- RedoLogCode.Log.InstallTrans: as WriteLogBlocks; at recovery no other process runs yet.
- RedoLogCode.Log.CommitTransaction: as WriteLogBlocks.
- RedoLogCode.Log.EndOperation: as WriteLogBlocks, for the last operation.
- RedoLogCode.Log.WriteToLog: asks that the block is a home block and that an appending call is within the allowance of its operation, which is what callers of log_write promise.
- FileCode.FileSystem.Bmap: at most MAXFILE blocks, as the panic at its end demands.
- FileIo.Writei: takes the source as bytes; a source that cannot be copied in part way leaves a changed buffer that is neither logged nor pinned, and is not modelled.
- FileIo.WriteTurn: as Writei.
- FileIo.WriteLoop: as Writei.
- FileTrunc.WriteChunk: as Writei.
- FileTrunc.FileWrite: as Writei.
- CowCode.Memory.CowHandler: uses the table of the process that faults, which is what its callers pass, for addresses below MAXVA.
- CowCode.Memory.Uvmalloc: a failure to get a page-table page is the parameter `tables`, not a page of the same pool; `PageTableCode` has the tables themselves.
- CowCode.Memory.GrowOne: as Uvmalloc.
- CowCode.Memory.Uvmcopy: as Uvmalloc; fork calls it when allocproc has found a slot, and `Fork` has the other case.
- CowCode.Memory.Fork: as Uvmalloc; allocproc finds no slot when NPROC processes exist, and its failure to get a trapframe page is not modelled.
- PageTableCode.AddressSpace.Mappages: asks that the range is not mapped yet, where the source panics.
- PageTableCode.AddressSpace.Uvmunmap: asks that the range is mapped, where the source panics.
- ExitWaitCode.ProcTable.Exit: asks that no other process holds its own p->lock, because the method does not wait for it; waiting is in the machine.
- ExitWaitCode.ProcTable.Wait: as Exit, and runs until it returns or sleeps; what happens after it wakes is in the machine.
- Umalloc.Heap.Malloc: asks for a request of at most 0x7FFFFFE0 bytes; `RequestFits` shows that sbrk is asked for the wrong amount for all others.
- Pipe.PipeRing.ReadSome: the byte whose copyout fails is consumed and lost, as in the source.
- Virtio.Disk.Start: does not model memory barriers, lengths of descriptors or the content of the blocks that the device transfers.
- sleep, wakeup and sleep-locks are modelled as a machine only; the loop of acquiresleep is a sequence of its steps.
- The methods of the log, memory and process-table classes run without interleaving inside a method; interleaving is covered by the machines.
- The free list of kalloc is a sequence, not a chain through the pages.
- Fairness: no process is claimed to run eventually, only that it is RUNNABLE.
- Crashes in the file system layer: block ownership is proved for runs without a crash; the log theorems say what a crash leaves.
- The inode table with its reference counts and locks (ialloc, iget, iput, ilock), directories, path names and link counts.
- The shell's runcmd and its cd; `Mode` stands for the open flags and descriptor of <, > and >>.
- exec, uvmclear and the first process's program.
- Preemption inside a critical section; spinlocks are taken as atomic critical sections.
- Hardware: CSRs, TLB fences, PLIC, UART, timer, trampoline, context switch, boot, and the virtio handshake.
- The RAM disk, the console, printf, string routines, system-call arguments, and the other user programs.
