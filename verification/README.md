# MiniOS in Dafny

A model of the MiniOS kernel (an xv6-derived RISC-V kernel with copy-on-write
fork, a best-fit contiguous page allocator and an ageing priority scheduler)
and of two of its user programs, with proofs about whole runs.

Protocols and operations are functions on a state value, about which the
theorems are proved. Where the source changes state in loops there is also a
class with its fields and loops, whose contracts tie it to those functions.
Copy-on-write memory is tied to its parts: the methods of `CowMachine.Machine`
walk the page tables of `PageTables`, which allocate from the free list and
counts of `PageAllocator`, and each is an operation of the abstract model.
`dafny verify dfyconfig.toml` checks the whole project.

| component | files | what is proved |
|---|---|---|
| copy-on-write memory | CowMemory, CowInvariant, CowRefinement, CowRuns, CowProgress, CowConcrete, CowMachine | every run of spawn, fork, fault, store, copyout, copyin, grow, shrink and exit, on three-level page tables and the page allocator, behaves as if fork copied all memory at once; reference counts are exact; no call fails without want of pages or a bad argument |
| page allocator | FreeList, PageAllocator | the free list is ordered, disjoint, maximally coalesced and exact; allocation is best fit |
| page tables | Sv39, PageTables | the three-level tree, in pages from the allocator, is a map from page number to entry; freeing it never meets a leaf and frees each page once |
| redo log | RedoLog, LogRuns, LogHistory, LogKernel | crash safety and atomicity of operations over every run with crashes at every disk write, in the protocol and in the order of the writes of the loops; log space and pins; exactly which runs panic |
| buffer cache | BufferCache, BufferHistory, BufferRing | cache and disk together are a plain block map; disk, pins and recycling order follow from the history of the run; the ring is a permutation of the buffers in recency order |
| scheduler | Scheduler, SchedulerHistory | bounded waiting for slots up to 50, and starvation above; what waiting earns and running costs |
| fork, exit, wait | ExitWait | no forgotten zombie, each exit reaped at most once with its status; what each call does on its own |
| sleep locks | SleepLock | mutual exclusion, no lost wakeup, and the lock is handed on |
| file system blocks and files | FsBlocks, FsInodes, FsFiles, FsRuns, FsHistory, FsKernel | exact block ownership; every run is a run on plain byte sequences, with or without holes |
| virtio disk driver | VirtioDisk | descriptor chains, ring entries and completions; a request gets through |
| pipe | Pipe | FIFO over every interleaving, 32-bit wrap-around included; each write adds exactly a prefix of its source; how much each call moves and when it sleeps |
| user malloc | UserMalloc | ordered circular list, disjoint live blocks, every unit accounted for |
| grep's matcher | Matcher | sound and complete for the language of the pattern |

## Conventions

- A concurrent protocol is a transition system. Its steps are the critical
  sections of the source (or single lock operations and assignments, in
  SleepLock and ExitWait), and its theorems are about every sequence of steps.
- Answers of parts outside a model (in CowMemory, which page the allocator
  returns; whether user memory can be read or written, when a process is
  killed, what sbrk returns) are parameters, and every theorem is for all their
  values.
- A kernel panic is a flag or a result; where a panic is claimed to be
  unreachable this is part of a theorem.
- Integers are unbounded except where the source's width matters: pipe
  counters (32 bits), virtio ring indices (16 bits), file offsets (32 bits),
  the argument of sbrk (32 bits, signed), words of indirect blocks.
- Fields that the kernel does not have (histories, the disks after each single
  write, operation numbers, serial
  numbers, the list a chain of pointers spells out) only record what happened
  and are named as such where they are declared.

## Where the code does not keep what it says

- `log_write` (kernel/log.c:221) checks for a full log before it looks for the
  block, so an operation within its budget can panic by logging again a block
  that is already in a full log. `LogRuns.LogWritePanics` gives the exact
  condition and `LogRuns.AbsorbedWritePanics` a run that gets there.
- `NBUF` equals `LOGBLOCKS` (kernel/param.h:10-11), so a commit of a full log
  has every buffer pinned and panics in `bget` at its first log block:
  `LogRuns.FullLogPanics` is a run that ends there, `LogRuns.CommitCompletes`
  and `LogRuns.CommitAlone` say exactly when a commit completes, and
  `BufferCache.AllPinnedPanics` is the same run seen from the cache.
- The scheduler is described as preventing starvation. It does for slots 0 to
  50 (`Scheduler.PickedBy`); above, a process that only computes can wait for
  ever (`Scheduler.HighSlotsStarve`, `Scheduler.NeverRuns`).
- `pipewrite` returns without `wakeup` when it finds its process killed
  (kernel/pipe.c:95-97), also after it has added bytes. A reader can then sleep
  on a pipe that is not empty: `Pipe.ReaderForgotten` is the exact condition,
  `Pipe.ForgottenReader` an example.
- `morecore` passes a byte count to `sbrk(int)`. From 2^31 - 31 bytes on, the
  count that arrives differs from the one recorded, and it can be negative:
  `UserMalloc.SbrkExact`, `UserMalloc.SbrkShrinks`. `UserMalloc.Heap.Malloc`
  says exactly for which requests that matters.
- `compact_memory` is documented as moving pages. The guard of its relocating
  branch reads counts at the wrong index and is never true:
  `PageAllocator.Kmem.CompactMemory`.

## Model

| member | source | states |
|---|---|---|
| CowRuns.RunRefines | kernel/vm.c:202-526 | in every run, from any valid state, each process's memory equals that of the model in which fork copies everything at once, operation by operation and result by result; counts stay exact and no panic (zero count, remap, leaf in freewalk) is reached |
| CowRuns.ExecRefines | kernel/vm.c:202-526 | one operation: a fault or failed fork changes nobody's memory, a store or copyout exactly the bytes it reports and only in its process, copyin reads exactly those bytes, growing adds zeros, shrinking cuts, exit removes |
| CowRuns.BootValid | kernel/kalloc.c:41-65 | the memory at boot, every page free, is a valid start for these runs |
| CowRuns.ForkEffect | kernel/proc.c:268-323 | fork gives the child the parent's memory and size, or on failure leaves every process as it was and no child |
| CowRuns.VmFaultEffect | kernel/vm.c:468-526 | a fault keeps the invariant, changes no page content of any process, and if it succeeds leaves the page mapped writable |
| CowRuns.FaultThenStore | kernel/vm.c:468-526 | after a successful fault on an absent or copy-on-write user page the store succeeds; the fault fails only for want of a page |
| CowRuns.CopyOutEffect | kernel/vm.c:358-391 | copyout changes exactly the prefix of bytes it copied, in that process only, and returns 0 exactly if that is all of them |
| CowRuns.CopyInEffect | kernel/vm.c:396-419 | copyin returns a prefix of the process's bytes, all of them exactly if it returns 0, and changes no content |
| CowRuns.GrowEffect | kernel/proc.c:245-264 | eager growth adds zero pages, or on failure changes nothing |
| CowRuns.GrowLazyEffect | kernel/sysproc.c:39-65 | lazy growth changes the size only; the new pages read as zeros |
| CowRuns.ShrinkEffect | kernel/vm.c:256-268 | shrinking unmaps exactly the pages beyond the new size |
| CowRuns.StoreEffect | kernel/vm.c:306-340 | a store to a writable page is seen by no other process |
| CowProgress.CopyInMapped | kernel/vm.c:396-419 | copyin from mapped user pages reads everything |
| CowProgress.CopyOutMapped | kernel/vm.c:358-391 | copyout to writable user pages stores everything |
| CowProgress.CopyOutShared | kernel/vm.c:376-379 | copyout to a page that is still shared returns -1 and changes nothing |
| CowProgress.ForkSucceeds | kernel/proc.c:268-323 | fork fails only for want of page-table pages or of the new process's own pages |
| CowProgress.GrowThenStore | kernel/proc.c:245-264 | a store to a page that growproc has just added succeeds exactly if the page was asked for with PTE_W |
| CowRefinement.UvmCopyEffect | kernel/vm.c:306-340 | sharing pages with the child changes no content of the parent, gives the child the same content, and is undone completely on failure |
| CowRefinement.UvmAllocEffect | kernel/vm.c:226-250 | pages added read as zeros; on failure the pages added so far are gone again |
| CowRefinement.UvmUnmapEffect | kernel/vm.c:202-222 | exactly the pages in the range read as zeros afterwards, and only in this process |
| CowRefinement.FreeProcEffect | kernel/proc.c:164-181 | freeing a process gives back its pages and tables and changes nobody else's memory |
| CowRefinement.WriteOnly | kernel/vm.c:306-340 | a writable mapping is the only one, so writing through it changes one page of one process |
| CowInvariant.MapFreshInv | kernel/vm.c:226-250 | mapping a fresh page keeps counts exact (leaves plus table uses), zero exactly for free pages, and one for writable and table pages |
| CowInvariant.UnmapOneInv | kernel/kalloc.c:92-162 | so does dropping one mapping, which frees the page exactly when it was the last |
| CowInvariant.MapSharedInv | kernel/kalloc.c:311-320 | so does mapping a page once more with its count raised |
| CowInvariant.CopyLeafInv | kernel/vm.c:498-518 | so does replacing a shared page by a private copy with its count lowered, without a free at zero being needed |
| CowInvariant.SetFlagsInv | kernel/vm.c:318-325 | so does withdrawing write permission |
| CowInvariant.FreeTablesInv | kernel/vm.c:272-298 | so does giving back a page-table tree without leaves |
| CowInvariant.LeafAlone | kernel/kalloc.c:92-123 | a page mapped by a leaf is no table page, and a second mapping means a count of at least two |
| CowMachine.Machine.RunAll | kernel/vm.c:202-526 | any sequence of spawn, fork, fault, store, copyout, copyin, grow, shrink and exit on page-table words, free list and counts has the results, and leaves the private memories, of a kernel whose fork copies all memory at once; and no call of it fails, or copies less than asked, but for a bad argument or too few free pages |
| CowMachine.Machine.Do | kernel/vm.c:202-526 | each call is an operation of the abstract model, for the choices that the allocator and the walks have made; it fails only for a reason in the state: no or an existing process, a size beyond TRAPFRAME, a page that may not be accessed, or fewer free pages than a stated number |
| CowMachine.Machine.constructor | kernel/kalloc.c:41-65 | memory at boot is a valid start with no process |
| CowMachine.Machine.Fork | kernel/proc.c:269-323 | kfork on trees and counts is the model's fork; it fails only with fewer than 6 free pages and 2 for each page of the parent, and then page tables and pages are given back |
| CowMachine.Machine.Spawn | kernel/proc.c:112-159 | allocproc takes at most 6 free pages for trapframe and tree, or leaves everything as it was, and that only with fewer than 6 |
| CowMachine.Machine.Exit | kernel/proc.c:165-181 | freeproc gives back user pages at their last reference, the whole tree and the trapframe |
| CowMachine.Machine.Unmap | kernel/vm.c:202-222 | uvmunmap's loop over walks, kfree and cleared words is the model's unmapping |
| CowMachine.Machine.UnmapOne | kernel/vm.c:211-220 | one turn of it: exactly that leaf goes, and its page at the last reference |
| CowMachine.Machine.MapNew | kernel/vm.c:236-247 | kalloc, memset and mappages are the model's mapping of a zeroed page; they fail exactly if there are fewer free pages than one and the tables that the tree lacks on the way, and take exactly so many otherwise; a failure is undone |
| CowMachine.Machine.Alloc | kernel/vm.c:226-250 | uvmalloc's loop on words and counts is the model's; it fails only with fewer than 3 free pages for each page asked for, and then unmaps what it has mapped |
| CowMachine.Machine.Withdraw | kernel/vm.c:321-325 | clearing PTE_W and setting PTE_COW in the word withdraws write permission in the model and nothing else |
| CowMachine.Machine.Attach | kernel/vm.c:327-332 | mapping the frame in the child and incref are the model's shared mapping, and fail exactly if there are fewer free pages than tables that the child lacks on the way |
| CowMachine.Machine.Share | kernel/vm.c:314-332 | one turn of uvmcopy's loop on both page tables and the count is the model's sharing of one page; it fails exactly if the page is there and the child's tree lacks more tables than pages are free |
| CowMachine.Machine.Copy | kernel/vm.c:306-340 | uvmcopy's loop is the model's, for the choices of its walks; it fails only with fewer than 2 free pages for each page of the parent, and then unmaps what the child has got |
| CowMachine.Machine.Fault | kernel/vm.c:468-526 | vmfault on words and counts: lazy page, private copy or page taken over; it returns 0 if and only if the address is not below the size, the page is there and is no copy-on-write page, or there are too few free pages (for an absent page, one and the missing tables; for a shared one, one) |
| CowMachine.Machine.CopyPage | kernel/vm.c:500-512 | its copying branch: a new page with the old one's bytes in its place, and one reference less; none exactly if no page is free |
| CowMachine.Machine.Locate | kernel/vm.c:127-145 | walkaddr or vmfault finds the page that the user's leaf maps; none only if there is no page and no fault gives one, or at most one page is free |
| CowMachine.Machine.Put | kernel/vm.c:358-391 | copyout's loop stores exactly the bytes of the model's copy, in the pages that the user's leaves map, and stops where it does: at a page that is beyond MAXVA, not there or not writable, or with at most one page free |
| CowMachine.Machine.Get | kernel/vm.c:396-419 | copyin's loop reads exactly the bytes of the model's copy and stops where it does: at a page that is not there, or with at most one page free |
| CowMachine.Machine.Grow | kernel/proc.c:246-264 | growproc upwards is the model's: zeroed pages and the new size, or neither; it fails only beyond TRAPFRAME or with fewer than 3 free pages for each new page |
| CowMachine.Machine.Shrink | kernel/proc.c:246-264 | growproc downwards is the model's: the pages beyond the new size go |
| CowConcrete.AbsStep | kernel/vm.c:152-222 | mappages and changes of leaves act on the abstract page table of that process and add its table pages, and nothing else changes |
| CowConcrete.AbsTake | kernel/kalloc.c:164-225 | kalloc is the model's, for the page it returns |
| CowConcrete.AbsKfree | kernel/kalloc.c:92-162 | kfree of a user page is the model's |
| CowConcrete.AbsSpawn | kernel/proc.c:112-159 | a new tree and trapframe are the model's new process |
| CowConcrete.AbsReap | kernel/proc.c:165-181 | giving them back is the model's end of a process |
| CowConcrete.SharedBits | kernel/vm.c:318-325 | the word arithmetic of uvmcopy: every flag but PTE_W and PTE_COW stays |
| CowConcrete.OwnBits | kernel/vm.c:514-517 | the word arithmetic of vmfault for a page with one reference |
| FreeList.Canonical | kernel/kalloc.c:131-162 | an ordered, gap-separated list is determined by its set of free pages |
| FreeList.InsertOrdered | kernel/kalloc.c:131-162 | returning a run keeps the list ordered, disjoint and maximally coalesced |
| FreeList.InsertFree | kernel/kalloc.c:131-162 | the free pages afterwards are exactly those before and the run |
| FreeList.TakeOrdered | kernel/kalloc.c:164-225 | taking from a hole keeps the list ordered, disjoint and maximally coalesced |
| FreeList.TakeFree | kernel/kalloc.c:164-225 | the free pages afterwards are exactly those before without the run taken |
| FreeList.InsertTaken | kernel/kalloc.c:92-225 | returning a run just taken restores the same list |
| FreeList.BestFitUnique | kernel/kalloc.c:172-186 | the lowest of the smallest holes that fit is one hole |
| PageAllocator.Kmem.constructor | kernel/kalloc.c:41-65 | after kinit every page from end to PHYSTOP is free, in one run |
| PageAllocator.Kmem.KfreeContig | kernel/kalloc.c:92-162 | frees exactly the run, drops shared single pages, and panics exactly for a bad address, a zero count or a shared page in a longer run |
| PageAllocator.Kmem.DropRefs | kernel/kalloc.c:98-121 | the first critical section: every count of the run drops by one |
| PageAllocator.Kmem.LinkIn | kernel/kalloc.c:131-162 | the second critical section: the list becomes the coalescing insertion of the run |
| PageAllocator.Kmem.FindPlace | kernel/kalloc.c:137-142 | the search loop finds the neighbours of a block in address order |
| PageAllocator.Kmem.KallocContig | kernel/kalloc.c:164-225 | takes the first pages of the best fit, and returns null exactly if no hole fits |
| PageAllocator.Kmem.FindBest | kernel/kalloc.c:172-186 | the search loop finds the best fit, its predecessor and its position |
| PageAllocator.Kmem.Cut | kernel/kalloc.c:203-213 | unlinks the block or leaves its rest in its place |
| PageAllocator.Kmem.Kalloc | kernel/kalloc.c:228 | one page: null exactly if no count is zero; otherwise a page with count zero, whose count becomes one |
| PageAllocator.Kmem.Kfree | kernel/kalloc.c:92-162 | one page: panics exactly outside the range or on a zero count; otherwise its count drops by one and no other changes |
| PageAllocator.Kmem.AllocThenFree | kernel/kalloc.c:92-225 | freeing what was just allocated restores list and counts |
| PageAllocator.Kmem.CompactMemory | kernel/kalloc.c:231-309 | no page moves and nothing changes |
| Sv39.MakeParts | kernel/riscv.h:367-372 | PA2PTE, PTE2PA and PTE_FLAGS are inverse to each other (section 4.4 of the RISC-V Privileged Architecture 20211203) |
| Sv39.IndexInjective | kernel/riscv.h:374-383 | below MAXVA the three indices determine the page |
| Sv39.WalkTree | kernel/vm.c:104-122 | in a well-formed tree the walk ends at the table page that holds the leaf entry |
| Sv39.AddPageTree | kernel/vm.c:104-122 | a fresh zeroed table page leaves a well-formed tree |
| Sv39.AddPageLeaf | kernel/vm.c:104-122 | and changes no lookup |
| Sv39.SetEntryTree | kernel/vm.c:152-184 | writing a leaf entry leaves a well-formed tree |
| Sv39.SetEntryLeaf | kernel/vm.c:152-222 | and changes that page's lookup and no other |
| Sv39.Frame | kernel/vm.c:104-122 | lookups depend on the pages of the tree only |
| PageTables.Mmu.Walk | kernel/vm.c:104-122 | the loop finds the table page of the leaf, taking zeroed pages from the allocator for that tree only if asked; it then returns 0 exactly if fewer pages are free than the tree lacks on the way, and takes exactly those otherwise; no lookup of any table changes |
| PageTables.Mmu.Create | kernel/vm.c:188-199 | an empty tree apart from all others, or 0 |
| PageTables.Mmu.MapPage | kernel/vm.c:166-177 | one turn of mappages: exactly that lookup changes, or none, exactly if fewer pages are free than the tree lacks on the way or the page is mapped |
| PageTables.Mmu.MapPages | kernel/vm.c:152-184 | the loop maps exactly the pages it reports; every other lookup in every table is as before |
| PageTables.Mmu.SetLeaf | kernel/vm.c:321-325 | overwriting a leaf word changes exactly that lookup |
| PageTables.Mmu.NewPagetable | kernel/proc.c:184-215 | a page table with exactly trampoline and trapframe, of at most 5 pages; or 0, only with fewer than 5 free pages, with every page given back and every table as before |
| PageTables.Mmu.Unmap | kernel/vm.c:202-222 | the loop unmaps exactly the range; every other lookup is as before |
| PageTables.Mmu.FreeWalk | kernel/vm.c:272-289 | panics exactly if a leaf is left, and otherwise frees each page of the subtree once |
| PageTables.Mmu.FreeTree | kernel/vm.c:291-298 | a page table without leaves is given back, each page once |
| PageTables.Mmu.FreePagetable | kernel/proc.c:218-225 | once trampoline, trapframe and user pages are unmapped no leaf is left, so the whole tree is freed and no other table changes |
| LogRuns.CrashSafe | kernel/log.c:66-204 | from any disk a kernel may have left behind, after any run with any number of crashes, recovery leaves what that disk recovers to with exactly the committed transactions applied in order; each operation has all its writes in them or none; a running system sees those plus the current transaction |
| LogRuns.RunInvariant | kernel/log.c:66-236 | the invariant behind it, over every sequence of operations, single disk writes and crashes |
| LogRuns.NextKeeps | kernel/log.c:66-236 | every step keeps it |
| LogRuns.CommitsAtHeader | kernel/log.c:194-204 | the set of committed transactions changes only at the first header write, by the whole current transaction |
| LogRuns.SpaceAndPins | kernel/log.c:127-236 | the log never exceeds LOGBLOCKS, outstanding counts the running operations, none runs during commit or recovery, a logged block has exactly one pin until it is installed |
| LogRuns.LogWritePanics | kernel/log.c:215-236 | a log_write within its operation's budget panics if and only if the log is full, and then the block is in it already |
| LogRuns.OnlyPanic | kernel/log.c:147-236 | in every reachable state a step panics if and only if it logs a block once more that is already in a full log, or commit needs a buffer while its blocks not yet installed and the buffers of others fill the cache; no other panic of the log is reachable |
| LogRuns.AbsorbedWritePanics | kernel/log.c:215-236 | a run of three operations within budget that reaches the first of these panics |
| LogRuns.FullLogPanics | kernel/log.c:179-204 | the same three operations end, and the commit of their thirty blocks panics at its first write, with nothing committed |
| LogRuns.OverlayReplay | kernel/log.c:180-192 | writing the cached blocks at once is replaying every log_write in order |
| LogRuns.CommitHeadDurable | kernel/log.c:103-115 | the header write adds exactly the current transaction to what recovery yields |
| LogRuns.InstallOne | kernel/log.c:66-84 | installing one block changes nothing about what recovery yields |
| LogRuns.WriteSpace | kernel/log.c:127-143 | reservation by begin_op always leaves room for a new block of an operation within budget |
| LogRuns.CommitCompletes | kernel/log.c:179-204 | without a crash a commit of n blocks takes 2n + 2 disk writes; it ends with the log empty if and only if each finds a buffer beside those still pinned and those in use by others, and otherwise panics; its transaction is committed if and only if that holds up to the first header write |
| LogRuns.CommitAlone | kernel/log.c:179-204 | with no other buffer in use a commit completes if and only if it has fewer than NBUF blocks; otherwise it panics before its first write |
| LogRuns.RecoverCompletes | kernel/log.c:117-124 | without a crash a recovery of n blocks is over after n + 1 disk writes, without a panic |
| LogHistory.HistoryIsAsked | kernel/log.c:215-236 | in every run, crashes included, the history that CrashSafe speaks of is exactly the log_writes made by running operations within budget while the log had room, in order |
| LogHistory.OneOpCommits | kernel/log.c:127-204 | in every run, an operation on its own that begins, logs a block and ends is committed after four disk writes, with that block home and every other home block as before |
| LogHistory.CrashThenBoot | kernel/log.c:53-124 | after any run a crash loses what is not on the disk and nothing else, and the next boot is running after one disk write for each logged block and one for the header, with exactly the committed transactions in the home blocks |
| RedoLog.HeadRoundTrip | kernel/log.c:86-115 | reading a written header gives its entries |
| RedoLog.InstallAgain | kernel/log.c:66-84 | installing some blocks before installing all changes nothing |
| RedoLog.CommitPoint | kernel/log.c:103-115 | after the header write recovery yields the home blocks with all logged blocks over them |
| RedoLog.LogBlockStep | kernel/log.c:180-192 | writing log blocks under an empty header changes nothing for recovery |
| RedoLog.ClearStep | kernel/log.c:117-124 | clearing the header after installing changes nothing for recovery |
| RedoLog.FullRecoveryHome | kernel/log.c:117-124 | a complete recovery leaves what recovery yields, and an empty log |
| LogKernel.Log.constructor | kernel/log.c:53-63 | initlog recovers the disk; all log space is free; from every disk on the way recovery yields the same |
| LogKernel.Log.Recover | kernel/log.c:117-124 | recover_from_log installs the committed blocks and clears the log, without a panic; from the disk after each of its single writes recovery yields the same |
| LogKernel.Log.ReadHead | kernel/log.c:86-98 | the loop reads the header's entries |
| LogKernel.Log.WriteHead | kernel/log.c:103-115 | the loop writes the entries into the header block, in one disk write, and leaves the rest of it; it panics exactly if no buffer is left for the header |
| LogKernel.Log.WriteLog | kernel/log.c:179-192 | the loop copies every entry's cached block to its place in the log, one disk write each in this order, or panics at the first, with the disk unchanged, exactly if no buffer is left |
| LogKernel.LoggedEffect | kernel/log.c:179-192 | exactly those log blocks change |
| LogKernel.Log.InstallTrans | kernel/log.c:66-84 | the loop copies every block home, one disk write each in this order, unpinning each once unless recovering; it panics exactly if no buffer is left for the first |
| LogKernel.Log.DoCommit | kernel/log.c:194-204 | the home blocks become those before with the cached blocks over them, the log is empty, nothing is pinned; or, exactly if its blocks and the buffers of others fill the cache, it panics with disk and log unchanged; of the disks after each of its single writes, those before some write recover to the home blocks before and those from it on to the new ones |
| LogKernel.HeaderDecides | kernel/log.c:194-204 | if every disk before the header write recovers to the old home blocks and the rest to the new ones, the commit is all or nothing at that write |
| LogKernel.LogTrailYields | kernel/log.c:179-192 | from the disk after each log block is written recovery yields the home blocks as they are |
| LogKernel.InstallTrailYields | kernel/log.c:66-84 | from the disk after each block is installed recovery yields what it did before |
| LogKernel.Log.BeginOp | kernel/log.c:127-143 | an admitted operation is sure of MAXOPBLOCKS new blocks beside all that the others may still log, and log_write and end_op keep it so until its end_op; it is admitted exactly if no commit runs and that space is left |
| LogKernel.Log.LogBlock | kernel/log.c:215-236 | panics exactly for a full log or no operation, and for a full log only with a block that the operation has logged before; otherwise the block is in the log once, cached and pinned once |
| LogKernel.Log.Find | kernel/log.c:226-229 | the absorption loop finds the block exactly if it is logged |
| LogKernel.Log.EndOp | kernel/log.c:147-176 | the last operation out commits, all others change nothing on disk; it panics exactly during a commit or if its commit does; whenever power is lost on the way recovery yields all of the committed blocks or none |
| BufferCache.CacheRefines | kernel/bio.c:37-152 | in every run the invariant holds (one buffer per block, exact counts, recycled buffers unreferenced and clean) and cache with disk equals a plain block map; what of it is on the disk is BufferHistory.DiskHoldsLastWrite |
| BufferCache.HolderReads | kernel/bio.c:93-104 | in every run the holder of a buffer sees the last store to its block, or else the disk's contents |
| BufferCache.ContentStep | kernel/bio.c:59-152 | only a store by a buffer's holder changes a block's content, and only that block's |
| BufferCache.OneBuffer | kernel/bio.c:59-90 | two buffers never hold the same block |
| BufferCache.GrantContent | kernel/bio.c:76-88 | recycling the least recently used buffer loses nothing |
| BufferCache.GetPanics | kernel/bio.c:59-90 | bget panics if and only if the block is not cached and every buffer is referenced |
| BufferCache.LruChoice | kernel/bio.c:76-88 | the buffer recycled is the least recently used of the unreferenced ones |
| BufferCache.AllPinnedPanics | kernel/param.h:9-11 | a run from boot that logs NBUF blocks, after which nobody holds a buffer and bget panics for any further block |
| BufferCache.RunsOutExactly | kernel/bio.c:59-90 | in every run bget panics if and only if the block is not cached and all NBUF buffers are in use; never while fewer are |
| BufferCache.ToFrontPermutes | kernel/bio.c:127-135 | moving a buffer to the front permutes the order |
| BufferHistory.DiskHoldsLastWrite | kernel/bio.c:107-113 | in every run the disk holds for each block what was last stored in it when its holder last wrote it, or else its initial contents |
| BufferHistory.PinsBalance | kernel/bio.c:140-152 | in every run a block is pinned as often as bpin was called for it more often than bunpin, and a pinned block is cached |
| BufferHistory.OrderIsRecency | kernel/bio.c:117-138 | in every run the ring lists the buffers by the step that last gave up their last reference, latest first |
| BufferHistory.RecyclesOldest | kernel/bio.c:76-88 | in every run the buffer bget recycles is the unreferenced one that was released longest ago |
| BufferHistory.UpdateCycle | kernel/bio.c:93-138 | a user alone: bread returns the block's content if a buffer can be had and nobody holds it; after a store, bwrite and brelse, buffer and disk have the new content, all counts are as before and a buffer without references is the most recently used |
| BufferRing.Unlink | kernel/bio.c:129-130 | the two assignments take a buffer out of the ring |
| BufferRing.LinkFirst | kernel/bio.c:131-134 | the four assignments put it behind the head |
| BufferRing.Bcache.constructor | kernel/bio.c:37-54 | binit links every buffer once |
| BufferRing.Bcache.Lookup | kernel/bio.c:66-74 | the first loop of bget finds the buffer of the block exactly if there is one |
| BufferRing.Bcache.FindLru | kernel/bio.c:76-88 | the second loop finds the least recently used unreferenced buffer |
| BufferRing.Bcache.Bget | kernel/bio.c:59-90 | counts a hit, or recycles that buffer, or reports that there is none |
| BufferRing.Bcache.Brelse | kernel/bio.c:117-138 | drops a reference and at zero moves the buffer to the front; the ring stays a permutation |
| Scheduler.BoundedWaiting | kernel/proc.c:463-529 | in every reachable state priorities are in range and slot i <= 50 has waited at most 50 + i rounds |
| Scheduler.PickedBy | kernel/proc.c:463-505 | a process in slot i <= 50 that stays runnable is picked within 51 + i rounds, whatever the others do, also between the two phases of a round |
| Scheduler.HighSlotsStarve | kernel/proc.c:463-505 | if any 51 slots are runnable at every round, then after 50 rounds no slot above them all is ever picked |
| Scheduler.NeverRuns | kernel/proc.c:269-322 | for every slot k > 50: after the first process has forked k children that only compute, slot k is runnable and passed over at every round of an infinite run, its waiting time growing without bound |
| Scheduler.PickCorrect | kernel/proc.c:463-482 | the scan picks the lowest starving slot, or else the lowest of the highest priority, and nothing exactly if nothing is runnable |
| Scheduler.PickUnique | kernel/proc.c:463-482 | there is exactly one such choice |
| Scheduler.RoundKeeps | kernel/proc.c:463-505 | a round, with anything other CPUs do between its phases, keeps the invariant: a starving slot was passed over at most once by each lower slot |
| Scheduler.ProcTable.Select | kernel/proc.c:463-482 | the first loop finds that choice |
| Scheduler.ProcTable.Age | kernel/proc.c:486-498 | the second loop ages every other runnable slot and leaves the rest; what ageing amounts to is SchedulerHistory.WaitingPays |
| Scheduler.ProcTable.Dispatch | kernel/proc.c:463-505 | both loops and the start of the winner are a round of the model |
| Scheduler.ProcTable.Account | kernel/proc.c:508-529 | the charge to the winner and the end of the window; what they amount to is SchedulerHistory.RunningCosts and SchedulerHistory.CpuCounts |
| SchedulerHistory.WaitingPays | kernel/proc.c:486-498 | a process that stays runnable through n rounds without being picked or charged ends with 5n more priority, but at most 100, and with n more rounds waited |
| SchedulerHistory.RunningCosts | kernel/proc.c:508-521 | a process that is picked at every round of a stretch of a window loses 10 for each charge beyond the first of the window, down to 0 |
| SchedulerHistory.CpuCounts | kernel/proc.c:508-529 | in every run a slot's counter is the number of its charges and ticks since the window began or the slot was given out |
| SchedulerHistory.WokenIsPicked | kernel/proc.c:463-505 | a sleeping process in slot i <= 50 that is woken is picked, and runs, within 51 + i rounds, whatever the others do |
| SchedulerHistory.LeavesByPick | kernel/proc.c:463-505 | a runnable process stops being runnable exactly by being picked, and then it runs |
| SchedulerHistory.ReadyByAct | kernel/proc.c:553-678 | a process becomes runnable exactly by yielding, by being woken or by being started |
| SchedulerHistory.SlotReused | kernel/proc.c:112-181 | an exited process is a zombie until it is reaped; then its slot starts again with the default priority and no history |
| SchedulerHistory.ChildInherits | kernel/proc.c:268-323 | a forked process starts with its parent's priority, no waiting time and no charges |
| SleepLock.MutualExclusion | kernel/sleeplock.c:21-52 | in every interleaving at most one process owns the lock, and holdingsleep is true exactly for it |
| SleepLock.NoLostWakeup | kernel/proc.c:633-678 | in every interleaving, while the inner lock is free, a process asleep on the lock implies that another owns it |
| SleepLock.RunKeeps | kernel/proc.c:633-702 | the invariant behind both, over acquiresleep, releasesleep, sleep, wakeup and kkill one action at a time |
| SleepLock.AcquireWorks | kernel/sleeplock.c:21-31 | a free lock is granted to a process that wants it |
| SleepLock.WakeupReaches | kernel/proc.c:664-678 | wakeup rouses every sleeper and changes nothing else |
| SleepLock.AcquireFree | kernel/sleeplock.c:21-31 | acquiresleep of a free lock returns with the lock |
| SleepLock.SleepWorks | kernel/proc.c:633-660 | acquiresleep of a lock that another owns ends asleep, with both inner locks free and everything else as it was |
| SleepLock.ReleaseWorks | kernel/sleeplock.c:33-41 | releasesleep leaves the lock free, the inner lock free and every sleeper runnable |
| SleepLock.HandedOn | kernel/sleeplock.c:21-41 | once the owner has released it, a process that slept for the lock gets it |
| ExitWait.NoForgottenZombie | kernel/proc.c:325-432 | in every interleaving, whenever wait_lock is free, every parent is alive and no process sleeps in kwait, or is about to, while it has a zombie child |
| ExitWait.ReapedOnceWithStatus | kernel/proc.c:343-432 | in every interleaving each exit is reaped at most once, with its status, by the process that forked it or by init, and is in the table as a zombie until then |
| ExitWait.NextShape | kernel/proc.c:268-432 | every step keeps the protocol's invariant |
| ExitWait.NextHistory | kernel/proc.c:268-432 | every step keeps pids distinct and exits accounted for |
| ExitWait.WaitWorks | kernel/proc.c:387-432 | with a zombie child and wait_lock free, kwait reaps the first zombie child; the other cases are ExitWait.WaitAlone |
| ExitWait.ScanOutcome | kernel/proc.c:397-430 | with wait_lock held and no zombie child the scan leads to sleep if and only if some slot has the process as parent and it is not killed; otherwise it returns, the lock is free and no slot and no reap changes; a zombie child is reaped, or nothing if its status cannot be copied out |
| ExitWait.WaitAlone | kernel/proc.c:387-432 | kwait while nobody else acts: with a zombie child it reaps one; without children, or killed, everything is as it was; otherwise it ends asleep with both locks free |
| ExitWait.ForkAlone | kernel/proc.c:268-323 | kfork while nobody else acts: a new live child with a new pid, or a pid used up and nothing else |
| ExitWait.ExitAlone | kernel/proc.c:325-385 | kexit while nobody else acts: the process is a zombie with its status, its children are init's, its parent is awake, and so is init if it got any, and nothing else changes |
| ExitWait.WaitGetsStatus | kernel/proc.c:325-432 | a parent asleep in kwait gets the exit of its child: the child exits, the parent runs again and reaps that child with the status it exited with |
| ExitWait.KillEndsWait | kernel/proc.c:683-702 | a killed process asleep in kwait runs again and returns |
| ExitWait.FirstZombie | kernel/proc.c:397-418 | the first zombie child in slot order, with none before it; none exactly if there is none |
| ExitWait.ScanTable | kernel/proc.c:397-421 | kwait's loop finds it, or else whether there is any child |
| FsRuns.OwnershipExact | kernel/fs.c:66-106 | after any operations on a sound image, reads included, a bit is set exactly for metadata and owned blocks, each owned by exactly one slot, so no bfree meets a free block |
| FsRuns.NoHolesEver | kernel/fs.c:406-562 | from an image without holes no run makes one, so no read allocates a block |
| FsRuns.NoOrphans | kernel/fs.c:373-393 | after ireclaim every inode from 1 on that was allocated without links has type 0, size 0 and no address, and every other inode is as before |
| FsRuns.DoOk | kernel/fs.c:200-562 | every operation keeps ownership exact and makes no holes |
| FsRuns.PutEffect | kernel/fs.c:337-363 | after any operations, iput of the last reference to an inode without links leaves it with type 0, size 0 and no address and every other inode as before; with links nothing changes |
| FsRuns.PutThenAlloc | kernel/fs.c:200-363 | an inode freed so is handed out again by ialloc, unless an earlier one is free |
| FsHistory.RunIsPlain | kernel/fs.c:200-562 | every run on bitmap, inodes and blocks is the same run on plain files, byte sequences with type and link count, in which a write that returned r replaced r bytes |
| FsHistory.DoIsPlain | kernel/fs.c:200-562 | so is every single operation |
| FsHistory.ReadsPlain | kernel/fs.c:494-519 | after any run of an image without holes a read returns the bytes of the plain file |
| FsBlocks.BallocOwners | kernel/fs.c:66-89 | balloc returns a zeroed block nobody owns, or 0 exactly if none is free |
| FsBlocks.BmapEffect | kernel/fs.c:405-444 | bmap gives the file block an address unless the disk is full; no block of any inode is lost, moved or changed; ownership stays exact |
| FsBlocks.WordOfSet | kernel/fs.c:431-437 | writing one entry of an indirect block changes that entry only |
| FsInodes.TruncatedOwners | kernel/fs.c:448-476 | itrunc leaves the inode with size 0 and no address, every other inode as before, and exactly its blocks free |
| FsInodes.FreeInodeOwners | kernel/fs.c:338-363 | the freeing branch of iput leaves type 0, size 0 and no address, every other inode and all contents as before, and exactly the inode's blocks free |
| FsInodes.ReclaimEffect | kernel/fs.c:373-393 | ireclaim leaves exactly the allocated inodes without links with type 0, size 0 and no address, every other inode as before, and ownership exact |
| FsInodes.IallocOwners | kernel/fs.c:200-220 | ialloc keeps ownership exact |
| FsInodes.IallocFirst | kernel/fs.c:200-220 | ialloc returns the first free inode, now empty and of the type asked for, and changes nothing else; 0 exactly if none is free |
| FsFiles.WriteEffect | kernel/fs.c:528-562 | a write returning r >= 0 replaces exactly r bytes at off and extends the file, across direct and indirect blocks, leaving every other file alone, and r is short only for unreadable source or a full disk; it returns -1 exactly for a bad offset, overflow or too large a file, and then changes nothing |
| FsFiles.ReadEffect | kernel/fs.c:494-519 | a read returns exactly the slice clipped to the size, or -1 only if the caller's memory cannot take it; it changes no file, also where it fills a hole with a block of zeros, is short only at a hole on a full disk, and without holes changes nothing at all |
| FsFiles.WriteThenRead | kernel/fs.c:494-562 | what a write stored is read back |
| FsFiles.WriteLoopEffect | kernel/fs.c:539-551 | the loop writes exactly the bytes it reports, and stops short only for the caller's memory or a full disk |
| FsKernel.Disk.AllocBlock | kernel/fs.c:66-89 | the two loops find the first free block |
| FsKernel.Disk.MapBlock | kernel/fs.c:405-444 | bmap computes the function of the model |
| FsKernel.Disk.Itrunc | kernel/fs.c:448-476 | the two loops free every block of the inode once, without a panic |
| FsKernel.Disk.Ireclaim | kernel/fs.c:373-393 | the loop leaves every orphan from inode 1 on with type 0, size 0 and no address and every other inode as it was, without a panic |
| FsKernel.Disk.WriteFile | kernel/fs.c:528-562 | writei computes the function of the model |
| FsKernel.Disk.ReadFile | kernel/fs.c:494-519 | readi computes the function of the model |
| VirtioDisk.DescriptorsAccounted | kernel/virtio_disk.c:155-213 | in every run a descriptor is free or in exactly one chain of three, and a request waits for descriptors only while fewer than three are free (section 2.6 of VirtIO 1.1) |
| VirtioDisk.OwnCompletion | kernel/virtio_disk.c:215-327 | in every run a request returns only after the device completed that very request, once |
| VirtioDisk.InterruptReleases | kernel/virtio_disk.c:294-327 | in every run the interrupt handler marks done exactly the request whose completion it reads |
| VirtioDisk.PutView | kernel/virtio_disk.c:271-277 | a new ring entry comes last and overwrites none still to be looked at, at every value of the 16-bit index |
| VirtioDisk.TakeView | kernel/virtio_disk.c:312-323 | the oldest entry is looked at next |
| VirtioDisk.PublishRoom | kernel/virtio_disk.c:271-277 | the available ring has room for every chain that can be built |
| VirtioDisk.Alloc3Correct | kernel/virtio_disk.c:199-213 | three distinct free descriptors, or none exactly if fewer than three are free |
| VirtioDisk.IssueWorks | kernel/virtio_disk.c:215-281 | a request is published exactly if three descriptors are free, and otherwise waits |
| VirtioDisk.RequestServed | kernel/virtio_disk.c:215-327 | a request on its own is published, completed by the device, marked done by the interrupt handler and returns, with descriptors, requests and rings as before |
| VirtioDisk.InterruptWorks | kernel/virtio_disk.c:294-327 | the interrupt handler takes the oldest completion and marks done the request it belongs to, and no other |
| VirtioDisk.FinishWorks | kernel/virtio_disk.c:284-291 | a request that is done returns, exactly its three descriptors are free again and nobody waits for descriptors any more |
| VirtioDisk.WaiterServed | kernel/virtio_disk.c:199-291 | once some request returns, one that waited for descriptors is awake, finds three and is published |
| VirtioDisk.NextKeeps | kernel/virtio_disk.c:215-327 | every step of driver and device keeps the invariant (section 5.2 of VirtIO 1.1) |
| VirtioDisk.Driver.AllocDesc | kernel/virtio_disk.c:155-166 | the loop takes the lowest free descriptor |
| VirtioDisk.Driver.AllocThree | kernel/virtio_disk.c:199-213 | three descriptors, or none and the table as it was |
| VirtioDisk.Driver.FreeChain | kernel/virtio_disk.c:184-197 | follows the links of a chain and frees exactly its three descriptors, without a panic |
| Pipe.Fifo | kernel/pipe.c:65-145 | in every interleaving the bytes delivered and then those buffered are those accepted, in order; at most 512 are buffered; the page is freed once, when both ends are closed; a sleeping writer faces a full pipe |
| Pipe.WholeWrites | kernel/pipe.c:87-114 | in every interleaving each call of pipewrite, over all its sleeps, adds exactly a prefix of its source in order, and returns its length, all it was asked for or all that can be read, or -1 |
| Pipe.WriteWorks | kernel/pipe.c:87-114 | in every run a call of pipewrite adds at once the least of what is asked for, can be read, fits and comes before it is killed; it returns that count, -1, or sleeps, exactly according to which came first |
| Pipe.ResumeWorks | kernel/pipe.c:94-109 | so does a call that goes on after a wake-up, from where it stopped |
| Pipe.ReadWorks | kernel/pipe.c:116-145 | in every run a reader sleeps if and only if there is nothing and the write end is open; otherwise it gets the least of what is asked for, what fits and what is there, the oldest bytes first, and no writer stays asleep |
| Pipe.CloseWorks | kernel/pipe.c:65-84 | closing an end closes it, wakes those who sleep for it and frees the page exactly if the other is closed too |
| Pipe.PushAppends | kernel/pipe.c:99-107 | a byte goes in at the end, at every value of the 32-bit counters |
| Pipe.PopFirst | kernel/pipe.c:131-141 | a byte comes out at the front |
| Pipe.WriteEffect | kernel/pipe.c:87-114 | a write appends a prefix of its source; it sleeps only on a full pipe, returns the count only at the end or at unreadable source, and -1 only if the read end is closed or its process is killed |
| Pipe.ReadEffect | kernel/pipe.c:116-145 | a read delivers the smallest of what was asked for, what fits and what is there; a byte that cannot be copied out stays |
| Pipe.ReaderForgotten | kernel/pipe.c:94-98 | a step leaves a sleeping reader with bytes to read if and only if its writer is killed after adding some |
| Pipe.ReadersAlwaysFed | kernel/pipe.c:65-145 | in a run without such a writer no reader sleeps while there are bytes or after the write end is closed |
| Pipe.ForgottenReader | kernel/pipe.c:94-98 | a run with such a writer |
| Pipe.PipePage.constructor | kernel/pipe.c:34-41 | an empty pipe, open at both ends |
| Pipe.PipePage.Fill | kernel/pipe.c:94-109 | pipewrite's loop appends exactly the bytes it counts |
| Pipe.PipePage.Drain | kernel/pipe.c:131-141 | piperead's loop delivers exactly the bytes it counts |
| UserMalloc.Heap.Malloc | user/umalloc.c:63-90 | returns a new live block of the size asked for, disjoint from all others, or null if and only if sbrk gives nothing and no free block is large enough; it grows the heap exactly if none was; for every 32-bit request, sound if and only if a free block is large enough or sbrk is asked for what is recorded |
| UserMalloc.Heap.Search | user/umalloc.c:72-89 | the search goes once around the ring and finds a large enough block exactly if there is one |
| UserMalloc.Heap.MallocThenFree | user/umalloc.c:24-90 | freeing what malloc has just cut from a free block restores free list and live blocks |
| UserMalloc.Heap.Release | user/umalloc.c:24-44 | free makes exactly the block's units free, by coalescing insertion into the ordered circular list |
| UserMalloc.Heap.FindSpot | user/umalloc.c:30-32 | free's search ends, at the block after which the freed one belongs |
| UserMalloc.Heap.MoreCore | user/umalloc.c:46-61 | the units from sbrk are free afterwards and nothing else changes |
| UserMalloc.Heap.Carve | user/umalloc.c:75-85 | a block of the exact size is unlinked, a larger one loses its end |
| UserMalloc.ReleaseOk | user/umalloc.c:33-43 | the pointer assignments of free are coalescing insertion; every unit is free or in exactly one live block |
| UserMalloc.TakeOk | user/umalloc.c:75-85 | so after the assignments of malloc |
| UserMalloc.SearchStops | user/umalloc.c:30-32 | the search condition holds at exactly one position of the ring |
| UserMalloc.InsertTakenEnd | user/umalloc.c:24-90 | freeing what was just allocated restores the free list |
| UserMalloc.SizesFit | user/umalloc.c:11-17 | sizes fit the header's 32-bit field |
| UserMalloc.SbrkExact | user/umalloc.c:46-61 | sbrk receives what morecore records if and only if the request is at most 2^31 - 32 bytes |
| UserMalloc.SbrkShrinks | user/umalloc.c:46-61 | a request for which sbrk receives a negative count |
| Matcher.Match | user/grep.c:72-82 | true if and only if the text has a part in the language of the pattern, at its start if anchored by ^ |
| Matcher.MatchHereCorrect | user/grep.c:85-96 | true if and only if a prefix of the text (all of it if the pattern ends in $) is in the language |
| Matcher.StarLoop | user/grep.c:99-106 | the loop tries exactly the repetitions of the character |
| Matcher.MatchStarCorrect | user/grep.c:99-106 | the recursion does the same |
| Matcher.MatchesSubstring | user/grep.c:72-82 | an unanchored match is a substring in the language, a suffix if the pattern ends in $ |

## Left out

- Interleavings inside a page fault: a fault is one step; getref and decref are separate critical sections in the source.
- Permission bits across copy-on-write faults: the fixed flag set at kernel/vm.c:511 makes this a different claim from contents.
- exec, copyinstr, uvmclear and the kernel page table: they would add operations of the same kind.
- The reverse map (record_rmap, clear_rmap) and the relocating branch of compact_memory: the branch is never taken.
- Contents of free pages in PageAllocator: the junk fill is modelled in CowMemory; CowConcrete reads free pages as junk and table pages as zeros.
- CowMachine.Machine.Exit: the trapframe is freed last, where freeproc frees it first; nothing in between looks at it.
- In-memory files and garbage_collect (kernel/file.c, kernel/gc.c).
- Directories, path names and link-count accounting (kernel/fs.c from line 564 on, kernel/sysfile.c); link counts are set by an operation of the model.
- The in-memory inode table's reference counts: iput is modelled at its last reference, and an inode is one record for its memory and disk copies.
- The bitmap as bits within blocks: it is a sequence of booleans; inode blocks are records.
- FsFiles.WriteEffect: a chunk is copied from the caller completely or not at all.
- Whether a read that fills a hole is inside a transaction: outside one its log_write panics; no run makes a hole (FsRuns.NoHolesEver).
- Client rules of the log and the cache: an operation logs at most MAXOPBLOCKS distinct home blocks between begin_op and end_op, and a changed buffer is written or pinned before it is released; single-block disk writes are atomic.
- BufferCache.CacheRefines: for devices from 1 on; all buffers start out as block 0 of device 0.
- UserMalloc.Heap.Malloc: what happens after sbrk is asked for another size than morecore records is not modelled (`sound` is false then); memory is below 2^36 bytes, and headers that no program overwrites.
- Phase 1 of a scheduler round is one step: what other CPUs do to a slot before phase 1 reaches it comes before the round. The idle branch (garbage collection, compaction) is not part of Scheduler.
- Wrap-around of pids and of wait_ticks.
- Progress under fairness (that a woken process eventually runs): the theorems are safety properties, bounds on rounds and disk writes, and what calls do while nobody else acts.
- Spinlock memory ordering, interrupts, trap entry, UART, PLIC, console, printf, boot code.
- Input and buffering of grep, and its command line.
- Device errors: every completion reports success.
