# xv6 in Dafny

Models of the harder parts of three xv6 kernels (`p2/solution`, `p4/solution`, `p5/xv6-public`) and
of three user programs, with proofs of what they promise. The source's loops over changing state are
methods; each is tied to a function or predicate on values, and the long-range properties are
lemmas about those.

| component | files |
|---|---|
| write-ahead log, crash recovery, admission | `Blocks`, `Log`, `LogRun`, `LogAdmission`, `LogDevice` |
| buffer cache, and the log over it | `Bio`, `BioRun`, `LogCache`, `LogOverCache` |
| copy-on-write fork against eager fork | `Cow`, `CowRun`, `CowStore`, `CowFrames`, `CowLimit`, `CowKernel` |
| two-level page tables and the frames behind them (p2) | `PageTable`, `FrameSteps`, `FrameSpace`, `AddressSpace`, `UserMemory` |
| K&R heap allocator | `Heap`, `Umalloc`, `Allocator` |
| inode files, filewrite | `Files`, `FileSpace`, `FileSystem`, `FileWrite` |
| directories and paths | `Dirs`, `Directory`, `Paths` |
| shell parser | `ShellTokens`, `ShellGrammar`, `ShellTree`, `ShellOrder`, `ShellMeaning`, `ShellAccepts`, `Shell` |
| pipes | `Pipe` (module `PipeRing`), `PipeRun` |
| process table: fork, exit, wait, kill | `Proc`, `ProcRun`, `ProcTable` |
| stride scheduler (p4; Waldspurger and Weihl, MIT/LCS/TM-528) | `Stride`, `StrideRun`, `StrideShare`, `StrideExact`, `StrideNapper`, `StrideCode` |
| regular expressions of grep | `Grep` |

`dafny verify dfyconfig.toml` checks all of it.

## How to read it

* Panics are either outcomes of a model (`None`, `Panic`, `-1`) or, where the caller must rule them
  out, a precondition that is the negation of the panic's guard; asserts in the methods mark panics
  that are proved unreachable.
* Concurrency is interleaving: a step is what a thread does between taking a lock and giving it up
  or sleeping, `sleep` being atomic with the release of the lock.
* Sizes are symbolic where nothing depends on them: buffers, frames, processes, heap units.
* Integers are unbounded, with 32-bit wrap-around written out where the code relies on it (pipe
  counters, page addresses, `malloc`'s rounding, `off + n`), and 8 bits for `ref_count`.

## Where the code falls short of its intent

* A full log needs operations of at most MAXOPBLOCKS - 1 blocks, because one of the LOGSIZE log
  blocks is the header (`LogRun.AdmissionExact`); filewrite's chunks stay within seven
  (`FileWrite.ChunkLogsSeven`).
* `ref_count` is a signed char. A run of forks, writes, faults and teardowns stays safe if and only if
  copyuvm never counts a frame that has 127 references (`CowRun.SafeExactly`). A fork that fails
  leaves one count too high, so 127 failed forks of one page make kfree panic
  (`CowLimit.FailedForksPanic`), while up to 63 in all never do (`CowRun.FewFailuresSuffice`).
* p5 loses frames, and exactly how is known: a run keeps every frame free or mapped if and only if no
  fault copies a page of which it has the only entry, and no such entry is unmapped while failed forks
  have left references (`CowFrames.KeptExactly`). With no failed fork these are the faults that meet a
  count of 1 (`CowFrames.KeptExactlyAtOne`), as when parent and child both write to a page after fork
  (`CowLimit.TwoWritersLoseFrame`). In p2 no frame is lost (`AddressSpace.Kernel.Freevm`,
  `UserMemory.Copyuvm`).
* A killed writer with more than 512 bytes left, in a new call or a resumed one, fills an empty pipe and
  gives up without waking the readers. These are the only lost wakeups (`PipeRun.AwakeExactly`).
* kill(0) reports success although no process has pid 0: it marks the first entry never used, and the
  process that fork makes there starts killed (`ProcRun.BornKilled`). While kill hits processes only, new
  ones start unmarked (`ProcRun.NewUnmarked`).
* Each fork that got an entry leaves 8 tickets too many in global_tickets, also if it fails then (`StrideRun.TicketsExact`).
* The turns of two processes are in proportion to their tickets over all runs if and only if neither of
  the two may sleep; what others do does not matter (`StrideExact.ShareExactly`). A turn that ends asleep
  is not charged (`StrideNapper.SleeperShare`), so sleeping can also win turns: from userinit on there are
  runs of any length in which a process with one ticket keeps up with one that has 32
  (`StrideNapper.NapperFromBoot`).
* `malloc` rounds up in 32 bits and passes sbrk an int: a request that needs new memory gets a block that
  holds it exactly up to 2^31 - 16 bytes (`Umalloc.RequestExact`).

## Model

| member | source | states |
|---|---|---|
| `Log.HeaderRoundTrip` | p5/xv6-public/log.c:86-113 | read_head gets back exactly the block numbers that write_head stored, whatever the header buffer held before |
| `Log.QuietRecovery` | p5/xv6-public/log.c:116-122 | recovering an empty log changes no home block |
| `Log.RecoveryCrash` | p5/xv6-public/log.c:70-82 | after a crash behind any j writes of a recovery the device is still recoverable, and to the same home blocks |
| `Log.RecoveryIsCrashProof` | p5/xv6-public/log.c:116-122 | recovery interrupted any number of times at any writes and then completed gives what one uninterrupted recovery gives |
| `Log.CommittedRecovers` | p5/xv6-public/log.c:192-202 | once the header is written, recovery alone produces all new contents |
| `Log.CommitCrashAtomic` | p5/xv6-public/log.c:192-202 | a crash after any i writes of commit, any number of interrupted recoveries, then one that completes: all home blocks old or all new, new exactly when the header write was among the i, and the log empty again |
| `Log.CommitCompletes` | p5/xv6-public/log.c:192-202 | an uninterrupted commit puts every cached block home and clears the log |
| `LogRun.StepKeeps` | p5/xv6-public/log.c:126-174 | each step of begin_op, log_write, end_op, commit or a power failure keeps the reservation invariant, reaches no panic and does what a machine with atomic commits does |
| `LogRun.CrashKeeps` | p5/xv6-public/log.c:192-202 | a power failure anywhere in a commit, with interrupted recoveries after it, falls back to the old durable contents or the new ones, decided by the header write |
| `LogRun.RunRefines` | p5/xv6-public/log.c:126-233 | every interleaving whose operations add at most MAXOPBLOCKS - 1 blocks: no panic, never more than 28 logged blocks, an operation asleep in begin_op only while a commit runs or its MAXOPBLOCKS blocks do not fit beside those reserved, nothing outstanding during a commit, and view and durable contents those of the simple machine |
| `LogRun.FullBudgetPanics` | p5/xv6-public/log.c:218-219 | with MAXOPBLOCKS blocks per operation and the 29 slots that mkfs leaves, a legal run reaches "too big a transaction" |
| `LogRun.AdmissionExact` | p5/xv6-public/log.c:132-137 | no legal run panics if and only if operations add fewer than MAXOPBLOCKS blocks |
| `LogAdmission.RefusedExactly` | p5/xv6-public/log.c:126-141 | begin_op puts an operation to sleep exactly while a commit runs, or when some sequence of writes, MAXOPBLOCKS new blocks at most by each of the operations in flight and the new one, would make the log hold more than LOGSIZE blocks |
| `LogAdmission.HeldBound` | p5/xv6-public/log.c:133 | whatever the operations in flight write, the log grows by no more than what their shares have left |
| `LogDevice.LogState.Bwrite` | p5/xv6-public/bio.c:110-116 | the device gets the block, and the buffer is no longer pinned |
| `LogDevice.LogState.WriteLog` | p5/xv6-public/log.c:178-190 | the issued writes are exactly the cached blocks into the slots, in order |
| `LogDevice.LogState.WriteHead` | p5/xv6-public/log.c:102-113 | the header write that carries the in-memory block list |
| `LogDevice.LogState.InstallTrans` | p5/xv6-public/log.c:70-82 | the issued writes are exactly the slots to their home blocks, in order, and every one is unpinned |
| `LogDevice.LogState.InstallAndErase` | p5/xv6-public/log.c:198-200 | install_trans and the header write that clears the log, as one list of writes |
| `LogDevice.LogState.Commit` | p5/xv6-public/log.c:192-202 | commit issues exactly the writes of which CommitCrashAtomic speaks, in that order, and leaves an empty log with nothing pinned |
| `LogDevice.LogState.ReadHead` | p5/xv6-public/log.c:86-96 | the in-memory list becomes the one on the device |
| `LogDevice.LogState.Recover` | p5/xv6-public/log.c:116-122 | recovery issues exactly the writes of which RecoveryIsCrashProof speaks |
| `LogDevice.LogState.TryBegin` | p5/xv6-public/log.c:126-141 | one pass of begin_op: admitted exactly when no commit runs and lh.n + (outstanding + 1) * MAXOPBLOCKS is at most LOGSIZE, else asleep on the log; the step of RunRefines |
| `LogDevice.LogState.EndOp` | p5/xv6-public/log.c:146-163 | the step of RunRefines for end_op, with its panic and its wakeup of the operations in begin_op; commits exactly when the last operation ends |
| `LogDevice.LogState.FinishCommit` | p5/xv6-public/log.c:165-173 | the commit, the cleared flag and the wakeup are the commit step of RunRefines |
| `LogDevice.LogState.LogWrite` | p5/xv6-public/log.c:214-233 | the step of RunRefines for log_write: a block is listed once however often it is logged, pinned, and charged to its operation; panics exactly when the log is full or no operation is outstanding |
| `Bio.Bcache.constructor` | p5/xv6-public/bio.c:38-57 | binit leaves a circular doubly linked list through all buffers, each unused |
| `Bio.UnlinkKeeps` | p5/xv6-public/bio.c:131-132 | taking a buffer out leaves a correctly linked cycle through the others in their order |
| `Bio.FrontKeeps` | p5/xv6-public/bio.c:133-136 | putting a buffer behind the head leaves a correctly linked cycle with it in front |
| `Bio.ReleaseKeeps` | p5/xv6-public/bio.c:120-141 | after brelse the list is a cycle through all buffers, the one that became unused first |
| `Bio.Bcache.LinkFront` | p5/xv6-public/bio.c:50-55 | the four assignments that link a buffer in front |
| `Bio.Bcache.Bget` | p5/xv6-public/bio.c:61-94 | the buffer whose dev and blockno fit, counted once more, and no other touched; without one the last of the list with count 0 and no dirty mark, recycled; -1 exactly when there is neither |
| `Bio.Bcache.Brelse` | p5/xv6-public/bio.c:120-141 | the count drops, and at zero the buffer moves to the front of the list, which stays a cycle through all buffers |
| `Bio.GotRight` | p5/xv6-public/bio.c:66-93 | the same on the table as a value: bget's choice by the fields of the buffers |
| `BioRun.GotCases` | p5/xv6-public/bio.c:68-92 | a buffer is recycled only when no buffer caches the block, and then an unused clean one |
| `BioRun.VictimIsOldest` | p5/xv6-public/bio.c:80-83 | the recycled buffer was released before every other unused clean one |
| `BioRun.PanicsExactly` | p5/xv6-public/bio.c:93 | bget panics exactly when no buffer caches the block and none is unused and clean |
| `BioRun.GetRefs` | p5/xv6-public/bio.c:66-90 | recycling takes no buffer from anybody who holds it or still sleeps on its lock |
| `BioRun.BreadIsLatest` | p5/xv6-public/bio.c:96-106 | bread returns what was last stored in the block by bwrite or log_write, however often its buffer was recycled, on any device but 0 |
| `BioRun.StepKeeps` | p5/xv6-public/bio.c:61-141 | each of bget, waking on a buffer's lock, bread, bwrite, log_write's pinning and brelse keeps the cache invariant |
| `BioRun.RunKeeps` | p5/xv6-public/bio.c:61-141 | in every run: one cycle through all buffers in order of last release, counts equal to the users, at most one buffer for a block of a device other than 0, every held or awaited buffer still caching its block, nothing stored ever lost |
| `BioRun.BootIsSound` | p5/xv6-public/bio.c:38-57 | the cache that binit leaves satisfies the invariant over any disk |
| `LogCache.StepShows` | p5/xv6-public/log.c:68-82 | every step of the cache, recycling and other users' included, does to the log's device and pinned blocks what LogDevice's own bwrites and log_writes do |
| `LogCache.BreadShows` | p5/xv6-public/bio.c:96-106 | bread gives the log the pinned contents of a block if there are some, else those on disk, as LogDevice reads them |
| `LogCache.RunShows` | p5/xv6-public/bio.c:61-141 | so over every run of the cache: what the log sees is what its own writes make of it |
| `LogCache.BootShows` | p5/xv6-public/bio.c:38-57 | the log sees the disk and nothing pinned after binit |
| `LogOverCache.EffectsAreWrites` | p5/xv6-public/bio.c:108-116 | steps of the cache that pin nothing put their writes on the device in order and unpin those blocks |
| `LogOverCache.ActionFollows` | p5/xv6-public/log.c:126-233 | begin_op, log_write on a held buffer, end_op, a commit or a crash in one, over the cache, are the steps of RunRefines |
| `LogOverCache.OverCacheRefines` | p5/xv6-public/log.c:126-233 | so every run of the log over the cache, with any other use of it in between: no panic of the log, cache and log in order, view and durable contents those of the simple machine |
| `LogOverCache.ReadsAreIdeal` | p5/xv6-public/bio.c:96-106 | in every such state whoever reads a home block through whatever buffer gets the simple machine's view of it |
| `LogOverCache.BootIsGood` | p5/xv6-public/log.c:51-66 | the state after initlog on a recovered device is a start of these runs |
| `Cow.MapFreshSafe` | p5/xv6-public/kalloc.c:130-149 | entering a frame fresh from kalloc keeps free list, sharing and counts right |
| `Cow.CowCopySafe` | p5/xv6-public/trap.c:71-97 | resolving a copy-on-write fault keeps them, though the old frame's count may drop to zero |
| `Cow.UnmapSafe` | p5/xv6-public/vm.c:524-531 | dropping an entry keeps them, and kfree's underflow panic is not reached |
| `Cow.CountSharedSafe` | p5/xv6-public/vm.c:593-604 | counting a shared frame and protecting the parent's entry keeps them, but for the one reference still to be entered |
| `Cow.ForkPageSafe` | p5/xv6-public/vm.c:581-613 | one page of a fork keeps them, whether or not a page table for the child could be had, while the count of its frame stays below 127 |
| `Cow.MappingsBound` | p5/xv6-public/vm.c:594-610 | a frame has at most one entry per process |
| `Cow.CountInRange` | p5/xv6-public/kalloc.c:13 | a count never exceeds NPROC plus the number of failed forks |
| `Cow.ForkPageExact` | p5/xv6-public/kalloc.c:13 | ref_count is a signed char: one more sharer of a frame is safe if and only if its count was below 127, and at 127 the next kfree of the frame panics |
| `CowRun.StepSafe` | p5/xv6-public/trap.c:70-97 | no step of a fork, permitted write, fault, growth or teardown panics or breaks frame safety, save copyuvm counting a frame that has 127 references |
| `CowRun.RangeStep` | p5/xv6-public/kalloc.c:13 | whatever the kernel does, every count stays within a signed char |
| `CowRun.StepRefines` | p5/xv6-public/vm.c:570-629 | each step changes the contents of user pages as the corresponding step of a machine that copies all pages at fork |
| `CowRun.CowRefinesEager` | p2/solution/vm.c:315-345 | over every interleaving of forks, writes, faults, growth and teardowns in which copyuvm meets no count of 127, however many forks fail: every process has exactly the pages and contents it would have if each fork had copied all pages at once, both machines running out of memory at the same steps |
| `CowRun.OverflowUnsafe` | p5/xv6-public/vm.c:593-597 | counting a frame that has 127 references breaks frame safety at once |
| `CowRun.SafeExactly` | p5/xv6-public/vm.c:593-597 | a run stays safe in every state and panics nowhere if and only if copyuvm never meets a count of 127 |
| `CowRun.FewFailuresSuffice` | p5/xv6-public/vm.c:593-613 | it never does in a run with at most 127 - NPROC failed forks |
| `CowRun.FrameSafety` | p5/xv6-public/kalloc.c:83-149 | in every safe state a count is at least the number of entries of its frame, equal to it and at most NPROC when no fork failed; a writable entry is its frame's only one; no free frame is mapped |
| `CowRun.BootSafe` | p5/xv6-public/kalloc.c:48-57 | the state after boot is safe, its counts are in range, and it is equal to the copying machine's |
| `CowStore.StepStorable` | p5/xv6-public/vm.c:599-610 | no step but its own unmapping takes a page, or the permission to store to it, from a process, also not a second or later fork; and no step but a copy-on-write fault gives that permission for a page there |
| `CowStore.NewStorable` | p5/xv6-public/vm.c:599-610 | a page that a process did not have is storable if it is new, and if fork shares it exactly if it is the user's in the parent |
| `CowStore.StoresResolve` | p5/xv6-public/trap.c:70-97 | in every state of every run from boot that overflows no count, a process that runs can store to each of its user pages, or its store faults on an entry that the handler copies |
| `CowStore.StaysStorable` | p5/xv6-public/vm.c:599-610 | from any safe state on, through any steps but its unmapping, a storable page stays storable |
| `CowStore.SuppliedStep` | p5/xv6-public/vm.c:574-613 | copyuvm takes one frame for each page table that the parent's pages need, and fails only when these are more than there are frames |
| `CowFrames.StepKeptExactly` | p5/xv6-public/trap.c:78-92 | a step keeps all frames free or mapped if and only if it is no fault that copies a page with one entry, and no unmapping of a frame's only entry with a count above 1 |
| `CowFrames.KeptExactly` | p5/xv6-public/kalloc.c:83-125 | so over runs that overflow no count: all frames stay free or mapped if and only if no step is one of these |
| `CowFrames.LeaksAtOne` | p5/xv6-public/trap.c:78-92 | while no fork has failed these are exactly the copy-on-write faults that find a frame left and meet a count of 1 |
| `CowFrames.KeptExactlyAtOne` | p5/xv6-public/trap.c:78-92 | a run without failed forks keeps all frames if and only if it has no such fault |
| `CowFrames.LostStaysLost` | p5/xv6-public/kalloc.c:130-149 | a frame that is neither free nor mapped is never either again |
| `CowFrames.BootKept` | p5/xv6-public/kalloc.c:48-57 | at boot all frames are free or mapped |
| `CowLimit.TwoWritersLoseFrame` | p5/xv6-public/trap.c:78-92 | a legal run from boot, without failed forks, after which a frame is neither free nor mapped: fork, then parent and child both write |
| `CowLimit.FailingForkRuns` | p5/xv6-public/vm.c:596-613 | a fork with no frame left for the child's page table leaves the page of the parent with one reference more |
| `CowLimit.CleanUpRuns` | p5/xv6-public/vm.c:538-553 | tearing the failed child down gives its frame back and leaves that reference |
| `CowLimit.FailedForksPanic` | p5/xv6-public/kalloc.c:83-125 | a legal run from boot with four frames: 127 forks fail for memory, then dropping the page reaches the ref_count underflow panic |
| `CowKernel.Kernel.Kalloc` | p5/xv6-public/kalloc.c:130-149 | the head of the free list, zeroed, with count 1, or null exactly when the list is empty |
| `CowKernel.Kernel.Kfree` | p5/xv6-public/kalloc.c:83-125 | one reference less, the frame back on the list at zero; panics exactly on a negative count |
| `CowKernel.Kernel.CopyPage` | p5/xv6-public/vm.c:581-613 | the loop body of copyuvm for one page, with the failing page table leaving one count too high; every page that could be stored to still can, and the child's new page can exactly if it is the user's in the parent |
| `CowKernel.Kernel.DropEntry` | p5/xv6-public/vm.c:524-531 | one entry and its reference gone, the copying machine losing the same page |
| `CowKernel.Kernel.FreeVm` | p5/xv6-public/vm.c:538-553 | all pages, page tables and the directory of one process gone, other processes' pages as before |
| `CowKernel.Kernel.SetUp` | p5/xv6-public/vm.c:578-579 | the child's directory, or nothing when no frame is left |
| `CowKernel.Kernel.ResolveCow` | p5/xv6-public/trap.c:71-97 | the assignments of the fault handler; killed exactly when no frame is left |
| `CowKernel.Kernel.PageFault` | p5/xv6-public/trap.c:70-97 | afterwards the store is permitted, no process sees a changed byte, and the process is killed exactly when no frame is left |
| `CowKernel.Kernel.CopyUvm` | p5/xv6-public/vm.c:570-629 | if no page of the parent has 127 references yet: a fork that succeeds makes the child the eager copy of its parent; one that fails leaves every process its contents, and it fails exactly when there are fewer free frames than one and the page tables of the parent's pages; nobody loses the permission to store to a page, and the child has it for exactly the parent's user pages |
| `PageTable.EntryParts` | p2/solution/vm.c:71 | an entry made of an aligned address and flags is present and gives both back |
| `PageTable.SetEntry` | p2/solution/vm.c:69-71 | writing one page table word changes the flat map at that page and nowhere else, in no other address space |
| `PageTable.NewTable` | p2/solution/vm.c:44-54 | a fresh, zeroed page table changes no address space |
| `PageTable.NewDir` | p2/solution/vm.c:124-126 | a zeroed directory is an empty address space and disturbs none |
| `PageTable.DeadDir` | p2/solution/vm.c:290-296 | dropping a directory with its tables leaves the others as they are |
| `FrameSteps.HoldFrame` | p2/solution/kalloc.c:82-95 | a frame kalloc hands out was nobody's, and its new contents disturb no address space |
| `FrameSteps.ReleaseFrame` | p2/solution/kalloc.c:59-77 | a frame given back is nobody's, and filling it with junk disturbs no address space |
| `FrameSteps.MapPage` | p2/solution/vm.c:60-78 | mapping an absent page keeps trees, frame ownership and the free list consistent |
| `FrameSteps.MapRangeAt` | p2/solution/vm.c:60-78 | mapping a range adds exactly its pages, each with its own frame, and changes no other |
| `FrameSteps.DropPage` | p2/solution/vm.c:267-274 | unmapping a page frees a frame that was that page's alone, and keeps everything consistent |
| `FrameSteps.ShrunkSkip` | p2/solution/vm.c:265-266 | skipping a directory entry that is absent skips no page that is there |
| `FrameSteps.FreeingEnd` | p2/solution/vm.c:290-297 | after freevm's loop every page table of the directory, and the directory, are on the free list once, and no other frame |
| `FrameSteps.SameFree` | p2/solution/kalloc.c:59-95 | equal frames in use mean equal free lists up to order: nothing lost, nothing twice |
| `FrameSpace.TakenSpends` | p2/solution/kalloc.c:82-95 | kalloc takes one frame from those that mapping any given pages would leave over |
| `FrameSpace.TabledSpends` | p2/solution/vm.c:44-54 | a new page table takes a frame and is one table less lacking: what would be left over stays |
| `FrameSpace.MappedSpends` | p2/solution/vm.c:69-71 | mapping a user page makes one page less lacking, mapping a kernel page none |
| `FrameSpace.OutOfFrames` | p2/solution/vm.c:44-46 | with no free frame, a page or page table lacking means fewer frames than needed |
| `FrameSpace.AllMapped` | p2/solution/vm.c:60-80 | once all pages are mapped nothing lacks |
| `AddressSpace.Kernel.constructor` | p2/solution/kalloc.c:46-53 | freerange puts every frame of the range on the free list once |
| `AddressSpace.Kernel.Kalloc` | p2/solution/kalloc.c:82-95 | the head of the free list, or null exactly when it is empty |
| `AddressSpace.Kernel.Kfree` | p2/solution/kalloc.c:59-77 | the frame at the head of the free list, its words junk that looks present |
| `AddressSpace.Kernel.Walkpgdir` | p2/solution/vm.c:35-56 | the word that the page's entry is in; without one a new table exactly when asked for and a frame is left, and no address space changes; what it takes from the free list was needed |
| `AddressSpace.Kernel.Mappages` | p2/solution/vm.c:60-80 | exactly the pages of the range are added, also for the range that ends at 2^32; on failure a prefix of them, the free list is empty and the next page lacks its table; only frames that were needed are taken |
| `AddressSpace.Kernel.Deallocuvm` | p2/solution/vm.c:255-278 | exactly the present pages of the range are removed and exactly their frames freed, the jump over absent directory entries included |
| `AddressSpace.Kernel.RemovePage` | p2/solution/vm.c:267-274 | one page and its frame gone, or nothing when the page is absent |
| `AddressSpace.Kernel.Freevm` | p2/solution/vm.c:283-298 | the address space is gone, every frame of it is back on the free list exactly once, and no other process loses a byte |
| `UserMemory.KernelMapAt` | p2/solution/vm.c:107-114 | the kernel part is physical memory from KERNBASE on and the devices in place, nothing else, and exactly the pages from EXTMEM up to data are read-only |
| `UserMemory.Setupkvm` | p2/solution/vm.c:118-136 | a new address space with exactly the kernel's mappings, or everything as before with every frame given back; the latter exactly when fewer than 65 frames are free |
| `UserMemory.SpaceTables` | p2/solution/vm.c:107-114 | the kernel's mappings and n user pages need 64 page tables and one for each 1024 of the n |
| `UserMemory.BuiltAndFreed` | p2/solution/vm.c:341-344 | building a directory and freeing it returns to the same frames in use and the same free list up to order |
| `UserMemory.ExtendedUndone` | p2/solution/vm.c:237-246 | deallocuvm after a failed allocuvm removes exactly the new pages |
| `UserMemory.Allocuvm` | p2/solution/vm.c:221-250 | either all new pages are there, zeroed, writable and in frames of their own, or the map is as before and only empty page tables were kept; the latter exactly when there are fewer frames than new pages and page tables that the directory lacks for them |
| `UserMemory.CopyPage` | p2/solution/vm.c:323-338 | one page copied with its flags into a frame of its own, or nothing, and then there were too few frames for it |
| `UserMemory.Copyuvm` | p2/solution/vm.c:315-345 | a child with the kernel's mappings and a copy of every page, flags included, in frames of its own; or null, with all maps, contents and owned frames as before and every frame taken returned exactly once; null exactly when fewer frames are free than 65, one a page and one for each 1024 pages begun |
| `Heap.InsertOrdered` | p5/xv6-public/umalloc.c:24-44 | free keeps the list ascending with base first, no two blocks overlapping or touching |
| `Heap.InsertUnits` | p5/xv6-public/umalloc.c:24-44 | free adds exactly the units of the freed block |
| `Heap.InsertHolds` | p5/xv6-public/umalloc.c:46-61 | a freed block of n units leaves a block of at least n units in the list, coalesced or not |
| `Heap.TakeOrdered` | p5/xv6-public/umalloc.c:75-82 | taking units from a block keeps the list ordered |
| `Heap.TakeUnits` | p5/xv6-public/umalloc.c:75-82 | malloc removes exactly the units it returns |
| `Umalloc.UnitsExact` | p5/xv6-public/umalloc.c:69 | the units behind the header hold the request if and only if rounding it up does not wrap 32 bits |
| `Umalloc.RequestExact` | p5/xv6-public/umalloc.c:46-69 | with the conversion to sbrk's int: the block lies in memory obtained and holds the request if and only if that is at most 2^31 - 16 bytes |
| `Umalloc.RelinkedIsInsert` | p5/xv6-public/umalloc.c:33-42 | the header assignments of free are the insertion into the ordered list, in all four cases of coalescing, also across the wrap of the cycle |
| `Umalloc.TakeAll` | p5/xv6-public/umalloc.c:76-77 | unlinking a block that fits exactly removes it from the cycle |
| `Umalloc.TakeTail` | p5/xv6-public/umalloc.c:78-82 | cutting the tail off a block leaves the cycle with a shorter block |
| `Umalloc.NextFitExact` | p5/xv6-public/umalloc.c:74-88 | one lap from freep finds room exactly when some block has it |
| `Umalloc.FreeKeeps` | p5/xv6-public/umalloc.c:24-44 | free moves units from allocated to free and keeps the partition of all units |
| `Umalloc.TakeKeeps` | p5/xv6-public/umalloc.c:75-84 | malloc moves units from free to allocated and keeps the partition |
| `Umalloc.ChunkKeeps` | p5/xv6-public/umalloc.c:52-58 | a chunk from sbrk enters the partition |
| `Umalloc.UnitsAddUp` | p5/xv6-public/umalloc.c:24-90 | free plus allocated units equal the units obtained from sbrk, and no unit is both |
| `Allocator.Malloc.Allocate` | p5/xv6-public/umalloc.c:63-90 | the next fit behind freep is taken; without one sbrk is asked exactly once, and then a fit is met even when the chunk coalesced into freep; null exactly when sbrk failed, with the list unchanged |
| `Allocator.Malloc.Morecore` | p5/xv6-public/umalloc.c:46-61 | at least 4096 units are asked for, and the chunk is in the list, coalesced |
| `Allocator.Malloc.FindPlace` | p5/xv6-public/umalloc.c:29-32 | the search of free ends at the last block below the freed one, wherever it starts |
| `Allocator.Malloc.Free` | p5/xv6-public/umalloc.c:24-44 | the block joins the list at its place, merged with the neighbours it touches, and freep is the block below it |
| `Allocator.Malloc.Relink` | p5/xv6-public/umalloc.c:33-42 | the assignments of free leave the headers RelinkedIsInsert speaks of |
| `Allocator.Malloc.TakeBlock` | p5/xv6-public/umalloc.c:75-84 | n units from the end of the block, its address behind a header of n units |
| `Files.WordSetWord` | p5/xv6-public/fs.c:389-394 | a block number stored in the indirect block reads back, and no other entry changes |
| `Files.AttachAddr` | p5/xv6-public/fs.c:378-394 | entering a new block changes one slot of one file and no other slot of any; a new indirect block has no entries |
| `Files.AttachWf` | p5/xv6-public/fs.c:378-394 | it keeps block maps disjoint, marked in the bitmap and without holes |
| `Files.AttachBytes` | p5/xv6-public/fs.c:378-394 | it changes no byte of any file |
| `Files.WriteAddr` | p5/xv6-public/fs.c:499-500 | writing into a data block changes no block map |
| `Files.WriteWf` | p5/xv6-public/fs.c:499-500 | it keeps the invariant of the whole file system |
| `Files.WriteBytes` | p5/xv6-public/fs.c:499-500 | it changes the written bytes of that file and no byte of any other |
| `FileSystem.InodeCache.constructor` | p5/xv6-public/fs.c:284-313 | a well-formed image is a valid state with equal cached and disk inodes |
| `FileSystem.InodeCache.Balloc` | p5/xv6-public/fs.c:55-78 | the first free block of the bitmap, marked, zeroed and logged; the panic exactly when all are marked |
| `FileSystem.InodeCache.AllocateSlot` | p5/xv6-public/fs.c:387-394 | balloc's block entered in the inode or the indirect block, keeping the invariant; nothing, and no block is free, otherwise |
| `FileSystem.InodeCache.Bmap` | p5/xv6-public/fs.c:371-400 | the block of the slot, allocated if need be with the indirect block before it; no other slot and no byte changes, nothing at all if it was there; the panic only when the slot has no block and none is free |
| `FileSystem.InodeCache.Readi` | p5/xv6-public/fs.c:451-477 | the bytes of the file from off on, clipped at its end; -1 exactly past the end or when off + n wraps |
| `FileSystem.InodeCache.Iupdate` | p5/xv6-public/fs.c:216-236 | the disk inode is the cached one |
| `FileSystem.InodeCache.Writei` | p5/xv6-public/fs.c:479-511 | refused without effect, or the file's bytes spliced with src and all other files unchanged; block maps stay disjoint, marked and without holes, disk and cached inodes stay equal although iupdate runs only when the size grew, and only blocks of the write, the indirect block, the bitmap and the inode's block are logged; the out of blocks panic exactly when the disk has fewer free blocks than the write lacks, the indirect block included, and then no block is free |
| `FileSystem.InodeCache.PutBytes` | p5/xv6-public/fs.c:495-503 | one block of writei's loop keeps the bytes written so far and all others, and the free blocks over what the write lacks |
| `FileSystem.InodeCache.Bfree` | p5/xv6-public/fs.c:80-95 | the block is free; panics exactly if it was already |
| `FileSystem.InodeCache.FreeDirect` | p5/xv6-public/fs.c:414-419 | exactly the direct blocks are freed, none twice |
| `FileSystem.InodeCache.FreeIndirect` | p5/xv6-public/fs.c:421-431 | exactly the blocks of the indirect block and itself are freed, none twice |
| `FileSystem.InodeCache.Itrunc` | p5/xv6-public/fs.c:402-435 | the file is empty, exactly its blocks are free again, and "freeing free block" is not reached |
| `FileSystem.TruncatedWf` | p5/xv6-public/fs.c:407-435 | truncation keeps the invariant and every block of the other files |
| `FileSystem.TruncatedContent` | p5/xv6-public/fs.c:407-435 | truncation keeps the bytes of the other files |
| `FileSystem.LoopEnds` | p5/xv6-public/fs.c:495-509 | when writei's loop is done the new size covers the write without a hole, and an inode that iupdate skips had not changed |
| `FileSystem.AttachExtends` | p5/xv6-public/fs.c:378-394 | a block allocated for a write leaves every mapped block and byte in place |
| `FileSpace.AttachSlack` | p5/xv6-public/fs.c:378-394 | an allocation takes one free block and fills one slot that the write lacked: the difference stays, whatever range the write covers |
| `FileSpace.FullDoesNotFit` | p5/xv6-public/fs.c:77 | with no free block, a write that lacks one does not fit |
| `FileSystem.WrittenFits` | p5/xv6-public/fs.c:495-503 | a write that ran to its end had the blocks it lacked from the start |
| `FileWrite.ChunkLogsSeven` | p5/xv6-public/file.c:127-138 | a chunk of filewrite logs at most seven distinct blocks when one bitmap block covers the disk |
| `FileWrite.SpliceTwice` | p5/xv6-public/file.c:135-152 | writing one chunk behind another is writing both at once |
| `FileWrite.ReadBack` | p5/xv6-public/fs.c:451-477 | what was written is what is read back, and what lies before it is as before |
| `FileWrite.WriteChunk` | p5/xv6-public/file.c:136-147 | one transaction: the next chunk spliced in with at most seven blocks logged, or refused; the panic only when the disk lacks blocks for what the file has room for |
| `FileWrite.FileWrite` | p5/xv6-public/file.c:117-156 | the chunks together are one splice of the file and f->off moves over what was written; n or -1; unless offset leaves a gap exactly the bytes of the chunks that fit the largest file are written; the out of blocks panic exactly when the disk lacks blocks for these; the "short filewrite" panic is not reached |
| `FileWrite.SpentStep` | p5/xv6-public/file.c:127-153 | each chunk belongs to that room or is refused, and keeps the free blocks over what is lacking for the whole of it |
| `Dirs.Strncmp` | p5/xv6-public/string.c:58-66 | zero exactly when the names agree on what counts of fourteen bytes |
| `Dirs.Strncpy` | p5/xv6-public/string.c:68-80 | the stored name counts the same as the given one, and is padded with NULs |
| `Dirs.BytesRead` | p5/xv6-public/fs.h:54-57 | an entry read back from its sixteen bytes |
| `Dirs.EntrySpliced` | p5/xv6-public/fs.c:571-575 | writing an entry at its offset changes that entry, or appends one, and no other |
| `Dirs.DictFirst` | p5/xv6-public/fs.c:533-545 | the first live entry of a name is what the directory's map says |
| `Dirs.LinkDict` | p5/xv6-public/fs.c:562-575 | filling a dead or new entry with an absent name keeps names unique and adds exactly that name to the map |
| `Dirs.UnlinkDict` | p5/xv6-public/sysfile.c:213-215 | clearing a live entry keeps names unique and removes exactly its name from the map |
| `Directory.ReadEntry` | p5/xv6-public/fs.c:534-535 | readi of an entry never comes short in a directory of whole entries |
| `Directory.WriteEntry` | p5/xv6-public/fs.c:571-575 | the entry is written and no other file changes; a panic exactly when the entry lies past the largest file or its block is not to be had |
| `Directory.Dirlookup` | p5/xv6-public/fs.c:524-548 | the inode number the map has for the name, 0 exactly when it has none, and the offset of its entry; nothing changes |
| `Directory.Dirlink` | p5/xv6-public/fs.c:551-578 | -1 without effect if the name is there, else the map gains it and names stay unique; no other file changes; directories stay well-formed with every name leading to an inode; a panic exactly when no entry is dead and the file cannot grow by one or the disk lacks a block for it |
| `Directory.Isdirempty` | p5/xv6-public/sysfile.c:168-180 | no live entry behind the first two |
| `Directory.Unlink` | p5/xv6-public/sysfile.c:199-215 | refused without effect exactly for ".", "..", an absent name or a directory with entries; else the map loses the name; directories stay well-formed with every name leading to an inode; never a panic, since the entry has its block |
| `Directory.Create` | p5/xv6-public/sysfile.c:249-281 | a name that is there stays, the answer being its inode exactly if a file was asked for and found, else 0; a new name joins the parent's map and a new directory has exactly "." and ".."; neither dirlink answers -1; a panic exactly when the parent has no room for the name or the disk lacks the blocks for the entry and, for a directory, its first block; directories stay well-formed with every name leading to an inode |
| `Directory.LinkFits` | p5/xv6-public/fs.c:562-575 | where dirlink puts an entry, and that it fits there exactly with a dead entry or with room and a block behind the last |
| `Directory.DotsSpace` | p5/xv6-public/sysfile.c:267-273 | the first two entries of a new directory take one block at most and nothing of the parent's |
| `Paths.SplitsExactly` | p5/xv6-public/fs.c:595-617 | a path has exactly one list of non-empty components between slashes |
| `Paths.Skipelem` | p5/xv6-public/fs.c:595-617 | the next component, at most fourteen bytes of it, and the rest; the rest is empty exactly when it was the last |
| `Paths.WalkInParts` | p5/xv6-public/fs.c:632-652 | following a path is following its first part and then the rest |
| `Paths.ParentThenLast` | p5/xv6-public/fs.c:639-643 | namei is a lookup of the last name in the directory that nameiparent finds |
| `Paths.Namex` | p5/xv6-public/fs.c:624-658 | the walk over the components from the root or the current directory, through directories only; with nameiparent one level less and the last name; nothing changes |
| `ShellTokens.LexedExactly` | p5/xv6-public/sh.c:265-308 | there is exactly one way to cut a line into tokens with longest words and only white space between |
| `ShellGrammar.LineSound` | p5/xv6-public/sh.c:344-359 | what the descent consumes derives from line := pipe '&'* [';' line] |
| `ShellGrammar.PipeSound` | p5/xv6-public/sh.c:361-372 | likewise for pipe := exec, optionally followed by a bar and another pipe |
| `ShellGrammar.ExecSound` | p5/xv6-public/sh.c:415-446 | likewise for exec := '(' line ')' redirs or redirs (word redirs)*, at most nine words |
| `ShellGrammar.LineComplete` | p5/xv6-public/sh.c:344-359 | every derivable line is accepted with its own tree, when followed by the end or ')' |
| `ShellGrammar.PipeComplete` | p5/xv6-public/sh.c:361-372 | every derivable pipe is accepted with its own tree |
| `ShellGrammar.ExecComplete` | p5/xv6-public/sh.c:399-446 | every derivable command is accepted with its own tree |
| `ShellGrammar.AcceptsExactly` | p5/xv6-public/sh.c:327-342 | the descent takes a whole token list if and only if some tree derives it, and returns the only one that does |
| `ShellTree.LineWords` | p5/xv6-public/sh.c:265-446 | the words and redirection files of the command tree are the word tokens of the line, each as often as it occurs |
| `ShellOrder.LineOrdered` | p5/xv6-public/sh.c:344-446 | the tree's arguments are the words of the line in its order, and its redirections the operators with their files in its order, with their modes and descriptors |
| `ShellMeaning.LineOps` | p5/xv6-public/sh.c:344-372 | the pipe, list and back nodes of the tree, from left to right, are the bars, semicolons and ampersands of the line in order |
| `ShellMeaning.LineMeans` | p5/xv6-public/sh.c:344-446 | the grammar's tree is the meaning of the tokens read without it: a list at the first ';', else a background command at a final '&', else a pipe at the first bar, outside parentheses |
| `ShellAccepts.FitsExactly` | p5/xv6-public/sh.c:327-446 | the grammar derives exactly the lines that leave groups and simple commands when cut at their operators |
| `ShellTree.WordReadsBack` | p5/xv6-public/sh.c:449-493 | with NULs stored behind all words, each of them reads back as exactly its token, because no word has the end of another inside |
| `Shell.Parser.constructor` | p5/xv6-public/sh.c:333 | the line ends at the first NUL |
| `Shell.Parser.Gettoken` | p5/xv6-public/sh.c:265-308 | the next token with its span, and the cursor before the rest; 0 exactly at the end |
| `Shell.Parser.Peek` | p5/xv6-public/sh.c:310-319 | whether the next token is one of the symbols, without consuming it |
| `Shell.Parser.Parseredirs` | p5/xv6-public/sh.c:374-397 | the redirections wrapped around the command in order, or a panic exactly when a file is missing |
| `Shell.Parser.Parsebacks` | p5/xv6-public/sh.c:350-353 | one back command for each '&', and no other operator node |
| `Shell.Parser.Parseline` | p5/xv6-public/sh.c:344-359 | the tree of the line the grammar derives, or a panic |
| `Shell.Parser.Parsepipe` | p5/xv6-public/sh.c:361-372 | the tree of the pipe the grammar derives, or a panic |
| `Shell.Parser.Parseblock` | p5/xv6-public/sh.c:399-413 | the tree of the block the grammar derives, or a panic |
| `Shell.Parser.Parseargs` | p5/xv6-public/sh.c:428-443 | the words in argv in order with the null pointer behind them, never past MAXARGS, and the redirections around the command |
| `Shell.Parser.Parseexec` | p5/xv6-public/sh.c:415-446 | the tree of the command the grammar derives, or a panic |
| `Shell.Parser.Nulterminate` | p5/xv6-public/sh.c:448-493 | NULs exactly behind the words and files of the tree, nothing else of the buffer touched |
| `Shell.Parser.Parsecmd` | p5/xv6-public/sh.c:327-342 | terminates on every NUL-terminated line and returns a command if and only if the grammar derives its tokens, which is if and only if the line, cut at semicolons, ampersands and bars outside parentheses, leaves only groups and simple commands of at most nine words; the tree is what the operators mean by precedence, with a node for each of them in order, and the line's arguments and redirections in order; each word reads back from the buffer as the token it was |
| `PipeRing.StoreAppends` | p5/xv6-public/pipe.c:94 | storing a byte appends it, also where nwrite wraps at 2^32 |
| `PipeRing.LoadRemoves` | p5/xv6-public/pipe.c:115 | loading a byte removes the oldest, also where nread wraps at 2^32 |
| `PipeRing.FullAndEmpty` | p5/xv6-public/pipe.c:85 | the comparisons of the wrapping counters decide full and empty |
| `PipeRing.Pipe.Write` | p5/xv6-public/pipe.c:78-98 | under one hold of the lock: what fits is appended; if that is all, n is returned and the readers woken; else the pipe is full, and the call sleeps after waking them, or gives up exactly when the read end is closed or the thread killed |
| `PipeRing.Pipe.Read` | p5/xv6-public/pipe.c:100-121 | under one hold of the lock: on an empty pipe that may still be written asleep, or -1 if killed, else the oldest min(n, held) bytes in order, their number returned and the writers woken |
| `PipeRing.Pipe.Close` | p5/xv6-public/pipe.c:59-76 | one end closed, its waiters woken, the pipe gone exactly when both are closed |
| `PipeRun.FifoAlways` | p5/xv6-public/pipe.c:78-121 | over all interleavings of readers and writers, with kills and closes, the bytes read are a prefix of the bytes written, and the pipe holds the rest, at most 512 |
| `PipeRun.ReadReturns` | p5/xv6-public/pipe.c:100-121 | a read returns min(n, held) of the oldest bytes and removes them, 0 when nothing is left to come; else it sleeps, or returns -1 if killed |
| `PipeRun.WriteReturns` | p5/xv6-public/pipe.c:78-98 | a write, begun or resumed, returns n once all its bytes are in the pipe, else fills the pipe and sleeps, or returns -1 exactly if it was killed or no reader is left |
| `PipeRun.ReturnsAlways` | p5/xv6-public/pipe.c:78-121 | in every run each write that is over returned its length and had stored all, or -1 and less; each read the number of its bytes, and the bytes handed out are those of the reads that are over, in their order |
| `PipeRun.NoLostWakeups` | p5/xv6-public/pipe.c:78-121 | in runs without kill, whenever the lock is free no reader sleeps on a non-empty pipe and no writer on one with room, so never both |
| `PipeRun.FreshIsAwake` | p5/xv6-public/pipe.c:22-57 | a new pipe is a state from which these runs may begin |
| `PipeRun.LostExactly` | p5/xv6-public/pipe.c:86-89 | a step loses a wakeup if and only if it is a write, just begun or resumed, whose thread is killed, with more than 512 bytes still to write while a reader sleeps |
| `PipeRun.AwakeExactly` | p5/xv6-public/pipe.c:78-121 | over every run with kills and closes: no thread ever sleeps that could go on, if and only if no step is such a write |
| `PipeRun.KilledWriterStrandsReader` | p5/xv6-public/pipe.c:86-89 | a run in which a killed writer fills the pipe and leaves a reader asleep |
| `PipeRun.ResumedWriterStrandsReader` | p5/xv6-public/pipe.c:85-92 | a run in which the write was begun before the kill and is resumed after it |
| `Proc.ForkKeeps` | p2/solution/proc.c:180-221 | each of fork's unlocked parts, with memory running out in any, keeps the invariant of the process table |
| `Proc.WaitKeeps` | p2/solution/proc.c:272-312 | reaping, returning and sleeping in wait keep it |
| `Proc.ExitMissed` | p2/solution/proc.c:250-261 | whoever gets a zombie child by an exit, the parent or init, is not left asleep in wait |
| `Proc.ExitKeeps` | p2/solution/proc.c:227-266 | exit, passing its children to init, keeps the invariant |
| `Proc.MemoryResources` | p2/solution/proc.c:191-196 | a fork that fails for memory frees a stack that is in use, once |
| `Proc.ReapsResources` | p2/solution/proc.c:287-300 | the zombie's stack and page table are in use by it alone when wait frees them, and free after: neither is freed twice |
| `Proc.StepKeeps` | p2/solution/proc.c:73-501 | each step of fork, exit, wait, sleep, wakeup, kill and the scheduler keeps the invariant |
| `Proc.RunKeeps` | p2/solution/proc.c:73-501 | so does every run: living parents of smaller pid, no process asleep in wait with a zombie child, unique pids, every stack and page table owned by one process |
| `Proc.BootIsSound` | p2/solution/proc.c:120-154 | the table after userinit satisfies it |
| `Proc.ReachesInit` | p2/solution/proc.c:252-259 | in every such state each process, zombies included, has a living parent of smaller pid, and the chain of parents ends at init |
| `ProcRun.AsleepExactly` | p2/solution/proc.c:418-474 | a process is asleep on a channel from its own sleep on until a wakeup on that channel or a kill of it: after a wakeup nobody is |
| `ProcRun.SleepsSince` | p2/solution/proc.c:418-474 | in every run with a wakeup on the channel, whoever sleeps on it at the end went to sleep after the last one |
| `ProcRun.KilledExactly` | p2/solution/proc.c:479-497 | only kill marks a process killed, and only wait, which takes its entry back, unmarks it |
| `ProcRun.KilledStays` | p2/solution/proc.c:272-312 | over every run a killed process stays killed until it is reaped |
| `ProcRun.NewUnmarked` | p2/solution/proc.c:88-90 | in runs in which kill hits processes only, every entry that is no process is unmarked |
| `ProcRun.BornKilled` | p2/solution/proc.c:485-492 | a legal run from boot in which kill(0) marks an unused entry, and fork makes a process there that is killed already |
| `ProcRun.ForkMakesChild` | p2/solution/proc.c:180-222 | fork with memory enough: one new runnable child of the caller with the next pid, its stack and its page table, and nothing else changes |
| `ProcRun.StackFails` | p2/solution/proc.c:94-98 | fork without memory for the stack: the entry is unused again, and nothing changes but its pid and the next one |
| `ProcRun.MemoryFails` | p2/solution/proc.c:192-198 | fork without memory for the pages: so too, with the stack given back |
| `ProcTable.Table.constructor` | p2/solution/proc.c:120-154 | the table with init alone, satisfying the invariant |
| `ProcTable.Table.Wakeup1` | p2/solution/proc.c:456-464 | exactly the processes sleeping on the channel become runnable |
| `ProcTable.Table.Allocproc` | p2/solution/proc.c:73-96 | the first unused entry becomes an embryo with the next pid; NPROC and no change exactly when none is unused |
| `ProcTable.Table.Exit` | p2/solution/proc.c:247-266 | the scan that passes exactly p's children to init and wakes it for zombies is the atomic exit step, after which p is a zombie |
| `ProcTable.Table.Wait` | p2/solution/proc.c:277-311 | a zombie child reaped and its pid returned if there is one, else -1 exactly without children or when killed, else asleep on itself |
| `ProcTable.Table.Kill` | p2/solution/proc.c:479-497 | a process of that pid is killed and, if asleep, runnable, the others as before; -1 exactly if there is none |
| `Stride.StrideTimesTickets` | p4/solution/proc.h:1-3 | with 1 to 32 tickets a stride times its tickets is between 993 and 1024 |
| `Stride.ChosenOnce` | p4/solution/proc.c:365-386 | pass, run time, pid and table order leave exactly one choice |
| `Stride.ChoiceExists` | p4/solution/proc.c:365-386 | the scan chooses something as soon as a process is runnable |
| `StrideRun.StepSane` | p4/solution/proc.c:90-100 | each of turn, sleep, exit, wakeup, kill, fork, failed fork and settickets keeps the account of the global tickets, and divides by them only when there are some |
| `StrideRun.TicketsExact` | p4/solution/proc.c:228-238 | from userinit on, global_tickets is the sum of the tickets of those not asleep and 8 for each fork that got an entry and is over, failed or not |
| `StrideShare.FairAlways` | p4/solution/proc.c:388-404 | over every run of turns, sleeps, wakeups, forks and exits in which i and j only run and yield: neither is more than its stride ahead of the other |
| `StrideShare.ShareBound` | p4/solution/proc.c:388-404 | from equal passes on, over every such run, 993 * n_i * t_j <= 1024 * (n_j * t_i + t_j) for their turns |
| `StrideShare.WaitingBound` | p4/solution/proc.c:365-404 | over every such run, between two turns of i, j gets at most stride_i / stride_j + 1 |
| `StrideExact.GetsCpu` | p4/solution/proc.c:365-404 | whoever waits for the CPU gets it while the others yield |
| `StrideExact.Outruns` | p4/solution/proc.c:498-510 | if j may sleep, there is a run in which i gets more turns than the tickets allow |
| `StrideExact.ShareExactly` | p4/solution/proc.c:388-404 | let a set of processes sleep: the turns of i and j are in proportion each way over all runs if and only if neither is in the set |
| `StrideNapper.StepCost` | p4/solution/proc.c:498-538 | a turn that ends in yield costs a process its stride, one that ends asleep at most the advance of the global pass |
| `StrideNapper.SleeperShare` | p4/solution/proc.c:398-404 | over any run, the pass of a process moves by the strides of its yields and at most the advance of the global pass, however often it ran and slept |
| `StrideNapper.NapperKeepsUp` | p4/solution/proc.c:498-538 | from any table in which only two processes want the CPU, with at least 33 global tickets: for any k a run in which the one with one ticket, sleeping, gets k turns and the one with 32 at most one more than it |
| `StrideNapper.NapperFromBoot` | p4/solution/proc.c:120-154 | such a table is reached from userinit by two forks, settickets and sleeps |
| `StrideCode.Scheduler.constructor` | p4/solution/proc.c:120-175 | the state after userinit |
| `StrideCode.Scheduler.Pick` | p4/solution/proc.c:365-386 | a runnable entry with the least pass, on a tie the least run time, then the least pid, then the first; none exactly when nothing is runnable |
| `StrideCode.Scheduler.Dispatch` | p4/solution/proc.c:388-392 | the step that gives the chosen entry the CPU |
| `StrideCode.Scheduler.TurnOver` | p4/solution/proc.c:397-404 | the entry that ran, and no other, is charged its stride and its ticks, and the global pass moves on by the global stride |
| `StrideCode.Scheduler.Sleep` | p4/solution/proc.c:498-513 | the step of a turn that ends asleep: the lead over the global pass is kept, the tickets leave the global sum, without a division by zero |
| `StrideCode.Scheduler.Exit` | p4/solution/proc.c:274-298 | the step of a turn that ends in exit |
| `StrideCode.Scheduler.Wakeup1` | p4/solution/proc.c:528-540 | one wakeup step after the other for exactly the sleepers on the channel, never dividing by zero |
| `StrideCode.Scheduler.Kill` | p4/solution/proc.c:554-578 | the first process of the pid is woken if it sleeps, -1 exactly if there is none |
| `StrideCode.Scheduler.Allocproc` | p4/solution/proc.c:82-102 | the first unused entry becomes an embryo, its tickets counted; -1 exactly if there is none |
| `StrideCode.Scheduler.Start` | p4/solution/proc.c:228-240 | the end of fork, with the second count of the tickets |
| `StrideCode.Scheduler.SetTickets` | p4/solution/sysproc.c:102-123 | the caller's tickets: 8 for less than 1, 32 for more than 32, else n; its stride 1024 over them, and the global ones adjusted |
| `Grep.AcceptsStar` | p5/xv6-public/grep.c:89-90 | a starred item takes some number of fitting characters and the rest of the pattern goes on |
| `Grep.AcceptsOne` | p5/xv6-public/grep.c:93-94 | a plain item takes one fitting character |
| `Grep.AcceptsEnd` | p5/xv6-public/grep.c:91-92 | a final '$' accepts exactly the end of the text |
| `Grep.StarSteps` | p5/xv6-public/grep.c:99-105 | a star takes no character, or one and goes on |
| `Grep.Match` | p5/xv6-public/grep.c:72-82 | terminates, and returns 1 if and only if some substring of the text, a prefix after '^' and reaching the end before a final '$', is a word of the pattern |
| `Grep.Matchhere` | p5/xv6-public/grep.c:85-96 | 1 if and only if a prefix of the text is a word of the pattern |
| `Grep.Matchstar` | p5/xv6-public/grep.c:98-106 | 1 if and only if some number of fitting characters can be skipped so that the rest matches |

## Left out

- LogRun.StepKeeps: a commit is one step, with a crash after any of its writes; `log.committing` keeps every other operation out meanwhile, so nothing else falls between its writes.
- LogDevice.LogState.Commit: the cache holds just the pinned blocks; LogCache and LogOverCache prove that the buffers of BioRun look like that to the log. That the writes of LogOverCache's Commit are those of commit() is LogDevice's result. That a buffer can be had at all is not claimed: bget panics when all are in use or dirty (BioRun.PanicsExactly).
- Allocator.Malloc.Allocate: a chunk for which sbrk answers but which it did not add to the process is outside its precondition; RequestExact says for which requests that happens. sbrk's answers lie above all earlier ones.
- CowKernel.Kernel.CopyUvm: the frames that the page tables of p5's kernel mappings take are not counted; UserMemory.Copyuvm counts those of p2.
- Cow.ForkPageSafe: page tables are entries of their own beside the user pages, entered one step before the page that needs them; the words and the kernel's mappings of p5's tables are not modelled, those of p2's are (PageTable).
- CowLimit.FailedForksPanic: the child's directory takes one frame before its first page; the page tables of its kernel mappings, which take more, are not modelled.
- CowRun.CowRefinesEager: contents; which stores a process may make is CowStore's, since every page of a child is marked copy-on-write, one that was read-only in the parent included; shared mappings of wmap are not claimed to stay shared.
- AddressSpace.Kernel.Mappages: a size of zero is outside its precondition; no caller passes it.
- UserMemory.Allocuvm: that no page of the range is there yet is a precondition, the guard of the "remap" panic.
- FileSystem.InodeCache.Balloc: the bitmap is a set of block numbers, not bits of blocks.
- FileSystem.InodeCache.Writei: after the "out of blocks" panic it is promised only that no block is free; device inodes (T_DEV) are not modelled.
- FileSystem.InodeCache.Bmap: a block number past MAXFILE, the "bmap: out of range" panic, is outside its precondition; readi and writei never ask for one.
- FileWrite.FileWrite: begin_op and end_op are the points where the set of logged blocks starts anew; the log itself is LogRun's.
- Directory.Unlink: link counts and reference counts of inodes are not modelled; which inodes are files and directories is a parameter.
- Directory.Create: ialloc's choice of an inode is a parameter.
- Paths.Namex: locking and reference counting of the inodes on the way.
- Shell.Parser.Parsecmd: command nodes but for argv are values, and malloc does not fail; a panic of the parser is the answer None.
- PipeRing.Pipe.Write: sleeping ends one call of the method; its thread calls it again with the position it had reached.
- Proc.StepKeeps: kernel stacks and page tables are names handed out by the environment; open files, working directories and the contents of memory are not in the table.
- StrideRun.StepSane: one CPU, the Makefile's default; with two, a running process is not in the other CPU's scan, and a turn is charged only when it ends, so the bounds do not hold as stated.
- StrideShare.ShareBound: passes and ticks are mathematical integers.
- Grep.Match: grep's read loop is not modelled.
- Boot code, interrupt controllers, console, disk driver, context switch and TLB: hardware. A disk block write is atomic, as in memide.c.
- wmap, wunmap and lazy file mappings: they accept lengths and addresses that wrap, and their error paths leave a region registered.
- exec and the system calls that only fetch arguments and call what is modelled.
- mkfs: a well-formed image without holes is the starting point.
- inode allocation and reference counting (ialloc, iget, iput) and the file table.
