# Verified models of the xv6 kernel, its allocators and its shell

The modules model the hardest code of the repository and prove what it is for. Code that
updates state in place is modelled as a class with an invariant and methods; code that runs
concurrently is modelled as a state machine whose steps are what happens between two lock
operations or two device writes, and its results hold for every run.

* **Redo log.** `RedoLog` has the writes of a commit and of a recovery as lists and proves what
  is left when they are cut anywhere. `LogCode` has the loops of kernel/log.c and proves that
  they send exactly those lists to the disk. `GroupCommit` interleaves threads, commits, buffer
  recycling, crashes and recoveries, and refines them to a disk on which whole groups of
  operations take effect at once; a thread may hold any number of buffers. `LogSteps` ties
  the code in `LogCode` to the steps of that machine. `LogSpace` proves how much an operation
  may log, and that begin_op's test refuses exactly what would be unsafe.
* **Buffer cache.** `BufferCache` is kernel/bio.c with its LRU ring and reference counts;
  `CacheSteps` ties its functions to the steps of `GroupCommit`, where a buffer is recycled
  when its count is 0.
* **File blocks.** `FileBlocks` says who owns which block and what a file contains;
  `FileSystem` has balloc, bfree, bmap, itrunc, readi, writei, iupdate and the loop of filewrite.
  Its constructor makes a formatted empty image, so the invariant that all methods keep can be met.
  `FileSharing` interleaves the writei and itrunc calls of several threads between any two
  log_writes and refines them to operations that happen at once. `CrashSafety` puts the file
  system on the log.
* **Allocators.** `FreeList` is user/umalloc.c. `SlotIndex`, `IntrusiveList`, `Slots`, `Chunks`,
  `FastCells` and `Ummalloc` are the segregated-fit allocator, from bit tricks to mm_malloc.
* **Virtual memory.** `PageTable` relates three-level Sv39 trees to a flat map of pages;
  `VirtualMemory` has kernel/kalloc.c and kernel/vm.c on them.
* **virtio disk.** `VirtioQueue` has the descriptor table; `Virtio` interleaves driver, device
  and interrupt and refines them to atomic transfers.
* **Processes.** `SleepWakeup` proves that no wakeup is lost to clients that keep the discipline
  of the lock, and `SleepLocks`, `LogWaiters` and `DiskWaiters` that sleep-locks, begin_op and the
  disk driver keep it; sleep-locks exclude. `ProcessTree` covers fork, exit, wait, kill and
  scheduling, and that no wakeup of wait is lost. For each of these machines, and for `Virtio`,
  it is proved what a run that cannot go on looks like: only a lock's holder, an operation, the
  device or a living child ever keeps anybody waiting.
* **Shell and grep.** `ShellGrammar`, `ShellTrees`, `Shell` and `ShellText` are the parser of
  user/sh.c and exactly what it accepts; `Regexp` is the matcher of user/grep.c.

`Basics` and `Blocks` hold what they share: options, lists without repetition, and disk blocks
as bytes, words and bits.

## What the code does not do

Three properties one would expect are false of the code; the exact condition is proved for each.

* *An operation may log MAXOPBLOCKS blocks.* log_write tests for a full log before it looks for
  the block (kernel/log.c:220), so logging an already logged block again can panic.
  `LogSpace.FullLogPanics` is such a run with three operations of ten blocks each.
  `LogSpace.TightBudget` proves that operations which log only while they have logged fewer than
  b distinct blocks are safe on every schedule if and only if b is at most MAXOPBLOCKS. filewrite
  is safe because iupdate is the last log_write of each of its operations.
* *The block malloc gets from sbrk has the size it records.* morecore passes its byte count
  through an int (user/umalloc.c:54). `FreeList.Heap.Morecore` proves that the recorded block
  lies within what sbrk gave if and only if fewer than 2^27 units are asked for; beyond that
  sbrk is asked to shrink the process, to leave it, or for one unit. `FreeList.Heap.Malloc`
  proves that the heap stays within what sbrk gave if and only if a free block fits, or sbrk
  fails, or fewer than 2^27 units are needed. `FreeList.PhantomBlock` reaches a block of 2^28 + 1
  units, of which sbrk gave one, with one call.
* *mm_malloc returns a block of the requested size.* tiny_allocate hands out the first chunk of
  its slot unseen, and a slot holds chunks of two sizes (memory/ummalloc_alloc.h:154-160).
  `Ummalloc.Heap.Malloc` proves that the block is large enough if and only if that chunk is not
  the shorter one (`Misfit`), and `Ummalloc.ShortBlock` reaches the bad case from mm_init with 85
  calls.

## Model

| member | source | states |
|---|---|---|
| RedoLog.HeadRoundTrip | kernel/log.c:86-114 | read_head gives back the list that write_head stored, whatever the block held before. |
| RedoLog.SlotWriteDurable | kernel/log.c:178-191 | Writing log slots under an empty header changes nothing that a recovery would install. |
| RedoLog.HeadWriteDurable | kernel/log.c:102-114 | Writing the header makes all logged blocks count at once, and no other block. |
| RedoLog.InstallDurable | kernel/log.c:68-83 | Installing the next block changes the disk but not what it recovers to. |
| RedoLog.ClearDurable | kernel/log.c:194-203 | Clearing the header after the last install changes nothing that is recovered and empties the log. |
| RedoLog.RecoveryCut | kernel/log.c:116-123 | A recovery cut after any number of writes recovers to the same contents; a complete one leaves them in place with an empty log. |
| RedoLog.CommitCut | kernel/log.c:194-203 | A commit cut before its header write recovers to the old contents, after it to the new. |
| RedoLog.CrashAtomicity | kernel/log.c:68-123 | Cut a commit anywhere, cut any number of recoveries anywhere, complete one: every logged block is old or every one is new, and new exactly when the first header write reached the disk. |
| LogCode.Log.WriteLog | kernel/log.c:178-191 | The loop writes exactly the cached copies of the listed blocks to their slots, in order. |
| LogCode.Log.WriteHead | kernel/log.c:102-114 | One write of the header block, holding the list. |
| LogCode.Log.InstallTrans | kernel/log.c:68-83 | The loop writes each slot to its home block and unpins each block unless recovering. |
| LogCode.Log.Commit | kernel/log.c:193-203 | Commit sends exactly the write list of CommitCut, empties the log and drops its pins. |
| LogCode.Log.ReadHead | kernel/log.c:86-97 | The in-memory list becomes the one in the header block. |
| LogCode.Log.RecoverFromLog | kernel/log.c:116-123 | Recovery sends exactly the write list of RecoveryCut and leaves a settled disk with the same contents. |
| LogCode.Log.TryBegin | kernel/log.c:126-142 | An operation is admitted exactly when no commit runs and the space reserved for all operations suffices; `LogSpace.AdmitsExact` shows that this refuses exactly what would be unsafe. |
| LogCode.Log.EndOp | kernel/log.c:146-175 | The last operation out commits: when it returns, every home block holds what was logged for it, or else what it held, and the log is empty; a commit in progress is the panic. |
| LogCode.Log.LogWrite | kernel/log.c:214-235 | Absorbs a listed block, appends and pins a new one; panics exactly on a full log or outside an operation. |
| LogSteps.BeginOp | kernel/log.c:126-142 | begin_op's test passes exactly when the machine of GroupCommit lets the thread begin, with the same effect. |
| LogSteps.LogWriteOp | kernel/log.c:214-235 | log_write of a thread within its budget has the effect of the machine's step and does not panic. |
| LogSteps.EndOp | kernel/log.c:146-175 | end_op never panics; for the last operation it has the effect of all the committer's steps, and on return the whole group is durable; for another it only leaves. |
| LogSteps.GroupDurable | kernel/log.c:146-203 | The same for every schedule of the committer's steps among those of the other threads: whenever the commit is over without a crash in between, the whole group is durable and nothing else is. |
| LogSteps.CommitPhase | kernel/log.c:193-203 | The machine's committer, undisturbed, changes disk, cache, counts and list exactly as commit() does. |
| GroupCommit.GroupCommitRefinement | kernel/log.c:126-235 | Every step of every interleaving with crashes is a step of a disk where whole groups take effect at once while no operation is active; no panic is reached. |
| GroupCommit.UsedNotRecycled | kernel/bio.c:75-87 | In every run a buffer whose count is 0, which is all that bget tests, is used by no thread and pinned by no log entry. |
| GroupCommit.ReadsLatest | kernel/bio.c:92-103 | In every reachable state, with buffers recycled whenever their count is 0, a held, unchanged buffer shows the committed contents with the pending writes applied. |
| GroupCommit.LogWriteFits | kernel/log.c:214-235 | With the space that begin_op reserved, log_write neither overflows nor panics. |
| GroupCommit.NobodyStuck | kernel/log.c:116-235 | In every run recovery can take its next step, and so can the committer and every thread that uses a buffer, unless somebody holds that buffer; and whoever holds one can log it or release it. |
| LogSpace.FullLogPanics | kernel/log.c:214-235 | A run in which no operation logs an eleventh block, ending in "too big a transaction". |
| LogSpace.TightBudget | kernel/log.c:126-142 | Operations that log only while below b distinct blocks never panic, on all layouts, images and schedules, if and only if b is at most MAXOPBLOCKS. |
| LogSpace.LoggedIsOpLog | kernel/log.c:214-235 | In every run the budget counts exactly the distinct blocks the operation has logged since begin_op. |
| LogSpace.AdmitsExact | kernel/log.c:126-142 | begin_op's test is exact: outside a commit it refuses an operation if and only if, with that many blocks logged and operations active, letting it begin could lead some run within everybody's budget to a panic. |
| LogSpace.OccursIs | kernel/log.c:126-142 | Which numbers of logged blocks and active operations occur outside a commit: at most three operations and LOGSIZE blocks, none without an operation. |
| LogSpace.FittingOpsNeverPanic | kernel/log.c:126-235 | No interleaving of operations shaped like those of filewrite reaches a panic. |
| BufferCache.Cache.constructor | kernel/bio.c:36-53 | binit links all buffers into one ring. |
| BufferCache.Cache.Bget | kernel/bio.c:58-89 | A cached block is found and gains a reference; otherwise exactly the least recently released unreferenced buffer is recycled; it fails exactly when there is none. Keeps the ring a permutation and every block in one buffer. |
| BufferCache.Cache.Bread | kernel/bio.c:91-103 | The returned buffer holds the cached contents if valid, else the disk's; no other buffer changes. |
| BufferCache.Cache.Brelse | kernel/bio.c:114-137 | The last release moves the buffer to the front of the ring; contents and other buffers stay. |
| BufferCache.Cache.Bpin | kernel/bio.c:139-144 | One more reference, nothing else. |
| BufferCache.Cache.Bunpin | kernel/bio.c:146-151 | One reference less, nothing else. |
| BufferCache.MoveRing | kernel/bio.c:126-134 | Unlinking and relinking behind the head keeps one circular doubly linked list with that buffer first. |
| BufferCache.LastFreeIsOldest | kernel/bio.c:75-87 | The first unreferenced buffer met from the back is the least recently released one. |
| CacheSteps.HitIsRef | kernel/bio.c:65-73 | bget on a cached block is the machine's step that counts the buffer. |
| CacheSteps.MissIsRecycleThenRef | kernel/bio.c:75-87 | bget on another block is the machine's recycling of the old block, which is enabled, and then that step. |
| CacheSteps.ReleaseIsUnref | kernel/bio.c:114-137 | brelse is the machine's step that drops the count. |
| CacheSteps.PinIsBump | kernel/bio.c:139-151 | bpin and bunpin change the count as the machine's log_write and install steps do. |
| CacheSteps.Bget | kernel/bio.c:58-89 | The code of bget, called by a thread of the machine, keeps buffers and machine in agreement. |
| CacheSteps.Brelse | kernel/bio.c:114-137 | The same for brelse, which always finds a positive count. |
| FileSharing.StepKeeps | kernel/fs.c:49-539 | Whatever balloc, bzero, bmap, bfree, writei, itrunc or iupdate passes to log_write next, in whatever thread, keeps files, free map, inodes on disk and blocks in hand consistent. |
| FileSharing.Linearizable | kernel/fs.c:379-539 | In every interleaving of writei and itrunc calls on locked inodes, a file changes exactly when its operation ends and as if done at once, and keeps its type and links; all changes are logged; when no operation is under way, the blocks are a well-formed file system with these files. |
| FileSharing.BlocksInHand | kernel/fs.c:64-107 | No two threads ever have the same block from balloc or to bfree, no such block is in an inode, and bfree never meets a free block. |
| FileSharing.OperationsGoOn | kernel/fs.c:379-539 | In no run does an operation on a locked inode wait for another one: it can store where a block is mapped, take any free block where none is, free what it has left to free, or end. |
| CrashSafety.RecoveredFiles | kernel/log.c:126-235 | At every point of every run with crashes, the disk recovers to a well-formed file system whose files have the contents that the operations of the committed groups gave them, and the types and links they always had; when the log is idle, the disk itself holds it. |
| CrashSafety.GroupOk | kernel/log.c:126-175 | The blocks logged by a group of writei and itrunc calls, interleaved or not, lead from one well-formed file system to another with the effects of these calls. |
| CrashSafety.PartOk | kernel/fs.c:379-539 | The same for one call by itself and for calls that interleave from one quiet moment to another. |
| CrashSafety.AgreesIsFiles | kernel/log.c:116-123 | A disk that agrees on all home blocks with a well-formed file system is one, with the same contents. |
| CrashSafety.WriteFile | kernel/fs.c:505-539 | writei by itself is such a call: the blocks it logs lead to a well-formed file system with the bytes spliced into the file and the other files unchanged. |
| CrashSafety.TruncateFile | kernel/fs.c:425-453 | itrunc is one too, with the file emptied. |
| FileBlocks.NoSharing | kernel/fs.c:382-421 | The invariant that Bmap, Itrunc and Writei keep means that no two address entries of any inodes name the same block, and that named blocks are marked. |
| FileBlocks.TruncateOk | kernel/fs.c:425-453 | Unmarking exactly one inode's blocks and clearing it leaves all other files and ownership as they were. |
| FileSystem.InoRoundTrip | kernel/fs.c:225-241 | An inode written to its block reads back, and its neighbours are untouched. |
| FileSystem.FileSystem.Balloc | kernel/fs.c:65-88 | The first free block, marked, zeroed and logged; 0 exactly with every block marked. |
| FileSystem.FileSystem.Bfree | kernel/fs.c:91-105 | Unmarks the block; panics exactly when it was free. |
| FileSystem.FileSystem.Bmap | kernel/fs.c:382-421 | The address of the file's block, allocating it and the indirect block as needed; every other entry, mark and file is kept; 0 only on a full disk; a mapped block costs nothing. |
| FileSystem.FileSystem.Iupdate | kernel/fs.c:225-241 | The inode on disk becomes the one in memory; no file, address or mark changes. |
| FileSystem.FileSystem.Itrunc | kernel/fs.c:425-453 | Frees exactly the file's blocks, never a free one, keeps its type and links, and leaves every other inode and its contents. |
| FileSystem.FileSystem.Readi | kernel/fs.c:471-496 | Returns the slice of the file's bytes, clipped at its size, and allocates nothing. |
| FileSystem.FileSystem.Writei | kernel/fs.c:505-539 | Splices the bytes into the file as far as the disk has room, keeps its type and links, sets its size to the larger of the old size and the end of the bytes stored, refuses exactly holes and overlong files, keeps other inodes and files, leaks no block, logs iupdate last and at most nine blocks before it for three blocks of data. |
| FileSystem.FileSystem.WriteOp | kernel/file.c:155-174 | One chunk: writei as an operation whose log_writes fit the log, all changes being logged; type and links stay. |
| FileSystem.FileSystem.FileWrite | kernel/file.c:155-174 | The chunks together are one splice that keeps type and links; each is an operation that fits the log; it stops early only on a full disk or a refused chunk. |
| FreeList.Heap.FindPlace | user/umalloc.c:29-32 | The search ends, at the one entry the block belongs after. |
| FreeList.Heap.Free | user/umalloc.c:24-44 | The block leaves the live set; the list stays one address-ordered cycle without abutting blocks, whose other entries are unchanged; units and live blocks are kept; freep is the entry the block belongs after. |
| FreeList.Heap.Morecore | user/umalloc.c:46-61 | A block large enough for the request is recorded at the old break and joins the list, and if nothing fitted before, only the entry that ends with it does now; it lies within what sbrk gave if and only if fewer than 2^27 units are asked for; fails exactly when sbrk does. |
| FreeList.Heap.Scan | user/umalloc.c:73-86 | The search ends at the first block after freep that fits, or has shown that none does. |
| FreeList.Heap.Take | user/umalloc.c:74-83 | An exact fit is unlinked, the tail of a larger block cut off; the units stay partitioned; freep is the entry before. |
| FreeList.Heap.Malloc | user/umalloc.c:63-90 | A new live block of the right size, disjoint from all others: the end of the first entry after freep that fits, freep then being the entry before it, or else the end of the new memory; memory is requested exactly when nothing fits, and 0 returned exactly when sbrk then fails; the heap stays within what sbrk gave if and only if nothing was requested, or sbrk failed, or fewer than 2^27 units are needed. |
| FreeList.UnitsPartitioned | user/umalloc.c:24-90 | Every unit obtained from sbrk, and no other, is in exactly one free or live block. |
| FreeList.SbrkArgExact | user/umalloc.c:46-61 | The int argument of sbrk keeps the byte count if and only if fewer than 2^27 units are asked for; otherwise it is at most 16. |
| FreeList.Given | user/umalloc.c:46-61 | What sbrk gave covers the block morecore records if and only if fewer than 2^27 units are asked for. |
| FreeList.PhantomBlock | user/umalloc.c:46-90 | One malloc of 2^32 - 1 bytes on a fresh heap returns a block of 2^28 + 1 units, of which sbrk gave one unit. |
| PageTable.EntryRoundTrip | kernel/riscv.h:338-363 | PTE2PA and PTE_FLAGS give back what PA2PTE and the flags put in. |
| PageTable.EntryBits | kernel/riscv.h:338-363 | The same on 64-bit words with the macros' shifts and masks. |
| PageTable.SplitPage | kernel/riscv.h:338-363 | The three indices of a page determine it. |
| PageTable.WalkInjective | kernel/vm.c:88-106 | walk never gives two pages, of one table or of two, the same leaf entry. |
| PageTable.SetLeaf | kernel/vm.c:145-168 | Writing the entry walk found changes the flat map of one table at one page. |
| PageTable.HangOk | kernel/vm.c:88-106 | A new empty table below an invalid entry keeps the trees and maps nothing. |
| PageTable.NoLeafPages | kernel/vm.c:274-290 | A tree has no valid leaf entry exactly when no page is mapped. |
| PageTable.DropTree | kernel/vm.c:274-290 | Dropping the tables of one root leaves well-formed trees and takes exactly its tables. |
| VirtualMemory.Vm.constructor | kernel/kalloc.c:26-40 | kinit puts exactly the managed pages on the free list. |
| VirtualMemory.Vm.Kalloc | kernel/kalloc.c:68-82 | The head of the free list, owned by nobody else, or 0 when it is empty. |
| VirtualMemory.Vm.Kfree | kernel/kalloc.c:46-63 | Panics exactly on an address that is no managed page; otherwise the page returns to the free list and every page keeps exactly one owner. |
| VirtualMemory.Vm.WalkTo | kernel/vm.c:88-106 | The table of the page's leaf entry; allocating tables maps nothing; panics exactly beyond MAXVA, fails only out of memory. |
| VirtualMemory.Vm.WalkAddr | kernel/vm.c:111-129 | The frame of a valid user page, 0 exactly otherwise. |
| VirtualMemory.Vm.MapPages | kernel/vm.c:145-168 | Changes the flat map at exactly the pages it reached; all of them exactly on success; panics only on size 0, on a mapped page or beyond MAXVA, fails only out of memory. |
| VirtualMemory.Vm.Uvmunmap | kernel/vm.c:173-195 | Removes exactly the given pages and frees exactly their frames if asked; panics exactly when one is not removable. |
| VirtualMemory.Vm.UvmCreate | kernel/vm.c:199-208 | A new root that maps nothing; the others are unchanged. |
| VirtualMemory.Vm.UvmAlloc | kernel/vm.c:228-252 | Either all new pages get distinct zeroed frames with the given flags, or nothing is mapped and every frame is back; fails only with fewer than three free pages per new page. |
| VirtualMemory.Vm.UvmDealloc | kernel/vm.c:258-270 | Removes exactly the pages between the sizes and frees their frames. |
| VirtualMemory.Vm.FreeWalk | kernel/vm.c:274-290 | Frees exactly the tables of the tree; panics exactly on a leaf. |
| VirtualMemory.Vm.UvmFree | kernel/vm.c:294-300 | Every frame below sz and every table of the tree is on the free list, other trees keep their maps; panics exactly when a page is missing below sz or mapped above. |
| VirtualMemory.Vm.UvmCopy | kernel/vm.c:308-336 | Every page is copied into a frame of its own with equal contents and flags, or nothing is mapped and every frame is back. |
| VirtualMemory.Vm.CopyOut | kernel/vm.c:354-374 | Stores byte by byte through the flat map; succeeds exactly when every byte translates. |
| VirtualMemory.Vm.CopyIn | kernel/vm.c:379-399 | Reads byte by byte through the flat map; succeeds exactly when every byte translates. |
| VirtualMemory.Vm.CopyInStr | kernel/vm.c:405-442 | The string up to its NUL; succeeds exactly when one ends within max translatable bytes. |
| VirtioQueue.FreeChainFrees | kernel/virtio_disk.c:184-197 | free_chain frees every descriptor of a chain in use and no other. |
| VirtioQueue.FreeChainSound | kernel/virtio_disk.c:168-197 | When free_chain does not panic, it has freed exactly a chain of used descriptors. |
| VirtioQueue.Queue.AllocDesc | kernel/virtio_disk.c:155-166 | The lowest free descriptor, -1 exactly when there is none. |
| VirtioQueue.Queue.Free | kernel/virtio_disk.c:168-182 | The descriptor becomes free and zeroed and no other changes; panics exactly when it is out of range or free. |
| VirtioQueue.Queue.FreeAll | kernel/virtio_disk.c:184-197 | The loop computes the function of FreeChainFrees and FreeChainSound. |
| VirtioQueue.Queue.Alloc3 | kernel/virtio_disk.c:199-213 | Three distinct free descriptors, or none taken, exactly when fewer are free. |
| Virtio.DecodeIs | kernel/virtio_disk.c:215-292 | The device decodes each chain in the table as the caller's request. |
| Virtio.RingPop | kernel/virtio_disk.c:294-327 | The reader of a ring finds the oldest entry, whatever the 16-bit indices wrap to. |
| Virtio.StepKeeps | kernel/virtio_disk.c:215-327 | Every step keeps descriptors free or in one chain, rings and threads in agreement, and is a step of an atomic disk. |
| Virtio.DescriptorProtocol | kernel/virtio_disk.c:155-327 | No run reaches a panic; each call's transfer happens once between call and return, and each completion clears its own buffer once. |
| Virtio.RequestsGoOn | kernel/virtio_disk.c:215-327 | In every run each request has its next step: the caller posts it, the device takes, serves and publishes it whoever holds vdisk_lock, and with the lock free the interrupt handler finds it and then the caller returns. |
| Virtio.AllReturn | kernel/virtio_disk.c:155-327 | In every run, when driver and device can do nothing more and no completion waits for an interrupt, every call of virtio_disk_rw has returned. |
| SleepWakeup.StepKeeps | kernel/proc.c:535-580 | Every step keeps the invariant behind NoLostWakeup. |
| SleepWakeup.NoLostWakeup | kernel/proc.c:535-580 | In no run is a process asleep on a channel whose condition holds unless a wakeup that has not passed it is coming. |
| SleepWakeup.SleepersWait | kernel/proc.c:535-580 | When nobody holds the channel's lock, sleepers on it sleep on a false condition. |
| SleepWakeup.WokenByChannel | kernel/proc.c:535-605 | In every run only kill or a wakeup of its own channel ends a process's sleep, and a process back from sleep is on no channel. |
| SleepWakeup.AllAtRest | kernel/proc.c:535-580 | When no step inside sleep and wakeup is possible and no client holds a lock, everybody is outside or asleep on a false condition. |
| SleepLocks.MutualExclusion | kernel/sleeplock.c:21-41 | A sleep-lock has at most one holder, and it is the recorded one. |
| SleepLocks.HoldingSleep | kernel/sleeplock.c:43-52 | holdingsleep is true exactly for the holder. |
| SleepLocks.NoLostSleeper | kernel/sleeplock.c:21-41 | No process sleeps for a free sleep-lock unless a wakeup is coming to it. |
| SleepLocks.AcquireDecides | kernel/sleeplock.c:21-31 | In every run the loop of acquiresleep takes the lock exactly when it is free and otherwise goes to sleep on it. |
| SleepLocks.OnlyHoldersBlock | kernel/sleeplock.c:21-41 | In a run that cannot go on, everybody is outside the lock code or asleep for a lock that another process holds. |
| LogWaiters.NoLostBegin | kernel/log.c:126-175 | No process sleeps in begin_op while the log would admit it, unless a wakeup that has not passed it is coming. |
| LogWaiters.BeginnersWait | kernel/log.c:126-142 | When nobody holds log.lock, whoever sleeps in begin_op has to. |
| LogWaiters.BeginDecides | kernel/log.c:126-142 | In every run the loop of begin_op reserves space exactly when the log admits the operation and otherwise goes to sleep. |
| LogWaiters.OnlyOperationsBlock | kernel/log.c:126-175 | In a run that cannot go on, everybody is outside log.c or asleep in begin_op, and in the second case some operation has yet to call end_op; end_op never meets a commit. |
| DiskWaiters.NoLostRequest | kernel/virtio_disk.c:215-327 | No process sleeps in virtio_disk_rw while three descriptors are free, or on a buffer the device is done with, unless a wakeup that has not passed it is coming. |
| DiskWaiters.FailedIsShort | kernel/virtio_disk.c:199-235 | When alloc3_desc has failed and given back what it took, fewer than three descriptors are free. |
| DiskWaiters.OnlyDeviceBlocks | kernel/virtio_disk.c:199-327 | In a run that cannot go on, everybody is outside the driver, or waits for a buffer that the device has, or sleeps for descriptors while the device has somebody's buffer. |
| SleepLocks.BaseRun | kernel/sleeplock.c:21-41 | Runs of sleep-locks are runs of the sleep and wakeup machine, with its discipline. |
| ProcessTree.StepKeeps | kernel/proc.c:279-510 | Every step of fork, exit, wait, kill and scheduling keeps the process table's invariant, which says among others that havekids tells whether wait's scan has met a child. |
| ProcessTree.ProcessesFormTree | kernel/proc.c:279-386 | In every run the parents of a started process lead through live processes to initproc. |
| ProcessTree.NoChildrenOfTheDead | kernel/proc.c:330-386 | In no run is an exited or free process anyone's parent. |
| ProcessTree.ReapedOnce | kernel/proc.c:388-435 | In every run a process that has exited is a zombie or was returned by wait once, never both; others neither. |
| ProcessTree.WaitersWoken | kernel/proc.c:330-435 | In no run does a process sleep in wait while it has a zombie child, except initproc while the process that gave it the child is still in its wakeup(initproc), under wait_lock. |
| ProcessTree.WaitDecides | kernel/proc.c:388-435 | In every run wait, at the end of its scan, can return -1 exactly when the process has no children or has been killed, and can sleep exactly when it has children. |
| ProcessTree.WaitHappens | kernel/proc.c:279-435 | A run in which a process sleeps in wait and is then returned its child. |
| ProcessTree.CallsComplete | kernel/proc.c:279-510 | In a run where only new calls and outside events are left, nobody holds wait_lock or is in the middle of fork, exit or wait except for want of a CPU, and whoever sleeps in wait has children, none of which has exited. |
| ProcessTree.KillSticks | kernel/proc.c:585-605 | In every run kill wakes its victim, which is killed from then on for as long as it exists. |
| ProcessTree.OneCpu | kernel/proc.c:437-510 | In no run is a process on two CPUs. |
| SlotIndex.Log2CeilIs | memory/ummalloc_data.h:46-67 | log2_ceil64 is the bit length of x - 1 in 64-bit arithmetic, for every word. |
| SlotIndex.Log2FloorIs | memory/ummalloc_data.h:75-77 | log2_floor64 is the position of the highest set bit. |
| SlotIndex.NextFreeIs | memory/ummalloc_data.h:89-94 | next_free with log2_ceil64 finds the lowest nonempty slot above the index, or shows there is none. |
| SlotIndex.IndexMonotone | memory/ummalloc_data.h:108-119 | get_index is monotone, and below 64 exactly for chunks of at most 64 KiB. |
| SlotIndex.HigherFits | memory/ummalloc_alloc.h:93-104 | Every chunk of a higher slot is larger than the request. |
| IntrusiveList.EraseRing | memory/ummalloc_decl.h:147-150 | Linking a node's neighbours removes it from the ring; they coincide exactly when it was alone. |
| IntrusiveList.PushRing | memory/ummalloc_decl.h:141-145 | Linking a node behind the head pushes it. |
| Slots.SlotTable.constructor | memory/ummalloc_alloc.h:221-225 | All lists are empty rings and the bitmap agrees. |
| Slots.SlotTable.Insert | memory/ummalloc_dealloc.h:13-25 | Pushes the chunk on its list; bitmap bit i stays set exactly for nonempty slots. |
| Slots.SlotTable.Remove | memory/ummalloc_data.h:99-106 | Removes the node from its list; the bit is cleared exactly when the slot becomes empty. |
| Slots.SlotTable.Extract | memory/ummalloc_alloc.h:78-85 | Pops the first node of the slot, with the same effect on the bitmap. |
| Chunks.HeaderRoundTrip | memory/ummalloc_decl.h:45-111 | Size and flag bits are read back from the header word. |
| Chunks.AllocateOk | memory/ummalloc_alloc.h:15-26 | Marking a chunk keeps the chunks tiling the heap and all boundary tags consistent; other chunks in use keep their sizes. |
| Chunks.SplitOk | memory/ummalloc_alloc.h:37-59 | Splitting gives a used chunk of the needed size and a free rest, with consistent tags and no adjacent free chunks. |
| Chunks.GrowOk | memory/ummalloc_alloc.h:260-278 | Growth turns the sentinel into a chunk followed by a new sentinel. |
| Chunks.GrowMergeOk | memory/ummalloc_dealloc.h:45-61 | Growth merges with a free last chunk, so that free chunks never touch. |
| FastCells.TakeCellOk | memory/ummalloc_alloc.h:111-144 | Takes the highest available cell and only that; the counter stays the number of set bits. |
| FastCells.CellsApart | memory/ummalloc_alloc.h:111-144 | Cells do not overlap and lie inside the page. |
| Ummalloc.InlineIndex | memory/ummalloc_alloc.h:301-317 | The indices computed inline are get_index. |
| Ummalloc.RestBound | memory/ummalloc_alloc.h:260-278 | What remains after heap growth still has one of the 64 slots. |
| Ummalloc.Heap.constructor | memory/ummalloc_alloc.h:227-258 | mm_init makes one free chunk up to the sentinel below the aligned top. |
| Ummalloc.Heap.FreeChunk | memory/ummalloc_dealloc.h:13-25 | Puts a chunk at the front of exactly the list of its size; its checks fail exactly when its neighbours are not in use. |
| Ummalloc.Heap.SplitAllocate | memory/ummalloc_alloc.h:37-59 | Hands out the first bytes of the chunk and lists the rest. |
| Ummalloc.Heap.TrySplitAllocate | memory/ummalloc_alloc.h:61-76 | Splits, and lists the rest, unless the rest is smaller than both the need and 512; the waste is bounded accordingly. |
| Ummalloc.Heap.NextAllocate | memory/ummalloc_alloc.h:87-104 | A new block large enough: the first chunk of the lowest nonempty higher slot, and new memory exactly if there is none; blocks in use are kept. |
| Ummalloc.Heap.IterativeAllocate | memory/ummalloc_alloc.h:162-197 | The first of the chunks it looks at that is large enough, all before it being too small; 0 exactly when none is. |
| Ummalloc.Heap.TinyAllocate | memory/ummalloc_alloc.h:146-160 | The first chunk of the slot, whatever its size; 0 exactly when it is empty. |
| Ummalloc.Heap.MallocBrk | memory/ummalloc_alloc.h:260-278 | A new block large enough from a heap grown by whole pages, at the old top or at the free chunk before it. |
| Ummalloc.Heap.FastBinReserve | memory/ummalloc_alloc.h:201-219 | Afterwards some fast page has a cell; a page is new exactly when there was none, and comes as mm_malloc would give it. |
| Ummalloc.Heap.FastAllocate | memory/ummalloc_alloc.h:106-144 | Gives the highest cell of the first fast page; the impossible branches are unreachable. |
| Ummalloc.Heap.MallocTiny | memory/ummalloc_alloc.h:287-299 | A new block of the asked size, or 8 bytes less exactly in the Misfit case: the first chunk of the slot, or else one as NextAllocate takes it. |
| Ummalloc.Heap.MallocMiddle | memory/ummalloc_alloc.h:301-308 | A new block large enough: the first of the first four chunks of its slot that fits, whole, and a higher slot or new memory exactly when none does. |
| Ummalloc.Heap.MallocHuge | memory/ummalloc_alloc.h:310-317 | The same with the first eight chunks. |
| Ummalloc.Heap.Malloc | user/ummalloc.c:12-21 | Exactly one block becomes live, the others keep their place and size, and it is large enough if and only if the tiny slot's first chunk is not 8 bytes short; which block it is, and what becomes of the lists and of the heap's end, is as `Policy` and `FastPolicy` say for its size. |
| Ummalloc.GrowsWhenNeeded | memory/ummalloc_alloc.h:260-317 | Under that policy the heap grows if and only if no chunk that is looked at in the slot fits and all higher slots are empty. |
| Ummalloc.BlocksApart | memory/ummalloc_alloc.h:106-160 | The bytes of different live blocks never overlap. |
| Ummalloc.TinyChunk | memory/ummalloc_alloc.h:146-160 | A chunk in a tiny slot is at most 8 bytes below the slot's largest size. |
| Ummalloc.ShortBlock | memory/ummalloc_alloc.h:146-160 | From mm_init, 84 calls of mm_malloc(40) and one of mm_malloc(56) return a block of 48 bytes. |
| Regexp.HereOne | user/grep.c:84-95 | The meaning of a pattern that begins with a literal or a dot. |
| Regexp.HereStar | user/grep.c:84-95 | The meaning of a pattern that begins with a starred character. |
| Regexp.MatchHere | user/grep.c:84-95 | True exactly when the pattern's pieces spell a prefix of the text; terminates on all inputs. |
| Regexp.MatchStar | user/grep.c:98-105 | True exactly when some run of the character is followed by the rest of the pattern. |
| Regexp.Match | user/grep.c:71-81 | True exactly when the declarative meaning of the pattern admits a match at some position. |
| ShellGrammar.RoundTrip | user/sh.c:328-447 | Parsing the fully parenthesised tokens of a command gives the command. |
| ShellGrammar.LineWords | user/sh.c:345-447 | Every word of a parsed command is a word of the input. |
| ShellTrees.ParsesExactly | user/sh.c:328-447 | The parser accepts a token list with a command if and only if the list is the tokens of a syntax tree, with redirections anywhere among the words, that means this command. |
| Shell.Parser.Peek | user/sh.c:311-321 | Tells whether the next token begins with one of the symbols, without consuming it. |
| Shell.Parser.GetToken | user/sh.c:266-309 | Consumes and returns exactly the first token of the rest. |
| Shell.Parser.ParseRedirs | user/sh.c:375-398 | The loop consumes all redirections that follow, or fails on a missing file name. |
| Shell.Parser.ParseExecCmd | user/sh.c:416-447 | Agrees with the grammar on result, failure and rest; `ShellTrees.ParsesExactly` says what the grammar accepts. |
| Shell.Parser.ParseBlockCmd | user/sh.c:400-414 | Agrees with the grammar on result, failure and rest. |
| Shell.Parser.ParsePipeCmd | user/sh.c:362-373 | Agrees with the grammar on result, failure and rest. |
| Shell.Parser.ParseLineCmd | user/sh.c:345-360 | Agrees with the grammar on result, failure and rest, and terminates on every input. |
| Shell.Parser.ParseAll | user/sh.c:328-343 | Succeeds exactly when the grammar accepts all of the input. |
| Shell.NulTerminate | user/sh.c:449-494 | Writes a NUL behind every word of the command and changes nothing else. |
| Shell.LexWords | user/sh.c:266-309 | Every word is nonempty, free of blanks and symbols, and ends at one or at the end of the input. |
| Shell.ParseCommand | user/sh.c:328-343 | Parses exactly the inputs whose tokens derive a command, and gives that command; then every word is intact in the buffer and terminated. |
| ShellText.TextRoundTrip | user/sh.c:266-447 | Every command of plain words is read back from its fully parenthesised text. |
| ShellText.LexExactly | user/sh.c:266-309 | The tokenizer reads a text as a token list if and only if the text spells these tokens with blanks between them, at least where two would run together. |
| ShellText.TextExactly | user/sh.c:266-447 | A text parses to a command if and only if it is such a layout of the tokens of a syntax tree that means the command. |

## Left out

- FreeList.Heap.Sbrk: the break moves by multiples of a header, as malloc moves it; stores beyond the break do not fault.
- FileSystem.FileSystem.Writei: transfers whose user copies all succeed; a failed copy leaves a changed buffer unlogged.
- FileSystem.FileSystem.FileWrite: the same.
- FileSystem.FileSystem.Readi: the same, so all bytes in range are delivered.
- GroupCommit.GroupCommitRefinement: clients log every change before they release the buffer, do not ask again for a buffer they hold (they would wait for themselves), and stay within the budget of `LogSpace`; a block write is atomic.
- LogSteps.EndOp: for a commit during which no other thread holds a logged buffer; `LogSteps.GroupDurable` has the others.
- CrashSafety.RecoveredFiles: the operations are writei and itrunc calls; directories and inode allocation are not part of the model.
- FileSharing.Linearizable: the steps of writei and itrunc are those of kernel/fs.c read as a machine; `FileSystem` has the same code as methods, run by one thread. Transfers whose user copies all succeed.
- CrashSafety.WriteFile: transfers whose user copies all succeed.
- FileSystem.FileSystem.WriteOp: the same.
- VirtualMemory.Vm.UvmAlloc: xperm holds W and X bits only, as all callers pass; sizes are unbounded numbers.
- VirtualMemory.Vm.UvmCopy: the source's pages are frames from kalloc, as for every process.
- VirtualMemory.Vm.UvmFree: valid leaves have a permission bit; a leaf without one would be taken for a table.
- VirtualMemory.Vm.Kfree: a managed page is one that kalloc gave out and that is freed once.
- VirtualMemory.Vm.FreeWalk: valid leaves have a permission bit.
- VirtualMemory.Vm.WalkAddr: user leaves point to frames from kalloc.
- VirtualMemory.Vm.CopyOut: user leaves point to frames from kalloc.
- VirtualMemory.Vm.CopyIn: user leaves point to frames from kalloc.
- VirtualMemory.Vm.CopyInStr: user leaves point to frames from kalloc.
- BufferCache.Cache.Bget: runs under bcache.lock; waiting for the buffer's sleep-lock is in `SleepLocks` and `GroupCommit`.
- BufferCache.Cache.Brelse: the caller holds a reference, as holdingsleep demands.
- Ummalloc.Heap.Malloc: chunks of at most 61440 bytes, above which next_free shifts by 64; sbrk succeeds and extends the heap.
- Ummalloc.Heap.MallocBrk: sbrk succeeds; its failure path returns after base has been moved; at most 61440 bytes.
- Ummalloc.Heap.NextAllocate: at most 61440 bytes.
- Ummalloc.Heap.MallocHuge: at most 61440 bytes.
- SleepWakeup.NoLostWakeup: for clients that change the condition under the lock and call wakeup before releasing it; the scheduler's choice among runnable processes is free.
- Virtio.DescriptorProtocol: the device completes each posted chain once with status 0; sleeping callers retry at any time.
- ProcessTree.StepKeeps: process ids are unbounded numbers; memory, files and exit codes of a process are not part of the state.
- Shell.ParseCommand: the input holds no NUL before its end.
- ShellText.TextRoundTrip: at most nine words per command, as MAXARGS allows, and words without blanks, symbols and NULs.
- mm_free and mm_realloc, which are stubs, and what users write into blocks.
- Weak memory: locks and fences are atomic steps.
- The kernel page table, uvmfirst, uvmclear and growproc.
- Inode cache, directories, path lookup and link counts.
- Pipes, console, UART, PLIC, traps, exec, system calls and user programs other than the shell's parser and grep's matcher.
- runcmd and the main loops of the shell and grep.
