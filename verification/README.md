# Linux 0.11, the stateful core

This project models the parts of the Linux 0.11 kernel whose correctness depends on whole runs, and
proves properties of the model in Dafny. Each routine that changes state in place is a method on a
class that holds that state, proved against a specification on values; the theorems are about the
specification, over every run.

- **Virtual memory** (`mm/memory.c`, with fork, exec and exit). Physical memory is an array of pages;
  the page directory and page tables are words in it, as on the machine. `Frames` holds the state and
  the invariant (exact 8-bit counts, owners, entries), `FrameSteps` and `PageTables` the elementary
  updates and loops, `FreePages` the accounting of free pages, `PageFaults` the fault routines,
  `EagerSpaces` the reference in which a fork copies every page at once, `Traps` what a trap does as a
  function of the state before it, `Paging` the routines, `Isolation` who can change what a task sees,
  `DirtyPages` the marks by which try_to_share goes, `ModifiedPages` what they are good for, and
  `SharedStores` two runs from boot in which one task's kernel store reaches another task.
- **Buffer cache** (`fs/buffer.c`). `BufferMachine` is a state machine in which everything that runs
  between two sleeps is one step and any call may run between the steps of another. `BufferQueues` is
  the array of heads with its free ring and 307 hash chains; its methods for getblk, get_hash_table and
  brelse are steps of the machine.
- **Request queue** (`kernel/blk_drv`). `Elevator` is the order, `RequestQueue` the 32 slots.
- **File tree and bytes** (`fs/inode.c`, `fs/bitmap.c`, `fs/truncate.c`, `fs/file_dev.c`). `BlockTree`
  is the direct, indirect and double indirect index with the zone bits, `FileSystem` the routines.
- **Kernel malloc** (`lib/malloc.c`). `Buckets` and `KernelMalloc`.
- **Scheduling** (`kernel/sched.c`). `Scheduler`, `WaitQueue` and `Timers`.
- **Directories and link counts** (`fs/namei.c`). `LinkCounts` is the invariant, `DirectoryCalls` what
  each call answers and does, `Namei` the routines, `CallAnswers` each refusal and each effect in terms
  of entries and inodes, `LinkLimits` trees in which the invariant breaks.
- **Arguments of a new program** (`fs/exec.c`). `ExecStack`: the pages that copy_strings fills from the
  top, and the tables that create_tables writes below them.
- **Pipes** (`fs/pipe.c`). `PipeRing`: the page used as a ring.
- **Console** (`kernel/chr_drv/console.c`). `Screen` is what the bytes mean on a screen that stays in
  place, `ScreenCells` that cell by cell, `Console` the code over video memory with its movable origin.
- `IndexLists` holds the notions that the list modules share.

The invariants `Sound` (one in each of `Frames`, `BlockTree`, `Buckets`, `RequestQueue`, `WaitQueue`,
`LinkCounts`) and `Inv` (`BufferMachine`) are the definitions to read first.

## Properties that fail

Where the code does not do what it is for, the model does what the code does, a member shows an input,
and an if-and-only-if says when the property holds.

- A kernel store on behalf of a task can change another task's memory. write_verify passes over absent
  pages, and a page that it has made private can be shared again by try_to_share before the store; in
  ring 0 the processor ignores the read-only bit. `SharedStores.StoreToAbsent` and
  `SharedStores.StoreAfterVerify` are runs from boot; `Isolation.KernelStoreIff` says for one store when
  no other task sees it, `Isolation.RunKeepsIff` for runs.
- try_to_share takes clean pages so that a task never gets what another has stored to its program. But
  the copy that write_verify makes has a clean entry: `ModifiedPages.ShareModified` is a run from boot in
  which a task reads, as part of its executable, a word that another task has stored.
  `ModifiedPages.ModifiedNotShared` says that it cannot happen before the entry has been made clean, and
  `ModifiedPages.CleanedIff` when that is.
- The 256th link of a file and the 254th subdirectory of a directory make the 8-bit count zero; the
  inode is then freed while entries name it (`LinkCounts.LinkOverflow`, `LinkCounts.MkdirOverflow`;
  `LinkLimits.LastLink` and `LinkLimits.LastDirectory` are trees with 255 links and with 253
  subdirectories, grown from an empty root).
  mknod takes the mode of a directory and makes one without "." and ".." (`LinkLimits.DirectoryByMknod`).
  `LinkCounts.LinkSound`, `LinkCounts.MkdirSound` and `DirectoryCalls.RunSound` have the condition.
- sys_mkdir stops the kernel when it has got a block and the parent has no room: free_block is called
  for that block, and then the truncate of iput calls it again, since zone 0 still names it.
  `FileSystem.Volume.MkdirBlocks` derives it, with the exact condition, from the code of new_block,
  free_block and truncate; in the directory calls it is the answer `Panicked`.
- execve of a script with an empty argument list counts one argument too few: the program gets the
  script's name as the first string of its environment and loses the last one (`ExecStack.Execve`,
  condition `Shifted`; `ExecStack.NoArguments` is such a run).
- Beyond 128 kB of strings the test of an unsigned number for being negative lets copy_strings run out
  of its table of pages: `ExecStack.Execve` crashes exactly if there is more, there are pages for the
  whole table, and no call of copy_strings ends on its last byte (`Crashed`; `ExecStack.TooLong` is
  such a run, and `ExecStack.ArgPages.CopyStrings` has the condition for one call).
- ESC 7 and ESC 8 look at the column instead of the byte: ESC 7 saves the cursor exactly in column 55
  (`Screen.SavesIff`), ESC 8 restores it exactly in column 56 (`Screen.RestoresIff`), or if there is
  nothing to do.
- A timer put in front of others delays them, because add_timer does not shorten the delta behind it:
  `Timers.RunsOnTime` gives the delay, `Timers.ExactIff` when there is none, `Timers.LateTimer` a timer
  that is late.
- insert_into_queues stores through a NULL pointer exactly when the hash chain was empty (`strays` in
  `BufferQueues.Queues.InsertIntoQueues`).
- new_block sets a bit of the map before it looks whether the zone exists. A call that fails changes
  the map exactly if some bit is clear, and then sets the lowest of them, beyond the last zone
  (`FileSystem.Volume.NewBlock`; `FileSystem.StrayBit` is such a call on a sound volume).

## Model

| member | source | states |
|---|---|---|
| Paging.Memory.Run | mm/memory.c:105-415 | After any sequence of forks, exits, execs, read faults, user stores, kernel stores and their verifications, the user address spaces are those of a machine that copies eagerly on every fork; each trap had exactly the effect that the state before it determines. A kernel store that hits a frame which several tasks have is an effect of its own (`Spills`): the reference too then changes the word for all of them |
| Paging.Memory.Trap | mm/memory.c:235-415 | One trap keeps the invariant (no panic, exact counts) and has the effect `Traps.Outcome` names; out of memory is the only reason for a legal request not to be carried out, and a refused request changes nothing |
| Paging.Memory.CopyProcess | kernel/fork.c:70-135 | fork gives the child a full copy of the parent's memory and limits; it fails exactly when fewer pages are free than the task and the parent's page tables need, and then no address space has changed and the slot is free again |
| Paging.Memory.CopyPageTables | mm/memory.c:150-203 | It fails exactly when the source has more page tables than pages are free; on the way the target shows a prefix of the source, and task 0's pages below 1 MB are shared uncounted |
| Paging.Memory.FreePageTables | mm/memory.c:105-132 | Exactly the pages and tables of the range are gone, everything else is as before, and "free free page" is not reached |
| Paging.Memory.UnWpPage | mm/memory.c:235-255 | Afterwards the page is writable, its task's alone and shows what it showed; it fails exactly when the page has another owner or lies below 1 MB and no page is free |
| Paging.Memory.WriteVerify | mm/memory.c:276-288 | A present read-only page becomes private; an absent one is passed over |
| Paging.Memory.VerifyArea | kernel/fork.c:25-38 | Every present page that the bytes touch is private afterwards and no page shows anything new; it stops early exactly at a page that needs a copy when none is free |
| Paging.Memory.PutPage | mm/memory.c:211-233 | The page is mapped writable at the address; it fails exactly when the table is missing and no page is free |
| Paging.Memory.TryToShare | mm/memory.c:308-350 | It gives up exactly if the other task has no table for the page, or its entry there is absent, dirty or below 1 MB; otherwise it shares, or finds no page for a missing table; both entries are then read-only and no other frame gets an owner |
| Paging.Memory.SharePage | mm/memory.c:360-381 | The page comes from the highest slot that can share it, if the executable is in use at least twice |
| Paging.Memory.DoNoPage | mm/memory.c:383-416 | Zeroes outside the executable, else another task's page, else the file's; it fails exactly when the pages it takes are not free |
| Paging.Memory.UserStore | mm/memory.c:235-274 | A user store changes one word of one page of one task, or ends the task exactly when its faults find no page |
| Paging.Memory.KernelStore | kernel/fork.c:25-38 | A kernel store changes the word for every page that shows the frame it hits, read-only or not |
| Paging.Memory.DoExit | kernel/exit.c:102-106 | The task's pages and tables are freed, nobody else's, and it is a zombie |
| Paging.Memory.Release | kernel/exit.c:19-33 | Exactly the slot with that task page is freed; none found is a panic |
| FrameSteps.CountAtMost63 | mm/memory.c:195-197 | In every state that keeps the invariant the count of a mapped main-memory frame is at most 63, so the 8-bit increment does not wrap |
| FreePages.FreeZero | mm/memory.c:63-83 | get_free_page fails exactly when no page is free |
| Traps.SharesIff | mm/memory.c:308-381 | A fault shares the page of task p exactly if the page belongs to the executable, the file is in use twice, a page is free for a missing table, and p is the highest other slot that runs the file and whose entry is present, not dirty and in main memory |
| Traps.FreshIff | mm/memory.c:383-416 | If it shares none, it maps zeroes behind the data or without a file, and else the page of the file, and fails exactly when the pages for it and for a missing table are not free |
| ModifiedPages.ModifiedNotShared | mm/memory.c:308-350 | Over every run: once a task has stored to a page, no fault of another task is given this page until its entry has been made clean or taken away |
| ModifiedPages.CleanedIff | mm/memory.c:235-288 | A trap makes a dirty entry clean or takes it away if and only if it ends the task or is a write_verify that copies the page |
| ModifiedPages.ShareModified | mm/memory.c:276-350 | A run from boot in which a task stores to a page, forks, has it copied by write_verify, and another task that runs the file then reads the word |
| Isolation.KernelStoreIff | mm/memory.c:276-350 | A kernel store leaves all other tasks' memory alone if and only if the page is present and nobody else's, or absent and not filled with another task's page, or the word is there already |
| Isolation.WritableStoreKeeps | mm/memory.c:276-288 | A kernel store to a page that write_verify has made writable, and that still is, reaches nobody else |
| Isolation.RunKeepsIff | mm/memory.c:150-350 | Over any run in which a task takes no step, no step changes its memory if and only if none is a kernel store that hits one of its pages with a new word |
| Isolation.RunIsolated | mm/memory.c:150-255 | Without such a store the task sees at the end what it saw at the beginning |
| Isolation.ForkSnapshot | kernel/fork.c:40-63 | Whatever the parent and all others do after a fork, short of such a store, the child finds in every page what the parent had there when it forked |
| SharedStores.StoreToAbsent | mm/memory.c:276-350 | A run from boot whose last step, a kernel store for one task to a page it does not have yet, changes what another task sees |
| SharedStores.StoreAfterVerify | mm/memory.c:276-350 | A run from boot in which a page is verified, then shared with a second task, then stored to: the second task sees the store |
| BufferMachine.RunRefines | fs/buffer.c:193-291 | Whatever calls and devices do between each other's sleeps, a block contains what was last stored in it, or, freed since, what the medium had then: eviction, write-back and reading lose nothing |
| BufferMachine.ReadAfterWrite | fs/buffer.c:277-291 | From buffer_init on, a call that bread has served sees the last store to its block, or the medium's first contents |
| BufferMachine.SyncedMedium | fs/buffer.c:49-89 | When no buffer is dirty or being written, the medium alone has every store |
| BufferMachine.StepKeeps | fs/buffer.c:193-275 | Every step keeps: no block in two buffers, b_count the number of holders, sleepers' buffers theirs, clean valid buffers equal to the medium |
| BufferMachine.HeldKeepsItsBlock | fs/buffer.c:193-261 | A buffer with b_count above zero never changes its block |
| BufferMachine.SleepersFindWhatTheyLeft | fs/buffer.c:193-213 | The retry of get_hash_table is never taken, bread never returns NULL, brelse never finds a count of zero |
| BufferMachine.OneBufferABlock | fs/buffer.c:216-261 | getblk returns a buffer of the block that was asked for, the same one to two callers exactly if they asked for the same block |
| BufferQueues.Removed | fs/buffer.c:140-157 | Taking a head out leaves a well-formed ring and well-formed chains of all other heads |
| BufferQueues.Inserted | fs/buffer.c:158-173 | Putting it back makes it last on the ring and first on the chain of its block, and on no other |
| BufferQueues.Queues.FindBuffer | fs/buffer.c:176-184 | It returns a head of the block if and only if one exists |
| BufferQueues.Queues.PickVictim | fs/buffer.c:221-232 | The scan ends with the first unused head of least badness (a clean one if there is any, and among those an unlocked one), or with none exactly when all are in use |
| BufferQueues.Queues.RemoveFromQueues | fs/buffer.c:140-157 | Panics exactly on a NULL free-list link, which does not occur; else exactly this head leaves |
| BufferQueues.Queues.InsertIntoQueues | fs/buffer.c:158-173 | The queues are whole again; a store through NULL happens exactly when the chain was empty |
| BufferQueues.Queues.Repeat | fs/buffer.c:216-236 | getblk from `repeat` to its first sleep or return is one step of the state machine: it finds the block, or nothing is unused, or it chooses a victim and takes it at once if it can |
| BufferQueues.Queues.Settle | fs/buffer.c:236-261 | getblk after a sleep on its victim is the machine's step: start over if it is in use or the block has appeared, write it back if dirty, else take it |
| BufferQueues.Queues.Brelse | fs/buffer.c:263-271 | brelse is the machine's step and does not panic in a state that keeps the invariant |
| Elevator.InsertRuns | kernel/blk_drv/ll_rw_blk.c:64-86 | The place that add_request chooses keeps the queue in at most two ascending runs |
| Elevator.NoStarvation | kernel/blk_drv/ll_rw_blk.c:64-86 | Whatever arrives, a request outlasts at most as many completions as there are keys between the head and it, around the turn of the elevator |
| Elevator.NumberOrder | kernel/blk_drv/blk.h:35-43 | IN_ORDER is a total order in which every read goes before every write, and within a command the devices and within a device the sectors ascend |
| RequestQueue.ReadsBeforeWrites | kernel/blk_drv/blk.h:35-43 | In every sound state each queue is one or two runs, and in a run no write stands before a read, devices ascend within a command and sectors within a device |
| RequestQueue.ReadJoins | kernel/blk_drv/ll_rw_blk.c:64-86 | A read that joins a queue goes before every write of it, except, exactly, the writes of the first run when the read is behind the head in the order |
| RequestQueue.RequestWaits | kernel/blk_drv/ll_rw_blk.c:64-143 | The same bound for the slots themselves: in every history of the 32 slots, for every device's queue |
| RequestQueue.Requests.AddRequest | kernel/blk_drv/ll_rw_blk.c:64-86 | The slot joins its device's list where the elevator puts it; all other lists are the same |
| RequestQueue.Requests.MakeRequest | kernel/blk_drv/ll_rw_blk.c:88-143 | Which of its seven outcomes a call has, and the new state for each; it sleeps or gives up for want of a slot exactly when all the slots it may use are taken |
| RequestQueue.Requests.EndRequest | kernel/blk_drv/blk.h:109-125 | The head leaves its queue, its slot is free, its buffer is unlocked, and nothing else changes |
| RequestQueue.ReadsKeepSlots | kernel/blk_drv/ll_rw_blk.c:110-123 | Writes leave eleven slots to reads |
| FileSystem.Volume.NewBlock | fs/bitmap.c:80-111 | The lowest free zone, zeroed and marked; 0 exactly when no zone is free, and then the lowest clear bit of the map is set all the same: nothing has changed exactly if all bits were set |
| FileSystem.StrayBit | fs/bitmap.c:91-101 | On a sound volume whose only zone is taken, a failing call sets a bit that stands for no zone |
| FileSystem.Volume.ClearBlock | fs/bitmap.c:52-78 | free_block frees exactly this zone and panics exactly if it is outside the data area or was free |
| FileSystem.Volume.Bmap | fs/inode.c:73-149 | Block k of a file is zone k of the inode below 7, then the 16-bit entry k - 7 of the block that zone 7 names, then the entries k / 512 and k % 512, counted from 519, of two blocks from zone 8 on, and 0 where one of them is missing; when creating, that block and the index blocks on the way to it get zones and no byte and no other block of any file changes; it panics exactly beyond 7 + 512 + 512 * 512 blocks |
| FileSystem.Volume.Truncate | fs/truncate.c:47-65 | On a sound volume exactly the zones of the file become free, the file is empty, no other file changes, and free_block does not panic; it does panic if the first zone of the file is free already |
| FileSystem.Volume.MkdirBlocks | fs/namei.c:498-533 | What sys_mkdir does to the zones of its new inode: with a zone and room in the parent the volume is sound, the inode is a directory with "." and ".." in it and no other byte changes; without a zone the inode goes back; it panics exactly when it has got a zone and the parent has no room |
| FileSystem.Volume.FileRead | fs/file_dev.c:17-46 | The bytes are those of the flat file, holes are zero |
| FileSystem.Volume.SysRead | fs/read_write.c:56-82 | No byte at or after the end of the file is read |
| FileSystem.Volume.FileWrite | fs/file_dev.c:48-90 | Exactly the bytes from the position on become the data, all other bytes of all files stay, the size is the greater of the old one and the end; it stops early only when no zone is free or beyond the largest file |
| BlockTree.AttachSound | fs/inode.c:73-139 | Naming a fresh zone keeps: the marked zones are exactly those that inodes reach, none twice |
| BlockTree.EmptiedSound | fs/truncate.c:47-65 | A file whose zones are all unmarked can be emptied and the bits are exact again |
| BlockTree.TruncatedBytes | fs/truncate.c:47-65 | A truncated file reads as zeros everywhere and every other file as before |
| KernelMalloc.Malloc.Allocate | lib/malloc.c:118-174 | The object was handed out to nobody, is of the least sufficient size, and is now handed out besides exactly those that were, whose contents are unchanged; it panics exactly when the size is beyond a page, or no page of the bucket has a free object and a page that is then needed cannot be had |
| KernelMalloc.Malloc.FreeS | lib/malloc.c:183-232 | Exactly this object is no longer handed out; the page goes back exactly with its last object; it panics exactly when the size hint is too big |
| KernelMalloc.Malloc.InitBucketDesc | lib/malloc.c:98-116 | The page's descriptors join the free ones, none is lost |
| Buckets.LiveApart | lib/malloc.c:118-174 | Objects handed out do not overlap |
| Buckets.PushSound | lib/malloc.c:204-207 | Freeing keeps every free list acyclic, inside its page, and refcnt plus its length the number of objects in the page |
| Buckets.DroppedSound | lib/malloc.c:208-228 | Returning a page takes exactly its descriptor out of its chain and back to the free ones |
| Scheduler.Processes.Schedule | kernel/sched.c:71-110 | At most two rounds; the task of greatest counter, the highest slot among equals, or the idle task if nothing can run |
| Scheduler.Processes.DoTimer | kernel/sched.c:273-304 | A tick takes one from the running task's counter and reschedules exactly in user mode without time left |
| Scheduler.DispatchedInTime | kernel/sched.c:71-110 | A runnable task with time left runs before the others have had as many user ticks as their counters add up to |
| Scheduler.EventTame | kernel/sched.c:92-109 | Counters stay between 0 and 2P - 1, P being the largest priority |
| Scheduler.RechargesHalve | kernel/sched.c:105-108 | Each recharge of a waiting task halves, rounding up, what its counter lacks to twice its priority, and changes nothing else of it |
| Scheduler.WakesIff | kernel/sched.c:78-89 | schedule makes runnable exactly the tasks in an interruptible sleep that have a signal they do not or cannot block, an expired alarm being one, and changes nobody else's state |
| WaitQueue.StepKeeps | kernel/sched.c:119-133 | sleep_on, its return and wake_up keep each sleeper referenced by exactly one of the queue head and one other sleeper's tmp |
| WaitQueue.WakeReachesAll | kernel/sched.c:156-162 | wake_up reaches every task that sleeps at that moment, directly or through others |
| WaitQueue.RousedInTime | kernel/sched.c:119-133 | Whatever happens then, it is runnable after as many returns of its chain as there were sleepers before it, and until then the first of the chain is |
| WaitQueue.Waiters.SleepStart | kernel/sched.c:119-128 | The caller is asleep, is the head of the queue, and has saved the old head; no other task is touched; task 0 panics |
| WaitQueue.SleepsUntilWoken | kernel/sched.c:119-162 | Over every run a task in sleep_on is runnable again if and only if a wake_up has come and since then its chain has returned down to it; without a wake_up it stays asleep |
| Timers.InsertDue | kernel/sched.c:240-271 | The new timer is due when asked; earlier ones keep their time; later ones are delayed by the same positive number of ticks |
| Timers.NeverEarly | kernel/sched.c:287-297 | No callback runs before its time |
| Timers.RunsOnTime | kernel/sched.c:287-297 | It runs at exactly its time and the delays that timers put in front of it cause |
| Timers.ExactIff | kernel/sched.c:240-271 | It is exact if and only if none was put in front of it |
| Timers.LateTimer | kernel/sched.c:240-271 | A timer for two ticks that runs at the third |
| Timers.TimerList.AddTimer | kernel/sched.c:240-271 | The swaps in place are an insertion into the list; it panics exactly when all 64 slots are used |
| LinkCounts.LinkSound | fs/namei.c:726-783 | sys_link keeps every link count equal to the number of entries if and only if the file has fewer than 255 links |
| LinkCounts.LinkOverflow | fs/namei.c:768-781 | The 256th link frees a file that nobody holds while 256 entries name it |
| LinkLimits.LastLink | fs/namei.c:768-781 | Such a tree, grown from an empty root by mknod and 254 links |
| LinkLimits.LastDirectory | fs/namei.c:535-540 | A root with 253 subdirectories, grown by mkdir: the next mkdir frees the root |
| LinkLimits.DirectoryByMknod | fs/namei.c:445-464 | mknod of a directory in an empty root: it has no entries, and the tree is not sound |
| LinkCounts.MkdirSound | fs/namei.c:466-544 | sys_mkdir keeps the counts, "." and ".." included, if and only if the parent has fewer than 255 links |
| LinkCounts.MkdirOverflow | fs/namei.c:535-540 | Otherwise the parent's count is wrong, and it is freed if nobody holds it |
| LinkCounts.RmdirSound | fs/namei.c:591-665 | sys_rmdir of an empty directory keeps the counts of it and of its parent |
| LinkCounts.CloseSound | fs/inode.c:151-193 | Dropping the last reference to an inode without links frees it, and nothing names it |
| DirectoryCalls.CallSound | fs/namei.c:340-783 | A call leaves every link count right and every directory with its dots if and only if it does not raise a count of 255 and does not make a directory by mknod |
| DirectoryCalls.RunSound | fs/namei.c:340-783 | So for every run of open, close, mknod, link, unlink, mkdir and rmdir |
| DirectoryCalls.RunFrees | fs/inode.c:151-193 | In such a run an inode is freed only when no entry names it and nobody holds it |
| DirectoryCalls.HeldSurvives | fs/inode.c:151-193 | An inode that somebody holds survives every call but the one that drops its last reference |
| Namei.Directories.OpenNamei | fs/namei.c:340-413 | Its result is the one that `CallAnswers.OpenAnswers` characterizes, and the tree it leaves the one of `CallAnswers.AfterOpen` and `CallAnswers.ExclusiveIsNew` |
| Namei.Directories.SysMknod | fs/namei.c:415-464 | The same for mknod, whose mode may be that of a directory (`CallAnswers.MknodAnswers`, `CallAnswers.AfterMknod`; the others likewise) |
| Namei.Directories.SysLink | fs/namei.c:726-783 | The same for link |
| Namei.Directories.SysUnlink | fs/namei.c:667-724 | The same for unlink |
| Namei.Directories.SysMkdir | fs/namei.c:466-544 | The same for mkdir; it panics exactly when an inode and a block are free and the parent has no room |
| Namei.Directories.SysRmdir | fs/namei.c:591-665 | The same for rmdir: in use, not a directory, not empty, the directory itself |
| Namei.Directories.Iput | fs/inode.c:151-193 | Dropping a reference |
| CallAnswers.OpenAnswers | fs/namei.c:340-413 | For each refusal of open (EISDIR, EEXIST, ENOENT, a missing permission or a directory to be written, ENOSPC) exactly when it is returned, in terms of the entries, the inodes and the flags |
| CallAnswers.MknodAnswers | fs/namei.c:415-464 | The same for mknod |
| CallAnswers.LinkAnswers | fs/namei.c:726-783 | The same for link |
| CallAnswers.UnlinkAnswers | fs/namei.c:667-724 | The same for unlink |
| CallAnswers.MkdirAnswers | fs/namei.c:466-544 | The same for mkdir, and exactly when it panics |
| CallAnswers.RmdirAnswers | fs/namei.c:591-665 | The same for rmdir |
| CallAnswers.ExclusiveIsNew | fs/namei.c:363-400 | An open with O_CREAT and O_EXCL that succeeds has found no entry of the name and opens an inode that was free |
| CallAnswers.ExclusiveOnce | fs/namei.c:363-400 | In every run, of two exclusive creates of one name without an unlink of it in between the second is refused with EEXIST if the first succeeds |
| CallAnswers.AfterOpen | fs/namei.c:401-412 | An open of what is there adds one reference to it and changes nothing else |
| CallAnswers.AfterMknod | fs/namei.c:439-463 | The lowest free inode, with one link and not held, gets the name; nothing else changes |
| CallAnswers.AfterLink | fs/namei.c:765-782 | The name is entered for the file, whose 8-bit count goes up; nothing else changes |
| CallAnswers.AfterUnlink | fs/namei.c:710-723 | Exactly the entry is cleared and the count goes down; without links and references the inode is free |
| CallAnswers.AfterMkdir | fs/namei.c:488-543 | The lowest free inode becomes a directory with its two dots, gets the name, and the parent a link; nothing else changes |
| CallAnswers.AfterRmdir | fs/namei.c:651-664 | Exactly the entry is cleared, the directory is free, and the parent has a link less |
| ExecStack.Execve | fs/exec.c:104-345 | Followed through the tables at the stack pointer, the program finds exactly the given arguments and environment, in order and null-terminated, if and only if it is not a script run with no argument at all; what it then finds instead; it gets that far exactly when the strings leave a byte of 128 kB and there are pages for them, and it leaves the table of pages exactly when the strings are longer, all pages are there and no call ends on the last byte |
| ExecStack.TooLong | fs/exec.c:104-152 | One argument of 128 kB crashes it |
| ExecStack.NoArguments | fs/exec.c:232-270 | A script run without arguments finds its own name in the environment |
| ExecStack.ArgPages.CopyStrings | fs/exec.c:104-152 | The strings lie one after the other in front of what was there, across pages, and nothing behind changes, exactly when they leave a byte of room and there are pages for them; it leaves the table exactly when they do not fit and every page of it is there |
| ExecStack.ArgPages.ChangeLdt | fs/exec.c:154-177 | The pages become the end of the data segment |
| ExecStack.UserMemory.CreateTables | fs/exec.c:46-70 | For any strings in a row, the first argc become the arguments and the next envc the environment |
| PipeRing.Pipe.ReadChunk | fs/pipe.c:13-39 | A round takes the oldest bytes, as many as are asked for, there and before the end of the page |
| PipeRing.Pipe.WriteChunk | fs/pipe.c:41-69 | A round adds bytes at the end, never more than 4095 in all |
| PipeRing.Pipe.Transfer | fs/pipe.c:13-69 | In every order of the rounds of a writer and a reader: what was read and what is in the pipe is what was in it and what was written |
| PipeRing.Pipe.Alternate | fs/pipe.c:13-69 | Taking turns they get through |
| Console.VideoConsole.ConWrite | kernel/chr_drv/console.c:440-600 | For every byte stream the part of video memory from the origin on shows what a screen in place shows, on either kind of card; no store misses video memory; cursor address, origin and end stay consistent and the scrolling region is never empty |
| Console.VideoConsole.Scrup | kernel/chr_drv/console.c:102-163 | Moving the origin, with the jump back to the start of video memory, shows the same as moving the rows |
| Console.SameOnBoth | kernel/chr_drv/console.c:102-163 | An EGA card and a card that copies rows show the same after the same bytes |
| Screen.RestoresIff | kernel/chr_drv/console.c:500-503 | ESC 8 restores the saved cursor exactly in column 56, or when the cursor is there |
| ScreenCells.EraseCommand | kernel/chr_drv/console.c:234-292 | ESC [ J and ESC [ K: which cells are erased, cell by cell |
| ScreenCells.RowCommand | kernel/chr_drv/console.c:345-426 | ESC [ L and ESC [ M: what each cell shows after rows are inserted or deleted at the cursor |
| ScreenCells.CharCommand | kernel/chr_drv/console.c:331-415 | ESC [ @ and ESC [ P: what each cell shows after characters are inserted or deleted |
| ScreenCells.OtherCommand | kernel/chr_drv/console.c:520-596 | All other sequences leave every cell as it is |
| ScreenCells.CommandCursor | kernel/chr_drv/console.c:520-596 | Where each sequence puts the cursor, in rows and columns |
| ScreenCells.CommandRest | kernel/chr_drv/console.c:520-596 | Exactly m changes the attribute, r the region and s the saved place |
| ScreenCells.AttributeLast | kernel/chr_drv/console.c:294-306 | The last parameter that means an attribute decides it |
| ScreenCells.EscapeCell | kernel/chr_drv/console.c:487-500 | ESC D, M and E: every cell and the cursor |
| ScreenCells.PrintedCell | kernel/chr_drv/console.c:450-462 | A printable byte appears at the cursor with the attribute, behind the last column at the start of the next row, and no other cell changes but by the scrolling |
| ScreenCells.LineFeeds | kernel/chr_drv/console.c:199-218 | A line feed moves the cursor down or scrolls the region, a reverse one up |
| ScreenCells.SequenceRuns | kernel/chr_drv/console.c:505-520 | ESC [, decimal digits and a letter run the command of the letter with that number, in 32 bits |
| Screen.UpRows | kernel/chr_drv/console.c:102-163 | Scrolling up, each row of the region shows what the next one showed, the last is erased, and the others stay |
| Screen.DownRows | kernel/chr_drv/console.c:165-197 | The same downwards |

## Left out

- Paging.Memory.DoExecve: only the memory that execve frees and the new limits; that change_ldt then maps the argument pages (ignoring put_page's failure, so that a page is lost) is not in the model. The stores that execve makes to the new image afterwards are kernel stores that follow it.
- Paging.Memory.Release: the task's own page is freed and its slot cleared; parents, sessions and signals are not modelled.
- RequestQueue.RequestWaits: sectors are below 2^32, so blocks below 2^31.
- Scheduler.DispatchedInTime: for runs without fork; counters and priorities are unbounded numbers.
- Namei.Directories.OpenNamei: the permission bits of the file are given as a condition, and what O_TRUNC does to the contents is `FileSystem.Volume.Truncate`.
- Namei.Directories.Iput: not for pipes, whose page it frees, nor for block devices, which it syncs; writing a changed inode back is not modelled.
- Namei.Directories.SysMknod: of the mode only whether it is a directory's; the device number is not modelled.
- Paging.Memory.KernelStore: not for a present page below 1 MB. write_verify copies such a page first; sys_pipe, which stores its two results without verifying (fs/pipe.c:110-111), could reach one.
- FileSystem.Volume.MkdirBlocks: whether add_entry finds room is given; what it does to the parent's blocks then is `FileSystem.Volume.Bmap`.
- FileSystem.Volume.FileRead: it does not look at the size of the file; its only caller for files, sys_read, does.
- WaitQueue.WakeReachesAll: not for interruptible_sleep_on, which can drop a waiter.
- Timers.TimerList.DoTimer: callbacks add no timer.
- The translation buffer, interrupts inside a routine of mm/memory.c, and what task_struct holds besides its page and limits.
- Stores of task 0 and of the kernel to memory below 1 MB, and the kernel's identity map beyond the first table.
- The contents of executables, the position of the end of their data and i_count are parameters of a fault; bread_page is not interrupted.
- Separate instruction space: code and data limits count, but both segments start at the same address.
- Buffers of device 0, I/O errors, invalidate_buffers, breada, bread_page, and the full-block writes of fs/block_dev.c, after which a buffer is not valid.
- b_count and i_count are unbounded numbers in the buffer cache and in the directories; the counts that the model keeps at eight bits are mem_map and i_nlinks.
- File-system operations are atomic, and bread succeeds; times, modes and mounted devices are not modelled. What a freed zone contains while it is free is not claimed.
- malloc never returns the pages of its descriptors, as in the source; who uses an object and how is not modelled.
- Path resolution above the last component; matching compares the first fourteen characters.
- ExecStack.Execve: the checks of the file and its header before, freeing the pages when it fails, and what the rest of the new memory holds.
- PipeRing.Pipe.Transfer: a round does not fault while it copies, and both ends stay open.
- Console.VideoConsole.constructor: an even number of columns, at least eight; with an odd one `rep ; movsl` leaves a cell behind.
- Console.VideoConsole.ConWrite: the beep, the cursor registers and the answer to ESC Z.
- Signals, the terminal's queues and the device drivers' command sequences.
