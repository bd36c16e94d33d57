# xv6-riscv in Dafny

Models of the parts of xv6-riscv whose correctness spans several functions, and proofs of what
they promise. One or more files per component:

- **Crash-safe logging** (`LogFormat`, `LogProtocol`, `LogTheorems`, `LogReservation`, `LogDevice`).
  `LogProtocol` is a transition system: operations of any number of processes, the buffer cache,
  the committer and a crash are interleaved step by step, each block write being atomic. Beside
  every state runs an abstract one, the list of committed groups and the contents after all
  `log_write`s; `LogTheorems` states what holds in every run. `LogDevice` has the loops of commit and recovery as methods,
  with every disk the device has held on record.
- **Buffer cache list** (`BufferCache`): the circular list of `bio.c` with its pointers.
- **Files** (`FsLayout`, `Files`): the bitmap, `bmap`, `readi`, `writei`, `itrunc` and `filewrite`
  on a disk whose blocks carry a reverse map from block to the file slot that owns it.
- **Names** (`LinkCount`, `NameSpace`): `link`, `unlink`, `create`, `iput` and their failure paths.
- **Memory** (`PageTable`, `UserVm`): Sv39 page tables (section 4.4 of the RISC-V Privileged
  Architecture, version 1.12) as a map, and the page allocator, every page having one role.
- **Processes** (`ExitWait`, `SleepInvariant`, `SleepSteps`, `SleepTheorems`): `sleep`, `wakeup`,
  `fork`, `exit`, `wait`, `kill`, `yield` and the scheduler as a transition system in which each
  step is one lock operation or the work under the locks held. A step is a lock operation and a
  next place (`PlanOf`) together with its effect on the process table (`NewSt`, `NewParent`, ...).
  Locks other than `wait_lock` and the processes' own stand for any monitor with any number of
  sleep channels.
- **User allocator** (`KrMalloc`), **virtio disk** (`VirtioDisk`), **console** (`Console`),
  **shell parser** (`ShellGrammar`, `ShellParser`) and **grep** (`Grep`).

Where the source updates memory in place the model is a class or a method with loops; pure
specifications beside it say what the method computes. Several invariants are written as
`forall part :: PartOk(..., part)` or one predicate per instance: that keeps their parts out of a
proof until it names them.

Things the code does that its comments do not say, kept as they are:

- `log_write` tests for a full log before it looks for the block in the log, so logging a block
  again, which takes no space, can meet the panic too. `AbsorbSafeIff` says when it does,
  `AbsorbPanicIff` for which sizes a run gets there; a larger log region does not prevent it.
- `mkfs` gives the log `LOGSIZE` blocks including the header, one fewer than the reservation in
  `begin_op` assumes: `AppendPanicIff` gives the exact condition under which an operation within
  its budget meets the panic on a new block, for every `LOGSIZE`, `MAXOPBLOCKS`, log, cache and disk
  size, and `ShippedSizes` the shipped numbers.
- The link counts stay right through `create` and `link` exactly when the parent directory is
  itself still linked and the count that goes up is below 32767, a `short`'s largest value:
  `LinkCounts`, `CreateCounts`. `CreateInRemovedDirectory` and `LinksWrap` are sequences of calls
  that get to the two bad cases, `LinkWraps` the count in the second.
- `iget` panics when an inode is needed that is not in memory and `NINODE` others are: `Create`,
  `Link` and `Unlink` give the exact condition, `CreateWithFullTable` the calls.
- ".." of a removed working directory whose parent is gone makes `ilock` panic, in `create` and in
  `link`: `DanglesIff`, `Create` and `Link` give the exact condition,
  `CreateDotDotInRemovedDirectory` and `LinkDotDotInRemovedDirectory` the calls.
- `grep` stops at the first line that does not fit its buffer: `PrintsAll` says exactly when that
  loses output, `LongLineHides` is a case.
- `morecore` passes `sbrk` the byte count it means exactly for requests up to 0x7fffffe0 bytes:
  `RequestFits`, with two larger ones in `HugeRequests`.

## Model

| member | source | states |
|---|---|---|
| LogFormat.PutHeader | kernel/log.c:102-114 | the header block written for a list reads back as that list |
| LogFormat.InstalledContents | kernel/log.c:68-83 | copying logged blocks home puts each log block in its home and changes no other block |
| LogFormat.RecoveryYields | kernel/log.c:116-123 | a disk stands for given home contents if and only if recovering from it yields them |
| LogFormat.RecoveredContents | kernel/log.c:116-123 | after recovery each block the header listed holds its log block and every other home block what it held |
| LogFormat.RecoveredIsStable | kernel/log.c:116-123 | recovery leaves an empty log, and recovering a recovered disk again changes nothing |
| LogFormat.InstallOne | kernel/log.c:73-82 | one more block copied home keeps the disk standing for the same contents |
| LogProtocol.KeepBeginOp | kernel/log.c:126-142 | admitting an operation keeps the reservation: recorded blocks plus unspent budgets fit LOGSIZE |
| LogProtocol.KeepEndOp | kernel/log.c:146-175 | ending an operation returns its unspent budget and keeps the whole invariant |
| LogProtocol.KeepBget | kernel/bio.c:58-89 | finding or recycling a buffer keeps cache and disk in agreement; a pinned buffer is never the victim |
| LogProtocol.AcquireReadsCurrent | kernel/bio.c:92-103 | what bread returns is the latest log_written content of the block |
| LogProtocol.KeepLogWrite | kernel/log.c:214-235 | appending or absorbing a block keeps the invariant, one budget unit per appended block |
| LogProtocol.KeepCopyToLog | kernel/log.c:178-191 | a write_log round keeps the invariant and adds one current log block |
| LogProtocol.KeepWriteHeader | kernel/log.c:102-114 | the header write turns the pending contents into the committed ones |
| LogProtocol.KeepCopyHome | kernel/log.c:68-83 | an install_trans round keeps what the disk stands for and drops exactly its own pin |
| LogProtocol.KeepErase | kernel/log.c:193-203 | clearing the header after installation keeps the invariant |
| LogTheorems.StepInv | kernel/log.c:126-235 | every step of processes, committer, recovery and crash keeps the invariant |
| LogTheorems.RunInv | kernel/log.c:126-235 | the invariant holds in every state of every run from boot |
| LogTheorems.CrashAtomicity | kernel/log.c:68-123 | stop any run anywhere: recovery yields the home blocks of a whole number of committed groups, which only grow |
| LogTheorems.CommitPoint | kernel/log.c:178-203 | a group enters what recovery yields in one step, its non-empty header write, and then all of it |
| LogTheorems.Isolation | kernel/log.c:178-203 | until its header is written no home block on disk holds data of an uncommitted operation |
| LogTheorems.ReadsSeeWrites | kernel/bio.c:92-103 | whatever was evicted, a process that reads a home block sees every log_write so far |
| LogTheorems.PinsBalance | kernel/bio.c:139-151 | a buffer's count is its users plus one exactly while it is logged and not installed; commit leaves no pin |
| LogTheorems.ReservationHolds | kernel/log.c:126-175 | an operation with budget left never meets a full log, so logging a new block fails at most on the log.size test, and not there if log.size exceeds LOGSIZE |
| LogTheorems.CommitNeedsSpareBuffer | kernel/log.c:178-191 | whoever else runs, the committer gets a buffer for a log block if and only if the group's blocks and the buffers in use leave one over |
| LogTheorems.AbsorbSafeIff | kernel/log.c:214-235 | logging a block that is in the log already succeeds if and only if the log is short of the smaller of LOGSIZE and log.size - 1; if log.size exceeds LOGSIZE, that level means every operation has spent its budget |
| LogReservation.AppendPanicIff | kernel/log.c:126-142 | a run in which an operation within its budget panics on a new block exists if and only if log.size is at most LOGSIZE, or MAXOPBLOCKS if two budgets do not fit LOGSIZE, and buffers and home blocks suffice |
| LogReservation.AbsorbPanicIff | kernel/log.c:214-235 | a run in which an operation panics on logging a block again exists if and only if a budget fits LOGSIZE, the log holds a block at all, the smaller of LOGSIZE and log.size - 1 is at most MAXOPBLOCKS where two budgets do not fit LOGSIZE, and that many buffers and home blocks exist |
| LogReservation.ShippedSizes | mkfs/mkfs.c:25 | with the shipped sizes both runs exist; one more log block removes the first and not the second |
| LogDevice.Log.WriteHead | kernel/log.c:102-114 | the header block and nothing else changes, to the encoding of the block list |
| LogDevice.Log.ReadHead | kernel/log.c:86-97 | the in-memory list is the one encoded in the header block |
| LogDevice.Log.InstallTrans | kernel/log.c:68-83 | every disk on the way recovers to the same contents; at the end all home blocks are in place |
| LogDevice.Log.WriteLog | kernel/log.c:178-191 | the log holds the current contents of every listed block, and every disk on the way recovers to the old contents |
| LogDevice.Log.Commit | kernel/log.c:193-203 | one block write splits the disks: before it all recover to the old contents, from it on to the cached ones |
| LogDevice.Log.RecoverFromLog | kernel/log.c:116-123 | from any disk with a well-formed header, even one left by an interrupted recovery, all home blocks end in place with an empty log |
| BufferCache.Relink | kernel/bio.c:125-133 | the six pointer assignments move one node to the front and keep next and prev inverse |
| BufferCache.BCache.constructor | kernel/bio.c:36-53 | the list visits each buffer once, next and prev inverse |
| BufferCache.BCache.Bget | kernel/bio.c:58-89 | returns the cached buffer of the key, else the unused one whose last move to the front is oldest; at most one buffer has any key |
| BufferCache.BCache.Brelse | kernel/bio.c:116-137 | the last release moves the buffer to the front and keeps the order of the others |
| BufferCache.BCache.Bpin | kernel/bio.c:139-144 | one more reference, list and keys kept |
| BufferCache.BCache.Bunpin | kernel/bio.c:146-151 | one reference fewer, list and keys kept |
| FsLayout.BitOfPutBit | kernel/fs.c:75-80 | setting or clearing a bit changes that bit and no other |
| FsLayout.UsedOfPutUsed | kernel/fs.c:65-105 | marking a block changes its own bitmap bit and no other block's |
| FsLayout.EntryOfPutEntry | kernel/fs.c:400-414 | writing one word of an indirect block changes that word and no other |
| FsLayout.BlocksConserved | kernel/fs.c:65-105 | free blocks and blocks owned by files are disjoint and add up to the data area |
| Files.Fs.Mkfs | mkfs/mkfs.c:234-250 | on an image without files the bitmap marks exactly the blocks before the data area |
| Files.Fs.Balloc | kernel/fs.c:65-88 | a free data block, zeroed and marked, or 0 exactly when none is free |
| Files.Fs.Bfree | kernel/fs.c:91-105 | clears the block's bit and no other; that the block was in use is the caller's duty |
| Files.Fs.Bmap | kernel/fs.c:382-421 | the block of a file position, allocated if missing; every owned block stays owned once |
| Files.LogBound | kernel/file.c:149-174 | data, indirect, bitmap and inode blocks of one chunk are at most MAXOPBLOCKS, whatever the number of bitmap blocks |
| Files.LogBoundReached | kernel/file.c:149-174 | the bound's hypotheses admit ten distinct blocks |
| Files.Fs.Writei | kernel/fs.c:505-539 | splices exactly the first tot bytes at off, extends the size, leaves other files alone; short only when the disk is full; one chunk stays within MAXOPBLOCKS |
| Files.Fs.Readi | kernel/fs.c:471-494 | the requested slice of the contents, cut at the end of file; allocates nothing |
| Files.Fs.FileWrite | kernel/file.c:134-181 | chunks splice in a prefix of the data, all of it on success, each chunk a transaction within MAXOPBLOCKS |
| Files.Fs.Itrunc | kernel/fs.c:425-453 | frees exactly the blocks of the file, direct and indirect, never one that is free already, and touches no data of other files |
| PageTable.IndicesDetermineVpn | kernel/riscv.h:354-357 | the three table indices determine the page number, so two pages reach the same slot only if equal |
| PageTable.PteRoundTrip | kernel/riscv.h:348-352 | address and flags packed into an entry read back |
| PageTable.WalkRoles | kernel/vm.c:85-103 | following an address from a root stays in that root's own tables, one per level and prefix |
| PageTable.SetLeaf | kernel/vm.c:142-164 | writing one leaf changes one translation of one tree |
| PageTable.ClearLeaf | kernel/vm.c:170-192 | clearing one leaf removes one translation of one tree |
| PageTable.AddNode | kernel/vm.c:92-101 | adding an empty table changes no translation |
| PageTable.RemoveNode | kernel/vm.c:271-288 | removing a table that maps nothing changes no translation |
| UserVm.PagesConserved | kernel/kalloc.c:46-82 | free pages plus pages with a role are all pages |
| UserVm.Vm.constructor | kernel/kalloc.c:26-41 | after kinit every page between end and PHYSTOP is on the free list |
| UserVm.Vm.Kfree | kernel/kalloc.c:46-63 | pushes the page, filled with junk, on the free list |
| UserVm.Vm.Kalloc | kernel/kalloc.c:68-82 | pops a page, or 0 exactly when the list is empty |
| UserVm.Vm.Walk | kernel/vm.c:85-103 | finds the leaf slot of the address; even when it fails halfway no translation changes |
| UserVm.Vm.MapPages | kernel/vm.c:142-164 | adds exactly the translations of the range, or of a prefix of it when memory runs out |
| UserVm.Vm.UvmUnmap | kernel/vm.c:170-192 | removes exactly the range, freeing its frames if asked |
| UserVm.Vm.UvmCreate | kernel/vm.c:196-206 | a root that maps nothing, or 0 exactly when no page is free |
| UserVm.Vm.UvmAlloc | kernel/vm.c:225-250 | grows with fresh zeroed pages of the given permissions, or fails and restores every translation; never panics |
| UserVm.Vm.UvmDealloc | kernel/vm.c:255-267 | unmaps and frees exactly the pages between the sizes |
| UserVm.RoomBelowTrap | kernel/vm.c:225-250 | growth cannot reach the trapframe page before memory runs out |
| UserVm.Vm.FreeWalk | kernel/vm.c:271-288 | frees every table page of the tree and no other; meets no leaf once user pages are unmapped |
| UserVm.Vm.UvmFree | kernel/vm.c:291-296 | every frame and table page of the process is free again, other trees untouched |
| UserVm.Vm.UvmCopy | kernel/vm.c:305-333 | equal bytes and flags on distinct pages, or all translations of the child as before |
| KrMalloc.FreedRing | user/umalloc.c:33-43 | in each merge case the relinked list is a ring through all free blocks |
| KrMalloc.FreedCoalesced | user/umalloc.c:33-43 | after free no two free blocks touch |
| KrMalloc.FreedTiled | user/umalloc.c:24-44 | after free every unit lies in exactly one block, the same units as before |
| KrMalloc.TakenTiled | user/umalloc.c:76-77 | an exact fit taken off the list keeps the tiling |
| KrMalloc.SplitTiled | user/umalloc.c:78-82 | a split gives the tail to the caller and keeps the tiling |
| KrMalloc.StopsAt | user/umalloc.c:30-32 | the search of free stops exactly at the node the block belongs after |
| KrMalloc.LiveDisjoint | user/umalloc.c:63-90 | a live block overlaps no other block, live or free |
| KrMalloc.RequestFits | user/umalloc.c:46-55 | the byte count handed to sbrk is the one meant if and only if the request is at most 0x7fffffe0 |
| KrMalloc.HugeRequests | user/umalloc.c:46-55 | the largest request asks sbrk for 16 bytes, the smallest one above the bound for a negative number |
| KrMalloc.Heap.Free | user/umalloc.c:24-44 | the block is free, every other live block is untouched, units conserved, list ordered and coalesced |
| KrMalloc.Heap.Morecore | user/umalloc.c:46-61 | on success the heap has the granted units more and a block that fits, otherwise nothing changes |
| KrMalloc.Heap.Malloc | user/umalloc.c:63-90 | a new live block of the asked size; fails exactly when nothing fits and sbrk refuses; asks sbrk at most once and only when nothing fits; sbrk is asked for a wrong count exactly for requests above 0x7fffffe0 that nothing fits |
| SleepSteps.Excludes | kernel/proc.c:330-435 | no two threads hold wait_lock, one process's lock or one monitor's lock together |
| SleepSteps.PassedIsUp | kernel/proc.c:566-580 | a process that wakeup has passed is neither asleep on the channel nor about to be |
| SleepSteps.DownGrows | kernel/proc.c:535-562 | only a thread that releases its lock in sleep goes down |
| SleepSteps.Resumes | kernel/proc.c:444-472 | the process a CPU finds runnable is parked in sched and no CPU runs it |
| SleepSteps.StepInv | kernel/proc.c:277-604 | every step keeps the invariant |
| SleepTheorems.RunInv | kernel/proc.c:277-604 | the invariant holds in every state of every run |
| SleepTheorems.NoLostWakeup | kernel/proc.c:535-580 | while a lock is free nobody sleeps on any of its channels whose condition is set, for any number of channels per lock and any conditions announced by wakeup before the lock is released |
| SleepTheorems.NoForgottenZombie | kernel/proc.c:330-435 | while wait_lock is free no process asleep in wait has a zombie child, reparented ones included |
| SleepTheorems.OneCpuPerProcess | kernel/proc.c:444-472 | at most one CPU runs a process, and never an unused one |
| SleepTheorems.SchedIsCalledRight | kernel/proc.c:481-499 | at swtch a thread holds its own lock and no other and is not RUNNING: sched's first three panics are unreachable |
| SleepTheorems.LifeCycle | kernel/proc.c:110-604 | every change of a process's state in a run is one of the life cycle, made by the one entitled to it under the process's lock, the scheduler's included |
| SleepTheorems.OnlyParentReaps | kernel/proc.c:390-435 | a zombie is freed only by its parent in wait, holding wait_lock and the zombie's lock |
| LinkCount.NamedIsLinked | kernel/sysfile.c:211-216 | an entry that unlink finds names an inode with at least one link: the panic is unreachable |
| LinkCount.EmptyHasOneLink | kernel/sysfile.c:217-233 | an empty directory named by an entry has exactly that link |
| LinkCount.LinkCounts | kernel/sysfile.c:123-170 | link keeps every count right if and only if the parent directory is linked and the file has fewer than 32767 links |
| LinkCount.LinkWraps | kernel/sysfile.c:145-146 | at 32767 links one more makes the count -32768 while 32768 entries name the inode |
| LinkCount.CreateCounts | kernel/sysfile.c:245-302 | create keeps every count right if and only if the parent directory is linked and, for a new directory, has fewer than 32767 links |
| LinkCount.UnlinkCounts | kernel/sysfile.c:188-237 | unlink keeps every count right; a removed directory takes its ".." link with it |
| LinkCount.CreateTree | kernel/sysfile.c:245-302 | a new entry keeps the directory tree: unique names, one parent per directory, ".." naming it |
| LinkCount.UnlinkTree | kernel/sysfile.c:188-237 | unlink keeps the directory tree |
| LinkCount.FreeOk | kernel/fs.c:337-361 | freeing an inode without links keeps counts and tree |
| NameSpace.DanglesIff | kernel/fs.c:551-575 | an entry in use names an allocated inode, except ".." of an unlinked directory whose parent has been freed |
| NameSpace.CreateInRemovedDirectory | kernel/sysfile.c:245-302 | mkfs, mkdir, chdir, rmdir and create, in that order, make a count wrong |
| NameSpace.CreateDotDotInRemovedDirectory | kernel/fs.c:292-317 | calls that lead to ilock's panic on a free inode |
| NameSpace.LinkDotDotInRemovedDirectory | kernel/sysfile.c:133-138 | the same calls and link of ".." lead to it too |
| NameSpace.CreateWithFullTable | kernel/fs.c:246-275 | mkfs, NINODE opens and create of a new name lead to iget's panic |
| NameSpace.LinksWrap | kernel/sysfile.c:123-170 | mkfs, mkdir and 32767 links to one file, in directories of at most 17152 entries, make its count -32768 |
| NameSpace.SlotsSuffice | kernel/fs.c:246-275 | with two slots of the inode table free unlink cannot panic, and create only on ".." of a removed directory whose parent is gone |
| NameSpace.Namespace.Mkfs | mkfs/mkfs.c:117-168 | the image mkfs makes has right counts |
| NameSpace.Namespace.Dirlookup | kernel/fs.c:551-575 | the first entry with the name and a reference to its inode, or none exactly if it is absent; panics exactly if that inode is not in memory and NINODE others are |
| NameSpace.Namespace.Dirlink | kernel/fs.c:579-606 | adds the entry in the first free slot or at the end; fails exactly if the name is there or there is no room, changing nothing; panics exactly if dirlookup does |
| NameSpace.Namespace.IsDirEmpty | kernel/sysfile.c:173-186 | true exactly if nothing but "." and ".." is in use |
| NameSpace.Namespace.Ialloc | kernel/fs.c:198-219 | the first free inode, or 0 exactly if there is none; panics exactly if there is one and NINODE others are in memory, with the inode already marked |
| NameSpace.Namespace.Iget | kernel/fs.c:246-275 | one more reference; panics exactly if the inode is not in memory and NINODE others are; an inode new in memory has not been read |
| NameSpace.Namespace.Ilock | kernel/fs.c:292-317 | reads the inode if need be and panics exactly if it has to be read and is free |
| NameSpace.Namespace.Iput | kernel/fs.c:336-361 | drops a reference and frees the inode exactly if it was the last, the copy in memory has been read and there are no links |
| NameSpace.Namespace.Close | kernel/fs.c:336-361 | dropping a reference keeps counts, tree and the rule that unreferenced unlinked inodes are free |
| NameSpace.Namespace.Link | kernel/sysfile.c:123-170 | succeeds exactly if the conditions hold; success adds entry and link, failure changes nothing; counts stay right exactly if the parent is linked and the file has fewer than 32767 links; the exact condition of its panics: a full inode table, or a file that is gone |
| NameSpace.Namespace.Unlink | kernel/sysfile.c:188-243 | removes the entry exactly if it may; every count stays right on all paths; the inode is freed if it was the last link and unreferenced; panics exactly on a full inode table |
| NameSpace.Namespace.Create | kernel/sysfile.c:245-302 | the existing file, a new inode with its entry, or failure with everything as before; the exact conditions of success; counts stay right exactly if the parent is linked and, for a directory, has fewer than 32767 links; panics exactly on a full inode table or on ".." of a removed directory whose parent is gone |
| VirtioDisk.SlotOf | kernel/virtio_disk.c:272 | a 16-bit ring index picks the slot of the full count |
| VirtioDisk.IndexTells | kernel/virtio_disk.c:312 | comparing 16-bit indices compares the counts |
| VirtioDisk.HeadsFit | kernel/virtio_disk.c:272-277 | distinct chain heads never overflow a ring |
| VirtioDisk.DescriptorsSplit | kernel/virtio_disk.c:156-213 | every descriptor is free or in exactly one request's chain |
| VirtioDisk.Disk.constructor | kernel/virtio_disk.c:144-146 | all descriptors free, rings empty |
| VirtioDisk.Disk.AllocDesc | kernel/virtio_disk.c:156-166 | takes a free descriptor, or -1 exactly if there is none |
| VirtioDisk.Disk.Alloc3Desc | kernel/virtio_disk.c:201-213 | three distinct free descriptors, or, exactly if fewer are free, none and the table as before |
| VirtioDisk.Disk.FreeChain | kernel/virtio_disk.c:185-197 | follows the chain and frees its three descriptors once each, with no panic |
| VirtioDisk.Disk.Submit | kernel/virtio_disk.c:215-281 | a chain that describes the request, published once; or no change if fewer than three descriptors are free |
| VirtioDisk.Disk.DeviceTake | kernel/virtio_disk.c:271-281 | the device gets submitted chains in order |
| VirtioDisk.Disk.DeviceComplete | kernel/virtio_disk.c:235-269 | following the descriptors carries out exactly the submitted request, a read or a write |
| VirtioDisk.Disk.Notice | kernel/virtio_disk.c:312-324 | the used id names a live request with status 0, and its buffer's flag is cleared |
| VirtioDisk.Disk.Intr | kernel/virtio_disk.c:294-327 | with the device taking and completing chains between the rounds of the loop, every request completed by the last look at the ring is seen, none before it is completed, and a later interrupt with nothing new changes nothing |
| VirtioDisk.Disk.Finish | kernel/virtio_disk.c:283-292 | the chain's descriptors are free again, all else untouched |
| Console.KeyKeeps | kernel/console.c:135-179 | finished text only grows and an unfinished line holds no newline or ^D |
| Console.Distance | kernel/console.c:159-171 | 32-bit index differences and comparisons are those of the unbounded counts |
| Console.Console.KillLine | kernel/console.c:144-150 | erases the whole unfinished line |
| Console.Console.Intr | kernel/console.c:135-179 | each key does to ring and indices what the list-based editor does |
| Console.Console.ReadThenPending | kernel/console.c:79-127 | bytes read followed by bytes readable are the editor's finished text |
| Console.Console.Read | kernel/console.c:79-127 | a prefix of the readable bytes, through the first newline at most; ^D ends it and is kept unless nothing was read; stops exactly when nothing is readable, to sleep or, if killed, with -1 |
| ShellGrammar.LineSound | user/sh.c:345-447 | what the parser accepts is a sentence, and its tree yields the tokens |
| ShellGrammar.LineComplete | user/sh.c:345-447 | every sentence is accepted and read back as its own tree |
| ShellGrammar.AcceptsExactly | user/sh.c:328-447 | the parser accepts exactly the sentences of the grammar, and each has one tree |
| ShellParser.SimpleIs | user/sh.c:416-447 | a simple command is its words in order inside its redirections in order, however they mix |
| ShellParser.LineWords | user/sh.c:345-447 | the words of the command are the words of the line, each once |
| ShellParser.WordsAt | user/sh.c:266-309 | a token covers word characters only and ends at one that is not |
| ShellParser.WordsSurvive | user/sh.c:450-494 | no terminator falls inside a word: read up to its first NUL each word is what it was |
| ShellParser.Parser.Peek | user/sh.c:311-321 | skips white space and tells whether the next token starts with one of the characters |
| ShellParser.Parser.GetToken | user/sh.c:266-309 | consumes exactly the next token |
| ShellParser.Parser.Redirs | user/sh.c:375-398 | consumes the redirections and wraps the command in them, or fails on a missing file |
| ShellParser.Parser.ParseExec | user/sh.c:416-447 | the command of the unit the grammar's parser reads, or its error |
| ShellParser.Parser.ParseBlock | user/sh.c:400-414 | the same for a parenthesised line; its first panic is unreachable |
| ShellParser.Parser.ParsePipeOf | user/sh.c:362-373 | the command of the pipeline the grammar's parser reads, or its error |
| ShellParser.Parser.ParseLineOf | user/sh.c:345-360 | the command of the line the grammar's parser reads, or its error |
| ShellParser.NulTerminate | user/sh.c:450-494 | writes NUL at the end of every word of the command and nowhere else |
| ShellParser.ParseCmd | user/sh.c:328-343 | succeeds exactly on sentences, with the sentence's command, and then every word in the buffer is NUL-terminated and intact |
| Grep.HereStar | user/grep.c:98-105 | c* and a rest match where some run of fitting characters is followed by a match of the rest |
| Grep.MatchHere | user/grep.c:84-95 | true exactly if some prefix of the text is in the pattern's language |
| Grep.MatchStar | user/grep.c:98-105 | true exactly if some prefix is in the language of c* followed by the rest |
| Grep.Match | user/grep.c:71-81 | true exactly if the text matches, anywhere or at its start after ^ |
| Grep.PrintedIsPrefix | user/grep.c:10-34 | what grep prints is a prefix of the wanted lines, and what is missing is wanted from the overlong line on |
| Grep.PrintsAll | user/grep.c:10-34 | nothing is lost if and only if no wanted line comes at or after an overlong one |
| Grep.LongLineHides | user/grep.c:10-34 | after a line of 1024 bytes a wanted line is not printed |
| Grep.ShortLines | user/grep.c:10-34 | lines of at most 1023 bytes with their newline are all handled |
| Grep.Grep | user/grep.c:10-34 | the printed lines are the same however the input is cut into reads |

## Left out

- The boot code, assembly, traps, devices other than the disk and the console, and `exec`.
- Path name resolution (`namex`): `link`, `unlink` and `create` start from the inodes it found. The inodes on the way there take slots of the inode table too, and may meet its panic.
- In `NameSpace` the layers below do not panic, and a full disk is an input of the calls that may need a block.
- In `LinkCount` and `NameSpace` an inode number fits the 16 bits that a directory entry has for it; mkfs makes 200 inodes.
- System calls on names are atomic; their locking and interleaving are not modelled.
- The layout of an inode on disk: inodes are records beside the blocks, and `iupdate` only logs its block.
- User memory: copies between user and kernel space succeed, except where `wait` and `consoleread` take the failure as an input.
- Hole-free files are a precondition of `readi` and `writei`; a root directory that fills whole blocks exactly leaves `mkfs` with a size beyond its last block.
- In the log system bwrite and the release after it are one step, and each buffer's spin lock is part of its steps.
- `LogProtocol` takes a block's contents and a single-block write as atomic, and assumes callers log_write what they change before releasing it.
- Kernel page table setup, `copyin`, `copyout` and `copyinstr`.
- The process system does not model process ids, `xstate`, interrupts being off, or running out of process slots and memory except as a failing `fork`.
- `wakeup` and a monitor's entry start from a process; `virtio_disk_intr` and `clockintr` also call `wakeup` on a CPU that runs none.
- `kill` finds its victim in one step; the locks it takes on other processes on the way are not steps.
- Addresses in `KrMalloc` are in units of one header, and memory from `sbrk` is aligned to it and lies above `base` and above earlier grants.
- KrMalloc.Heap.Malloc: it stops, and says so, where `sbrk` is asked for another count than meant; what the code then does with memory it was not given is not modelled.
- NameSpace.Namespace.Create: after a panic the run is over; the references it still holds are not accounted for, here and in `Link` and `Unlink`.
- Files.Fs.Mkfs: the root directory and the files that mkfs adds are in `NameSpace.Mkfs`, without their blocks.
- Files.Fs.Bfree: the panic on a free block is its precondition; `Itrunc`, its only caller, meets it.
- Files.LogBoundReached: exhibits block numbers that meet the bound's conditions, not a whole file system with four bitmap blocks.
- UserVm.Vm.MapPages: below the trapframe it maps pages the allocator has handed out; the kernel's own mappings of devices and of its text are not modelled.
- Grep.Grep: the input has no NUL bytes, which end a line's search for its newline early.
- The device reports success for every request; its error statuses end in the driver's panic.
- The fixed arrays of the driver and the page tables are sequences and maps that the methods reassign.
- `consoleread` returns to its caller between sleeps, with what it has so far; who else runs meanwhile is up to the other methods.
- The console's echo of typed characters and its process listing.
- A read error in `grep` ends the input like its end.
