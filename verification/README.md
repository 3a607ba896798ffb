# The xv6 kernel, modelled and verified in Dafny

This project models the parts of xv6 (x86) that have to be right over every run, and
proves what they are for:

- the redo log, the buffer cache and the disk under them, with crashes at any point
  (`Storage`, `Log`, `RedoLog`, `BufferCache`), what file-system calls ask of them and get
  (`Callers`), and what a log area that is too small does (`Overrun`);
- the file layer above: bits, words and inodes in blocks of bytes (`Blocks`), the bitmap and
  the block maps (`BlockMap`), reading and writing (`FileData`), how many blocks a write or a
  truncation logs (`WriteCount`, `ChunkBound`, `Limits`), the code itself in place
  (`FileSystem`), the image that mkfs makes (`Mkfs`), the inode cache (`InodeCache`) and what its
  users ask for and get (`InodeHistory`);
- page tables and the physical pages they are made of (`Paging`);
- the process table with fork, exit, wait and the scheduler (`Procs`) and whose child a
  process is (`Families`), sleep and wakeup on any channels (`SleepWakeup`), sleep-locks over
  them (`SleepLock`), and pipes (`Pipe`);
- the user-level heap (`Umalloc`), the shell's parser (`Shell`) and all lines that its
  grammar allows (`Layout`), and grep's matcher (`Grep`).

`dafny verify dfyconfig.toml` (Dafny 4.11) verifies the whole project.

## How the models are built

Code that works in place on one thread's behalf (page tables, free lists, bitmaps, inodes,
rings, parser cursor) is a class whose methods have the source's loops and branches and are
proved against a value-level representation: `Paging.Repr` says that memory holds a page
table, `BlockMap.Repr` that the bitmap, the inodes, the layout of the disk and the owners of
blocks agree,
`Umalloc.Repr` that the headers form the free list, and so on.  Protocols between processes
are step machines, one step for what the code does between two points where another
process can get in; the theorems are about every state of every run, for any number of
processes and processors.  A panic is a missing step, or an `ok` that is false.

What a step machine holds is also tied to what its users asked for.  A second account of the
run is computed from the calls alone (which block was asked for and what was put into it,
which type ialloc was given, who called fork, which bytes pipewrite was given, which channel
sleep was), and the machine agrees with it in every state of every run.

Several statements one would like to make turn out not to hold of the code.  The code is
modelled as it is, and the exact condition is proved instead:

- The log area that mkfs makes has LOGSIZE blocks, one slot too few: log_write's guard is
  read before the lock, and two calls can pass it together.  The slots suffice in every run
  exactly when the area has more than LOGSIZE blocks (`Log.SlotsSufficeIff`).  An area of
  LOGSIZE blocks is crash-safe all the same, since the cache has no more buffers than that: a
  list that has outgrown the area pins them all, and its commit stops for want of a buffer
  (`Storage.FullLogStuck`, `Storage.CrashSafety`).  With a smaller area it holds of the runs
  in which write_log finds a slot for every block (`Storage.RoomySafety`); without a slot it
  writes a home block (`Storage.OverrunDamages`), and with a header and one slot there is a
  run that loses a block no call has written (`Overrun.BlockLost`).
- iget takes whatever number a directory entry holds, and the ".." of a directory that is
  still some process's working directory can name an inode that is unlinked or free.  ilock
  may then panic, and iput free an inode that another process has a reference to.  No such
  harm is near in any state of a run exactly when the run has no lookup of an inode that is
  free, is being handed out, or is about to be freed (`InodeCache.HarmIff`; runs with the two
  kinds of harm are `InodeCache.LockOfFreed` and `InodeCache.FreedUnderReference`).
- iput need not free an inode with no links when its last reference goes: two overlapping
  calls can both leave it (`InodeCache.UnlinkedLeft`).  It is left exactly if the last call
  to look found the entry invalid, or found another reference, whose iput was past its own
  look (`InodeCache.LeftIff`); where calls on an entry do not overlap only the first happens
  (`InodeCache.FreedInTurn`).
- A truncation may log more than MAXOPBLOCKS blocks: exactly if the blocks of the file lie
  under more than nine bitmap blocks (`Limits.TruncFitsIff`, with such a file in
  `Limits.TruncPasses`).  A disk of nine bitmap blocks or fewer has no such file.
- mkfs leaves the root directory with a hole exactly if its entries fill their blocks, and
  with a size that no file may have exactly if they fill all MAXFILE blocks (`Mkfs.Make`).
- A chunk of filewrite logs more than MAXOPBLOCKS blocks, and then one more, exactly if it
  reaches four file blocks, takes all four and the block of addresses, grows the file, and
  the first five free blocks are under five bitmap blocks (`ChunkBound.PassesIff`,
  `FileSystem.Fs.WriteChunk`).  It then starts in a hole: the files that mkfs makes have none,
  the root directory apart (`Mkfs.Make`), and filewrite leaves none where there was none
  (`FileSystem.Fs.Filewrite`), so on these the bound holds.
- Where a file has a hole, readi takes blocks, and writei leaves the inode on disk behind the
  one in memory exactly if it fills in an address of the inode without growing the file
  (`FileSystem.Fs.Writei`).
- A reader of a pipe can stay asleep while the pipe is full: a writer that finds the pipe
  full and has been killed returns without waking anyone.  Sleeping readers find the pipe
  empty throughout a run exactly when no writer gave up so while a reader slept
  (`Pipe.SleepingReaderEmptyIff`, with such a run in `Pipe.ReaderForgotten`).
- growproc takes the size 0 that deallocuvm returns for an error: a process that shrinks to
  nothing loses its pages and keeps its size.  In every other case pages and size stay in
  step (`Paging.Kernel.Growproc`).

## Model

| member | source | states |
|---|---|---|
| Storage.RunRefines | log.c:125-202 | every run of processes, commit, recovery and crashes over cache, log and disk, in which write_log finds its slots, is a run of one plain block map with a durable copy, which is replaced only when no call is open |
| Storage.CrashSafety | log.c:69-122 | with a log area of LOGSIZE blocks or more, from any bootable disk, after any number of crashes also during recovery, once the log is idle every home block holds the contents of one moment at which no call was in progress: whole operations or nothing |
| Storage.RoomySafety | log.c:177-190 | the same for a log area of any size, over the runs in which write_log finds a slot for every block |
| Storage.FullLogStuck | param.h:10-12 | when as many blocks are logged as there are buffers, all buffers are pinned and write_log cannot take a step |
| Storage.BreadIff | bio.c:61-93 | a block can be read, by commit or any call, exactly if it is cached or not all buffers are dirty or referenced |
| Overrun.BlockLost | log.c:177-233 | with a header and one slot, on any disk with an empty log, a run of two calls whose guards both pass before either appends ends with the log idle and a home block changed that the plain map never changed: the disk shows no moment of the run |
| Storage.OverrunDamages | log.c:183 | write_log writes a home block exactly if it is past the last slot |
| Storage.CrashImage | log.c:101-122 | a crash at any reachable moment leaves a disk that recovery turns into exactly the durable copy |
| Storage.DurableIsQuiescent | log.c:145-174 | the durable copy is always the contents of some earlier moment between calls |
| Storage.CommittedIsDurable | log.c:192-202 | from the header write to the end of end_op, what reads see is what recovery would bring back |
| Storage.QuietIsDurable | log.c:154-173 | when no call is open and no commit or recovery under way nothing is logged, and the home blocks, what recovery would bring back and what reads see are the same |
| Storage.ReadSeesCurrent | bio.c:61-106 | a block read through the cache is the current one, and no other buffer caches it |
| Storage.NothingEscapesEarly | bio.c:78-93 | before the commit point no logged block has reached its home location, and all of them are pinned and not recycled |
| Storage.StepIsSpecStep | log.c:177-233 | each step of the machine is a step of the plain map: begin, write, end, commit, crash or nothing |
| Storage.StepCopyToLog | log.c:177-190 | at each step of write_log the slots written so far hold the current contents of their blocks |
| Storage.StepInstallOne | log.c:69-82 | installing a block keeps what recovery would make of the disk |
| Storage.HeadRoundTrip | log.c:85-113 | the header that write_head stores is the one that read_head reads |
| Callers.FromCalls | log.c:213-233 | over every run the plain map is the one computed from the calls alone: what was put into a buffer goes, at log_write, to the block that bread was asked for |
| Callers.EndedIsDurable | log.c:145-174 | durability: in every run from boot, with no call open and the commit over, the home blocks hold what the calls wrote, and recovery brings back just that |
| Callers.CrashGives | log.c:115-122 | at every moment of every run recovery gives what the calls had written at a moment at which none was open |
| Callers.BreadGives | bio.c:61-106 | a caller that has a buffer finds in it what was put there since the last log_write, or else the current contents of the block it asked for |
| Callers.BuffersHeld | bio.c:61-138 | a buffer has the references that bread took and brelse has not given back, and its sleep-lock is held by who locked it and has not released it |
| Callers.CommittedByLast | log.c:154-168 | a commit is done by the process that called end_op last |
| Log.ReservationHolds | log.c:125-174 | in every reachable state the logged blocks are distinct and, with the unused budgets of all open calls, at most LOGSIZE; nothing is open while committing |
| Log.NextKeeps | log.c:145-174 | every step keeps the reservation, and the list changes during a commit only to become empty |
| Log.BeginKeeps | log.c:125-141 | begin_op's test reserves MAXOPBLOCKS for the new call beside all that is promised to others |
| Log.AppendKeeps | log.c:223-232 | log_write keeps the list distinct and within the reservation, whether it absorbs the block or spends one of the call's budget |
| Log.EndKeeps | log.c:145-174 | end_op gives back the unused budget, and starts a commit when no call is left open, and only then |
| Log.EndCommits | log.c:145-174 | in every reachable state with no call open nothing is logged, but for the commit that the last call is in |
| Log.BeginAdmits | log.c:126-141 | in every reachable state outside a commit a call waits exactly if the list and full budgets for it and all open calls do not fit; with no call open it does not wait |
| Log.GuardSparesTheFrugal | log.c:218-221 | with a large enough log area the guard never stops a call within its budget, and stops a call exactly when the list is full |
| Log.SlotsSufficeIff | mkfs.c:25 | the on-disk slots suffice in every run exactly when the log area has more than LOGSIZE blocks, or none to use |
| Log.RaceOverruns | log.c:218-232 | a run in which two calls pass the unlocked guard and overrun an area of 2 to LOGSIZE blocks |
| RedoLog.Machine.WriteLog | log.c:177-190 | the slots get the cached blocks, and every image on the way still recovers to the old files |
| RedoLog.Machine.WriteHead | log.c:101-113 | one write, after which the header on disk is the list in memory |
| RedoLog.Machine.InstallTrans | log.c:69-82 | recovery from every image on the way gives what it would have given at the start |
| RedoLog.Machine.Commit | log.c:192-202 | the images of the disk recover to the old files up to one write, and from then on to the new ones; the log ends empty |
| RedoLog.Machine.RecoverFromLog | log.c:115-122 | it comes to the recovered files, and cut short anywhere it can be run again to the same end |
| RedoLog.Machine.LogWrite | log.c:213-233 | the block is in the list exactly once and pinned; it panics exactly when the list is at LOGSIZE or fills the log area, or no call is open |
| RedoLog.InstallAgain | log.c:69-82 | installing is idempotent from any point half way |
| RedoLog.RecoveredIsImage | log.c:115-122 | what the loops of recovery leave in each home block is what module Storage takes recovery to make of the disk |
| BufferCache.Cache.constructor | bio.c:38-56 | binit links all buffers into one ring |
| BufferCache.Cache.Bget | bio.c:61-93 | a cached block is found; otherwise the least recently used buffer that is neither referenced nor dirty is taken; it fails exactly when there is none; no block of a device is ever in two buffers |
| BufferCache.Cache.Brelse | bio.c:120-141 | the count drops, and a buffer nobody holds moves to the front of the order |
| BufferCache.Unlink | bio.c:132-133 | taking a buffer out leaves both directions of the ring linked |
| BufferCache.Insert | bio.c:134-137 | putting it in after the head does too |
| BlockMap.BitmapIsReachability | fs.c:56-95 | a bit is set exactly for the blocks before the data, as mkfs lays them out, and the blocks that some inode leads to, so none is leaked; no block but 0 is both; block 0 is in use |
| BlockMap.ReachedOnce | fs.c:372-400 | no block is reached twice, as data or as a block of addresses |
| BlockMap.FreePlusOwned | fs.c:56-95 | clear bits and owned blocks together are all blocks |
| FileSystem.Fs.Balloc | fs.c:56-78 | the first free block, with its bit set and its contents zeroed; it fails exactly when every block is owned; what it logs |
| FileSystem.Fs.Bfree | fs.c:81-95 | exactly the one block is no longer in use; its bitmap block is logged |
| Blocks.MarkedBits | fs.c:66-68 | setting a bit in a byte changes the use of that block only |
| Blocks.ClearedBits | fs.c:88-92 | and clearing it too |
| Blocks.WordPut | fs.c:390-394 | a word stored in an indirect block is read back, and the others stay |
| Blocks.StoreDinode | fs.c:226-233 | the fields of an inode stored one after the other in a block are read back as they were, and no word outside its 64 bytes changes |
| FileSystem.Fs.Bmap | fs.c:372-400 | block bn is mapped, zeroed if new, and the rest of the map, all data and all other files stay; nothing changes for a mapped block; it takes exactly the missing blocks, the lowest free ones; exactly which blocks are logged; it panics exactly when too few are free |
| FileSystem.Fs.Readi | fs.c:452-476 | the slice of the file at off, cut at its end, or -1; no contents change; it takes exactly the blocks of the holes it meets and panics exactly when too few are free; without holes nothing changes at all |
| FileSystem.Fs.Writei | fs.c:481-511 | the bytes are spliced into the file, or -1 and nothing changes; it panics exactly when fewer blocks are free than it needs; the inode on disk stays equal to the one in memory exactly if the file grew or no address in the inode was missing; other inodes on disk stay; exactly which blocks are logged |
| FileSystem.Fs.Iupdate | fs.c:220-236 | type, device numbers, link count, size and addresses at the place of the inode in its block decode to the copy in memory; the seven other inodes of the block and all other blocks are unchanged |
| FileData.WrittenOthers | fs.c:481-511 | other files keep inodes and contents |
| FileSystem.Fs.Itrunc | fs.c:407-435 | exactly the direct, indirect and indirectly listed blocks of the inode are freed; no other file block or inode changes; the inode is empty in memory and on disk; it logs exactly the bitmap blocks of what it frees and the inode block |
| BlockMap.AllGone | fs.c:407-435 | with all addresses zero no block of the inode is owned |
| Limits.TruncFitsIff | fs.c:407-435 | a truncation logs at most MAXOPBLOCKS blocks if and only if the blocks of the file lie under at most nine bitmap blocks |
| Limits.TruncFits | param.h:10-13 | it always does on a disk of at most nine bitmap blocks |
| Limits.UnlinkFits | sysfile.c:218-231 | unlink, with the truncation of the file and of its directory, logs at most MAXOPBLOCKS blocks on a disk of at most seven bitmap blocks |
| Limits.TruncPasses | fs.c:407-435 | a consistent disk, all free but for the metadata and the ten blocks of one file, whose truncation logs eleven blocks |
| FileSystem.Fs.Filewrite | file.c:117-156 | the file gets the bytes of all chunks up to the first that is refused, f->off advances by them, and the result says whether all were written; it panics exactly when fewer blocks are free than those bytes need; on a file without holes every transaction logs at most MAXOPBLOCKS blocks and the inode on disk stays the one in memory |
| FileSystem.Fs.WriteChunk | file.c:127-152 | one transaction logs exactly the number of blocks that file, offset, length and first free blocks give; more than MAXOPBLOCKS exactly if it takes five blocks for four, under five bitmap blocks, and grows the file; never if the block it starts in the middle of is there |
| WriteCount.WroteCount | fs.c:481-511 | what any write logs is, in number, the file blocks it reaches, the block of addresses if an entry in it is filled in, the bitmap blocks of the first free blocks, as many as it takes, and the inode block if the file grows |
| WriteCount.TakenAreFirst | fs.c:56-78 | blocks taken one after the other from the low end are exactly the first free ones |
| WriteCount.WriteLogsAre | fs.c:481-511 | the blocks a write logs are its data blocks, the bitmap blocks of what it takes, and the block of addresses if a block behind it was missing |
| ChunkBound.PassesIff | file.c:127-133 | for every file and disk, a chunk logs more than MAXOPBLOCKS blocks if and only if it reaches four blocks and takes five, grows the file, and the first five free blocks are under five bitmap blocks; then it logs one more, and starts in a hole |
| ChunkBound.ChunkFits | file.c:127-133 | for every file system size, a chunk and its inode are at most ten blocks, however the bits are spread over bitmap blocks, if the unaligned first block is mapped |
| Limits.SpreadLogs | file.c:127-133 | a consistent disk, all of whose blocks in use are metadata or a file's, on which a chunk logs ten blocks, and one on which it starts in a hole and logs eleven; there are blocks enough for it |
| Limits.ReachBound | file.c:127-152 | filewrite's chunk on that disk does so |
| ChunkBound.SolidWrite | fs.c:481-511 | a write to a file without holes leaves none and starts in a mapped block, and unless the file grows the addresses in the inode stay |
| FileData.WriteLogsCount | fs.c:481-511 | for any write: two blocks for each file block, two for the indirect block, one less if the first block is there |
| FileData.NeedNone | fs.c:372-400 | the number of blocks that file blocks lo to hi take is 0 exactly if all of them are mapped |
| Mkfs.Image.constructor | mkfs.c:94-115 | the zeroed disk with its inode table and metadata is laid out for files to be added |
| Mkfs.Image.Ialloc | mkfs.c:223-235 | the next inode is on disk with its type and one link; other inodes and all files stay |
| Mkfs.Image.Iappend | mkfs.c:255-297 | it fails exactly if the file would be too large or the disk lacks the blocks it needs; otherwise the bytes are at the end of the file, whose inode is on disk; the blocks in use are exactly those below freeblock; files have just the blocks their bytes need; other files stay |
| Mkfs.Image.FixRoot | mkfs.c:158-163 | the inode on disk has the rounded size; unless the directory had all MAXFILE blocks the image stays consistent and the files stay; the root directory has a hole exactly if its size was a multiple of BSIZE |
| Mkfs.Image.Balloc | mkfs.c:237-251 | it fails exactly if the blocks in use are not under one bitmap block; otherwise the bits set are those of the blocks owned |
| Mkfs.Make | mkfs.c:67-168 | it fails exactly if a file or the root directory would be too large, or the blocks of the metadata, the directory and the files are more than the disk has or not under one bitmap block; otherwise the image is consistent exactly if the root directory has not all MAXFILE blocks, in which case its inode on disk has a size that is too large; a consistent image has its metadata where the layout says, every inode on disk is as in memory, the files are those given, without holes, and the root directory starts with the entries given; it has a hole exactly if the number of entries is a multiple of 32 |
| InodeCache.Table.Iget | fs.c:241-272 | the entry in use for the device and inode number, or else the first free one; it fails exactly when all are in use for others |
| InodeCache.OneEntryEach | fs.c:241-272 | in every run a pair of device and inode number has at most one entry in use, and ref counts the references |
| InodeCache.LockedIsCurrent | fs.c:287-312 | in every run whoever has the sleep-lock sees the inode on disk, an allocated one; without stale lookups so far it is not one that ialloc is handing out, and ilock does not panic |
| InodeCache.FreedBySoleHolder | fs.c:331-352 | in every run an inode is freed only with no link, while allocated; without stale lookups so far, through its last reference |
| InodeCache.OnlyIputFrees | fs.c:331-352 | and in no other way |
| InodeHistory.RunAgrees | fs.c:194-352 | in every state of every run the inodes on disk and the inode of each reference are computed from the calls alone: the numbers asked for, the types ialloc was given, the link counts stored and the references iput counted |
| InodeHistory.LockedIsTold | fs.c:287-312 | whoever has locked an inode has the one asked for, as the calls have left it |
| InodeHistory.KindIsGiven | fs.c:206 | an inode in use has on disk the type that ialloc last gave it |
| InodeHistory.NewInode | fs.c:194-214 | the caller of ialloc that locks the inode finds the type that it asked for and no links, if no lookup was stale and nobody stored a link count |
| InodeCache.ReuseSharesEntry | fs.c:194-214 | ialloc reusing a number whose iput is unfinished shares the entry; without stale lookups so far it is invalid or about to be, so that ilock reads the new inode |
| InodeCache.SafeIff | fs.c:241-272 | throughout a run references are to inodes in use and an iput that counted one reference is right, if and only if the run has no stale lookup |
| InodeCache.HarmIff | fs.c:287-352 | no state of a run is within two steps of an ilock that panics, a lock on an inode being handed out, or an iput about to free a shared inode, if and only if the run has no stale lookup |
| InodeCache.FreedUnderReference | fs.c:331-352 | a run in which iput frees an inode that another process has a reference to |
| InodeCache.LockOfFreed | fs.c:287-312 | a run after which ilock panics on a freed inode |
| InodeCache.LeftIff | fs.c:331-352 | over every run: when the last reference goes the inode stays allocated with no link, if and only if the last iput to look found it so and found the entry invalid or another reference; that one was past its own look |
| InodeCache.FreedInTurn | fs.c:331-352 | in a run in which iputs of an entry do not overlap, an inode that the last one found valid and without link is freed |
| InodeCache.UnlinkedLeft | fs.c:331-352 | a run of two overlapping iputs that leave an inode with no link and no reference |
| Paging.Machine.Kalloc | kalloc.c:82-95 | the head of the list linked through the free pages, or 0 exactly when it is empty |
| Paging.Machine.Kfree | kalloc.c:59-77 | the page is filled and becomes the head |
| Paging.Machine.Freerange | kalloc.c:46-53 | exactly the whole pages of the range join the list |
| Paging.Machine.Walkpgdir | vm.c:36-56 | the page table for an address, made and zeroed on demand for one frame; 0 exactly when it is absent and no frame is left |
| Paging.Machine.Mappages | vm.c:61-81 | exactly the pages from va to va+size-1 in 32-bit arithmetic, the kernel's or the user's, are mapped to consecutive frames; it stops exactly for want of a page-table frame |
| Paging.Machine.Setupkvm | vm.c:106-137 | exactly the kernel's pages with their frames and flags, if and only if 65 frames are free; otherwise every frame is back |
| Paging.Machine.Allocuvm | vm.c:222-250 | zeroed writable user pages from oldsz to newsz, if and only if there are frames for them and for the missing page tables; otherwise the user mapping is as before and no frame is lost |
| Paging.Machine.Deallocuvm | vm.c:256-280 | for all sizes to KERNBASE it ends, and drops and frees exactly the pages, in the order, of a page-by-page loop |
| Paging.DropJump | vm.c:267-269 | the jump over an absent page table passes no page |
| Paging.Machine.Freevm | vm.c:284-299 | every frame of the space is on the free list once, and nothing else changes |
| Paging.Machine.Copyuvm | vm.c:316-346 | a child with the kernel's pages and, below sz, pages with the parent's flags and bytes on frames of its own; the parent is unchanged; it fails exactly when frames run out, and then loses none |
| Paging.Kernel.constructor | kalloc.c:31-44 | after kinit1 and kinit2 every frame past the kernel is free |
| Paging.Kernel.Setupkvm | vm.c:119-137 | keeps every frame free, in one space or with the kernel, and in one of them only |
| Paging.Kernel.Allocuvm | vm.c:222-250 | keeps it too, on success and on failure, and no other space changes |
| Paging.Kernel.Deallocuvm | vm.c:256-280 | keeps it too |
| Paging.Kernel.Copyuvm | vm.c:316-346 | keeps it too, and adds the child's space exactly if there are frames enough |
| Paging.Kernel.Freevm | vm.c:284-299 | keeps it too, and the space's frames are free |
| Paging.Kernel.Growproc | proc.c:158-175 | size and pages stay in step except for a shrink to exactly 0, for every size and 32-bit n |
| Paging.SystemReplace | vm.c:222-280 | a change between one space and the free list keeps the whole partition |
| Procs.NoSleeperWithZombie | proc.c:272-312 | in every state of every run nobody sleeps in wait with a zombie child |
| Procs.ZombieChildless | proc.c:255-265 | a zombie has no children |
| Procs.ZombieOffCpu | proc.c:264-297 | a zombie's stack and page directory are in use by no processor but one that holds ptable.lock to leave it |
| Procs.ReapedByParent | proc.c:283-300 | a zombie leaves the table only in its current parent's wait, with its memory unused, and wait returns its pid |
| Procs.ReapedOnce | proc.c:283-300 | every process that exited is one zombie or was returned by wait once, never both; two of them have the same pid only if 2^32 processes were made between them |
| Procs.ExitHasParent | proc.c:252-253 | exit always finds a parent to wake |
| Procs.StepKeeps | proc.c:180-382 | every step of fork, exit, wait, sleep, wakeup, kill and the scheduler keeps the invariant |
| Procs.ForkLinkKeeps | proc.c:200 | also the one that sets the parent without the lock while another processor scans the table |
| Procs.ExitStepKeeps | proc.c:255-262 | handing a child to init wakes init if the child is a zombie |
| Families.RunAgrees | proc.c:181-312 | in every state of every run the processor a process is on, its number, its parent, the progress of its exit and the channel it sleeps on are those computed from the calls alone |
| Families.ParentIsMaker | proc.c:200 | in every state of every run a process whose fork is complete is the child of the process that called fork until that one's exit comes past its slot, and of init from then on |
| Families.ReapedIsOwn | proc.c:283-300 | wait returns a process that its caller forked and nobody was given before, or, to init, one that an exit passed on |
| Families.SleepsOnAsked | proc.c:438-440 | who sleeps is on the channel that it last asked for |
| Families.AwakeOffChannel | proc.c:444-445 | who has come back from sleep is on no channel |
| Families.WokenIff | proc.c:457-491 | a sleeper becomes runnable exactly by a wakeup on its channel, a kill, the exit of a child of its, or, for init, an exit that passes a zombie on |
| Families.WaitSleepsIff | proc.c:303-310 | at the end of its scan wait may go to sleep exactly if its caller has a child |
| SleepWakeup.NoLostWakeup | sleep1.p:54-133 | for any number of processes, channels and locks: a process asleep on a channel whose condition holds is owed a wakeup by a process that changed it and whose scan has not passed its slot |
| SleepWakeup.SleepersWait | sleep1.p:41-51 | once the wakeups owed to a channel are given, before or after release, its sleepers wait for a condition that is false |
| SleepWakeup.WakeupWakesAll | proc.c:457-474 | at the end of its scan nobody sleeps on the channel |
| SleepWakeup.SleepIsAtomic | proc.c:417-452 | from its test to its sleep a process holds the lock of the condition or ptable.lock |
| SleepWakeup.NextKeeps | proc.c:417-474 | every step of sleep, wakeup, kill and the locks keeps the invariant |
| SleepWakeup.AsAsked | proc.c:438-474 | in every run a sleeper is on the channel it called sleep with, a condition holds if it was last set, and a wakeup is owed from then until its scan is over |
| SleepWakeup.SleepReturns | proc.c:417-452 | when sleep returns its caller has been asleep, and has the lock of the channel it called sleep with, and ptable.lock only if that is the lock |
| SleepWakeup.KilledGoesOn | proc.c:488-490 | kill takes a sleeper out of its sleep |
| SleepLock.MutualExclusion | sleeplock.c:22-42 | at most one process is between acquiresleep and releasesleep, and lk->pid names it |
| SleepLock.NoWayRound | sleeplock.c:22-42 | acquiresleep does not return without the lock, the lock is had in no other way, and it is given up only in releasesleep, which goes on to wake the sleepers |
| SleepLock.NoLostWakeup | proc.c:417-474 | a process asleep on a free lock has its waker between clearing the lock and reaching its slot |
| SleepLock.FreeLockNoSleeper | sleeplock.c:34-42 | nobody sleeps on a free lock once its spinlock is free |
| SleepLock.WakerWakes | proc.c:457-474 | when wakeup has gone through the table nobody is asleep on the lock |
| SleepLock.NextKeeps | proc.c:417-474 | for any number of processes every step of sleep, wakeup, acquiresleep and releasesleep keeps the invariant |
| Pipe.PrefixInOrder | pipe.c:78-121 | the bytes returned are in order a prefix of the bytes stored, and the rest is the ring's contents of at most PIPESIZE bytes |
| Pipe.WriteInOrder | pipe.c:84-96 | in every state of every run a call of pipewrite has stored, in order, the bytes it was given up to where it stands, and all of them when it returns |
| Pipe.ReadReturns | pipe.c:105-121 | a call of piperead returns the bytes it took: at most as many as asked for, fewer only if it emptied the ring, and none only at the end of the file |
| Pipe.StoredByCall | pipe.c:93-116 | bytes go in and out only in such calls |
| Pipe.PutAppends | pipe.c:93 | storing a byte appends it, also when the 32-bit counters wrap |
| Pipe.DropTakes | pipe.c:116 | loading one takes the first |
| Pipe.FullEmpty | pipe.c:85-106 | the tests for full and empty are right for wrapped counters |
| Pipe.Buffer.Fill | pipe.c:84-94 | pipewrite's loop stores bytes until the ring is full or all are in |
| Pipe.Buffer.Drain | pipe.c:113-117 | piperead's loop takes bytes until the ring is empty or n are out |
| Pipe.SleepingWriterFull | pipe.c:85-92 | with the lock free a sleeping writer finds the pipe full and its read end open |
| Pipe.SleepingReaderEmptyIff | pipe.c:85-111 | with the lock free sleeping readers find the pipe empty throughout a run, if and only if no killed writer gave up while a reader slept |
| Pipe.ReaderForgotten | pipe.c:86-89 | a run after which a reader sleeps on a full pipe that nobody holds |
| Pipe.FreedUnused | pipe.c:60-75 | when both ends are closed nobody is in the pipe |
| Pipe.KilledGoesOn | proc.c:488-490 | a killed sleeper goes on as soon as the lock is free |
| Umalloc.Heap.Free | umalloc.c:39-58 | the block is put back in address order and joined with its neighbours; the ring stays circular, ordered, coalesced and apart from live blocks |
| Umalloc.Heap.Morecore | umalloc.c:60-75 | new core, wherever it lies apart from the core there is, is freed into the list, also when it joins a block |
| Umalloc.Heap.Malloc | umalloc.c:77-103 | a block of the units asked for, off the free list; the circular search ends |
| Umalloc.UnitsConserved | umalloc.c:39-103 | free and live units together are the units obtained |
| Umalloc.SoundIsAPartition | umalloc.c:39-103 | every unit obtained is free or in one live block, never both |
| Umalloc.UnitsSuffice | umalloc.c:82 | the units asked for hold the bytes and one header, and not one unit more |
| Shell.RoundTrip | sh.c:327-446 | printing a command tree of at most nine words a command and parsing the line gives the tree back |
| Shell.AcceptedIff | sh.c:327-446 | the trees that lines are parsed to are exactly those with word characters in words and file names and at most nine words a command |
| Shell.PrintNormalises | sh.c:327-446 | the print of what a line is parsed to is parsed to the same |
| Shell.AppendRead | sh.c:384-394 | >> before a file reads as > does |
| Layout.Lex | sh.c:262-308 | whatever blanks, tabs, carriage returns, newlines and vertical tabs come before it, the next token that is read is the word, symbol or >> that was written, and the rest of the line is left |
| Layout.EveryLayout | sh.c:327-446 | a line of any command of the grammar, with any white space around its tokens and redirections anywhere before, between and after the words, is parsed to that command |
| Layout.ParsedIff | sh.c:327-446 | a line is parsed to a command if and only if it is such a line of it |
| Layout.SpacesDoNotMatter | sh.c:265-320 | two lines of the same tokens are parsed to the same command, or neither is |
| Layout.PrintRespaced | sh.c:327-446 | with any white space around the tokens of its print every valid tree is read back |
| Shell.Parser.Gettoken | sh.c:265-308 | the next token of the line, as a span of whole-word characters if it is a word |
| Shell.Parser.PeekAt | sh.c:310-320 | skips white space, which is what Layout.Lex says it is, and tells whether a character of the set comes next |
| Shell.Parser.ParseRedirs | sh.c:374-397 | redirections wrap the command in order; fails exactly if a file name is missing |
| Shell.Parser.ParseArgs | sh.c:429-445 | words and redirections in any order, fewer than MAXARGS words |
| Shell.Parser.ParseLine | sh.c:344-359 | ends on every line, with the grammar's tree and rest, or fails exactly if the grammar does |
| Shell.Parser.ParseCommand | sh.c:327-342 | the same for a whole line with nothing left over; Layout.ParsedIff says which lines these are and what they are parsed to |
| Shell.Nulterminate | sh.c:449-493 | exactly the ends of the command's words become NUL |
| Shell.NulsBetweenWords | sh.c:448-493 | no NUL lands in a word: read as a C string from its start, each word is what was parsed |
| Grep.Match | grep.c:72-82 | finds a match exactly if some substring is in the pattern's language, at the start after ^ and at the end before $; ends on all inputs |
| Grep.MatchHere | grep.c:85-96 | the same at the beginning of the text |
| Grep.MatchStar | grep.c:99-106 | some number of fitting characters, then the rest of the pattern |
| Grep.PrintParse | grep.c:85-96 | the pattern's items and its $, written out, are the pattern |
| Grep.ReadBackIff | grep.c:85-96 | items written out are read back exactly if no single character comes before a * and no $ is the last of a pattern that may stop before the end |

## Left out

- FileSystem.Fs.Readi: device inodes, which go to the device switch, are not modelled.
- Overrun.BlockLost: for the smallest log area; Log.SlotsSufficeIff has runs that overrun any area of 2 to LOGSIZE blocks.
- Mkfs.Make: takes as many directory entries as files and two more, which fit the inode table; mkfs does not check that the table is large enough.  The bytes of the superblock and of the entries are parameters.
- Limits.UnlinkFits: the directories on the path, whose references are given up on the way, are not counted.
- InodeCache.FreedBySoleHolder: itrunc and the iupdate after it are one step, under the sleep-lock.
- Paging.Machine.Mappages: a page that is already mapped panics in the code and is excluded by the precondition.
- SleepLock.NextKeeps: one lock at a time; processes on other business hold ptable.lock, and the sleep-lock or not.
- Pipe.PrefixInOrder: sleep and wakeup are one step each; modules SleepWakeup and SleepLock have them apart.
- Umalloc.Heap.Malloc: the roundings at umalloc.c:68 and 82 are taken not to wrap, and sbrk not to give core that it gave before, as it would after the program shrank below it.
- BufferCache.Cache.Bget: the waiting for a buffer's sleep-lock after the list lock is released is not in that class.
- Shell.RoundTrip: >> opens the file just as > does, so the tree does not tell them apart and the printer writes >.
- The spinlocks themselves (xchg, memory barriers): acquire and release are atomic steps.
- The `killed` flag: a killed process may take its early return at any time, and nothing is said about when it is set.
- Liveness and fairness: only safety is claimed.
- Interrupts, devices, the console, assembly code, boot, exec, the system-call layer (directories, path names, open files) and the other user programs.
- vm.c's walkpt and umalloc.c's malloc_wf, which are empty.
- vm.c's inituvm, loaduvm, clearpteu, uva2ka and copyout: each reads or changes pages that are mapped already, through walkpgdir, and takes no frames beyond those of one mappages, so the ownership of frames does not turn on them.
