# A verified model of the xv6 kernel

This project models the hard parts of an xv6 kernel (x86) that was extended with
copy-on-write fork, 8-bit page reference counts and lazy `wmap` regions, and of three of
its user programs. It proves what they promise over every input, every run or every
reachable state. `dafny verify dfyconfig.toml` checks all of it.

Where a piece of the system is a protocol, it is a state machine: a datatype for the
state, one function per step, and theorems over arbitrary runs. Where it is code that
updates fields or arrays in loops, there is also a class (or a method on arrays) with the
same loops, proved to do what the machine's functions say.

- **Log** (`LogLayout`, `LogProtocol`, `LogSafety`, `LogHistory`, `LogReservation`,
  `LogCode`): the redo log with group commit. Every block write is one step, and a crash
  may fall between any two, also during recovery.
- **Copy-on-write memory** (`CowMachine`, `CowAccounting`, `CowLoops`, `CowFreeing`,
  `CowReachable`, `CowEager`, `CowRefinement`, `CowWrap`, `CowPinned`, `CowCode`): page
  tables, frames, counts, the free list, faults, fork, sbrk, exit and wait, refining a
  machine whose fork copies everything at once.
- **Buffer cache** (`BufferMachine`, `BufferSafety`, `BufferTransparency`, `BufferCode`):
  handles that interleave at lock boundaries over the least-recently-used ring, refining a
  store with one locked cell per block.
- **Files** (`InodeLayout`, `InodeState`, `InodeSteps`, `InodeCode`, `FileCode`): the free
  map, direct and indirect blocks, readi, writei, itrunc and filewrite over flat byte
  sequences.
- **Files over the log** (`ImageMount`, `FileCrash`, `WriteActs`, `FileWriters`,
  `WritersCrash`): the two together. Each chunk of a filewrite is an operation of the log
  machine, one process or many write at a time, and what survives a crash at any step is
  mounted from the recovered blocks.
- **Names** (`LinkCount`, `LinkRuns`, `DirCode`): directories and link counts over whole
  calls.
- **Page tables** (`PageTable`): two levels refining a flat map.
- **Processes** (`SleepLock`, `ProcLife`, `ProcCode`, `PipeCode`, `PipeProtocol`):
  sleep-locks, the life cycle with the table lock handed across context switches, pipes.
- **exec** (`ExecStack`): copyout and the first stack of a program.
- **User programs**: `FreeList` and `UmallocCode` (malloc), `ShellSyntax`, `ShellLexer`
  and `ShellCode` (the shell's parser), `GrepMatch` (grep's matcher).

Where the code does less than one would expect, the code is modelled as it is, a lemma
shows the failing run, and another says exactly when the expected property holds:

- `param.h` lets a call log MAXOPBLOCKS blocks. That can end in log_write's panic, however
  large the log (`PanicReachable`); one block fewer cannot (`NoPanic`, `NoPanicIff`).
- `setupkvm` counts every frame once per page directory and nothing takes that back
  (`KernelTermPins`), so counts say neither "last user" nor "free" until they wrap, and
  after a wrap private memory is shared (`WrapBreaksIsolation`, `CowIsolatesIff`,
  `FreedIff`).
- A killed writer that has just filled a pipe leaves without waking a sleeping reader
  (`ReaderSleepsByFullPipe`, `ReadersWokenIff`).
- create, link and mkdir do not notice that their directory has been unlinked, and then
  the counts or the tree are wrong (`CreateCountsIff`, `LinkCountsIff`, `MkdirSoundIff`,
  `LinksAreCounted`; `MiscountReachable` is a run).
- deallocuvm's jump over the last page table would return to address 0
  (`SkipForwardIff`).
- malloc's rounding wraps near 2^32 (`UnitsEnoughIff`), and the block is then too small
  (`MallocOfTooMuch`); for requests between there and 2^31 its argument to sbrk wraps
  (`AskedIff`), and it uses memory that it was not given (`MallocStrays`).
- wunmap_handler does not get past a missing page table, so exit can leave region pages
  mapped (`ExitLeavesMapped`, `UnmapRegionsExact`).

## Model

| member | source | states |
|---|---|---|
| `LogLayout.HeaderRoundTrip` | xv6-public/log.c:86-113 | A header written by write_head reads back by read_head as the same block list, whatever the rest of the block held. |
| `LogSafety.StepKeepsInv` | xv6-public/log.c:125-202 | Every step of the machine (begin_op, bread, an edit, log_write, brelse, end_op, each single block write of commit and of recovery, an eviction, a crash, a boot) keeps the invariant that ties disk, cache, log header and commit phase to the committed history. |
| `LogSafety.RecoverYields` | xv6-public/log.c:70-82 | Recovery of a disk that holds image t, at any point of copying, committing or installing, ends in t with an empty log. |
| `LogSafety.CrashSafety` | xv6-public/log.c:116-122 | After any run, with crashes between any two block writes and inside recovery, recover_from_log gives exactly the first image with all committed groups applied, on every home block. |
| `LogHistory.AllOrNothing` | xv6-public/log.c:146-174 | Of every operation, either all of its edits are in one committed group, in their order, or none is in any. |
| `LogHistory.CommitPoint` | xv6-public/log.c:193-202 | A step adds a group to the committed ones exactly when it is the header write of a nonempty commit, and then the whole current group. |
| `LogHistory.PrefixDurable` | xv6-public/log.c:193-202 | What was committed at any moment of a run is a prefix of what is committed later: no committed group is lost or reordered, crashes included. |
| `LogHistory.RecoveryCompletes` | xv6-public/log.c:116-122 | From every reachable state in which the machine is down it can be booted and recovery run to its end, write by write; then it runs, and its home blocks are exactly the committed groups. |
| `LogReservation.ReservationHolds` | xv6-public/log.c:126-141 | With calls that log at most MAXOPBLOCKS distinct blocks, logged blocks plus unspent reservations stay within LOGSIZE in every reachable state. |
| `LogReservation.NoPanic` | xv6-public/log.c:214-219 | With a log of LOGSIZE blocks or more, log_write never panics if every call logs at most MAXOPBLOCKS - 1 distinct blocks. |
| `LogReservation.PanicReachable` | xv6-public/log.c:218-219 | With a log of any size from mkfs's up and calls that log MAXOPBLOCKS distinct blocks each, as param.h allows, there is a run from boot that ends in log_write's panic, at a block that the call has logged before: the size is tested first. |
| `LogReservation.NoPanicIff` | xv6-public/log.c:214-219 | On such a log no run in which every call logs at most a given number of distinct blocks panics, if and only if that number is below MAXOPBLOCKS. |
| `LogCode.WritesAreSteps` | xv6-public/log.c:178-202 | k block writes of the code are k WriteNext steps of the machine, so a crash may fall between any two. |
| `LogCode.Log.WriteLog` | xv6-public/log.c:178-190 | The copying loop performs exactly the machine's copy writes, one per logged block. |
| `LogCode.Log.WriteHead` | xv6-public/log.c:102-113 | Writing the header is one machine write: the commit, or the erasure when the list is empty. |
| `LogCode.Log.InstallTrans` | xv6-public/log.c:70-82 | The installing loop performs exactly the machine's install writes. |
| `LogCode.Log.Commit` | xv6-public/log.c:193-202 | commit takes the machine through all writes of a commit and leaves the log empty; with an empty log it writes nothing. |
| `LogCode.Log.ReadHead` | xv6-public/log.c:86-96 | The fields n and block become the decoded header. |
| `LogCode.Log.RecoverFromLog` | xv6-public/log.c:116-122 | The disk becomes Recover of the old disk. |
| `LogCode.Log.BeginOp` | xv6-public/log.c:126-141 | Admits a call exactly under the code's test, and counts it; otherwise changes nothing. |
| `LogCode.Log.LogWrite` | xv6-public/log.c:214-233 | Appends the block unless it is listed already, marks its buffer dirty, and panics exactly where the machine does. |
| `LogCode.Log.EndOp` | xv6-public/log.c:146-174 | Drops the call; the last call out runs the whole commit. |
| `CowAccounting.AccountedAfterMap` | xv6-public/kalloc.c:33-39 | Adding an entry for a frame keeps every count equal, modulo 256, to users plus kernel mappings. |
| `CowAccounting.AccountedAfterUnmap` | xv6-public/vm.c:283-292 | Removing an entry, and freeing the frame if its count is then zero, keeps the same equation. |
| `CowAccounting.AccountedAfterCow` | xv6-public/proc.c:218-254 | A copy-on-write fault keeps the same equation, in both branches. |
| `CowLoops.CopyPagesCopies` | xv6-public/vm.c:340-366 | copyuvm's loop makes each page of the parent read-only copy-on-write if it was writable, gives the child the same entries, and touches nothing else. |
| `CowLoops.ShareRegionsShares` | xv6-public/proc.c:534-563 | copywmap's loops give the child the parent's entry for every region page that is present, with the same flags, and touch nothing else. |
| `CowFreeing.UnmapRangeKeeps` | xv6-public/vm.c:269-295 | While no count has wrapped, deallocuvm clears exactly its range, frees no frame that an entry still names, and leaves all other frames' contents alone. |
| `CowFreeing.UnmapRegionsTrims` | xv6-public/proc.c:430-488 | wunmap_handler over a process's regions removes only entries of that process from VA_START up; while no count has wrapped it frees no frame that an entry still names and leaves contents alone. |
| `CowFreeing.UnmapRegionsExact` | xv6-public/proc.c:446-483 | It removes an entry if and only if the entry is the process's, lies in one of the regions, and no page table is missing between the start of that region and the page. |
| `CowFreeing.MapRangeGrows` | xv6-public/vm.c:232-262 | allocuvm's loop maps the span to distinct zeroed frames from the free list and touches nothing else. |
| `CowReachable.ForkForks` | xv6-public/proc.c:578-634 | What fork as a whole does to the page tables: the child has the parent's private pages, all shared copy-on-write, and the parent's region pages, aliased. |
| `CowReachable.StepKeepsInv` | xv6-public/proc.c:577-727 | Every step (fork and its failures, load, store, sbrk, wmap, exit, wait, kernel pages taken and given) keeps accounting, page placement, region disjointness and flag discipline. |
| `CowReachable.AccountingHolds` | xv6-public/kalloc.c:33-57 | In every reachable state each frame's 8-bit count is, modulo 256, its user entries over all page tables plus the kernel mappings made of it. |
| `CowReachable.SettleEnds` | xv6-public/trap.c:83-111 | A user access settles after at most two faults: it is then permitted, or the process was killed or the kernel panicked. |
| `CowReachable.CowIsolatesIff` | xv6-public/proc.c:237-252 | A copy-on-write fault leaves the faulting process the sole user of its frame, if and only if it is not the case that the frame had other users and its count read one. |
| `CowReachable.FreedIff` | xv6-public/vm.c:286-290 | An unmapping frees the frame if and only if the remaining users and the kernel mappings add up to a multiple of 256. |
| `CowPinned.KernelTermPins` | xv6-public/vm.c:75-75 | In every state reachable from boot in which no count has passed 255, a mapped frame has a count of two at least: a copy-on-write fault on it never upgrades in place, and removing an entry never frees it. |
| `CowPinned.UserFramesNeverFreed` | xv6-public/vm.c:283-292 | From boot on, while no count passes 255, a frame that a process has had mapped never returns to the free list, whoever exits, shrinks or is reaped. |
| `CowRefinement.StepRefines` | xv6-public/proc.c:218-254 | One step of the sharing machine without a wrap is the same step of a machine whose fork copies every page eagerly, with the same outcome for the caller. |
| `CowRefinement.SharingRefinesEager` | xv6-public/vm.c:332-368 | Along every run in which no count passes 255 and the kernel does not panic, the eager machine gives every caller the same outcome: the same page read, the same kill, the same failure. |
| `CowRefinement.TouchIsFresh` | xv6-public/proc.c:179-216 | The object that a first touch of a wmap page creates is named by no page of any process. |
| `CowRefinement.ForkGivesTheSame` | xv6-public/proc.c:534-634 | Right after fork parent and child name the same frame for each page the parent had, with its contents and rights, read-only below VA_START; in the eager machine they have equal private pages and one object for each wmap page. |
| `CowWrap.BootIsolated` | xv6-public/proc.c:358-392 | The state after boot meets the hypotheses of the refinement. |
| `CowWrap.WrapBreaksIsolation` | xv6-public/refcount.h:9-9 | Without the bound on counts isolation is false: a run of 254 forks from boot after which a store by the parent is read by the child in a private page. |
| `CowWrap.ExitLeavesMapped` | xv6-public/proc.c:446-483 | A run from boot (fork, then wmap, a load and exit by the child) after which the zombie still has a page of its region mapped: it had touched only the second page table of the region. |
| `CowCode.Kernel.CopyUvm` | xv6-public/vm.c:332-368 | Succeeds if and only if every page is present and there is memory for the tables, and then computes the machine's CopyPages; panics exactly at a missing page; out of memory it has marked one page more and freed the child's again. |
| `CowCode.Kernel.DeallocUvm` | xv6-public/vm.c:269-295 | The loop, with its jumps over missing page tables, computes the machine's UnmapRange, which goes page by page. |
| `CowCode.Kernel.AllocUvm` | xv6-public/vm.c:232-262 | Succeeds if and only if there are enough frames and memory for the page tables; otherwise it takes back what it mapped, and frees the frame it holds when mappages fails. |
| `CowCode.Kernel.CopyRegion` | xv6-public/proc.c:541-560 | Panics if and only if some page of the region is missing from a page table that is there; otherwise the loop computes ShareRegion. |
| `CowCode.Kernel.UnmapRegion` | xv6-public/proc.c:446-483 | The loop computes UnmapRegion, including that it does not move past a missing page table. |
| `CowCode.Kernel.DoCopyOnWrite` | xv6-public/proc.c:218-254 | Kills if and only if the page is present and not copy-on-write; panics if and only if it is missing, or shared by its count with no frame free; otherwise the entry is writable and not copy-on-write, the page has the contents it had, and every other entry of every process and what it reads stay as they were. |
| `CowCode.Kernel.PageFault` | xv6-public/trap.c:83-111 | Below VA_START the same; above it, kills if and only if no region covers the page, panics if and only if one does and no frame is free, and otherwise maps a zeroed page; every other entry and what it reads stay as they were. |
| `BufferSafety.ChoiceIs` | xv6-public/bio.c:62-93 | bget returns the one used buffer of the block if any buffer has it; else, of the buffers without reference and not dirty, the one released longest ago; and it panics if and only if there is none. |
| `BufferSafety.StepKeepsInv` | xv6-public/bio.c:62-141 | Every step of a handle keeps reference counts equal to handles, sleep-locks exclusive, the ring a permutation in order of last release, and blocks in one used buffer. |
| `BufferTransparency.LockFreeIff` | xv6-public/bio.c:72-73 | A buffer's sleep-lock is free if and only if no handle on that block holds it. |
| `BufferTransparency.CacheTransparent` | xv6-public/bio.c:97-141 | For every interleaving of bread, edits with log_write or bwrite, and brelse, every read returns what a store of one locked cell per block holds: the latest edit of the block. |
| `BufferTransparency.OneBufferPerBlock` | xv6-public/bio.c:39-56 | In every reachable state two buffers with the same block are block 0 of device 0, the ring holds each buffer once, and its order is that of the last release. |
| `BufferTransparency.StepKeepsPinned` | xv6-public/bio.c:77-90 | No step recycles a referenced or dirty buffer, and a buffer stops being dirty only when its data is on the disk. |
| `BufferTransparency.PinnedStays` | xv6-public/log.c:231-231 | A buffer that log_write marked dirty keeps its block and data through any run until someone edits or writes that very buffer. |
| `BufferCode.UnlinkKeepsRing` | xv6-public/bio.c:131-132 | Joining a buffer's neighbours leaves a doubly linked ring of the others. |
| `BufferCode.PushKeepsRing` | xv6-public/bio.c:133-136 | Linking a buffer in after the head leaves a doubly linked ring with it in front. |
| `BufferCode.Bcache.constructor` | xv6-public/bio.c:39-56 | binit's loop builds the ring of all buffers and the boot state. |
| `BufferCode.Bcache.Search` | xv6-public/bio.c:69-76 | The forward walk finds the first buffer of the block, or the head. |
| `BufferCode.Bcache.SearchBack` | xv6-public/bio.c:81-90 | The backward walk finds the last recyclable buffer, or the head. |
| `BufferCode.Bcache.Bget` | xv6-public/bio.c:62-93 | bget is the machine's Get, on fields and links; -1 where the machine has no choice. |
| `BufferCode.Bcache.Bread` | xv6-public/bio.c:97-106 | Reads the block from disk if the buffer does not have it. |
| `BufferCode.Bcache.Bwrite` | xv6-public/bio.c:110-116 | Puts the data on disk and clears the dirty flag. |
| `BufferCode.Bcache.Brelse` | xv6-public/bio.c:121-141 | Drops a reference, and moves the buffer to the front with the last one. |
| `InodeLayout.WordPut` | xv6-public/fs.c:393-396 | A word written into an indirect block reads back, and the other words stay. |
| `InodeLayout.MapBitPut` | xv6-public/fs.c:66-68 | Setting or clearing one bit of the free map changes that bit only. |
| `InodeState.FormattedInv` | xv6-public/mkfs.c:238-251 | A freshly formatted disk with empty files satisfies the ownership invariant. |
| `InodeState.AllocateKeepsInv` | xv6-public/fs.c:64-71 | Marking a free block and zeroing it changes no file and no owner. |
| `InodeState.AttachedKeepsInv` | xv6-public/fs.c:379-397 | Naming a block just allocated at one empty place keeps: every named block is in use, has one owner at one place, and no used data block is unnamed. |
| `InodeState.DataPutBytes` | xv6-public/fs.c:497-499 | Bytes put into block bn of a file are bytes of that file at that offset and of no other file. |
| `InodeCode.FileSystem.Balloc` | xv6-public/fs.c:57-78 | Returns the lowest free block, marked and zeroed; panics if and only if every block is in use. |
| `InodeCode.FileSystem.Bfree` | xv6-public/fs.c:82-95 | Succeeds if and only if the block is in use: then exactly that block becomes free, no other bit and no data block changes, and the map block is logged; otherwise it panics and changes nothing. |
| `InodeCode.FileSystem.Bmap` | xv6-public/fs.c:373-400 | Returns the block of a file's block number, allocating it and the indirect block if missing; no byte of any file changes, no name is lost, and an existing block costs nothing. |
| `InodeCode.FileSystem.Writei` | xv6-public/fs.c:482-511 | The content becomes the old one with the bytes laid over it, every other file is unchanged, the size is the larger of old size and end, no hole appears, the inode on disk stays in step, and it fails exactly for an offset beyond the size or an end beyond the largest file. With a free map of one block it logs at most three blocks more than it writes to. |
| `InodeSteps.OverwriteIs` | xv6-public/fs.c:482-511 | Laying bytes over a file: they read back, the bytes before and behind stay, and the length is the larger of the old one and the end. |
| `InodeCode.FileSystem.Readi` | xv6-public/fs.c:453-476 | Returns exactly the bytes of the content in range, fails exactly as the code's test says, changes no content, and changes nothing at all in a file without holes. |
| `InodeCode.FileSystem.Itrunc` | xv6-public/fs.c:408-435 | Frees exactly the blocks that the inode names, directly or through its indirect block, keeps every other file, and never frees a free block. |
| `InodeCode.FileSystem.FreeIndirect` | xv6-public/fs.c:420-430 | The indirect half: all words and then the indirect block itself, each still in use when freed. |
| `FileCode.OpenFile.WritePart` | xv6-public/file.c:139-145 | One transaction of filewrite logs, from none, at most MAXOPBLOCKS - 3 distinct blocks when the free map is one block, and among them every block and the inode that it changed. |
| `FileCode.OpenFile.Filewrite` | xv6-public/file.c:118-156 | The chunks together lay the bytes over the file from the old offset; on failure a whole number of chunks was written; it fails exactly beyond the largest file or beyond the size. After every transaction the file system is consistent, the file has exactly the chunks so far, and other files are untouched. |
| `ImageMount.MountedIs` | xv6-public/fs.h:29-36 | What is mounted from a disk image, inodes decoded from their blocks, is the file system that the image was written from: same owners, free map and contents. |
| `FileCrash.EditsShow` | xv6-public/file.c:139-145 | If a transaction's edits are to the blocks it logged and leave them as it did, an image of the file system before it becomes an image of the one after it. |
| `FileCrash.FilewriteSurvives` | xv6-public/file.c:118-156 | One filewrite over the log: at whatever step the machine crashes, and however often during recovery, the file system mounted afterwards is consistent, the file is the old one with the first k chunks laid over it (a refused chunk adds nothing), and every other file is untouched; k is the number of transactions begun or one less, and all of them once the last end_op has returned. |
| `WriteActs.ActKeeps` | xv6-public/fs.c:482-511 | Each single action of a writei (marking a block, clearing it, naming it in the inode or the indirect block, putting data, raising the size, iupdate) keeps every block with one owner and no block leaked but those just marked, and changes no byte of any file but those it puts. |
| `FileWriters.ActGood` | xv6-public/fs.c:482-511 | Any action of any of several writers of different files, in any interleaving, keeps what each of them has written so far, every other file, and the ownership of all blocks. |
| `FileWriters.QuietHas` | xv6-public/file.c:134-155 | Whenever no transaction is running, disk and memory agree, the file system is consistent, each file written is the old one with a whole number of its own chunks, and other files are untouched. |
| `FileWriters.CodeIsWriter` | xv6-public/file.c:139-145 | A transaction of filewrite as the code is proved to run it is a run of such actions and ends where the writer may end. |
| `WritersCrash.WritersSurvive` | xv6-public/file.c:118-156 | Any number of filewrites to different files over the log, their actions interleaved and their transactions sharing groups: at whatever step the machine crashes, what is mounted after recovery is consistent, every file has a whole number of its own chunks, no more than were finished, and all of them if every end_op had returned; other files are untouched. |
| `PageTable.SkipForwardIff` | xv6-public/vm.c:281-281 | The jump over a missing page table moves forward if and only if the table is not the last one; over the last one it returns to address 0. |
| `PageTable.PageDir.Walk` | xv6-public/vm.c:37-56 | Finds or makes the page-table page; a new one changes no entry. |
| `PageTable.PageDir.MapPages` | xv6-public/vm.c:62-83 | For every address and size, wrapping at 2^32: adds exactly the pages from the first to the last, in order, up to the first page already present (panic) or the first missing table without memory. |
| `PageTable.PageDir.DeallocUvm` | xv6-public/vm.c:269-295 | Despite its jumps, clears exactly the range and frees exactly the frames, in order, that a page-by-page scan would, without wrapping, for bounds that leave out the last page table. |
| `PageTable.PageDir.FreeVm` | xv6-public/vm.c:300-314 | Frees the user pages, every page-table page and the directory's page, each once. |
| `FreeList.ScanStops` | xv6-public/umalloc.c:30-32 | free's scan stops at a block if and only if that is the place of the freed block in address order. |
| `FreeList.HalfAbsorb` | xv6-public/umalloc.c:33-37 | Joining the freed block with the next one keeps the ring ordered with gaps, and the free units are the old ones and the block. |
| `FreeList.SecondJoin` | xv6-public/umalloc.c:38-42 | Joining it with the block before keeps the ring ordered with gaps, and the free units the same. |
| `FreeList.TakeTail` | xv6-public/umalloc.c:78-82 | Splitting a block takes exactly the tail units off the free list. |
| `UmallocCode.UnitsEnoughIff` | xv6-public/umalloc.c:69-69 | A block has room for the bytes asked for if and only if the rounding does not wrap in 32 bits. |
| `UmallocCode.Heap.Place` | xv6-public/umalloc.c:30-32 | The scan ends, at the one place where the block belongs. |
| `UmallocCode.Heap.Insert` | xv6-public/umalloc.c:25-44 | The list stays one address-ordered ring with gaps between blocks; exactly the block's units become free; other headers stay. |
| `UmallocCode.Heap.Free` | xv6-public/umalloc.c:25-44 | The block leaves the live ones; every unit from sbrk stays in exactly one free or live block. |
| `UmallocCode.Heap.Morecore` | xv6-public/umalloc.c:47-61 | Adds what sbrk granted, 4096 units at least, and afterwards some block is large enough; or, if and only if sbrk was not asked for those units, puts a header where nothing was granted. |
| `UmallocCode.Heap.Search` | xv6-public/umalloc.c:74-87 | Finds a block if and only if one is large enough. |
| `UmallocCode.Heap.Malloc` | xv6-public/umalloc.c:64-90 | For every request: returns a new live block, disjoint from all others, that has room for the bytes if and only if the rounding did not wrap, and less than a unit to spare then; asks sbrk at most once, and exactly when no block fits; fails exactly when it asked and sbrk failed; units are conserved. It strays outside what sbrk granted if and only if it asked, sbrk answered, and the request is above 2^31 - 16 bytes and not above 2^32 - 8. |
| `UmallocCode.AskedIff` | xv6-public/umalloc.c:54-54 | sbrk's int argument is the units asked for, if and only if the request is at most 2^31 - 16 bytes or above 2^32 - 8; else it is zero or negative. |
| `UmallocCode.MallocStrays` | xv6-public/umalloc.c:54-58 | A request for 2^32 - 8 bytes on a new heap asks sbrk for nothing and writes a header at an address that was not granted. |
| `UmallocCode.MallocOfTooMuch` | xv6-public/umalloc.c:69-69 | A request for 2^32 - 1 bytes gets a block of one unit, which is the header alone, unless sbrk refuses. |
| `ShellSyntax.ParseUndoesPrint` | xv6-public/sh.c:346-446 | Every command tree with at most nine arguments per command, printed with parentheses where needed, parses back to itself. |
| `ShellLexer.LexUndoesUnlex` | xv6-public/sh.c:267-309 | Tokens written with blanks between them are lexed back as the same tokens. |
| `ShellLexer.ShellRoundTrip` | xv6-public/sh.c:329-343 | Printing a tree as a line of text, then lexing and parsing it, gives the same tree. |
| `ShellLexer.LineTexts` | xv6-public/sh.c:346-446 | The parser depends on the kinds of tokens only: parsing commutes with reading the words. |
| `ShellLexer.LineKeeps` | xv6-public/sh.c:346-446 | Every word in a parsed tree is a word of the line. |
| `ShellCode.Parser.Gettoken` | xv6-public/sh.c:267-309 | Returns the next token and leaves the cursor before the one after it. |
| `ShellCode.Parser.Peek` | xv6-public/sh.c:312-321 | Skips blanks and answers whether the next character is among those asked for. |
| `ShellCode.Parser.ParseRedirs` | xv6-public/sh.c:376-398 | The loop wraps the command in its redirections, or panics, as the grammar says. |
| `ShellCode.Parser.ParseExec` | xv6-public/sh.c:417-446 | The loop collects arguments and redirections as the grammar says, and panics at the tenth argument. |
| `ShellCode.Parser.ParseBlock` | xv6-public/sh.c:401-414 | A parenthesised line and its redirections. |
| `ShellCode.Parser.ParsePipe` | xv6-public/sh.c:363-373 | A pipeline, grouped to the right. |
| `ShellCode.Parser.ParseLine` | xv6-public/sh.c:346-360 | Background marks and semicolons. |
| `ShellCode.Parser.ParseCmd` | xv6-public/sh.c:334-340 | parsecmd up to nulterminate: ends on every line; succeeds exactly with the tree the grammar gives and nothing left over. |
| `ShellCode.ParseBuffer` | xv6-public/sh.c:329-343 | parsecmd on a buffer: succeeds exactly when the grammar accepts the words of the line, and then the tree, each word read from the buffer as a C string, is the grammar's tree of their texts; a printed tree comes back whole; a refused line and what lies behind the line are untouched. |
| `ShellCode.Nulterminate` | xv6-public/sh.c:451-494 | Writes a NUL behind every word of the tree and nothing else. |
| `ShellCode.WordsReadBack` | xv6-public/sh.c:451-494 | After nulterminate every argument and file name, read as a C string, is exactly its own token. |
| `SleepLock.RingKeepsInv` | xv6-public/sleeplock.c:35-41 | When the releaser is in wakeup1 it has both spinlocks, so afterwards nobody sleeps on the lock or is about to. |
| `SleepLock.SleepLockSafe` | xv6-public/sleeplock.c:23-53 | Under all interleavings at most one process owns the sleep-lock, holdingsleep is true of exactly that process, and nobody sleeps or is about to sleep on a free lock unless a releaser is still inside its wakeup. |
| `SleepLock.NobodyStranded` | xv6-public/proc.c:835-869 | When everyone is outside, asleep or holding, nobody is asleep unless someone holds the lock. |
| `SleepLock.NoDeadlock` | xv6-public/proc.c:835-891 | Until then some process inside the code can take a step. |
| `ProcLife.ExitSees` | xv6-public/proc.c:667-680 | exit leaves nobody asleep in wait beside a zombie child, neither its parent nor init. |
| `ProcLife.StepKeepsInv` | xv6-public/proc.c:577-799 | Every step, context switches with the table lock held included, keeps parents alive, pids distinct, and stacks in use allocated and on one CPU. |
| `ProcLife.LifeCycle` | xv6-public/proc.c:577-727 | In every reachable state every process past EMBRYO but init has a living parent, nobody sleeps in wait beside a zombie child, no pid is reaped twice, and every kernel stack a CPU is on is allocated and that CPU's alone. |
| `ProcLife.ReapIsSafe` | xv6-public/proc.c:702-715 | When wait frees a zombie's stack and page table no CPU is on them, and its pid was not reaped before. |
| `ProcCode.Wakeup1` | xv6-public/proc.c:874-882 | The loop wakes exactly the sleepers on the channel. |
| `ProcCode.Exit` | xv6-public/proc.c:665-680 | wakeup1 of the parent and the loop that hands over children, waking init as it goes, amount to the machine's exit. |
| `ProcCode.WaitScan` | xv6-public/proc.c:696-716 | Finds a zombie child if and only if there is one, and tells whether there are children. |
| `PipeCode.CountersTell` | xv6-public/pipe.c:85-93 | The 32-bit counters compare and index as the true byte counts do. |
| `PipeCode.Pipe.Fill` | xv6-public/pipe.c:84-94 | Accepts as many bytes as fit, in order, also after the counters wrap. |
| `PipeCode.Pipe.Drain` | xv6-public/pipe.c:113-117 | Delivers the oldest bytes in flight, as many as asked for and there. |
| `PipeProtocol.PipeIsFifo` | xv6-public/pipe.c:79-121 | For any readers and writers, what was delivered is a prefix of what was accepted, at most PIPESIZE bytes are in flight, and no writer sleeps with space or with the reader gone. |
| `PipeProtocol.ReadersRightIff` | xv6-public/pipe.c:86-89 | A step leaves a reader asleep beside data or at end of file if and only if a killed writer puts bytes, finds the pipe full and returns without a wakeup while a reader sleeps. |
| `PipeProtocol.ReadersWokenIff` | xv6-public/pipe.c:86-91 | Throughout a run no reader sleeps with data or end of file available, if and only if no such step occurs in it. |
| `PipeProtocol.ReaderSleepsByFullPipe` | xv6-public/pipe.c:86-89 | It does occur: a run after which a reader sleeps beside a full pipe. |
| `GrepMatch.MatchHere` | xv6-public/grep.c:85-96 | True if and only if some reading of the pattern's items matches the beginning of the text. |
| `GrepMatch.MatchStar` | xv6-public/grep.c:99-106 | True if and only if some number of repetitions, followed by the rest of the pattern, matches. |
| `GrepMatch.Match` | xv6-public/grep.c:73-82 | True if and only if the meaning of the pattern holds of the text: at the start with '^', anywhere otherwise. |
| `LinkCount.LinkKeepsInv` | xv6-public/sysfile.c:119-164 | link keeps counts, unique names and the shape of the tree. |
| `LinkCount.CreateKeepsInv` | xv6-public/sysfile.c:242-283 | create of a file in a linked directory keeps them too. |
| `LinkRuns.CreateCountsIff` | xv6-public/sysfile.c:260-279 | create keeps the counts right, and the whole invariant, if and only if the directory is still linked. |
| `LinkRuns.LinkCountsIff` | xv6-public/sysfile.c:119-164 | link keeps the counts right, and the whole invariant, if and only if the directory is still linked. |
| `LinkRuns.MkdirSoundIff` | xv6-public/sysfile.c:262-279 | mkdir keeps the invariant if and only if the directory is still linked. |
| `LinkCount.MkdirKeepsInv` | xv6-public/sysfile.c:262-279 | mkdir in a linked directory keeps counts, unique names and the shape of the tree. |
| `LinkCount.EmptyDirCount` | xv6-public/sysfile.c:169-181 | A directory that isdirempty accepts has exactly one link. |
| `LinkCount.UnlinkKeepsInv` | xv6-public/sysfile.c:185-239 | unlink, of files and of empty directories, keeps counts, unique names and the shape of the tree. |
| `LinkCount.UnlinkFindsLinks` | xv6-public/sysfile.c:211-212 | unlink's panic for a count below one cannot happen. |
| `LinkCount.FreedUnnamed` | xv6-public/fs.c:332-352 | iput frees an inode only when no entry of a linked directory names it. |
| `LinkRuns.LinksAreCounted` | xv6-public/sysfile.c:119-283 | Along any calls from a fresh file system the invariant holds throughout if and only if no call enters a name in an unlinked directory; and then every link count is the number of entries other than "." that name the inode in linked directories, and names within a linked directory are unique. |
| `LinkRuns.MiscountReachable` | xv6-public/sysfile.c:242-283 | Such a call can occur: mkdir, unlink of that directory by a process inside it, create there; afterwards a link count is wrong. |
| `DirCode.Dirlookup` | xv6-public/fs.c:525-548 | Returns the first entry in use with the name. |
| `DirCode.Dirlink` | xv6-public/fs.c:552-578 | Refuses a name in use, else fills the first free slot or the end. |
| `DirCode.Isdirempty` | xv6-public/sysfile.c:169-181 | True if and only if no entry beyond the first two is in use. |
| `ExecStack.UserMemory.Copyout` | xv6-public/vm.c:389-409 | Succeeds if and only if every page in range is a user page, and then lays the bytes there and nothing elsewhere. |
| `ExecStack.GuardStops` | xv6-public/exec.c:75-77 | A push from inside the stack page succeeds if and only if it stays inside: otherwise it meets the guard page. |
| `ExecStack.UserMemory.PushStrings` | xv6-public/exec.c:72-80 | Succeeds if and only if there are at most MAXARG strings and they fit in the stack page, also where the stack pointer wraps below 0; then every string is intact in memory and ustack has its address. |
| `ExecStack.UserMemory.BuildStack` | xv6-public/exec.c:63-88 | Succeeds if and only if there are at most MAXARG arguments and everything fits in the stack page; then the strings and the frame's words are in memory. |
| `ExecStack.LayoutIsSound` | xv6-public/exec.c:82-88 | The stack pointer leads to the fake return, argc, a pointer to the argv array right behind, the array ended by null; strings and frame do not overlap and lie inside the stack page. |

## Left out

- TLB contents: every access consults the page table, although copyuvm does not flush.
- Spinlock internals, interrupts and memory ordering: a section under one spinlock is one step.
- Device and boot code: the disk is an array of blocks that are written atomically.
- Page-table pages and kernel stacks in the copy-on-write machine: they only enter as frames that the kernel takes and gives back. Failure of copyuvm for want of them is a step of its own; failure of copywmap is not modelled.
- exec, inituvm and clearpteu in the copy-on-write machine: a process starts by fork or at boot.
- wmap requests that overlap or run out of range, wunmap as a call, and the contents of file-backed regions: the code does not check the first, and the machine takes regions as disjoint and in range.
- Accesses outside [0, size) below the wmap area: the fault handler panics, and runs end there.
- Clients that break the rules of the buffer layer: an edited buffer is passed to log_write or bwrite before brelse, and a call releases its buffers before end_op.
- Holders of buffers that are log or header blocks: in the log machine clients hold home blocks only, one holder at a time.
- The inode cache (iget, ilock, iput's reference counts) and path walking: link calls are whole calls on inodes already found, and iput is the moment when the last reference goes.
- Inodes encoded in blocks, while the code runs: inodes are records, with a copy that iupdate writes; they are decoded from blocks where an image is mounted after a crash, without type and link count. readi and writei are those of plain files, not of devices.
- Directory contents as bytes: entries are a sequence, and names are at most DIRSIZ characters already.
- Wrap-around of pids: nextpid grows without bound in the life-cycle machine, and fork's copying of files and memory is not repeated there.
- Several sleep-locks at once: the machine follows one sleep-lock; a process may be anywhere else with regard to other locks.
- PageTable.PageDir.DeallocUvm: for bounds up to 2^32 - 2^22; beyond that the loop need not end (SkipForwardIff).
- UmallocCode.Heap.Malloc: addresses from sbrk are aligned and above earlier ones, and users do not write into headers; what free does with a header that strays is not followed.
- BufferCode.Bcache.Bget: reference counts are unbounded numbers.
- ExecStack.UserMemory.BuildStack: loading the program's segments is not modelled; argument strings lie below KERNBASE, as fetchstr makes sure.
- ExecStack.UserMemory.Copyout: the page tables for the range exist (uva2ka does not test for a missing one).
- LogCode.Log.LogWrite: log_write tests the log's size before it takes log.lock (log.c:218); here the test and the append are one step.
- FileCrash.FilewriteSurvives: one process writes and the others only read; several writers are WritersCrash.WritersSurvive.
- WritersCrash.WritersSurvive: the calls under way are filewrites to different files; creating, removing and truncating files at the same time are not composed with the log.
- Growth past VA_START: the copy-on-write machine's sbrk stops there, where the code stops at KERNBASE only (vm.c:239).
- InodeCode.FileSystem.Writei: nothing is said of the state after balloc panics.
- GrepMatch.Match: the line buffering in grep is not modelled.
- Scheduling fairness, kill's search by pid, wait's return to a killed process, file descriptors and the file table's counts.
