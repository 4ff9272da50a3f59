# Verified model of the xv6-memfs core

A Dafny model of the parts of the xv6 kernel, its user library and two of its programs whose
correctness does not show from reading one function, and proofs about that model:

- **The log over the buffer cache over a block disk.** `LogFormat`, `LogSystem` and its proofs
  model `kernel/log.c`, `kernel/bio.c` and `kernel/memide.c` as a step system: any number of processes in
  `begin_op`/`log_write`/`end_op`, one thread in `commit` or `recover_from_log`, every disk write a step
  of its own, and a crash possible between any two steps. `LogBudget` and `LogPanic` say when the log has
  room. `BufferCache` and `WriteAheadLog` are the same code as code, with the ring of buffers and the loops.
- **The inode and block layer.** `Bytes`, `FsFormat`, `FsOwner`, `FsContent`, `FsWrite`, `FsTrunc`
  and `FileStore` model the bitmap, `bmap`, `readi`, `writei`, `itrunc`, `filewrite` and the
  `itruncate` of `tools/libfs.c`, down to the bits of the bitmap and the words of the indirect block;
  `Mkfs` the free map and the root directory that `tools/mkfs.c` leaves.
- **Directories and names.** `DirTree`, `Links`, `LinkOps` and `LinkRuns` model `create`, `sys_link`,
  `sys_unlink` and whole runs of them; `Paths` models `skipelem`, the inode cache and `namex`, and
  `PathTree` joins the two.
- **The allocator** of `ulib/umalloc.c`: `Umalloc`.
- **Processes and processors** with `ptable.lock` handed over in `swtch`: `ProcSystem`, its proofs,
  and `ProcLoops` for the loops over the table.
- **Address spaces**: `VmSpace`, `Vm`, `VmCopy`. **Pipes**: `Pipe` (the ring) and `PipeSystem` (any
  number of readers and writers).
- **The shell parser and grep**: `Shell`, `ShellRoundTrip`, `ShellParse`, `ShellCode`; `Grep`, `GrepLines`.

`Basics` holds what the modules share. The Makefile builds a 64-bit kernel unless told otherwise;
where the two builds differ (page directories and `setupkvm`, the header of `malloc`) the model takes
the build as a parameter and the theorems cover both.

Step systems are datatypes with a `Do` function or relation; their main theorems speak of every
reachable state. Code that changes things in place is a class or a method on an array, with the
functions and predicates it is proved against beside it. Ghost fields (`view`, `owner`, `tiles`,
`sent`, ...) record what the code means and are tied to the real fields by the class invariants.

Where a property does not hold of the code as it is, the model keeps the code and states exactly
when the property holds:

- How much an operation logs is not checked: `begin_op` reckons with MAXOPBLOCKS = 10 blocks, and a chunk
  of `filewrite` can log 17. Over all runs in which no operation logs more than m new blocks, no operation
  that has blocks left panics in `log_write` if and only if m is 0, or there are too few home blocks to
  fill the log, or the log holds 10 + 2m blocks (`LogPanic.PanicFreeIff`). With more than LOGSIZE blocks
  of log region that is m <= 10; with LOGSIZE blocks, as `tools/mkfs.c` makes it, m < 10
  (`LogPanic.CapFor`). With chunks of 17 blocks there is a failing run for every larger log region
  (`LogPanic.ChunksPanic`). Even with m = 10 `log_write` can panic on a block that is in the log already,
  because it tests for a full log before it looks (`LogBudget.PanicsExactly`, `LogPanic.AbsorbedPanics`).
  The other theorems about the log, crash atomicity first, hold for all runs, whatever operations log.
- `balloc` hands out a block of the log region exactly when no data block is free and the bit of a log
  block is clear (`FileStore.FileStore.Balloc`); `tools/mkfs.c` leaves these bits clear
  (`Mkfs.MkfsMapped`, `Mkfs.LogBlockExample`), and until the next commit the kernel goes on with such a
  block as with any other (`Mkfs.KernelView`, `Mkfs.KernelTakes`); the first one is the block that every
  commit writes its header to (`Mkfs.HeaderTaken`). A root directory whose entries fill its last block
  gets a hole (`Mkfs.RootHasHole`).
- In the 64-bit build `allocuvm` to a size above 0x3fc00000 ends in a fault, and to any other never
  (`Vm.Memory.Allocuvm`, `Vm.TooLarge`): page directory entries 510 and 511 hold virtual addresses, and
  adding KERNBASE once more leads to an address that is not mapped. With fewer than two free
  frames, and from a page inside a missing table, the bound is higher by what the walk is out of step.
- `deallocuvm` skips ahead by a table's length where a table is missing. If it starts inside a table that
  is missing, it misses the first pages of the next table that is there, and these stay mapped above the
  size; otherwise it misses nothing (`Vm.Memory.Deallocuvm`, `Vm.MissesNothing`, `Vm.LeftBehind`).
- `allocuvm` ignores the result of `mappages`: it returns success without the last page exactly when
  one frame is missing and it is the one for the last page table (`Vm.Memory.Allocuvm`,
  `Vm.LastTableMissing`); the frame in hand is lost.
- `setupkvm` of the 64-bit build does not look at what `kalloc` returns: with fewer than three frames
  it writes over the first page of the current process, and panics if that is not mapped
  (`VmCopy.Setupkvm`). `freevm` loses two frames of every space and its pages from 0x3fa00000 up
  (`VmCopy.Freevm`, `VmCopy.CountNotFreed`).
- Link counts, which are 16-bit, stay right through `create` and `sys_link` if and only if the directory
  has links itself and the count that goes up is below 32767, over single calls and over whole runs
  (`LinkRuns.OpKeepsIff`, `LinkRuns.RunKeepsIff`, `LinkRuns.DeadExample`).
- `namex` panics in `ilock` exactly if the path leads through a free inode, and some path does if and
  only if the ".." of some directory without links names one (`Paths.Inodes.Namex`,
  `PathTree.NeverMeetsIff`, `PathTree.FreeParentExample`).
- In a run of readers and writers no reader is left asleep over data if and only if no killed writer
  goes on with more bytes than the pipe holds while a reader sleeps (`PipeSystem.ReadersAwakeIff`,
  `PipeSystem.StuckIsRun`).
- grep prints every matching line, for every pattern and however `read` delivers the text, if and only
  if no read leaves a buffer without a newline while one is still to come, and the text ends with a
  newline (`GrepLines.GrepExactIff`, `GrepLines.ShortReadsLose`, `GrepLines.LastLineLost`,
  `GrepLines.LongLineLost`).
- `copyuvm` panics exactly if a page below the size is missing and the frames suffice up to there
  (`VmCopy.Copyuvm`); `allocuvm` can leave such a space.
- The units `malloc` computes hold the bytes asked for always in the 64-bit build, and in the 32-bit
  build if and only if rounding up does not wrap around (`Umalloc.UnitsHold`, `Umalloc.UnitsTooFew`).
  The int passed to `sbrk` is the size of the block up to two headers below 2 GB; above it is negative,
  then zero, and in the 64-bit build at last 16 (`Umalloc.RequestIs`, `Umalloc.RequestTooSmall`). Then
  `malloc` returns a block of which only the header is memory that was granted (`Umalloc.Allocator.Malloc`,
  `Umalloc.ShortGrant`).

`dafny verify dfyconfig.toml` checks the project.

## Model

| member | source | states |
|---|---|---|
| LogFormat.WithHeader | kernel/log.c:100-112 | a header written into a block reads back as it was, and the words after it are left alone |
| LogFormat.MeansIsMeaning | kernel/log.c:68-81 | the entry-by-entry reading of "what the disk is worth" and the sequence a completed recovery leaves are the same |
| LogTheorems.StepKeeps | kernel/log.c:68-230 | every step of every process, of the log thread, and a crash, keep the invariant that ties disk, cache, header, admission and history together |
| LogTheorems.BootInv | kernel/log.c:52-65 | power-on with any image whose header block is good meets the invariant |
| LogTheorems.RunInv | kernel/log.c:52-230 | the invariant holds in every state of every run |
| LogTheorems.ReachableInv | kernel/log.c:52-230 | the invariant holds in every reachable state |
| LogTheorems.CrashAtomicity | kernel/log.c:114-199 | in every reachable state, crashes during recovery included, the disk is worth exactly the first cut log_writes, every operation has all of its log_writes among them or none, and all are among them once the header on disk is not empty |
| LogTheorems.LogThreadCompletes | kernel/log.c:114-199 | when commit() or a recovery returns, every log_write in the history is on the home blocks, the log is empty and no buffer is DIRTY |
| LogTheorems.BreadIsLogical | kernel/bio.c:99-109 | in every reachable state outside recovery a filled buffer its holder has not changed holds the last log_write to the block, else what the disk was worth at boot |
| LogTheorems.DirtyStays | kernel/bio.c:62-96 | a DIRTY buffer is neither recycled nor filled again by any step until its home block is on disk with its data |
| LogTheorems.HomeWrittenAfterHeader | kernel/log.c:174-199 | a home block changes on disk only if the on-disk header names it already, and becomes what the disk was already worth |
| LogTheorems.AdmissionSafe | kernel/log.c:124-171 | in every reachable state: committing means nobody is inside; idle with nobody inside means an empty log; logged blocks are distinct home blocks that the header holds; a begin_op sleeper has an operation or a commit to wake it |
| LogBudget.BudgetSafe | kernel/log.c:124-230 | in every run in which no operation logs more than m <= MAXOPBLOCKS new blocks, the blocks logged and those still to come are at most 10 + 2m |
| LogBudget.LogWriteRoom | kernel/log.c:210-230 | in such runs, with log blocks for the most that can come together, log_write never panics on an operation that has blocks left |
| LogBudget.PanicsExactly | kernel/log.c:210-230 | in such runs and with such a log region, when a call within the cap panics, absorbed blocks included: exactly if all that can come together is in the log and fills it; then the block is one of them and every operation has used its cap up |
| LogPanic.PanicFreeIff | kernel/log.c:124-230 | over all runs in which no operation logs more than m new blocks, for every m and every layout: no call of an operation with blocks left panics if and only if m is 0, or there are too few home blocks to fill the log, or it holds 10 + 2m blocks |
| LogPanic.AbsorbedPanics | kernel/log.c:215-223 | for every large log region, a run of operations that keep to MAXOPBLOCKS in which log_write of a block that is in the log already panics |
| LogPanic.CapFor | kernel/log.c:124-230 | with LOGSIZE log blocks besides the header that is m <= MAXOPBLOCKS, with one fewer m < MAXOPBLOCKS |
| LogPanic.ChunksPanic | kernel/file.c:126-151 | for every large log region, a run of operations that log at most 17 blocks in which one that has logged 3 panics |
| LogPanic.SomeCallPanics | kernel/log.c:210-230 | no size of the log region keeps every call within MAXOPBLOCKS, absorbed blocks included, from panicking |
| LogPanic.LogMany | kernel/log.c:124-230 | the runs that fill the log exist: others come, log and go, and two operations log up to m blocks each |
| BufferCache.Bcache.constructor | kernel/bio.c:39-57 | binit() makes a ring of all buffers, none caching anything |
| BufferCache.MovedToFront | kernel/bio.c:123-142 | the six pointer assignments of brelse() turn the ring into the same ring with the buffer first |
| BufferCache.Bcache.FindCached | kernel/bio.c:70-81 | the forward scan finds the buffer of the block if and only if it is cached |
| BufferCache.Bcache.FindVictim | kernel/bio.c:86-94 | the backward scan finds the least recently released buffer that is neither busy nor DIRTY, if there is one |
| BufferCache.Bcache.Bget | kernel/bio.c:62-96 | which buffer is taken, that no other changes, when it sleeps, and that it panics exactly if the block is not cached and nothing can be recycled |
| BufferCache.Bcache.Iderw | kernel/memide.c:36-58 | a DIRTY buffer goes to disk, an invalid one is filled from it; flags afterwards |
| BufferCache.Bcache.Brelse | kernel/bio.c:123-142 | the buffer is free and first in the ring order; the order of the others is kept |
| BufferCache.Bcache.Bread | kernel/bio.c:99-109 | the buffer holds the view of the block; otherwise the block's buffer is busy or no buffer can be recycled |
| BufferCache.Bcache.Bwrite | kernel/bio.c:112-119 | disk and view both take the data and the block is no longer pinned |
| WriteAheadLog.Log.WriteHead | kernel/log.c:100-112 | exactly one disk write, after which the on-disk header is the one in memory |
| WriteAheadLog.Log.ReadHead | kernel/log.c:84-95 | the header in memory becomes the one on disk |
| WriteAheadLog.Log.InstallTrans | kernel/log.c:68-81 | after each of its writes the disk is worth the same; complete, the home blocks are in place |
| WriteAheadLog.Log.WriteLog | kernel/log.c:174-187 | after each of its writes the disk is worth what it was; complete, the log holds the new contents |
| WriteAheadLog.Log.Commit | kernel/log.c:189-199 | the disk after each write is worth the old contents before the write of the header and the new ones from that write on; complete, the new contents are on the home blocks; it completes if no buffer is busy and two can be recycled |
| WriteAheadLog.Log.RecoverFromLog | kernel/log.c:114-121 | after each write the disk is worth what it was; complete, that is on the home blocks and the log is empty; it completes under the same condition |
| WriteAheadLog.Log.LogWrite | kernel/log.c:210-230 | panics exactly on a full log or outside an operation; otherwise the block is pinned and in the header once |
| WriteAheadLog.Absorbed | kernel/log.c:220-228 | writing the block number where the scan stopped adds it once and keeps the numbers distinct |
| FsFormat.WordOfSet | kernel/fs.c:381-385 | writing one 32-bit word of an indirect block changes that word and no other |
| FsOwner.WithBitHas | kernel/fs.c:64-66 | setting or clearing a bit of a bitmap block changes that bit and no other |
| FsOwner.MarkedUsed | kernel/fs.c:61-68 | marking one block used or free changes no other block's bit, across bitmap blocks |
| FsOwner.BitmapExact | kernel/fs.c:52-95 | under the ownership invariant that balloc, bmap, writei and itrunc keep, the bit of a data block is set if and only if some place of some inode names it, and only one place does |
| FsOwner.Taken | kernel/fs.c:52-76 | taking a free block keeps ownership, with the block in hand |
| FsOwner.LogTaken | kernel/fs.c:52-76 | marking and clearing a block of the log region changes no file and keeps ownership |
| FsOwner.WideOwnership | kernel/fs.c:52-76 | with the bits of the log region clear, the image is as well one whose data blocks reach to the end of the disk |
| FsOwner.Freed | kernel/fs.c:79-95 | giving back a block in hand keeps ownership |
| FsOwner.Linked | kernel/fs.c:369-371 | a block in hand entered into an inode is owned by that place alone |
| FsOwner.EntryLinked | kernel/fs.c:382-385 | a block in hand entered into an indirect block is owned by that place alone |
| FileStore.FileStore.FindFree | kernel/fs.c:58-73 | the first block whose bit is clear, or that all are set |
| FileStore.FileStore.Balloc | kernel/fs.c:52-76 | the lowest block whose bit is clear; a data block exactly if one is free: it was nobody's, is zero and marked, and no owned block changes; a block of the log region exactly if none is and the bit of one is clear; the panic otherwise |
| FileStore.FileStore.Bfree | kernel/fs.c:79-95 | the "freeing free block" panic exactly if the bit is clear; otherwise that bit alone is cleared |
| FileStore.FileStore.Bmap | kernel/fs.c:362-390 | the block that file block bn is mapped to, allocated zeroed if there was none; no other mapping of any inode changes; it fails only beyond MAXFILE or when every data block is taken |
| FileStore.FileStore.Writei | kernel/fs.c:471-501 | the contents become content[..off] + src + the rest, the error cases exactly, every other file is unchanged, ownership is kept, in-memory and on-disk inodes agree, and what is logged |
| FileStore.FileStore.Readi | kernel/fs.c:443-467 | returns exactly the slice of the contents as far as the file goes, and changes nothing |
| FsWrite.WriteAtInPieces | kernel/file.c:134-151 | writing two pieces one after the other is writing them together |
| FsWrite.TransactionSize | kernel/file.c:126-132 | with one bitmap block, 14 data blocks, the indirect block, the bitmap and the inode block are at most 17 distinct blocks |
| FileStore.FileStore.WriteChunk | kernel/file.c:139-144 | a chunk of at most 13 blocks' worth of bytes logs at most 17 distinct blocks and writes exactly the chunk |
| FileStore.FileStore.Filewrite | kernel/file.c:116-155 | the chunked loop has the effect of one write of the first i bytes, i is all of them on success, and each transaction is at most 17 blocks |
| FileStore.FileStore.Itruncate | tools/libfs.c:353-396 | the contents are cut to size or extended with zeros whatever the last block held, exactly the blocks beyond the new size are freed, other files are unchanged |
| FileStore.FileStore.Shrink | tools/libfs.c:359-385 | direct blocks, indirect entries and the indirect block beyond the new size are freed, and only those |
| FileStore.FileStore.Itrunc | kernel/fs.c:397-425 | the file is empty, exactly its own blocks are free again, and no bfree() meets a free block |
| Mkfs.Balloc | tools/mkfs.c:236-250 | exactly the bits below the number of used blocks are set, or the assertion fails |
| Mkfs.MapMade | tools/mkfs.c:236-250 | in an image with that bitmap block and zeros for the others, exactly the blocks below are marked |
| Mkfs.MkfsMapped | tools/mkfs.c:101-157 | the free map of a new image is what the kernel counts on, and the bits of the log region are clear if the files fit the data blocks |
| Mkfs.KernelView | tools/mkfs.c:101-157 | a new image meets what the kernel counts on, read with or without the log region as data blocks; read with it, FileStore goes on as the kernel does until the next commit |
| Mkfs.KernelTakes | kernel/fs.c:52-76 | read so, the block taken next is one of the log region exactly if no data block is free |
| Mkfs.HeaderTaken | kernel/log.c:52-62 | the first of these is the block that every commit writes its header to |
| Mkfs.FullImage | tools/mkfs.c:101-157 | an image whose files fill the data blocks is one on which balloc hands out a log block |
| Mkfs.LogBlockExample | kernel/fs.c:52-76 | a concrete one |
| Mkfs.RootHasHole | tools/mkfs.c:150-155 | rounding up the size of the root directory leaves it without holes if and only if its entries do not fill its last block |
| Umalloc.JoinNext | ulib/umalloc.c:33-37 | joining with the block after keeps every unit as free as before and leaves the list ready for the second half |
| Umalloc.JoinPrev | ulib/umalloc.c:38-42 | joining with the block before restores the list: one ascending cycle, no two free blocks adjacent |
| Umalloc.LinkIn | ulib/umalloc.c:38-42 | a block that touches neither neighbour goes into the list on its own |
| Umalloc.StopsThere | ulib/umalloc.c:30-32 | the loop of free() stops exactly at the node after which the block belongs |
| Umalloc.UnitsHold | ulib/umalloc.c:69 | the units computed hold the bytes asked for if and only if the build is the 64-bit one or the 32-bit sum does not wrap; no unit is wasted; the count fits 32 bits |
| Umalloc.UnitsTooFew | ulib/umalloc.c:69 | 2^32 - 1 bytes in the 32-bit build get a block of a header and nothing else |
| Umalloc.RequestIs | ulib/umalloc.c:46-55 | the int that sbrk() is called with, in both builds: for which numbers of bytes it is the size of the block that is put on the free list, for which it is negative, zero, or one header |
| Umalloc.ShortGrant | ulib/umalloc.c:46-61 | a positive request for less than the block is for one header, and the block is then the whole grant: nothing of it but the header was granted |
| Umalloc.RequestTooSmall | ulib/umalloc.c:46-55 | malloc(2^32 - 1) in the 64-bit build asks for 16 bytes and frees a block of 2^28 + 1 units |
| Umalloc.UsersApart | ulib/umalloc.c:24-90 | a unit of a block in use is never free and belongs to that block alone |
| Umalloc.Allocator.FindPlace | ulib/umalloc.c:30-32 | the search ends, at the node after which the block belongs |
| Umalloc.Allocator.Free | ulib/umalloc.c:24-44 | the list is valid again, exactly the units of the block have become free, all other blocks in use keep place, length and contents |
| Umalloc.Allocator.Morecore | ulib/umalloc.c:46-61 | exactly the units granted have become free, and the request fits now |
| Umalloc.Allocator.Carve | ulib/umalloc.c:75-85 | a block of exactly the units asked for leaves the free units, from the tail of the block found |
| Umalloc.Allocator.Malloc | ulib/umalloc.c:63-90 | ends, asks for memory at most once and exactly if nothing fits, returns 0 exactly if that is refused, takes the first fit from freep on, or the tail of what sbrk returned; free and granted units are conserved and blocks in use untouched; it stops exactly where sbrk is asked for no bytes or to shrink |
| DirTree.CountUpdate | kernel/sysfile.c:238-281 | how the number of entries naming an inode changes when one directory changes |
| Links.MkdirTree | kernel/sysfile.c:266-273 | a new directory below a directory with links leaves the tree well formed |
| Links.FileLost | kernel/sysfile.c:215-226 | clearing an entry for a file and decrementing its count keeps the tree and all link counts |
| Links.DirLost | kernel/sysfile.c:208-226 | an empty directory with an entry has exactly one link, and removing it, with the parent's count decremented, keeps the tree and all link counts |
| LinkOps.FileTree.Dirlookup | kernel/fs.c:514-538 | the first entry with the name, or that there is none |
| LinkOps.FileTree.Dirlink | kernel/fs.c:541-568 | fails exactly if the name is taken; otherwise the entry goes into the first free place or to the end |
| LinkOps.FileTree.Isdirempty | kernel/sysfile.c:165-178 | true exactly if no entry after the first two is in use |
| LinkOps.FileTree.Link | kernel/sysfile.c:115-162 | when it succeeds and the state it leaves; on every error path nothing has changed; counts, and tree and counts together, stay right if and only if the directory has links and the count was below 32767 |
| LinkOps.FileTree.Unlink | kernel/sysfile.c:181-236 | when it succeeds and the state it leaves; tree and counts stay right always, and "unlink: nlink < 1" is unreachable |
| LinkOps.FileTree.Ialloc | kernel/fs.c:175-198 | the first free inode, or that there is none |
| LinkOps.FileTree.Create | kernel/sysfile.c:238-281 | which of the four outcomes occurs, the state it leaves, and that counts, and tree and counts together, stay right if and only if the directory has links and, for a new directory, its count was below 32767 |
| LinkOps.FileTree.Release | kernel/fs.c:323-342 | freeing an inode without links keeps tree and counts |
| LinkRuns.OpKeepsIff | kernel/sysfile.c:115-281 | a successful create, sys_link, sys_unlink or freeing iput keeps the link counts right, and tree and counts together, if and only if it names nothing in a directory without links and no count overflows |
| LinkRuns.RunKeepsIff | kernel/sysfile.c:115-281 | over every run of such calls from a well-formed tree, every inode's nlink is the number of entries other than "." that name it from directories with links, after every call, if and only if no call names anything in a directory without links or overflows a count; the tree is then well formed, too |
| LinkOps.DeadFile | kernel/sysfile.c:238-281 | a file made in, or linked into, a directory without links breaks the counts |
| LinkOps.DeadDir | kernel/sysfile.c:266-273 | so does a directory made there |
| LinkRuns.DeadExample | kernel/sysfile.c:238-281 | a run from a bare root after which this has happened |
| Paths.Skipelem | kernel/fs.c:585-608 | splits the next slash-separated element, cut to 14 bytes, off the path; none exactly if there is no element |
| Paths.RefIs | kernel/fs.c:223-254 | all references to a cached inode are those of its one entry in use |
| Paths.Inodes.Iget | kernel/fs.c:223-254 | one reference more to that inode and no other; never two entries in use for one inode; the panic only on a full cache |
| Paths.Inodes.Idup | kernel/fs.c:258-265 | one reference more to that inode and no other |
| Paths.Inodes.Ilock | kernel/fs.c:269-301 | which of four outcomes occurs (no reference, the sleep on a locked inode, no type, locked); the entry is then busy and valid, and no reference count changes |
| Paths.Inodes.Iunlock | kernel/fs.c:304-314 | the entry is not busy, and no reference count changes |
| Paths.Inodes.Iput | kernel/fs.c:323-342 | one reference less to that inode and no other; the inode is freed exactly if that was the last one to a valid inode without links |
| Paths.Inodes.Find | kernel/fs.c:514-538 | the scan is the lookup that Resolve is defined by |
| Paths.Inodes.Walk | kernel/fs.c:624-641 | one turn of the loop: the next inode is the lookup of the element, the old reference is given back, no lock is kept, and it panics on a free inode exactly if this is one |
| Paths.Inodes.Namex | kernel/fs.c:614-647 | the result is the fold of directory lookup over the elements (without the last for a parent); every lock is given back and every reference but the one returned; the cache runs out only if at most one entry was free; ilock panics exactly if the path leads through a free inode |
| Paths.WalkMeans | kernel/fs.c:624-641 | what one element does to what the rest of the path resolves to and to whether it leads through a free inode, for namei and nameiparent |
| PathTree.TreeIsWalkable | kernel/fs.c:614-647 | every tree that link counting keeps is one that namex works on, if the cache has all inodes in use without links |
| PathTree.NeverMeetsIff | kernel/fs.c:614-647 | on such a tree no path from an inode in use leads through a free one if and only if no directory without links has a ".." that names a free inode |
| PathTree.StaysInUse | kernel/fs.c:624-641 | in that case every element leads from an inode in use to an inode in use |
| PathTree.ReleasedUp | kernel/fs.c:323-342 | freeing the parent of a directory without links keeps tree and counts, and leaves such a ".." |
| PathTree.FreeParentExample | kernel/fs.c:291-299 | a run from a bare root after which this has happened, and the path |
| ProcTheorems.StepKeeps | kernel/proc.c:130-435 | every step of every processor and process keeps the invariant over processors, processes, locks, families and wakeups |
| ProcTheorems.BootInv | kernel/proc.c:78-105 | userinit() meets the invariant |
| ProcTheorems.RunInv | kernel/proc.c:78-435 | the invariant holds at the end of every run |
| ProcTheorems.HandOff | kernel/proc.c:267-323 | while ptable.lock is free, a process is RUNNING if and only if it is the current process of a processor, and of one only |
| ProcTheorems.ReapedIsOff | kernel/proc.c:228-241 | wait() frees the stack and page table only of a process that no processor is on |
| ProcTheorems.SchedNeverPanics | kernel/proc.c:307-323 | none of the four checks of sched() ever fails |
| ProcTheorems.WantThroughRun | kernel/proc.c:307-323 | from its first lock to its last, through any number of switches between processors, a process keeps the interrupt state recorded for it |
| ProcTheorems.InterruptsRestored | kernel/spinlock.c:123-132 | releasing the last lock restores that state, on whatever processor the process is by then |
| ProcTheorems.InterruptsRoundTrip | kernel/spinlock.c:112-132 | in every run, interrupts after the last lock is given back are what they were before the first was taken, on another processor or the same |
| ProcTheorems.NoLostWakeup | kernel/proc.c:357-412 | in every reachable state, a process asleep on a condition that holds has a wakeup still to come from a process that made it hold and is alive; a lock may guard several conditions |
| ProcTheorems.DebtPaid | kernel/proc.c:395-412 | only the wakeup() of that process on that condition ends its debt, and then nobody is asleep on the condition |
| ProcTheorems.FamilyTies | kernel/proc.c:174-257 | nobody sleeps in wait() with a zombie child, and every live process or zombie but init has a live parent |
| ProcLoops.Wakeup1 | kernel/proc.c:395-403 | the loop makes exactly the sleepers on the channel RUNNABLE |
| ProcLoops.ExitTable | kernel/proc.c:196-213 | the loop of exit() carries out the step of the process system: parent woken, children to init, init woken if one is a zombie |
| ProcLoops.WaitTable | kernel/proc.c:218-257 | the scan frees the first zombie child, or gives up, or sleeps, each exactly when it should |
| ProcLoops.AllocTable | kernel/proc.c:34-49 | the search takes the first unused slot, or none exactly if there is none |
| Pipe.WrappedTests | kernel/pipe.c:77-120 | the wrapped 32-bit counters tell a full and an empty ring as unbounded ones would |
| Pipe.WrappedSlot | kernel/pipe.c:77-120 | a wrapped counter names the same slot |
| Pipe.Pipe.Write | kernel/pipe.c:77-97 | as many bytes go in, in order, as there is room for; how the stretch ends |
| Pipe.Pipe.Read | kernel/pipe.c:99-120 | the oldest bytes come out, in order; how the stretch ends |
| PipeSystem.StepKeeps | kernel/pipe.c:58-120 | every step of any reader, writer, close or kill keeps the invariant |
| PipeSystem.RunKeeps | kernel/pipe.c:58-120 | the invariant holds in every state of every run |
| PipeSystem.PipeSafety | kernel/pipe.c:58-120 | at every point of every run: never more than 512 bytes in flight, every call's bytes in order, no writer asleep while there is room or the read end is closed |
| PipeSystem.WritesAsRing | kernel/pipe.c:77-97 | a writer's step sends the bytes, and ends the way, that the code of the ring does |
| PipeSystem.ReadsAsRing | kernel/pipe.c:99-120 | a reader's step takes as many bytes, and ends the way, that the code of the ring does |
| PipeSystem.StrandsIff | kernel/pipe.c:58-120 | a step leaves a reader asleep over data or a closed write end exactly if a killed writer goes on with more bytes than the pipe holds while a reader sleeps |
| PipeSystem.ReadersAwakeIff | kernel/pipe.c:83-90 | no reader is ever left asleep like that in a run if and only if the run has no such step |
| PipeSystem.AwakeWithoutKill | kernel/pipe.c:58-120 | in particular in a run without kill |
| PipeSystem.StuckIsRun | kernel/pipe.c:83-90 | a run in which that happens: a writer of 513 bytes killed while a reader sleeps |
| Vm.Memory.Kalloc | kernel/kalloc.c:82-95 | the first frame of the list, in use nowhere; none exactly if the list is empty |
| Vm.Memory.Kfree | kernel/kalloc.c:59-77 | the frame goes to the front of the list and no mapping changes; what is lost is one frame less |
| Vm.Memory.Walkpgdir | kernel/vm.c:47-67 | in both builds: finds or makes the page table, fails exactly without a frame for it, no mapping of any space changes and no frame is lost |
| Vm.Memory.Mappages | kernel/vm.c:72-92 | the pages of the range are mapped to the frames one after the other, up to the first that is mapped already (the panic) or has no table and no frame for one; nothing else changes, and which frames are used |
| Vm.Memory.Deallocuvm | kernel/vm.c:255-279 | in any space, which pages from the new size up to the old are gone and their frames free: all that are mapped but those that the skipping of missing tables misses; it faults exactly if the walk gets above the user part; every other page keeps entry and bytes; no frame is lost |
| Vm.MissesNothing | kernel/vm.c:264-268 | nothing is missed from a page whose table is there, or that is the first of its table, or in a space whose pages are a prefix |
| Vm.LeftBehind | kernel/vm.c:264-268 | a space in which shrinking leaves a page mapped above the size |
| Vm.Memory.Allocuvm | kernel/vm.c:224-249 | from any space with nothing mapped above the old size: when it faults; otherwise the pages are those of the new size, zero-filled, or the old ones with the result 0, or one page short, as the number of free frames decides; when one frame is lost; other spaces and the pages below keep entries and bytes |
| Vm.LastTableMissing | kernel/vm.c:238-248 | an address space and a number of frames with which one page is missing |
| Vm.TooLarge | include/mmu.h:119-130 | 1 GB and a page is above 510 directory entries, and what is there is not a page table |
| VmCopy.Setupkvm | kernel/vm64.c:124-143 | an empty space exactly if the frames suffice; with fewer, all of them are lost, and the first page of the current space is overwritten or missing, in the 64-bit build |
| VmCopy.Freevm | kernel/vm.c:283-297 | any space is gone; a frame of it is free exactly if it is not one of the frames freevm leaves out, and these are lost; other spaces keep entries and bytes |
| VmCopy.CountNotFreed | kernel/vm.c:283-297 | the frames left out are two of setupkvm and the pages from 0x3fa00000 up |
| VmCopy.Copyuvm | kernel/vm.c:314-342 | with the frames of setupkvm counted: the new space has the same pages with the same bytes and flags in other frames exactly if all pages are there and the frames suffice; the panic exactly if they suffice up to a missing page; otherwise no space has changed and how many frames are lost; with fewer frames than setupkvm takes, what it overwrites |
| ShellRoundTrip.ParseOfShow | user/sh.c:328-447 | every command with at most 9 arguments prints to tokens that parse to it and leave nothing over |
| ShellRoundTrip.ShowOfParse | user/sh.c:328-447 | parsing, printing and parsing again gives what the first parse gave, for every line that parses |
| ShellRoundTrip.LineBack | user/sh.c:345-360 | the same inside a line, before a closing parenthesis or the end |
| ShellParse.LexOfUnlex | user/sh.c:266-309 | tokens written with spaces between them are read back as they were |
| ShellParse.TypedBack | user/sh.c:266-447 | every command can be typed: the characters it is printed to parse to it |
| ShellCode.Gettoken | user/sh.c:266-309 | returns the first token of the rest of the line, its span if it is a word, and where the next starts |
| ShellCode.Peek | user/sh.c:311-321 | skips blanks and tells whether the next character is among the given ones |
| ShellCode.Parseredirs | user/sh.c:375-398 | agrees with the grammar on the tokens of the line |
| ShellCode.Parseexec | user/sh.c:416-447 | agrees with the grammar on the tokens of the line, failures included |
| ShellCode.Parseblock | user/sh.c:400-414 | agrees with the grammar on the tokens of the line, failures included |
| ShellCode.Parsepipe | user/sh.c:362-373 | agrees with the grammar on the tokens of the line, failures included |
| ShellCode.Parseline | user/sh.c:345-360 | agrees with the grammar on the tokens of the line, failures included |
| ShellCode.Nulterminate | user/sh.c:450-494 | a NUL at the end of every word of the command, and no other change |
| ShellCode.ViewIsErase | user/sh.c:450-494 | the pointers of the command, read as C strings, are exactly its words |
| ShellCode.Parsecmd | user/sh.c:328-343 | fails exactly when the grammar does; otherwise the C strings in the buffer make up the command the grammar gives |
| Grep.Match | user/grep.c:72-82 | true if and only if a substring, anchored by ^ and $, is in the language of the pattern |
| Grep.Matchhere | user/grep.c:85-96 | true if and only if a prefix of the text is made of pieces the items of the pattern stand for |
| Grep.Matchstar | user/grep.c:99-106 | the same for c* followed by the pattern |
| Grep.AcceptsFirst | user/grep.c:85-106 | a pattern accepts a text if and only if its first item stands for some prefix and the rest of the pattern accepts the rest |
| GrepLines.Scan | user/grep.c:20-28 | prints exactly the matching complete lines in the buffer and finds where the rest starts |
| GrepLines.Round | user/grep.c:17-34 | one read: matching lines are printed and the unfinished line is moved to the front, or dropped if none was finished |
| GrepLines.GrepFile | user/grep.c:10-36 | prints the matching lines among those it sees, for any way read() delivers the input |
| GrepLines.GrepExactIff | user/grep.c:10-36 | for every text and every way read() delivers it, the output is all matching lines, an unfinished last one included, for every pattern, if and only if no read leaves a buffer without a newline while one is still to come and the text ends with a newline |
| GrepLines.CompleteIff | user/grep.c:10-36 | the same for the complete lines, without the condition on the end |
| GrepLines.FullReadsKeep | user/grep.c:17-34 | with reads that fill the buffer, the condition is that every complete line fits the buffer |
| GrepLines.ShortReadsLose | user/grep.c:17-34 | a line of two letters that arrives one byte at a time is lost |
| GrepLines.LastLineLost | user/grep.c:20-28 | a matching last line without a newline is not printed |
| GrepLines.LongLineLost | user/grep.c:17-34 | with full reads, a line of 1023 letters is lost |

## Left out

- Device inodes: `readi` and `writei` report them and stop there; `devsw` is not part of this model.
- The byte layout of on-disk inodes and directory entries: inodes and entries are records. Of `mkfs` only the free map and the size of the root directory are modelled.
- FileStore.FileStore.Valid assumes that the metadata blocks are marked and that files have no holes, which a root directory of block-aligned size does not meet (Mkfs.RootHasHole); nothing is assumed of the bits of the log region. The bound of 17 blocks assumes one bitmap block.
- FileStore.FileStore.Bmap: with the super block as it is, stops where `balloc` returns a block of the log region, as the tools do; with the data blocks reaching to the end of the disk (FsOwner.Wide) it goes on, as the kernel does. What the next commit does to such a block is not modelled.
- FileStore.FileStore.Writei: likewise, as it maps its blocks with `bmap`.
- LogSystem.Do: "log_write before brelse" and "home blocks only" are what callers promise, so a step that breaks them is not a step (a `balloc` on a full disk breaks the second, see Mkfs.HeaderTaken); which clean buffer bget recycles is left open there and is stated in BufferCache.Bcache.Bget.
- WriteAheadLog.Log.Commit: runs alone, without other processes between its steps; LogTheorems.StepKeeps covers the interleavings.
- The bound on a transaction against MAXOPBLOCKS: the constants do not support it, as LogPanic.ChunksPanic shows.
- Umalloc.Allocator.Malloc: takes what sbrk returns as a parameter and assumes that base lies below the heap and that a grant is an address above it; where sbrk is asked for no bytes or to shrink (Umalloc.RequestIs) the model stops, since the header goes to memory that was not granted.
- LinkOps.FileTree: the operations run one at a time, after their paths have been looked up.
- Paths.Inodes.Namex: runs alone, so no inode is locked by another process; the current directory is in the cache; all inodes are on the root device.
- Paths.Inodes.Iput: the blocks that itrunc gives back are in FileStore.FileStore.Itrunc.
- ProcTheorems.NoLostWakeup: that the process which owes the wakeup gets to it is up to its code and the scheduler, and is not stated.
- ProcSystem: process numbers, kernel stacks, trap frames and open files of a process; memory ordering between processors; an interrupt on an idle processor is one step.
- Pipe.Pipe.Write: a stretch under the lock is one step of PipeSystem.
- Vm.Memory.Mappages: only the user part of the directory; `allocuvm` and `copyuvm`, which map one page at a time, use its loop body. `inituvm`, `loaduvm`, `uva2ka` and `copyout` are not part of this model.
- Vm.Memory.Allocuvm: requires that nothing is mapped above the old size; where Vm.Memory.Deallocuvm has left a page there, growing over it panics. The fault is where the model stops; that it ends in a trap and a panic is read off the kernel's page tables (kernel/vm64.c:147-172) and kernel/trap.c:81-87.
- VmCopy.Setupkvm: the kernel half of an address space is only the list of frames it takes; what the pages hold that are overwritten is a parameter.
- `filealloc`, `filedup` and `fileclose`, the reference counts of open files, are not part of this model; those of inodes are in Paths.
- ShellCode.Parsecmd: command nodes are values rather than heap cells, and `runcmd` is not part of this model.
- GrepLines.GrepExactIff: for text without NUL, which ends the string that grep looks at.
- kernel/exec.c, syscall.c, trap.c, the drivers, the boot code and the other user programs are not part of this model.
