# xv6 kernel core: model and proofs

A Dafny model of the hard parts of xv6-x86 (three trees with student extensions: project1, project2, project3) and
proofs about it. `dafny verify dfyconfig.toml` checks everything. The model covers

* the crash-safe storage stack: the redo log (RedoLog.dfy, Log.dfy) with what its runs make of a schedule
  (LogTrace.dfy), block allocation, multi-level file mapping, reading, writing and truncation (FsLayout.dfy,
  FsTree.dfy, FileSys.dfy), what a write takes of log and disk (FsSpace.dfy, FsRuns.dfy), transactions and whole calls
  of filewrite through crashes of the log (Commit.dfy, FileLog.dfy), directories and link counts (Directories.dfy,
  Links.dfy, DirRuns.dfy), directories stored in blocks and every sequence of calls through crashes (DirStore.dfy),
  and the buffer cache over the in-memory disk (BufferCache.dfy) with its view as the log's cache (CacheView.dfy);
* physical pages and two-level page tables (Paging.dfy, Vm.dfy; section 4.3 of the Intel Software Developer's Manual,
  volume 3A);
* the user heap (FreeList.dfy, Heap.dfy; section 8.7 of The C Programming Language, second edition);
* sleep locks over sleep and wakeup (SleepLock.dfy), pipes (Pipe.dfy) and the pattern matcher of grep (Regex.dfy);
* words in byte buffers and a few definitions, shared by several of these (Words.dfy, Basics.dfy).

Code that updates kernel state is a class whose methods change its fields; each method is tied to a function or
predicate on values (RedoLog, FsTree, Paging, FreeList, Directories hold those), about which the invariants and
theorems are lemmas. Only the sleep lock is a transition system on values, because its subject is the interleaving
of single steps. Ghost fields (the page ledger, the block tree, the history of committed operations, the free list as
a sequence) record what the C code keeps implicit.

## How the hardware and the environment enter

* The disk is a sequence of blocks and one block write is one atomic step. A machine has a supply of such writes;
  when it is used up the power is off and the cache, the in-memory header and all counters are lost. A statement for
  every supply is a statement for a crash between any two writes, inside recovery too.
* sbrk is a parameter of malloc: a refusal, or an address above all memory granted before.
* A null result of kalloc is an empty free list; out-of-memory paths are those of the source.
* A panic is a result (`false`, `None`) where the caller could cause it, and an assertion that holds where it cannot.
  Preconditions exclude a panic only where the source leaves its avoidance to the caller: mapping a page twice.
* 32-bit wrap-around is explicit in writei and readi offsets, pipe counters and malloc's unit count.

## Where code and documentation differ

* The log promises MAXOPBLOCKS = 10 blocks to each operation (project3/log.c:126-142), but the header takes one of the
  LOGSIZE blocks mkfs reserves (project3/mkfs.c:25), so log_write gives up at 29. Nine blocks per operation are always
  safe; with ten, three concurrent operations reach the panic (RedoLog.RoomToLog, Log.TenBlocksTooMany).
* filewrite sizes its chunks so that a transaction fits (project3/file.c:127-133). In project1, on a disk with one
  bitmap block, a chunk logs at most seven blocks (FsSpace.SevenBlocks), and so does every other call
  (DirStore.CallsFindRoom). project3 kept the chunk and deepened the index tree. There a chunk logs the blocks it
  touches, the index blocks that gain a child, the inode if the file grows, and the bitmap blocks it takes from, and
  it keeps to nine exactly if their number does (FsSpace.LogCount). A chunk over the first block of the triple level
  logs ten (FsRuns.TenBlocksInProject3), one more than is safe for every state of the log. Alone on the log any chunk
  fits (FsSpace.FitsLog).
* A directory is limited like any file: for a new name in one of 4480 dirents, all taken, writei refuses and dirlink
  panics (project1/fs.c:495, 574-575). Links.Fs.SysLink, Create and Call say exactly when, and
  DirRuns.FullDirectoryHalts gets there with links alone.
* project3's bmap does not subtract NINDIRECT before its double level, so slot 0 of the double and triple roots is
  unused and the last NINDIRECT + NINDIRECT^2 blocks below MAXFILE cannot be reached, although writei accepts them
  (FileSys.Fs.Writei says exactly when, given free blocks). A file must occupy 2113673 blocks before a chunk of
  filewrite can get there (FsSpace.DiskForGap); the disk of 2100000 blocks that project3 makes has 2099429 for data,
  so there balloc runs out first (FsSpace.GapNeedsDisk). Within bmap's range files behave as byte sequences.
* malloc's rounding overflows for the largest requests: those of more than 2^31 - 16 bytes get too little room or ask
  sbrk for a negative amount (Heap.RequestFits), and malloc(2^32 - 1) succeeds with no room at all
  (Heap.LargestRequest).
* uva2ka does not test walkpgdir's result; for an address whose directory slot is empty it reads through a null
  pointer. Vm.Uva2ka and Vm.Copyout say exactly when; exec gets there with an argument long enough to wrap its stack
  pointer around (Vm.Vm.PushString, Vm.StrayArgument).

## Model

| member | source | states |
|---|---|---|
| RedoLog.RecoveryUnique | project3/log.c:115-122 | A disk image determines the home blocks it recovers to |
| RedoLog.HeadRoundTrip | project3/log.c:85-113 | The header block write_head builds is read back by read_head as the same count and block list |
| RedoLog.BeginKeepsOps | project3/log.c:126-142 | A granted begin_op adds its operation to the open group and to no other |
| RedoLog.ModifyKeepsOps | project3/log.c:216-236 | A logged modification extends its own operation inside the open group; every operation stays whole |
| RedoLog.CommitKeepsOps | project3/log.c:195-205 | Appending the open group to the committed ones keeps every operation in exactly one group, complete and in order |
| RedoLog.LogKeepsView | project3/log.c:216-236 | A logged change alters what processes read at that block only, keeps dirty buffers equal to the logged blocks and the list free of repeats |
| RedoLog.SeesHome | project3/bio.c:96-106 | A cached block shows the committed content overlaid with the open group, whether its buffer is clean or dirty |
| RedoLog.BeginReserved | project3/log.c:126-142 | The capacity test of begin_op keeps logged blocks plus unused reservations within the log |
| RedoLog.LogReserved | project3/log.c:216-236 | A logged block is paid for by its own operation's reservation |
| RedoLog.EndReserved | project3/log.c:147-176 | Ending an operation only frees reserved space |
| RedoLog.RoomToLog | project3/log.c:221-222 | If every operation touches at most nine distinct blocks, log_write always finds room |
| Log.Machine.BRead | project3/bio.c:96-106 | A block read comes from its buffer if it has a valid one, else from the disk |
| Log.Machine.BWrite | project3/bio.c:109-116 | One atomic block write, or none if the power is gone |
| Log.Machine.Others | project3/bio.c:61-93 | Reads and recycling by other processes change no dirty buffer and keep clean ones equal to the disk |
| Log.Machine.WriteLog | project3/log.c:179-192 | The cached bytes of the k-th listed block are copied into slot k of the log area and nowhere else; a power cut leaves home blocks and header alone |
| Log.Machine.WriteHead | project3/log.c:101-113 | The header on disk becomes the current list in one block write, count first and then the block numbers word by word, or stays what it was |
| Log.Machine.InstallTrans | project3/log.c:69-82 | Each listed home block gets its log copy, up to where the power went; nothing else changes |
| Log.Machine.ReadHead | project3/log.c:85-96 | The in-memory list is the one on disk |
| Log.Machine.CommitTrans | project3/log.c:195-205 | Crash atomicity: whatever number of block writes the power lasts for, the image recovers to all old or all new content, the header write being the switch; a finished commit leaves an empty header |
| Log.Machine.LogPhase | project3/log.c:179-201 | The image recovers to the new content exactly if the supply outlasts the header write, and to the old content before |
| Log.Machine.InstallPhase | project3/log.c:69-82 | From a committed log the blocks go home and the header is emptied; cut short anywhere, the image still recovers to the new content |
| Log.Machine.RecoverFromLog | project3/log.c:115-122 | Recovery cut short anywhere, any number of times, leaves an image with the same meaning; finished, it leaves that content in place and the header empty |
| Log.Machine.constructor | project3/log.c:54-65 | A machine that is off stands for what its disk recovers to |
| Log.Machine.BeginOp | project3/log.c:126-142 | Admission exactly when no commit runs and the worst case of all outstanding operations fits |
| Log.Machine.LogWrite | project3/log.c:216-236 | The block is listed once and its buffer pinned; the panics come exactly on a full list of 29 or outside a transaction, with test and append in one step |
| Log.Machine.Modify | project3/log.c:216-236 | A modification inside a transaction stores the caller's bytes, is seen at once by every reader, is recorded for its operation, reaches no home block, and panics only with a full log |
| Log.Machine.ReadBlock | project3/bio.c:96-106 | Reads see the committed content overlaid with the open group |
| Log.Machine.EndOp | project3/log.c:147-176 | The last operation out starts the commit; the panic on a running commit cannot happen |
| Log.Machine.CommitGroup | project3/log.c:147-176 | After the commit the open group is durable exactly if the header write happened, as one group |
| Log.Machine.Do | project3/log.c:126-236 | One event: an admitted operation joins the open group, an accepted modification puts exactly its bytes into block, list and group, a commit moves the group exactly if the supply covers the header write |
| Log.Machine.BootUp | project3/log.c:54-65 | After any reboot the disk shows the committed groups; the cache and the open group are gone |
| Log.Machine.Run | project3/log.c:126-236 | Whole runs: in every interleaving of operations, other processes, commits, crashes and reboots each state follows from the one before by what the event asked, and is left as it was only where the event's guard is false; in each the disk stands for whole committed groups, none of which is ever lost; a panic requires an operation of ten or more blocks |
| LogTrace.OpAsked | project3/log.c:216-236 | Over a run the recorded changes of an operation are exactly the modifications the schedule asked of it while it was active and the list had room, in that order |
| LogTrace.EffectFlat | project3/log.c:115-122 | The committed groups one after another are their modifications one after another |
| LogTrace.LastWrite | project3/log.c:69-82 | After a sequence of modifications each block holds what was written to it last, or what it held before |
| LogTrace.DiskAsAsked | project3/log.c:54-236 | After any schedule with crashes and reboots the image recovers to the initial content with exactly the modifications asked for by committed operations, in the schedule's order; while the power is on a reader sees those of the open group besides |
| Log.TenBlocksTooMany | project3/log.c:126-142 | The documented bound of ten blocks per operation is too large by one: three operations of at most ten blocks each reach the log_write panic |
| FsLayout.SetOneBit | project1/fs.c:56-79 | Setting a block's bit in its bitmap block sets that bit of the free map and no other |
| FsLayout.ClearOneBit | project1/fs.c:81-95 | Clearing a block's bit clears that bit of the free map and no other |
| FsLayout.BitPosition | project1/fs.c:56-95 | The free bit of block b is bit b % 8 of byte b % 4096 / 8 of map block b / 4096 |
| FsLayout.PathInjective | project3/fs.c:374-464 | Different block numbers of a file take different routes through its index blocks, although slot 0 of the double and triple roots is unused |
| FsLayout.InodeRoundTrip | project3/fs.c:222-238 | The 64 bytes of an on-disk inode are read back as the inode that was written |
| FsLayout.InodePosition | project1/fs.h:29-36 | Type, numbers, link count, size and the 13 block numbers lie little-endian at their offsets in the 64 bytes |
| Words.WordBytes | project3/fs.c:393-404 | Word i of a block is its bytes 4 i to 4 i + 3, least significant first |
| FsLayout.PutInodeSlots | project3/fs.c:222-238 | Writing one inode slot of a block leaves the other seven alone |
| FsTree.Grow | project3/fs.c:374-464 | Linking a freshly allocated block into a free slot keeps bitmap, index blocks, inode slots and size coverage consistent |
| FsTree.ReachedTrans | project3/fs.c:374-464 | Following an index block one step further composes with the steps before it |
| FsTree.SizeBacked | project3/fs.c:577-606 | No block below a file's size is a hole |
| FsTree.LeafWords | project3/fs.c:374-464 | The block of a file position is the one its inode's address array and the words of the index blocks on disk lead to, level by level |
| FsTree.FileWords | project3/fs.c:577-606 | Byte q of a file is byte q % 512 of the block those words give for q / 512 |
| FsTree.SpliceBytes | project3/fs.c:612-642 | A splice is the new bytes in their range, the old ones elsewhere, and the longer of both lengths |
| FsTree.WrittenStep | project3/fs.c:612-642 | One turn of writei's loop extends the written prefix and touches no other byte of any file |
| FsTree.SpliceSplice | project1/file.c:133-152 | Two consecutive writes are one write of both |
| FsTree.FreeNode | project1/fs.c:407-435 | Freeing the next block of the walk clears that bit only, and the bit was set |
| FsTree.EmptiedWf | project1/fs.c:407-435 | A file without blocks, with its bits cleared, leaves every other file and the free map consistent |
| FileSys.Fs.constructor | project3/mkfs.c:108-111 | A zeroed disk whose free map marks the metadata is a sound file system of empty files with every data block free |
| FileSys.FreeMap | project3/mkfs.c:237-251 | The map block mkfs writes has exactly its first bits set |
| FileSys.Fs.Label | project1/sysfile.c:264-267 | Type and link count of a new inode reach the disk; no file changes |
| FileSys.Fs.Balloc | project1/fs.c:56-79 | The first free block is marked and zeroed, nothing else changes; the panic comes exactly on a full disk |
| FileSys.Fs.Bfree | project1/fs.c:81-95 | The block's bit is cleared and no other; the panic comes exactly when it was clear |
| FileSys.Fs.Root | project3/fs.c:380-391 | A root slot yields its block, a new one if the slot was empty |
| FileSys.Fs.Index | project3/fs.c:393-404 | An index slot yields its block, a new one if the slot was empty |
| FileSys.Fs.Double | project3/fs.c:406-429 | Double indirection reaches the leaf of its block number |
| FileSys.Fs.Triple | project3/fs.c:431-461 | Triple indirection reaches the leaf of its block number |
| FileSys.Fs.Bmap | project3/fs.c:374-464 | For a direct block the result is that entry of the inode's address array; for the single, double and triple levels it is the word reached through the index blocks on disk; what is missing on the way is allocated, which is all that changes, and everything that changes is logged; panic only out of range or with fewer than four free blocks |
| FileSys.Fs.WriteBlocks | project3/fs.c:629-635 | The loop of writei writes exactly the given bytes at the given place, taking at most four free blocks for each block touched |
| FileSys.Fs.Iupdate | project3/fs.c:222-238 | The 64 bytes of slot inum % 8 of block inum / 8 + inodestart become the inode in memory; nothing else on disk changes |
| FileSys.Fs.Writei | project3/fs.c:612-642 | File refinement, byte by byte: refused exactly for an offset past the end, a wrapping range, or one past 140 blocks (2113674 in project3); otherwise the bytes are in the file, all other bytes and files are as they were, inodes on disk agree with memory and every changed block is logged; with four free blocks for each block touched the bmap panic comes exactly for an accepted range past NDIRECT + NINDIRECT^3 blocks |
| FileSys.Fs.ReadBlocks | project3/fs.c:600-604 | The loop of readi returns the slice of the file and changes nothing |
| FileSys.Fs.Readi | project3/fs.c:577-606 | readi returns the bytes of the file in that range, cut at its size, each the byte of the block its address words lead to, and never allocates |
| FileSys.Fs.FreeDirect | project1/fs.c:413-418 | Exactly the direct blocks of the file are freed |
| FileSys.Fs.FreeIndirect | project1/fs.c:420-427 | Exactly the blocks its indirect block lists are freed |
| FileSys.Fs.Itrunc | project1/fs.c:407-435 | Block conservation: exactly the file's own blocks leave the bitmap, the "freeing free block" panic cannot happen, the file is empty and every other file unchanged, and every changed block is logged |
| FileSys.Fs.Iput | project1/fs.c:331-352 | Content and inode are freed exactly on the last reference to an unlinked inode |
| FileSys.Fs.WriteChunk | project3/file.c:140-145 | One transaction: refused with nothing changed, or a write whose log holds every changed block and keeps its bound |
| FileSys.Fs.FileWrite | project3/file.c:118-156 | Both builds: the bytes are in the file, in a chain of transactions of 1536 bytes, each logging what it changes and no more than its bound; a refusal leaves exactly the chunks before it written; a panic needs a full disk, or a chunk past bmap's reach on a disk with at least 2113673 data blocks |
| FsSpace.UpBefore | project3/fs.c:374-464 | Where four consecutive file blocks hang from two index blocks, the block before the first hangs from the same one as the first |
| FsSpace.StirredIndex | project3/fs.c:374-464 | An index block that a write of four blocks changes is above the last block or right above the first: all else on the way to the first was there |
| FsSpace.FewBlocks | project3/file.c:127-133 | One chunk logs at most four data blocks, the index blocks above them (one in project1, four in project3), the inode block and bitmap blocks, and only bitmap blocks it took a block from; both builds, any disk |
| FsSpace.SevenBlocks | project1/file.c:127-133 | In project1 on a disk with one bitmap block that is at most seven |
| FsSpace.LogIs | project3/file.c:140-145 | What a write logs, exactly: the blocks it touches, the index blocks that gain a child, the inode if the file grows, and blocks of free map |
| FsSpace.LogCount | project3/file.c:127-133 | How many blocks a write logs, exactly: blocks touched, index blocks that gain a child, one if the file grows, all by the state before it, and one for each block of free map it takes from; so a chunk keeps to nine exactly if that sum does |
| FsSpace.FitsLog | project3/file.c:127-133 | A chunk logs at most 17 blocks, whatever the build and the disk, so it always fits a log of its own |
| FsSpace.FreeAfter | project3/fs.c:374-464 | A walk takes no more free blocks than its path is long |
| FsSpace.DiskForGap | project3/fs.c:374-464 | A file within three blocks of bmap's limit occupies at least 2113673 distinct blocks: 2097160 of data and 16513 of index |
| FsSpace.GapNeedsDisk | project3/fs.c:624-627 | A filewrite chunk that writei accepts and bmap cannot reach needs project3 and at least 2113673 data blocks, more than the repository's disk has |
| FsRuns.TenLogged | project3/file.c:127-133 | A chunk over the end of a file at the first block of the triple level logs ten distinct blocks |
| FsRuns.TenBlocksInProject3 | project3/file.c:118-156 | A run on the repository's disk reaches it: one filewrite lays out the file, the next, of 1536 bytes, logs ten blocks in one transaction |
| Commit.ChangeAsUpdates | project3/log.c:216-236 | Carrying out the logged blocks of a transaction carries out the transaction: nothing it changed is missing |
| Commit.LogBlock | project3/log.c:216-236 | A block of a transaction is logged and seen at once where the list is not full or every operation keeps to nine; a block it does not log changes nothing |
| Commit.LogAlone | project3/log.c:216-236 | In an empty log every log_write of a transaction of up to 29 blocks finds room, and afterwards every reader sees the state after it |
| Commit.LogShared | project3/log.c:216-236 | In any state of a log shared with operations of at most nine blocks the same holds of a transaction of at most nine |
| Commit.WritesFindRoom | project3/log.c:126-142 | While every operation logs only blocks of a transaction of at most nine, in whatever interleaving, log_write finds room |
| Commit.Open | project3/log.c:126-142 | begin_op and the writes of a transaction change nothing on disk |
| Commit.Close | project3/log.c:147-176 | end_op of the only open operation makes all of it durable or nothing; all of it exactly if the supply outlasts the listed blocks, so that the header is written |
| Commit.Run | project3/file.c:140-145 | One transaction, cut anywhere: the disk stands for the state after it exactly if power lasts to its commit and the supply covers its blocks and the header, otherwise for the state before it |
| FileLog.TxAsUpdates | project3/file.c:140-145 | Carrying out the blocks a chunk logs carries out the whole chunk; at most 17 of them in either build on any disk, 7 in project1 with one block of free map |
| FileLog.LoggedAbove | project3/file.c:140-145 | A transaction logs inode, bitmap and data blocks only, never the log itself |
| FileLog.SameFsWf | project3/fs.h:8-22 | What the file system means depends on the blocks above the log only |
| FileLog.AfterTxs | project3/file.c:135-152 | After the first j transactions the file is the old one with the first j chunks spliced in |
| FileLog.EveryCall | project3/file.c:118-156 | What filewrite reports of its transactions is all that the crash theorem asks, in either build and on any disk |
| FileLog.CommitCall | project3/file.c:118-156 | Crash consistency of a whole filewrite: for every supply of block writes the image recovers to a sound file system in which the first j chunks are written in full and the others not at all, every other file unchanged; j counts exactly the chunks whose header write the supply covers |
| Paging.PteMeans | project3/vm.c:35-55 | A user entry names a page owned by exactly that address; a kernel entry never has the user bit |
| Paging.PteWords | project3/vm.c:35-55 | The entry of an address is word va / 2^12 % 2^10 of the page that word va / 2^22 of the directory names |
| Paging.TableWord | project3/vm.c:35-55 | That directory word is the frame of the table with the present, write and user bits |
| Paging.NewByte | project3/vm.c:219-249 | A byte of a page mapped to a fresh frame is the byte put there |
| Paging.OneOwner | project3/vm.c:57-80 | A page mapped for the user is mapped once, in one space, and is not free, a table or a directory |
| Paging.OneTable | project3/vm.c:35-55 | No page table is shared between spaces or slots |
| Paging.MapKept | project3/vm.c:35-80 | Changes to idle pages and to bytes of user pages keep every map |
| Paging.FreePop | project3/kalloc.c:82-95 | Taking the head keeps the free list linked, free of repeats and complete |
| Paging.FreePush | project3/kalloc.c:59-77 | So does pushing a page that was not free |
| Paging.LinkTableOk | project3/vm.c:45-53 | Installing a zeroed page table keeps the ownership of every page |
| Paging.LinkTablePte | project3/vm.c:45-53 | It changes no translation of any space |
| Paging.PutPteOk | project3/vm.c:57-80 | Writing one entry with its change of owner keeps the ownership of every page |
| Paging.PutPteReads | project3/vm.c:57-80 | One entry written changes one translation of one space |
| Paging.DropOrder | project3/vm.c:270-276 | Freeing the page before clearing its entry ends in the same state as the other order |
| Paging.NoTable | project3/vm.c:265-268 | Where a directory slot is empty none of the 1024 pages it covers is mapped, so the jump loses nothing |
| Paging.SkipPages | project3/vm.c:264-278 | Skipping pages that are not mapped leaves the page-by-page loop where it is |
| Paging.RemoveSpace | project3/vm.c:281-298 | Freeing tables and directory of a space without user pages keeps all other spaces |
| Paging.OtherSpace | project3/vm.c:313-345 | Growing one space changes no translation and no byte of another |
| Paging.BytesStayHome | project3/vm.c:362-386 | Writes through one space never appear in another |
| Paging.FreshRun | project3/vm.c:35-55 | A range takes one table for every slot it touches that has none |
| Vm.Vm.constructor | project3/main.c:20-35 | At boot nothing is free and pages above the kernel are not handed over yet |
| Vm.Vm.Kfree | project3/kalloc.c:59-77 | The page goes to the front of the list, its bytes past the link ones; panic exactly for a misaligned address, one below end or one from PHYSTOP on |
| Vm.Vm.Kalloc | project3/kalloc.c:82-95 | The first free page, or null exactly when none is left |
| Vm.Vm.Freerange | project3/kalloc.c:46-53 | Exactly the pages wholly inside the range become free |
| Vm.Vm.Kinit | project3/kalloc.c:31-44 | After both phases every page above the kernel is free |
| Vm.Vm.Walkpgdir | project3/vm.c:35-55 | The slot of an address: the table in the word of the directory at its top ten bits, the index its middle ten; a zeroed table is installed on demand; null exactly when there is no table and none can be made |
| Vm.Vm.Mappages | project3/vm.c:57-80 | Exactly the pages of the range are mapped, to consecutive frames, and only the directory's own pages change; it succeeds exactly when the free list covers the missing tables |
| Vm.Vm.DropHere | project3/vm.c:269-276 | One mapped page goes to the free list and its entry is cleared, as one step of the page-by-page loop |
| Vm.Vm.Deallocuvm | project3/vm.c:251-279 | Exactly the entries of pages from newsz up to oldsz are cleared and their frames freed; with its jumps over missing tables it ends in the very state of a loop over every page |
| Vm.Vm.Freevm | project3/vm.c:281-298 | Every page of the space, and no other, becomes free |
| Vm.Vm.AllocOne | project3/vm.c:233-247 | One more zeroed page is mapped, or everything mapped since the call began is undone |
| Vm.Vm.Allocuvm | project3/vm.c:219-249 | New user pages of zeroes exactly over the range; it succeeds exactly when the free list covers pages and missing tables, takes exactly those, and a failure leaves the old mapping |
| Vm.Vm.Setupkvm | project3/vm.c:117-136 | Every physical page below PHYSTOP is mapped at KERNBASE plus its address, not for the user, writable exactly outside kernel text; device pages map to themselves; nothing else is mapped; it takes 65 pages, and with fewer free fails and gives every page back |
| Vm.KernelEntries | project3/vm.c:102-115 | The four rows of kmap map each physical page where the memory layout says, with its permission, and nothing between PHYSTOP and the devices |
| Vm.NewKernel | project3/vm.c:117-136 | A new space has those mappings and an empty user half |
| Vm.Vm.CopyOne | project3/vm.c:325-339 | One page is copied with its flags to a frame that was free, or every page taken for it is given back; a panic exactly if the parent does not map it |
| Vm.Vm.Copyuvm | project3/vm.c:313-345 | Every byte below sz and the flags of every page are the parent's, on frames that were free, and the kernel half is that of Setupkvm; it succeeds exactly when the free list covers kernel half, copies and tables; a hole is a panic exactly if the free list lasts until it is reached; a failure leaves ownership as before |
| Vm.CopyKernel | project3/vm.c:313-345 | So has the child of a fork, whatever the parent maps |
| Vm.CopyBytes | project3/vm.c:313-345 | Page by page, every byte and every flag of the child is the parent's |
| Vm.AllocZeros | project3/vm.c:219-249 | A page mapped by allocuvm reads as zeroes to its user |
| Vm.Vm.Clearpteu | project3/vm.c:300-311 | The user bit of one page goes, no other translation changes |
| Vm.Vm.Uva2ka | project3/vm.c:347-360 | The frame of a present user page; an address without a page table dereferences a null pointer |
| Vm.Vm.Copyout | project3/vm.c:362-386 | Across page boundaries one contiguous write; it succeeds exactly when every byte lies on a user page, otherwise a prefix up to the first bad page is written |
| Vm.Vm.PushString | project3/exec.c:71-78 | An argument string is copied to the multiple of four at or next below the stack pointer less its length, in 32 bits; where that is between kernel memory and devices it is a null dereference |
| Vm.StrayArgument | project3/exec.c:66-78 | A run reaches it: a space built by setupkvm and allocuvm and an argument of 32 megabytes and some |
| FreeList.AddOk | project3/umalloc.c:24-44 | A block put at its place keeps the list circular, address-ordered and disjoint |
| FreeList.MergeOk | project3/umalloc.c:33-42 | Merging a block with the one that starts where it ends keeps the list and leaves the pair merged |
| FreeList.InsertionOk | project3/umalloc.c:24-44 | free keeps the list address-ordered, disjoint and maximally coalesced and adds exactly the block's units |
| FreeList.InsertionHeaders | project3/umalloc.c:33-43 | The four assignments of the source give that list |
| FreeList.UnlinkOk | project3/umalloc.c:75-77 | An exact fit leaves a well-formed list |
| FreeList.UnlinkTook | project3/umalloc.c:75-77 | The block taken is apart from what is left and from every other block |
| FreeList.CutOk | project3/umalloc.c:78-82 | Cutting the tail of a block leaves a well-formed list |
| FreeList.CutTook | project3/umalloc.c:78-82 | The piece cut off is apart from what is left and from every other block |
| Heap.InsertKeeps | project3/umalloc.c:24-44 | free keeps the whole heap: free units plus live units equal units obtained, blocks disjoint and inside granted memory |
| Heap.AllocateKeeps | project3/umalloc.c:75-86 | So does malloc; the block it returns is disjoint from all live ones |
| Heap.StopsAtPlace | project3/umalloc.c:30-32 | The wrap-around test of the search stops at exactly one position, the block's place |
| Heap.AllSmall | project3/umalloc.c:74-89 | After a full circuit no block fits, so a second call of morecore cannot come about |
| Heap.RequestFits | project3/umalloc.c:68 | A request gets enough room and a positive argument for sbrk exactly up to 2^31 - 16 bytes |
| Heap.LargestRequest | project3/umalloc.c:63-90 | malloc(2^32 - 1) on a fresh heap returns a block of one unit, with room for none of the bytes |
| Heap.UserStores | project3/umalloc.c:10-17 | Whatever users store in their blocks, the heap stays intact |
| Heap.UserHeap.Insert | project3/umalloc.c:24-44 | The search ends at the only place, and list and headers become the coalesced list with the block |
| Heap.UserHeap.Free | project3/umalloc.c:24-44 | A live block becomes free at its place by address, joined with the neighbours it touches; the next search starts at the block before it; its units are counted as free |
| Heap.UserHeap.Morecore | project3/umalloc.c:46-61 | At least 4096 units more, put on the list as one freed block, or nothing changed |
| Heap.UserHeap.Take | project3/umalloc.c:75-86 | The chosen block whole, or exactly its last units |
| Heap.UserHeap.Malloc | project3/umalloc.c:63-90 | Next fit: the block comes from the first large enough after freep, on the list as it was or, only when nothing there fits, with the block of one call of morecore added; its address is that block's tail; null exactly when morecore was refused; the result is disjoint from all live blocks |
| SleepLock.OthersStay | project3/proc.c:417-474 | A step moves its own process; of another it changes at most asleep to runnable |
| SleepLock.OthersSleepOn | project3/proc.c:457-464 | A step wakes nobody who sleeps on another channel |
| SleepLock.StepNotLost | project3/proc.c:417-474 | No step separates a process that goes to sleep from the waker that will find it |
| SleepLock.StepKeeps | project3/sleeplock.c:22-42 | Every step of every process keeps the protocol's invariant |
| SleepLock.AfterKeeps | project3/sleeplock.c:22-42 | So does every schedule of any number of processes |
| SleepLock.MutualExclusion | project3/sleeplock.c:22-32 | At most one process holds the lock |
| SleepLock.NobodyForgotten | project3/sleeplock.c:22-42 | With the lock and its spinlock free nobody is asleep on it or committed to sleeping |
| SleepLock.ScanWakesAll | project3/proc.c:457-474 | After wakeup's scan no process sleeps on the lock |
| SleepLock.HoldingSleep | project3/sleeplock.c:44-53 | holdingsleep is true exactly for the holder |
| SleepLock.NotStuck | project3/sleeplock.c:22-42 | While a process is inside the protocol some process in it can move |
| SleepLock.AloneAcquires | project3/sleeplock.c:22-32 | A process that runs while the lock is free gets it |
| BufferCache.Unlink | project3/bio.c:132-133 | The two assignments remove one buffer from the ring |
| BufferCache.PushFront | project3/bio.c:134-137 | The four assignments put a buffer at the front of the ring |
| BufferCache.HitOk | project3/bio.c:68-76 | A hit keeps every property of the cache |
| BufferCache.RecycledOk | project3/bio.c:81-91 | Recycling a clean unreferenced buffer for a block that is not cached keeps blocks unique and references true |
| BufferCache.Freshened | project3/bio.c:120-141 | Moving a buffer to the front keeps the list in order of last release |
| BufferCache.OneBufferPerBlock | project3/bio.c:58-93 | Two callers of bget share a buffer exactly if they asked for the same block |
| BufferCache.OneHolder | project3/bio.c:61-93 | At most one of the callers for a block has it locked |
| BufferCache.Cache.constructor | project3/bio.c:38-56 | The list holds every buffer once; every buffer is invalid, clean, unreferenced and of no device |
| BufferCache.Cache.FindHeld | project3/bio.c:67-78 | The buffer that holds the block, or none holds it |
| BufferCache.Cache.FindFree | project3/bio.c:80-91 | The unreferenced clean buffer nearest the least recently used end, or there is none |
| BufferCache.Cache.BGet | project3/bio.c:61-93 | The cached buffer, else the least recently released clean unreferenced one; panic exactly when there is neither |
| BufferCache.Cache.Lock | project3/bio.c:71-74 | The buffer a caller locks is still the one it was promised |
| BufferCache.Cache.Iderw | project3/memide.c:38-60 | A dirty buffer is written, an invalid one read; panics exactly without the lock, with nothing to do, on another device or out of range |
| BufferCache.Cache.FinishBread | project3/bio.c:96-106 | A buffer returned by bread is valid, and shows the disk if it had to be read |
| BufferCache.Cache.MarkDirty | project3/log.c:234 | The buffer is dirty, which BGet never recycles, and keeps its identity and bytes |
| BufferCache.Cache.BWrite | project3/bio.c:109-116 | The disk block becomes the buffer's bytes and the buffer clean |
| BufferCache.Cache.Releasesleep | project3/bio.c:120-126 | The lock is given up; what is left valid, clean and unlocked equals the disk |
| BufferCache.Cache.MoveToFront | project3/bio.c:132-137 | The six assignments leave the ring with that buffer first and the others in order |
| BufferCache.Cache.Unref | project3/bio.c:128-141 | The last reference makes the buffer the most recently released |
| BufferCache.Cache.Step | project3/bio.c:58-141 | Each step of one caller is the one of the eight changes that it names, or none exactly where its guard is false, and changes nothing another was promised |
| BufferCache.Cache.Run | project3/bio.c:58-141 | Every interleaving of callers keeps uniqueness, counts, identity, coherence and the list, each state following from the one before by one caller's step, skipped only where its guard is false |
| BufferCache.StepReads | project3/bio.c:58-141 | A step changes what a reader of a block gets only by storing into that block |
| BufferCache.ReadsLatest | project3/bio.c:58-141 | From a cache without valid buffers, in any interleaving in which holders read before they write, each block reads as the bytes last stored in it, or as the disk at the start if nobody has stored any |
| BufferCache.HolderReads | project3/bio.c:96-106 | That is what whoever holds the block's valid buffer finds in it |
| CacheView.ShownCoherent | project3/bio.c:17-20 | Once holders have written or marked what they changed, the clean buffers equal the disk and the dirty ones are cached, as the log assumes |
| CacheView.ViewExists | project3/bio.c:58-93 | Every state of the cache has a view: a map of valid buffers and a set of dirty blocks |
| CacheView.StepRefines | project3/bio.c:58-141 | Every step of the buffer cache is, on the map of valid buffers and the set of dirty blocks, a fetch, a recycling of a clean block, a store, a mark, a block write, or nothing: the moves the log model allows |
| CacheView.RunRefines | project3/bio.c:58-141 | Every run of the buffer cache, whatever the interleaving, is a run of the log's cache: each state has a view, each step leaves it or is a move from one view to the next |
| Directories.PlacesChange | project1/fs.c:550-578 | One dirent changed alters the count of an inode by at most one |
| Directories.LinkOk | project1/sysfile.c:140-149 | A new name for a file keeps every link count equal to its names |
| Directories.CreateOk | project1/sysfile.c:260-278 | So does a new inode; a new directory also counts in its parent |
| Directories.EmptyNlink | project1/sysfile.c:213-229 | An empty directory has exactly one link and its ".." is the directory that holds its entry |
| Directories.ParentTwice | project1/sysfile.c:221-224 | A directory with a child directory has at least two links |
| Directories.UnlinkOk | project1/sysfile.c:211-229 | Removing a name keeps every link count, and the count was not below one |
| Links.FreeOk | project1/fs.c:331-352 | Freeing an inode without links changes no count, and no entry names it |
| Links.WalkSame | project1/sysfile.c:140-144 | Raising a link count changes no path walk |
| Links.WalkLeads | project1/fs.c:634-651 | The walk by first matches finds an inode exactly if such a chain of directories ends at it |
| Links.LinkFinds | project1/sysfile.c:140-151 | After a link the new name finds the file, and every other lookup in every directory what it found before |
| Links.CreateFinds | project1/sysfile.c:260-280 | After a create the new name finds the new inode, a new directory finds itself and its parent, and every other lookup is as before |
| Links.UnlinkFinds | project1/sysfile.c:211-229 | After an unlink that name finds nothing in its directory, and every other lookup is as before |
| Links.Fs.constructor | project1/mkfs.c:117-128 | A fresh file system has a root that is its own parent, with one link |
| Links.Fs.Iget | project1/fs.c:241-272 | One more reference; contents are forgotten only without references |
| Links.Fs.Ilock | project1/fs.c:287-312 | Contents are loaded; panic exactly without a reference or on a free inode not yet loaded |
| Links.Fs.Iput | project1/fs.c:331-352 | The inode is freed exactly if it is loaded, has no link and this is the last reference |
| Links.Fs.Drop | project1/fs.c:331-352 | Between system calls an inode is freed exactly on its last reference without a link, and then no entry names it |
| Links.Fs.Dirlookup | project1/fs.c:524-548 | The first used dirent of that name, with a reference to its inode |
| Links.Fs.FindSlot | project1/fs.c:564-570 | The first free dirent, or the end |
| Links.Fs.Dirlink | project1/fs.c:551-578 | The name is added in the first free dirent, refused exactly when present; panic exactly for a new name in a directory of 4480 dirents, all taken |
| Links.Fs.Namex | project1/fs.c:624-657 | The result is i exactly if a chain of directories leads from the start to i, each one's first used dirent of the next name, ".." included, naming the next; references balance |
| Links.Fs.Nameiparent | project1/fs.c:640-656 | The directory to which such a chain over all names but the last leads, and nothing exactly if there is none |
| Links.Fs.Isdirempty | project1/sysfile.c:168-181 | True exactly when nothing follows "." and ".." |
| Links.Fs.LinkInto | project1/sysfile.c:144-151 | The name is made exactly when the directory is there, lacks it and is not full; references balance unless it panics |
| Links.Fs.AddName | project1/sysfile.c:140-164 | The count raised for a new name is taken back when the name cannot be made |
| Links.Fs.SysLink | project1/sysfile.c:118-165 | A file gets a further name exactly when both paths allow it and the directory has room; otherwise nothing has changed, or, for a new name in a full directory and only then, the kernel panics |
| Links.Fs.RemoveEntry | project1/sysfile.c:218-229 | Dirent cleared, links counted down, the inode freed if that was its last name and it is not in use |
| Links.Fs.SysUnlink | project1/sysfile.c:184-239 | A name is removed exactly when allowed; the nlink panic cannot happen |
| Links.Fs.Ialloc | project1/fs.c:194-214 | The first free inode; a panic exactly if there is none |
| Links.Fs.Create | project1/sysfile.c:241-283 | The existing file, or a new inode with all counts right; panic exactly when the name is new and no inode is free or the directory is full |
| Links.Fs.Call | project1/sysfile.c:118-283 | Each call from a linked directory in use makes exactly the change of names, counts and references it asks for, from the directory its path leads to; the kernel halts, with nothing changed, exactly on a new name without a free inode or in a full directory |
| Links.Fs.Run | project1/sysfile.c:118-283 | Over every sequence of create, link, unlink, open and close, with absolute paths or from current directories, each state follows from the one before by what the call asks, and link counts equal names; the run ends early exactly at a call that halts the kernel |
| DirRuns.FullDirectoryHalts | project1/fs.c:572-575 | A run reaches the panic: a file and 4477 links to it fill the root, the next link halts the kernel |
| DirStore.DirentRoundTrip | project1/fs.h:51-56 | A dirent written as 16 bytes is read back with its number and name |
| DirStore.DirentPosition | project1/fs.h:51-56 | The inode number is in the first two bytes, the name in the other fourteen, filled with zeroes |
| DirStore.EntsPut | project1/fs.c:572-575 | Sixteen bytes written at a multiple of sixteen replace or append exactly one dirent |
| DirStore.WroteAbs | project1/fs.c:572-575 | writei of one dirent is, on inodes and names, the change of one entry |
| DirStore.WroteHere | project1/fs.c:482-511 | A write within one block logs, besides its inode, that block, the block of free map, and the indirect block only from block 12 on |
| DirStore.ReadEnt | project1/fs.c:533-535 | readi of a dirent gives that entry |
| DirStore.Lookup | project1/fs.c:524-548 | The first used dirent of that name, found through the blocks |
| DirStore.FindSlot | project1/fs.c:564-570 | The first free dirent or the end, found through the blocks; beyond reach exactly if the directory is full |
| DirStore.Isdirempty | project1/sysfile.c:168-181 | True exactly if no dirent after the first two is used |
| DirStore.PutEntry | project1/fs.c:572-575 | One entry changes and at most four blocks are logged; it fails only past the largest size or with fewer than four free blocks, and never on a dirent that is there |
| DirStore.Relabel | project1/fs.c:220-236 | Type and count of one inode change, and one block is logged |
| DirStore.Dirlink | project1/fs.c:551-578 | In blocks: the entry goes into the first free dirent, refused exactly if the name is there; panic only in a full directory or on a disk nearly full |
| DirStore.Link | project1/sysfile.c:140-164 | sys_link in blocks is Directories.Link, keeps every invariant and file, and logs at most six blocks |
| DirStore.Iput | project1/fs.c:331-352 | In blocks: the last reference to an inode without links frees it and its content, logging two blocks at most |
| DirStore.RemoveEntry | project1/sysfile.c:218-229 | In blocks: entry, counts and last reference are one removal, which needs no free block and cannot panic |
| DirStore.Unlink | project1/sysfile.c:184-239 | sys_unlink in blocks removes the name exactly when allowed, keeps every invariant and the other files, logs at most six blocks and never panics |
| DirStore.FirstFree | project1/fs.c:194-214 | The first free inode, none exactly if all are in use |
| DirStore.Dots | project1/sysfile.c:269-275 | A new directory holds itself and its parent; a panic needs a disk nearly full |
| DirStore.NewInode | project1/sysfile.c:260-275 | The new inode with its count and dots, and the parent counted up, in at most four blocks |
| DirStore.CreateNew | project1/sysfile.c:260-280 | create of a name that is not taken is Directories.Create, keeps every invariant and file, and logs at most six blocks |
| DirStore.Create | project1/sysfile.c:241-283 | create in blocks: the existing file or a new inode; panic exactly without a free inode or in a full directory, or only on a disk nearly full |
| DirStore.Close | project1/file.c:75-79 | The last reference to an unlinked inode frees it, in a transaction of its own |
| DirStore.WroteFile | project1/file.c:140-145 | Writing to a file changes no name, no count and no directory |
| DirStore.Write | project1/file.c:140-145 | One chunk is refused or spliced into its file, names and counts unchanged, in at most seven blocks |
| DirStore.Do | project1/sysfile.c:118-283 | Every call of project1 that changes blocks is one transaction of at most seven, all above the log, that does what Directories and FsTree say and keeps every invariant; it halts on a full inode table or directory and otherwise only with fewer than 16 free blocks |
| DirStore.CallsFindRoom | project3/log.c:126-142 | So log_write finds room for all of project1's calls, however they interleave |
| DirStore.CrashDirs | project1/fs.h:8-22 | What names, counts and files mean depends on the blocks above the log only |
| DirStore.Run | project1/sysfile.c:118-283 | Crash consistency of directories: after any sequence of create, link, unlink, close and write with power lost at any block write, the image recovers to the state after exactly the calls that are durable, with link counts equal to names and blocks, inodes and free map in agreement; it ends early only with the power gone or in a call that panics or is short of free blocks |
| DirStore.Mkfs | project1/mkfs.c:117-128 | A root directory in blocks that is its own parent; every invariant holds |
| Pipe.WrapDistance | project3/pipe.c:85-106 | The comparisons of wrapped counters decide empty and full |
| Pipe.Pipe.PutByte | project3/pipe.c:93 | One byte is accepted and no byte not yet delivered is overwritten |
| Pipe.Pipe.GetByte | project3/pipe.c:116 | The oldest byte not yet delivered is delivered |
| Pipe.Pipe.WriteTurn | project3/pipe.c:78-98 | A turn accepts the next bytes until all are in or the ring is full; it breaks only with the read end closed, sleeps only with it open |
| Pipe.Pipe.ReadTurn | project3/pipe.c:100-121 | A turn delivers as many bytes as are there and wanted, sleeps exactly on an empty pipe that may still be written, and gives none only at the end of the stream |
| Pipe.Pipe.Close | project3/pipe.c:59-75 | Sleepers of the other end wake; freed exactly when both ends are closed |
| Pipe.Pipe.NeverBothAsleep | project3/pipe.c:85-111 | Whoever sleeps waits for the other side, which is open and awake |
| Pipe.Pipe.DoWrite | project3/pipe.c:78-98 | A turn of a writer puts in the next bytes of its own source, as many as fit, and wakes readers |
| Pipe.Pipe.DoRead | project3/pipe.c:100-121 | A turn of a reader takes out the oldest bytes, as many as it wants and there are, and wakes writers |
| Pipe.Pipe.Step | project3/pipe.c:59-121 | One event: a call begins or goes on with the turn it asked for, or an end is closed; nothing happens only where it cannot be |
| Pipe.Pipe.Run | project3/pipe.c:78-121 | Whatever the interleaving, each state follows from the one before by the turn its event asked for, bytes delivered are a prefix of bytes accepted, at most 512 wait, and nobody sleeps who could go on |
| Regex.Parse | project3/grep.c:85-106 | The matcher's reading of a pattern loses nothing of it |
| Regex.OnText | project3/grep.c:85-106 | On the pattern text itself: the empty pattern matches, a star takes any number of its character, a final $ matches the end only, any other character, or a dot, takes one |
| Regex.FirstElement | project3/grep.c:85-106 | A pattern matches exactly if its first element takes some prefix and the rest matches after it |
| Regex.MatchHere | project3/grep.c:85-96 | True exactly if the text has a split that satisfies the pattern, and it terminates |
| Regex.MatchStar | project3/grep.c:99-106 | True exactly if some number of the character is followed by a match of the rest |
| Regex.Match | project3/grep.c:72-82 | True exactly if the pattern matches somewhere, or at the beginning after ^ |

## Left out

- project3 itrunc: its double and triple loops overwrite the array they walk; truncation is project1's.
- project3 symbolic links, and the loops of sys_open and sys_exec that follow them.
- FileSys.Fs.FileWrite: no other writer runs between its chunks, each of which holds the inode's lock; a file that is not writable or is a pipe is not modelled.
- Log.Machine.LogWrite: the source tests the length of the list before it takes log.lock (project3/log.c:221), so two callers could pass the test together; here test and append are one step. While every operation keeps to nine blocks the test always passes and RedoLog.LogReserved needs no test, so a stale one does no harm.
- FileLog.CommitCall: the call runs alone on the log; operations that share a commit are Log.Machine.Run's.
- DirStore.Run: the calls run one after another, each alone on the log, in project1 with one block of free map. Inodes and parent directories are given as the walks of Links find them. A file that was unlinked while open is not freed by recovery, in the source as here.
- DirStore.Do: on a disk with fewer than 16 free blocks a call that needs a new block may panic; which ones do is not stated.
- DirStore.Create: as DirStore.Do, with fewer than 12 free blocks.
- DirStore.Dirlink: as DirStore.Do, with fewer than four free blocks.
- DirStore.Mkfs: mkfs also rounds the root's size up to a block and adds the user programs.
- Log.Machine.Others: the number of buffers and which one is recycled are left open; any clean buffer may go. BufferCache has the actual choice.
- FileSys.Fs.Writei: device inodes, whose readi and writei go to a driver, are not modelled.
- FileSys.Fs.Iput: takes the reference count and valid flag as parameters; the inode cache table, its size and its panic are not modelled.
- Links.Fs.Run: system calls run one after another; interleaving of calls inside one transaction, and with it the locks of inodes, is not modelled.
- Links.Fs.Namex: a walk starts in a linked directory; operations inside an unlinked current directory break the counts in the source.
- Links.Fs.Nameiparent: as Links.Fs.Namex.
- Links.Fs.SysUnlink: as Links.Fs.Namex.
- Links.Fs.Create: device numbers are not modelled, and names are taken as already cut to DIRSIZ. The panics of a full disk and of a full inode cache are not modelled here; DirStore has the full disk.
- Links.Fs.Dirlink: a new dirent on a full disk, which panics in bmap, succeeds here; DirStore.Dirlink has it.
- Links: nlink is unbounded; overflow of its 16 bits is not modelled. The directory limit is project1's.
- Vm.Vm.Kfree: a page must not be on the free list already; the source takes it a second time without noticing.
- Vm.Vm.Deallocuvm: the old size must not exceed KERNBASE, as every caller ensures; beyond it the source would free kernel mappings.
- Vm.Vm.Mappages: a range in the user half is a single page, which is how the source calls it.
- Vm: project2's threads share page directories and are outside the ownership property; inituvm, loaduvm, and the processor's registers and TLB are not modelled.
- Heap.UserHeap.Malloc: requests for which sbrk would get a negative int, a process that shrinks its heap with a negative sbrk, or unaligned grants beyond address order, are the caller's concern.
- SleepLock: one lock and its process table; deadlock between several sleep locks, and fairness, are not covered. A kill is an extra wakeup.
- Pipe.Pipe.WriteTurn: killed processes, and the file table around a pipe, are not modelled; going to sleep and giving up the lock is one step, which SleepLock justifies for sleep and wakeup.
- BufferCache.Cache.MarkDirty: that a dirty buffer is not recycled is stated by BGet, whose victim is clean.
- BufferCache.ReadsLatest: a holder reads a block in before it stores into it or writes it, as every caller of bread does; one that writes a buffer from bget without reading it would write what the buffer held before.
- BufferCache.Cache.Releasesleep: requires that the holder wrote or marked what it changed, as every caller of log_write and bwrite does.
- project1's multilevel feedback queue scheduler and project2's pmanager: what they do departs from what they are described to do, so there is no law to prove.
- Boot code, interrupt handling, device drivers other than memide, exec but for its argument strings, the shell and the remaining user programs, mkfs but for the empty disk and the root directory it starts from.
- grep()'s buffering loop, which drops part of a line when a read holds no newline.
