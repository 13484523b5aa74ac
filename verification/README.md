# A verified model of the xv6 kernel's hard parts

This project models, in Dafny, the parts of xv6 for RISC-V whose correctness is not visible from any
one function, and proves for all inputs, runs and reachable states what those parts are for:

- `Blocks`, `RedoLog`, `Lru`, `Bio`, `Log`, `Sessions`, `LogFull`: the write-ahead log over the buffer
  cache. A crash after any single block write, also during recovery and any number of times, leaves
  whole transactions. To any processes that read, change, log and commit in any order, cache and log
  together are a plain array of blocks (`Session.Run`).
- `FsDisk`, `FsTree`, `Stores`, `Fs`, `FileCrash`: bitmap, inodes and block map on the bytes of the disk.
  Files are byte sequences, blocks have one owner, every transaction of a long write fits the log, and
  a crash at any moment of it leaves a consistent file system with whole chunks (`WriteFile`).
- `Sv39`, `Spaces`, `Prune`, `Lives`, `Vm`, `Families`, `Processes`: page tables in pages of the
  allocator. They denote partial maps, failing operations roll back, and whatever processes are made,
  grow, shrink, fork and end, no process changes a page of another, and each page is given back once
  (`Table.Run`).
- `SleepLock`, `ExitWait`, `Sched`: sleep and wakeup, exit and wait, and the scheduler's hand-off of
  locks, as machines whose steps are single accesses to shared memory, in every interleaving.
- `Virtqueue`, `Virtio`: the descriptor protocol with a device that completes in any order.
- `FreeList`, `Umalloc`: the Kernighan and Ritchie allocator of user programs.
- `ShellGrammar`, `ShellText`, `ShellRedirs`, `ShellLanguage`, `ShellWords`, `Shell`: the shell's parser,
  its inverse, the language it accepts exactly (`ParsesExactly`), and the strings it leaves in the buffer.
- `Links`, `LinkSteps`, `Sysfile`: names, link counts and the freeing of inodes.
- `Options`, `Counting`: what several of them use.

Code that changes things in place is a class with methods and loops; its state at a moment is also a
value (`Now()`), and what the methods keep is proved as lemmas about such values. A panic of the
kernel is either shown to be unreachable, or a failing result, or a precondition on the caller.

## Assumptions

- The log area has at least LOGSIZE + 1 blocks: log_write also bounds the log by its size less one
  (`xv6-riscv/kernel/log.c:220`).
- Device numbers are not zero, and there is one device: buffers that were never used say block 0 of
  device 0 (`xv6-riscv/kernel/bio.c:46-52`).
- A block write is atomic, and a crash loses all memory and nothing on disk.
- Memory is sequentially consistent, and swtch is one step.
- Names are added only to directories that have a link. The code does not check this; `AddIff` and
  `BornIff` say that exactly then the link counts stay right, and `LoseName` is a run after which they
  are not.

Where the code does less than its comments suggest, the model follows the code: writing a block again
that is already in a full log fails, although it would be absorbed (`RelogPanics`, `RelogFails`). There
are no more buffers than blocks in a full log, and logged blocks keep theirs, so a full log cannot be
committed: bget has no buffer for the first log block. `Commit` says that, with nobody else using
buffers, this is exactly when a commit stops, and `FullCommitFails` is such a run.

## Model

| member | source | states |
|---|---|---|
| `RedoLog.CrashAtomicity` | xv6-riscv/kernel/log.c:116-123 | In every run of group commits, reads of the log at boot and crashes after any single block write, at every point: what recovery makes of the disk is, outside the log, the initial disk with exactly the transactions in the history applied in order, and the history is those whose header reached the disk. |
| `RedoLog.DurableStep` | xv6-riscv/kernel/log.c:178-203 | That claim is kept by each event: a whole commit, a commit cut off after any number of its block writes, a crash between commits, a recovery cut off after any number of its block writes, and a completed one. |
| `RedoLog.CommitAtomic` | xv6-riscv/kernel/log.c:193-203 | After j of the 2n+2 block writes of a commit, recovery gives the state before the transaction if the header has not been written (j <= n), and the state with all of it otherwise; never a mixture. |
| `RedoLog.RecoveryRestartable` | xv6-riscv/kernel/log.c:116-123 | If recovery is cut off after any of its block writes, recovering again gives the same home blocks as an uninterrupted recovery. |
| `RedoLog.ReplayWhole` | xv6-riscv/kernel/log.c:69-83 | Installing the log after any prefix of it has been installed already is the same as installing it once. |
| `RedoLog.InstallIsOverlay` | xv6-riscv/kernel/log.c:69-83 | Installing k log blocks is writing the first k logged values over their home blocks. |
| `RedoLog.OverlayContents` | xv6-riscv/kernel/log.c:69-83 | Every home block ends up with its logged value, and no other block changes. |
| `RedoLog.HeaderRoundTrip` | xv6-riscv/kernel/log.c:87-114 | The count and the block numbers that write_head puts into the header block are the ones read_head gets from it, byte by byte. |
| `RedoLog.HeadWrittenRecovers` | xv6-riscv/kernel/log.c:103-114 | Once the header is written, the disk is one that recovery accepts, and installing it gives the whole transaction. |
| `RedoLog.QuietRecovers` | xv6-riscv/kernel/log.c:116-123 | A log with an empty header changes no home block. |
| `Blocks.PutWord` | xv6-riscv/kernel/log.c:103-114 | Storing a 32-bit word as four little-endian bytes of a block gives it back at that index and leaves every other word. |
| `Lru.List.constructor` | xv6-riscv/kernel/bio.c:36-53 | The pointers form one cycle of the head and all n buffers, the last one pushed first. |
| `Lru.List.PushFront` | xv6-riscv/kernel/bio.c:47-51 | The prev and next pointers are one cycle through the head, with the new buffer first and the others in their order. |
| `Lru.List.Unlink` | xv6-riscv/kernel/bio.c:128-129 | The buffer is taken out of the cycle and the order of the others stays. |
| `Lru.List.MoveToFront` | xv6-riscv/kernel/bio.c:128-133 | The six pointer writes of brelse move the buffer to the front and change nothing else. |
| `Bio.BCache.constructor` | xv6-riscv/kernel/bio.c:36-53 | All buffers are in the cycle, none holds a block of a device, and readers see the disk. |
| `Bio.BCache.Bget` | xv6-riscv/kernel/bio.c:58-89 | Either the one buffer that holds the block gets a reference, or the buffer whose last release is oldest among the unreferenced ones is recycled; it fails exactly when the block is not cached and every buffer is in use; no two buffers hold one block and no pinned block is lost. |
| `Bio.BCache.FindUnused` | xv6-riscv/kernel/bio.c:76-87 | The backward walk finds the least recently used buffer without references, or there is none. |
| `Bio.BCache.FindCached` | xv6-riscv/kernel/bio.c:64-73 | The forward walk finds a buffer with the block exactly when there is one. |
| `Bio.BCache.Fill` | xv6-riscv/kernel/bio.c:93-103 | After bread the buffer holds the last contents that were given to the block, whether it was cached or read from disk. |
| `Bio.BCache.Modify` | xv6-riscv/kernel/bio.c:93-103 | Whoever holds a buffer may change it; from then on that is what the block contains for every reader. |
| `Bio.BCache.Bwrite` | xv6-riscv/kernel/bio.c:107-112 | One block of the disk becomes the buffer's data, as one more state of the disk. |
| `Bio.BCache.Brelse` | xv6-riscv/kernel/bio.c:117-137 | The reference is given up, and a buffer without references goes to the front of the order; the cache still shows the same contents. |
| `Bio.BCache.ToFront` | xv6-riscv/kernel/bio.c:126-134 | The list stays sorted by when each buffer was last released. |
| `Bio.BCache.Bpin` | xv6-riscv/kernel/bio.c:140-144 | A pin is a reference of its own and keeps the block in the cache. |
| `Bio.BCache.Bunpin` | xv6-riscv/kernel/bio.c:147-151 | A pin is given back, which never takes the last reference of a locked buffer. |
| `Log.WriteAheadLog.Commit` | xv6-riscv/kernel/log.c:193-203 | Every state of the disk that a commit goes through recovers to the state before the transaction until the header is written and to what readers see from then on; a completed commit leaves the log empty and all home blocks on disk. It stops only where bget has no buffer or another process has the buffer locked; when no other process uses one, it comes to its end if and only if fewer blocks are logged than there are buffers, and otherwise has written nothing: since NBUF equals LOGSIZE, a full log cannot be committed. |
| `Log.WriteAheadLog.CommitListed` | xv6-riscv/kernel/log.c:193-203 | The block writes of a commit, with other processes reading between them, are exactly those of the commit in the crash model, in that order. |
| `Log.WriteAheadLog.WriteLog` | xv6-riscv/kernel/log.c:178-191 | Copying the cached blocks to the log is the first n of those writes, wherever it stops for want of a buffer, and changes no block outside the log. |
| `Log.WriteAheadLog.InstallTrans` | xv6-riscv/kernel/log.c:69-83 | The log blocks are written home one by one, and each home block loses its pin with that write when not recovering. |
| `Log.WriteAheadLog.WriteHead` | xv6-riscv/kernel/log.c:103-114 | One block write puts the list of home blocks into the header. |
| `Log.WriteAheadLog.FillHeader` | xv6-riscv/kernel/log.c:108-111 | The loop over lh.block stores every block number at its place. |
| `Log.WriteAheadLog.EraseHead` | xv6-riscv/kernel/log.c:199-201 | The empty header is the last block write of a commit. |
| `Log.WriteAheadLog.ParseHeader` | xv6-riscv/kernel/log.c:92-95 | The loop of read_head gets back the stored list. |
| `Log.WriteAheadLog.ReadHead` | xv6-riscv/kernel/log.c:87-97 | The list in memory becomes the one in the header on disk. |
| `Log.WriteAheadLog.RecoverFromLog` | xv6-riscv/kernel/log.c:116-123 | The block writes of a recovery are those of the crash model; when it completes, cache, disk and what survives a crash all are the recovered disk. It stops only where bget has no buffer or another process has it locked, and does not when no other process is there. |
| `Log.WriteAheadLog.Bread` | xv6-riscv/kernel/log.c:73-74 | bread by the committing or recovering process: with any readers running before the lock is taken, it gets the buffer locked with the block's current contents; when it gets none, no buffer holds the block and all are referenced, or another process has the block's buffer locked, and with no readers exactly then. |
| `Log.Spare` | xv6-riscv/kernel/bio.c:58-89 | With fewer blocks pinned than there are buffers and nobody using one, bget has a buffer for every block. |
| `Log.AllPinned` | xv6-riscv/kernel/bio.c:58-89 | With as many blocks pinned as there are buffers, it has none for any other block. |
| `Log.WriteAheadLog.Readers` | xv6-riscv/kernel/log.c:193-203 | What can happen while a commit runs, when no operation is open: processes that get, read and release buffers, each step of which is done if it can be, never change what a block contains, what is pinned or what the committing process holds. |
| `Log.WriteAheadLog.BeginOp` | xv6-riscv/kernel/log.c:126-142 | An operation is admitted with MAXOPBLOCKS units exactly when no commit is going on and the log has room for all open operations and this one. |
| `Log.WriteAheadLog.EndOp` | xv6-riscv/kernel/log.c:146-175 | The panic is unreachable, and the caller commits exactly if it was the last open operation. |
| `Log.WriteAheadLog.EndCommit` | xv6-riscv/kernel/log.c:164-173 | After the commit the log takes operations again. |
| `Log.WriteAheadLog.LogWrite` | xv6-riscv/kernel/log.c:214-235 | The block is absorbed or appended and pinned, a unit is spent exactly for an append, and the call never fails while its caller has a unit left; lh.n and the unspent units together stay within LOGSIZE. |
| `Log.WriteAheadLog.Find` | xv6-riscv/kernel/log.c:225-229 | The loop stops at the first entry for the block, or at the end if there is none. |
| `Log.CommitCrashes` | xv6-riscv/kernel/log.c:193-203 | Links the cache and the crash model: each state of the disk during a commit recovers to the durable state or to what readers see. |
| `Log.OverlayIsView` | xv6-riscv/kernel/log.c:178-191 | The disk with the logged blocks written over it is, outside the log, what readers see. |
| `Log.AllOnDisk` | xv6-riscv/kernel/log.c:69-83 | With nothing pinned and nothing changed by a holder, what readers see is the disk. |
| `Log.WriteAheadLog.constructor` | xv6-riscv/kernel/log.c:54-65 | After a boot no buffer is pinned, used or changed, no operation is open, and recovery can begin. |
| `Log.WriteAheadLog.OpGet` | xv6-riscv/kernel/bio.c:58-89 | A process may get a buffer at any time, whatever others have changed and not logged: every listed block stays pinned, no contents change, and it fails exactly if the block is not cached and all buffers are in use. |
| `Log.WriteAheadLog.OpTake` | xv6-riscv/kernel/bio.c:93-103 | The process then finds in the buffer what was last written to the block. |
| `Log.WriteAheadLog.OpModify` | xv6-riscv/kernel/bio.c:93-103 | An open operation may change a buffer that it holds: that block, and no other, has the new contents from then on, and the log's invariant stays. |
| `Log.WriteAheadLog.OpRelease` | xv6-riscv/kernel/bio.c:117-137 | Releasing a buffer whose changes have been logged keeps the log's invariant and all contents. |
| `Log.BufferChange` | xv6-riscv/kernel/log.c:214-235 | Why: a change to one buffer that does not take its pin from it keeps every pin, and every change that is not logged is still held by an open operation. |
| `Sessions.Session.Run` | xv6-riscv/kernel/log.c:126-235 | Any number of processes do begin_op, bread, changes, log_write, brelse, end_op and commit in any order, and each act of the script is done unless it may not be: every read gives what a plain array of blocks would have at that moment; every state the disk goes through recovers to that array as it was at a moment when no operation was open, and no earlier than the last commit that had ended; and the blocks in the log stay in the cache. The run stops only at an act that can stop: a bget or a commit for which a buffer is not to be had, or a log_write into a full log. |
| `Sessions.Session.Do` | xv6-riscv/kernel/log.c:126-235 | One of these acts keeps all that, does what it is for (an operation is admitted exactly if there is room, a reference is taken, a block changed, logged or released, an operation ended, the log emptied), and adds to the account exactly its own event: the block and data of a change, the block that is read, the opening or the end of an operation, the end of a commit. |
| `Sessions.Session.Groups` | xv6-riscv/kernel/log.c:146-203 | A commit makes all that has been written so far survive crashes, and no operation is open then; it stops only for want of a buffer, or where another process has it locked, and when nobody else uses one, if and only if as many blocks are logged as there are buffers. |
| `Sessions.Session.Gets` | xv6-riscv/kernel/bio.c:58-89 | A process gets a buffer, or none if and only if no buffer holds the block and all are referenced. |
| `Sessions.Session.Takes` | xv6-riscv/kernel/bio.c:93-103 | A read gives the contents of the plain array. |
| `Sessions.Session.Begins` | xv6-riscv/kernel/log.c:126-142 | An operation is opened exactly if begin_op admits it. |
| `Sessions.Session.Notes` | xv6-riscv/kernel/log.c:214-235 | log_write fails for no operation that has a unit left, and only when the log is full. |
| `Sessions.Boot` | xv6-riscv/kernel/log.c:54-65 | From any disk that a crash can leave, booting recovers it to the end, block write by block write, and what it recovers to is the plain array that the session starts from. |
| `Log.StartLog` | xv6-riscv/kernel/log.c:54-65 | initlog on any disk that a crash can leave comes to its end: it writes exactly the blocks of a recovery, and the log is then empty, with no buffer in use. |
| `Sessions.StoryCommitted` | xv6-riscv/kernel/log.c:193-203 | After a commit what survives a crash is all that has been written. |
| `Sessions.Session.SafeNow` | xv6-riscv/kernel/log.c:193-203 | Between any two acts the disk as it is recovers to a moment without open operations that is no earlier than the last commit. |
| `Sessions.StoryMore` | xv6-riscv/kernel/log.c:214-235 | One more event keeps the account of contents, reads, open operations and what survives. |
| `Sessions.SafeCommit` | xv6-riscv/kernel/log.c:193-203 | The block writes of a commit leave only disks that recover to moments without open operations, at or after the commit before. |
| `LogFull.RelogFails` | xv6-riscv/kernel/log.c:214-235 | From an empty log: begin_op admits three operations, they log ten blocks each, and then log_write of a block that is in the log fails. |
| `LogFull.RelogPanics` | xv6-riscv/kernel/log.c:220-228 | In every state, logging a block again fails exactly when the log is full, because the size check comes before absorption; then every open operation has spent all it was promised. |
| `LogFull.FullCommitFails` | xv6-riscv/kernel/log.c:178-203 | From an empty log: three operations log ten blocks each and end, and the commit that follows, with nobody else there, finds no buffer for the first log block and stops before any block is written. |
| `LogFull.LogMany` | xv6-riscv/kernel/log.c:214-235 | An operation whose stores before each one are to fewer different blocks than it has units gets all of them into the log in their order, spends at most a unit for each different block, and leaves no buffer behind; it stops only where bget has no buffer or another process has it locked, and not when nobody else uses one. |
| `Stores.AffordableBut` | xv6-riscv/kernel/file.c:149-173 | Stores of which all but the last are to fewer blocks than an operation has units can all be logged. |
| `FileCrash.WriteFile` | xv6-riscv/kernel/file.c:135-180 | filewrite through the log: every disk state on the way recovers to a consistent file system with a whole number of chunks written, at least those that had been committed, and every other file as it was; in the end all chunks are on disk, or the file is full, or the disk has no free block, or a buffer is not to be had, because all are referenced or another process has it locked, which does not happen when nobody else uses one. |
| `FileCrash.WriteChunk` | xv6-riscv/kernel/file.c:156-173 | One chunk keeps all that, and adds itself once its commit has ended. |
| `FileCrash.Perform` | xv6-riscv/kernel/log.c:126-203 | The stores of one operation: each disk state of its commit recovers to the blocks before all of them, or after all of them; it stops only where bget has no buffer or another process has it locked, and not when nobody else uses one. |
| `FileCrash.ChunkLeaves` | xv6-riscv/kernel/fs.c:491-525 | A disk that recovers to the blocks after a chunk has the files after that chunk. |
| `FileCrash.SameFiles` | xv6-riscv/kernel/fs.c:286-311 | Two disks that differ only in the log have the same files when inodes are read from them, and are both consistent. |
| `FileCrash.MoreWhole` | xv6-riscv/kernel/file.c:156-173 | The disk states of the next chunk join the account of whole chunks. |
| `FileCrash.Mount` | xv6-riscv/kernel/log.c:54-65 | Booting on any disk that such a crash leaves always comes to its end, and gives a log and a file system on which filewrite works again. |
| `FileCrash.Blank` | xv6-riscv/kernel/fs.c:40-47 | So does an empty disk. |
| `FsDisk.MarkExact` | xv6-riscv/kernel/fs.c:64-103 | Setting or clearing the bit of a block in the bitmap changes the mark of that block and of no other, through byte and bit positions. |
| `FsDisk.InodeRoundTrip` | xv6-riscv/kernel/fs.c:221-237 | An inode written into its slot of its inode block is read back field by field, and every other inode of the disk is unchanged. |
| `FsTree.PlacesDistinct` | xv6-riscv/kernel/fs.c:377-405 | In a state where the invariant holds no two block pointers of any files, direct, indirect or listed in an indirect block, are the same block. |
| `FsTree.GainDirectOk` | xv6-riscv/kernel/fs.c:383-393 | A newly marked block in an empty direct slot keeps the ownership of all blocks and the bytes of every file. |
| `FsTree.GainIndirectOk` | xv6-riscv/kernel/fs.c:394-399 | The same for an entry of an indirect block. |
| `FsTree.StoreOk` | xv6-riscv/kernel/fs.c:497-506 | Writing one block of one file changes exactly the bytes of that block of that file, and no block pointer. |
| `FsTree.OverwriteAt` | xv6-riscv/kernel/fs.c:486-517 | What overlaying a byte sequence means: length the larger of the two ends, new bytes in the range, old ones outside. |
| `FsTree.StillMarked` | xv6-riscv/kernel/fs.c:90-103 | However far itrunc has come, the next block it frees is marked, so that bfree never meets a free block. |
| `FsTree.FreedAll` | xv6-riscv/kernel/fs.c:409-437 | Once all slots are done, the file is truncated and exactly its own blocks have lost their marks. |
| `FsTree.TruncatedContents` | xv6-riscv/kernel/fs.c:409-437 | The truncated file is empty and every other file has the contents it had. |
| `Fs.FileSystem.Balloc` | xv6-riscv/kernel/fs.c:64-86 | The first unmarked block of the disk is marked and zeroed, logging its bitmap block and itself; it fails exactly if every block is marked. |
| `Fs.FileSystem.FirstFree` | xv6-riscv/kernel/fs.c:73-81 | The inner loop finds the first clear bit of a bitmap block. |
| `Fs.FileSystem.Bfree` | xv6-riscv/kernel/fs.c:90-103 | The mark of that block is cleared, and only its bitmap block is logged. |
| `Fs.FileSystem.Iupdate` | xv6-riscv/kernel/fs.c:221-237 | The inode on disk becomes the one in memory; no other inode and no byte of any file changes. |
| `Fs.FileSystem.Bmap` | xv6-riscv/kernel/fs.c:377-405 | A block that is there is returned without any change; otherwise one is allocated for that slot alone, with an indirect block if needed, no contents change, and exactly the named blocks are logged. |
| `Fs.FileSystem.BmapIndirect` | xv6-riscv/kernel/fs.c:388-402 | The same for the blocks behind the direct ones. |
| `Fs.FileSystem.MapDirect` | xv6-riscv/kernel/fs.c:383-393 | The same for one direct slot or the indirect block's own. |
| `Fs.FileSystem.MapIndirect` | xv6-riscv/kernel/fs.c:394-401 | The same for one entry of an indirect block. |
| `Fs.FileSystem.Readi` | xv6-riscv/kernel/fs.c:455-477 | If off is past the size, or off + n wraps round in 32 bits, nothing; otherwise n bytes, or as many as there are up to the size, each equal to the byte of the contents at its offset; nothing is allocated, changed or logged. |
| `Fs.FileSystem.ReadChunk` | xv6-riscv/kernel/fs.c:466-475 | One round reads a slice that ends at the request's or the block's end. |
| `Fs.FileSystem.Writei` | xv6-riscv/kernel/fs.c:486-517 | It refuses exactly if off is beyond the size or the end beyond the largest file; otherwise the contents are overlaid with exactly the source bytes, the size is the larger end, every other file is unchanged, all blocks below the size are there, the number of blocks logged is within the budget for that range, and the inode's block is the last of them. |
| `Fs.FileSystem.StoreChunk` | xv6-riscv/kernel/fs.c:497-506 | One round stores its bytes and logs at most a data block, and a bitmap block and an indirect block if it had to allocate. |
| `Fs.FileSystem.WriteRound` | xv6-riscv/kernel/fs.c:497-506 | Each round extends what has been stored and stays within the budget. |
| `Fs.FileSystem.FileWrite` | xv6-riscv/kernel/file.c:135-181 | Every transaction logs at most MAXOPBLOCKS blocks; the return value is n exactly if the whole write fits the file, and otherwise -1 after a number of whole chunks, which stay written; f->off is advanced by what was written. |
| `Fs.FileSystem.FileChunk` | xv6-riscv/kernel/file.c:156-173 | One chunk is one transaction of at most ten blocks, at most nine of them before the inode's, and continues the overlay where the last one ended; the blocks have changed exactly by the stores given to log_write, all of them behind the log, and an operation can afford those. |
| `Fs.ChunkFits` | xv6-riscv/kernel/file.c:149-155 | 3072 bytes is the largest chunk whose budget is within ten blocks at every offset, and the budget of an unaligned one is ten. |
| `Fs.OverwriteTwice` | xv6-riscv/kernel/file.c:156-173 | Two overlays, one behind the other, are one. |
| `Fs.WrittenTwice` | xv6-riscv/kernel/file.c:156-173 | So are two writes of a file, for the contents of all files. |
| `Fs.FileSystem.Itrunc` | xv6-riscv/kernel/fs.c:409-437 | The file becomes empty, exactly its own blocks are unmarked, every other file keeps its contents, and only bitmap blocks of its own blocks and its inode block are logged. |
| `Fs.FileSystem.FreeDirect` | xv6-riscv/kernel/fs.c:416-421 | The loop over the direct blocks frees and clears each of them. |
| `Fs.FileSystem.FreeListed` | xv6-riscv/kernel/fs.c:426-429 | The loop over the indirect block frees each block listed in it. |
| `Fs.FileSystem.FreeIndirect` | xv6-riscv/kernel/fs.c:423-433 | Then the indirect block itself is freed and cleared. |
| `Fs.Format` | xv6-riscv/kernel/fs.c:64-86 | A disk on which only the blocks before the data area are marked, and all files are empty, meets the invariant. |
| `Sv39.TranslateIsPte` | xv6-riscv/kernel/vm.c:68-98 | The entry that the three-level walk of section 4.4 of the RISC-V privileged specification reaches in memory is the one that the ledger of table pages gives for that page, for every root and page number. |
| `Sv39.TakeOk` | xv6-riscv/kernel/kalloc.c:68-82 | Taking a page from the free list keeps all address spaces, and the page belongs to nothing else. |
| `Sv39.PutOk` | xv6-riscv/kernel/kalloc.c:46-63 | Giving a page back that belongs to nothing keeps all address spaces and the single owner of every page. |
| `Sv39.LinkOk` | xv6-riscv/kernel/vm.c:91-95 | A zeroed page becomes a table below another one without changing any translation. |
| `Sv39.SetLeafOk` | xv6-riscv/kernel/vm.c:150-150 | Writing one last-level entry changes that translation of that address space and no other. |
| `Sv39.WalkedTwice` | xv6-riscv/kernel/vm.c:80-98 | Walks that add tables add up: no translation changes and the new tables are of the same tree. |
| `Spaces.MappedMore` | xv6-riscv/kernel/vm.c:145-156 | Mapping the next page extends a mapped range by exactly that page. |
| `Spaces.UnmappedMore` | xv6-riscv/kernel/vm.c:171-183 | Unmapping the next page extends an unmapped range by exactly that page, and its frame is freed exactly if asked for. |
| `Spaces.GainedMore` | xv6-riscv/kernel/vm.c:227-239 | One more page with given flags and contents extends what an address space has gained, with frames distinct from all others. |
| `Spaces.RolledBack` | xv6-riscv/kernel/vm.c:229-238 | Unmapping what was gained leaves every translation and every data page as before, all frames returned. |
| `Spaces.NextCopy` | xv6-riscv/kernel/vm.c:305-318 | What the copying loop reads for the next page, while the copy grows, is still the parent's flags and bytes. |
| `Prune.DropOk` | xv6-riscv/kernel/vm.c:278-278 | A table without tables below it can be freed: the other trees, translations and owners stay. |
| `Prune.WithoutTwice` | xv6-riscv/kernel/vm.c:263-279 | Removing sets of tables one after another is removing their union. |
| `Prune.RemovedAll` | xv6-riscv/kernel/vm.c:263-279 | Once the tree below a root is removed, exactly the tables of that root have become free. |
| `Lives.LifeEnds` | xv6-riscv/kernel/proc.c:171-210 | For one address space: whatever it did between its creation and its dismantling, afterwards every page has the role it had before, and no other translation and no data page has changed. |
| `Lives.LifeBegins` | xv6-riscv/kernel/vm.c:188-197 | A new root page starts such a life. |
| `Lives.LifeMapped` | xv6-riscv/kernel/vm.c:137-157 | Mapping pages continues it. |
| `Lives.LifeUnmapped` | xv6-riscv/kernel/vm.c:162-184 | Unmapping continues it. |
| `Lives.TornDown` | xv6-riscv/kernel/vm.c:283-289 | Unmapping all user pages and then freeing the tables dismantles an address space that has only user pages. |
| `Lives.ProcessMade` | xv6-riscv/kernel/proc.c:181-199 | The two mappings of proc_pagetable make an address space with exactly the trampoline and the trapframe. |
| `Vm.PhysicalMemory.constructor` | xv6-riscv/kernel/kalloc.c:26-40 | Exactly the pages behind the kernel are free, each once, and no address space exists. |
| `Vm.PhysicalMemory.Kalloc` | xv6-riscv/kernel/kalloc.c:68-82 | The first page of the free list, filled with 5s, or failure exactly if the list is empty. |
| `Vm.PhysicalMemory.Kfree` | xv6-riscv/kernel/kalloc.c:46-63 | The page, filled with 1s, is first in the free list. |
| `Vm.PhysicalMemory.Walk` | xv6-riscv/kernel/vm.c:80-98 | The last-level table for the page: without alloc nothing changes and failure means there is none; with alloc at most two tables are added, no translation changes, and it fails only when memory runs out. |
| `Vm.PhysicalMemory.WalkAddr` | xv6-riscv/kernel/vm.c:103-121 | The frame that the hardware's walk gives, exactly if the address is in range and the entry is valid and for users. |
| `Vm.PhysicalMemory.AddTable` | xv6-riscv/kernel/vm.c:88-95 | One zeroed page from the free list becomes the missing table, or memory is out. |
| `Vm.PhysicalMemory.MapPage` | xv6-riscv/kernel/vm.c:146-150 | One translation is added, or none and memory is out. |
| `Vm.PhysicalMemory.Mappages` | xv6-riscv/kernel/vm.c:137-157 | Exactly the pages of the range are mapped, to consecutive frames with the permissions and the valid bit, all other translations unchanged; on failure memory is out and exactly a prefix is mapped. |
| `Vm.PhysicalMemory.MapRange` | xv6-riscv/kernel/vm.c:145-156 | The same for the loop, in page numbers. |
| `Vm.PhysicalMemory.UvmUnmap` | xv6-riscv/kernel/vm.c:162-184 | Exactly npages translations are removed and, if asked for, exactly their frames are freed. |
| `Vm.PhysicalMemory.UnmapPage` | xv6-riscv/kernel/vm.c:171-183 | The same for one page. |
| `Vm.PhysicalMemory.UvmAlloc` | xv6-riscv/kernel/vm.c:217-241 | Either every page that begins between the sizes has a zeroed frame of its own, or the result is 0, the user mappings and data pages are as before, and fewer than three free pages a new page were left. |
| `Vm.AllocBytes` | xv6-riscv/kernel/vm.c:217-241 | For every address: after uvmalloc its page is a user page of zeros if it begins between the old and the new size, and is translated as before otherwise. |
| `Vm.PhysicalMemory.AllocRange` | xv6-riscv/kernel/vm.c:226-239 | The same for the loop with its error paths. |
| `Vm.PhysicalMemory.AddPage` | xv6-riscv/kernel/vm.c:227-238 | One new frame is mapped with its contents, or it is given back. |
| `Vm.PhysicalMemory.UvmDealloc` | xv6-riscv/kernel/vm.c:247-259 | Exactly the pages that begin between the sizes go, with their frames. |
| `Vm.DeallocBytes` | xv6-riscv/kernel/vm.c:247-259 | For every address: after uvmdealloc its page is not mapped if it begins between the new and the old size, and is translated as before otherwise. |
| `Vm.Up` | xv6-riscv/kernel/riscv.h:349-349 | PGROUNDUP in pages: as many pages as hold sz bytes, and no fewer do. |
| `Vm.PhysicalMemory.UvmCopy` | xv6-riscv/kernel/vm.c:297-325 | Either the child has, for every page that begins below the size, a frame of its own with the same bytes and flags, or its mappings are as before, every frame is returned, and fewer than three free pages a page were left. |
| `Vm.PhysicalMemory.CopyRange` | xv6-riscv/kernel/vm.c:304-324 | The same for the loop with its error path. |
| `Vm.PhysicalMemory.UvmCreate` | xv6-riscv/kernel/vm.c:188-197 | A new address space that maps nothing, or memory is out. |
| `Vm.PhysicalMemory.FreeWalk` | xv6-riscv/kernel/vm.c:263-279 | Exactly the tables below and including this one are freed, the panic on a leaf is unreachable when nothing is mapped, and the other trees stay. |
| `Vm.PhysicalMemory.FreeEntry` | xv6-riscv/kernel/vm.c:267-277 | One round of its loop frees one subtree and clears its entry. |
| `Vm.PhysicalMemory.UvmFree` | xv6-riscv/kernel/vm.c:283-289 | Every frame and table of the address space is freed once, and nothing of any other. |
| `Vm.PhysicalMemory.ProcFreePagetable` | xv6-riscv/kernel/proc.c:204-210 | The same for a process; the trampoline and trapframe pages are not freed. |
| `Vm.PhysicalMemory.ProcPagetable` | xv6-riscv/kernel/proc.c:171-200 | A new address space with exactly the trampoline and the trapframe, or, with fewer than five free pages, failure with every page back where it was. |
| `Vm.PhysicalMemory.MapTrapframe` | xv6-riscv/kernel/proc.c:191-197 | The second mapping, with the error path that unmaps the first and frees the tree. |
| `Processes.Table.Run` | xv6-riscv/kernel/proc.c:171-309 | Conservation and isolation: however many processes are made, grow, shrink, fork and end, in any order, each job is done or fails for want of memory, the pages of every process keep their bytes and flags for as long as it has them, and when no process is left every page has the role and every data page the contents it had, and every older address space its translations. |
| `Processes.Table.Work` | xv6-riscv/kernel/proc.c:171-309 | One job: a process is made, or there are fewer than five free pages; it has its new size, with zeros in the new pages, or fewer than three free pages a new page; it is copied into another one, or memory is short; or it is gone. No page of any process changes that it keeps. |
| `Processes.RootKept` | xv6-riscv/kernel/vm.c:137-325 | What one address space does changes no byte and no flag of any page of another process. |
| `Processes.Table.Made` | xv6-riscv/kernel/proc.c:171-200 | A new process without memory, or, with fewer than five free pages, nothing has changed; the other processes keep theirs. |
| `Processes.Table.Grows` | xv6-riscv/kernel/proc.c:252-268 | The process has the new size, with unsigned sums that do nothing when they wrap round and with zeros in the new pages, or keeps its own, which happens only when growing with fewer than three free pages a new page; the pages that it keeps, and those of all other processes, are what they were. |
| `Processes.AliveBytes` | xv6-riscv/kernel/proc.c:252-268 | Of a process of size sz exactly the user pages that begin below sz are mapped, whatever it has gone through. |
| `Processes.Table.Forks` | xv6-riscv/kernel/proc.c:272-291 | The child has the parent's size and, in frames of its own, the same bytes and flags in every page; or there is no child and nothing else has changed, which happens only with fewer than five free pages and three for each page of the parent. |
| `Processes.ForkBytes` | xv6-riscv/kernel/vm.c:297-325 | For every address below the size: the child's page has the bytes and flags of the parent's, in another frame. |
| `Processes.Table.Ends` | xv6-riscv/kernel/proc.c:204-210 | Exactly that process goes, whatever its size, with each of its pages freed once, and the pages of the others are what they were. |
| `Processes.TwinsOk` | xv6-riscv/kernel/vm.c:297-325 | After uvmcopy parent and child have equal pages in different frames. |
| `Processes.HouseholdStep` | xv6-riscv/kernel/vm.c:137-325 | What one process does leaves all others, and all that was there before, as they were. |
| `Processes.HouseholdEnd` | xv6-riscv/kernel/proc.c:204-210 | The end of one process gives back exactly its pages. |
| `Families.OthersStep` | xv6-riscv/kernel/vm.c:137-325 | A change to one address space, in exchange with free pages, keeps the account of all of them. |
| `Families.OthersEnd` | xv6-riscv/kernel/vm.c:283-289 | Dismantling one leaves the account of the others. |
| `Families.AllEnded` | xv6-riscv/kernel/proc.c:204-210 | When all address spaces have ended nothing is lost and nothing is left over. |
| `Families.ProcessGained` | xv6-riscv/kernel/vm.c:217-241 | A process of n pages that gains the next ones is a process with those too. |
| `Families.ProcessUnmapped` | xv6-riscv/kernel/vm.c:247-259 | A process that loses its last pages is a process with the rest. |
| `Families.ProcessStays` | xv6-riscv/kernel/vm.c:137-325 | What another address space does changes nothing of a process. |
| `SleepLock.SleepLocksWork` | xv6-riscv/kernel/sleeplock.c:21-52 | In every interleaving of the memory accesses of acquiresleep, releasesleep, holdingsleep, sleep, wakeup and kill by any number of processes on any number of locks: acquiresleep returns only to a process that has got the lock, and releasesleep only to one that has it no more; at most one process holds a lock; nobody is asleep on a lock, or committed to sleeping on it, when its spin lock is free and it is not taken; holdingsleep answers rightly; and every spin lock is released by the process that holds it and acquired by one that does not. |
| `SleepLock.Returns` | xv6-riscv/kernel/sleeplock.c:21-41 | No step takes a process out of acquiresleep without the lock, out of releasesleep with it, or out of kill while its victim is asleep. |
| `SleepLock.StepKeeps` | xv6-riscv/kernel/proc.c:528-597 | Each of those accesses, by any process, keeps the invariant from which this follows. |
| `SleepLock.EveryRun` | xv6-riscv/kernel/sleeplock.c:21-41 | The invariant holds after every finite sequence of steps. |
| `SleepLock.NoLostWakeup` | xv6-riscv/kernel/proc.c:528-573 | While the spin lock is free and locked is 0 no process has got past the point where it is committed to sleep without having been made runnable again. |
| `SleepLock.MutualExclusion` | xv6-riscv/kernel/sleeplock.c:21-31 | Two processes that have been given the lock are one. |
| `SleepLock.SelfDeadlock` | xv6-riscv/kernel/sleeplock.c:21-31 | A process that acquires a sleep lock which it has never gets out of acquiresleep. |
| `SleepLock.HoldingSleepRight` | xv6-riscv/kernel/sleeplock.c:43-52 | holdingsleep says yes exactly to the process that has the lock. |
| `ExitWait.EveryRun` | xv6-riscv/kernel/proc.c:272-428 | The invariant below holds after every interleaving of the steps of fork, exit, reparent, wait, sleep, wakeup and kill by any number of processes. |
| `ExitWait.WaitReturns` | xv6-riscv/kernel/proc.c:383-428 | wait returns only with the status of a child it has just reaped, or because the caller has no child, or has been killed, or the status of a zombie cannot be copied out; it goes to sleep only with a child and not killed. |
| `ExitWait.ForkExitReturn` | xv6-riscv/kernel/proc.c:105-379 | fork returns only once the child is runnable and has the caller for its parent, or because it has looked at every slot, one after the other, and found each in use, or there is no memory; exit never returns, and leaves a zombie with the status it was given. |
| `ExitWait.KillWorks` | xv6-riscv/kernel/proc.c:579-597 | After kill the victim is marked, and if it was asleep it is runnable. |
| `ExitWait.StepKeeps` | xv6-riscv/kernel/proc.c:323-428 | Each step keeps it. |
| `ExitWait.ParentsAlive` | xv6-riscv/kernel/proc.c:323-379 | Every started process but the first has a parent, and that one is neither unused nor a zombie. |
| `ExitWait.NoZombieMissed` | xv6-riscv/kernel/proc.c:383-428 | When wait_lock is free, no process that sleeps in wait, or is committed to it, has a zombie child, including children it got by reparenting. |
| `ExitWait.ReapedOnce` | xv6-riscv/kernel/proc.c:399-414 | Each exit status is reaped at most once, and it is the status with which that process exited. |
| `ExitWait.ReapedByParent` | xv6-riscv/kernel/proc.c:399-414 | A step that reaps is one of the current parent of a process that has switched away for good. |
| `Sched.HandOffWorks` | xv6-riscv/kernel/proc.c:437-555 | In every run on any number of CPUs, with processes that acquire and release any spin locks, yield, sleep, exit and change others under their locks: a process executes on at most one CPU; noff is the number of push_offs open there, one for each lock held among them; interrupts are off while it is positive; a lock records the CPU whose thread holds it; a step panics exactly if its caller has broken a rule; when control is back in scheduler, the lock it will release is that of the process which has just switched away, held by this CPU; and a process that goes on in sched gets its own intena back, on whatever CPU. |
| `Sched.WaysEnd` | xv6-riscv/kernel/proc.c:494-555 | sleep returns only with its lock, and no other, held again; yield returns with none held; exit never returns. |
| `Sched.GoesRound` | xv6-riscv/kernel/proc.c:437-466 | The scheduler runs each process that it finds runnable, does not run one that is not, releases its lock, and goes on to the next entry, from the last to the first. |
| `Sched.ChangeDoes` | xv6-riscv/kernel/proc.c:559-573 | A process that is woken or started is runnable then, one that wait frees is unused, and one that runs or is runnable stays so. |
| `Sched.PanicsExactly` | xv6-riscv/kernel/spinlock.c:21-110 | The panic of acquire is reached exactly by a thread that holds the lock, that of release exactly by one that does not, also in sleep when its caller does not hold lk, those of sched exactly by a process that entered with the wrong number of push_offs open; those of pop_off, "sched p->lock", "sched running", "sched interruptible" and "zombie exit" never. |
| `Sched.SchedChecks` | xv6-riscv/kernel/proc.c:474-492 | For every process that comes to the checks of sched in any run there is the call of yield, sleep or exit by which it came, and the checks pass if and only if noff was then 0 for yield, and 1 for sleep and exit, whatever CPUs did in between. |
| `Sched.NoPanic` | xv6-riscv/kernel/proc.c:339-379 | In every run in which callers acquire no lock twice, release only what they hold, and call yield, sleep and exit with no lock held but the one to be let go, nothing panics. |
| `Sched.StepKeeps` | xv6-riscv/kernel/proc.c:437-555 | Each step of scheduler, sched, yield, sleep, exit, forkret, acquire, release, push_off and pop_off that does not panic keeps the invariant. |
| `Sched.EveryRun` | xv6-riscv/kernel/proc.c:437-555 | The invariant holds after every finite sequence of steps. |
| `Virtqueue.PushOk` | xv6-riscv/kernel/virtio_disk.c:260-265 | A head that is not in the ring yet goes into a slot that holds no unread entry, with a 16-bit index that wraps. |
| `Virtqueue.PopOk` | xv6-riscv/kernel/virtio_disk.c:300-302 | Comparing 16-bit indices tells exactly whether there are unread entries, and the slot then holds the oldest of them. |
| `Virtqueue.Pigeonhole` | xv6-riscv/kernel/virtio_disk.c:260-265 | A ring of distinct descriptor numbers that lacks one has room for it. |
| `Virtqueue.LinkOk` | xv6-riscv/kernel/virtio_disk.c:235-257 | Three free descriptors become a chain, and free descriptors and live chains partition the descriptors. |
| `Virtqueue.UnlinkOk` | xv6-riscv/kernel/virtio_disk.c:173-185 | Freeing a chain makes exactly its three descriptors free. |
| `Virtqueue.SubmitOk` | xv6-riscv/kernel/virtio_disk.c:216-265 | Submitting a request keeps the whole invariant. |
| `Virtqueue.AcceptOk` | xv6-riscv/kernel/virtio_disk.c:259-269 | So does the device when it takes an available chain, which is a live one. |
| `Virtqueue.CompleteOk` | xv6-riscv/kernel/virtio_disk.c:297-305 | So does the device when it reports any chain it has taken, in any order; no request is completed twice. |
| `Virtqueue.SeeOk` | xv6-riscv/kernel/virtio_disk.c:300-312 | Every used entry names a live chain with a buffer. |
| `Virtqueue.RetireOk` | xv6-riscv/kernel/virtio_disk.c:276-277 | So does freeing the chain of a request that has been seen. |
| `Virtqueue.Undisturbed` | xv6-riscv/kernel/virtio_disk.c:203-280 | No other request's start or end touches this one's chain. |
| `Virtqueue.DoneMeansCompleted` | xv6-riscv/kernel/virtio_disk.c:271-274 | If a live request's buffer is no longer with the disk, the device has completed that very request. |
| `Virtio.Disk.constructor` | xv6-riscv/kernel/virtio_disk.c:76-141 | All descriptors free and both rings empty. |
| `Virtio.Disk.AllocDesc` | xv6-riscv/kernel/virtio_disk.c:144-154 | A free descriptor is taken, and it fails exactly if none is free. |
| `Virtio.Disk.Alloc3Desc` | xv6-riscv/kernel/virtio_disk.c:187-201 | Three distinct free descriptors, or nothing is changed and fewer than three were free. |
| `Virtio.Disk.GiveBack` | xv6-riscv/kernel/virtio_disk.c:194-198 | The descriptors taken before the failure are all free again. |
| `Virtio.Disk.FreeDesc` | xv6-riscv/kernel/virtio_disk.c:157-170 | The descriptor is cleared and free. |
| `Virtio.Disk.FreeChain` | xv6-riscv/kernel/virtio_disk.c:173-185 | Following next from the head frees exactly the three descriptors of the chain. |
| `Virtio.Disk.Start` | xv6-riscv/kernel/virtio_disk.c:203-265 | A request is formatted and published, or nothing changes because fewer than three descriptors are free. |
| `Virtio.Disk.End` | xv6-riscv/kernel/virtio_disk.c:271-280 | virtio_disk_rw goes on only after its own request was completed, and then its descriptors are free. |
| `Virtio.Disk.DeviceRun` | xv6-riscv/kernel/virtio_disk.c:259-269 | The device takes and completes requests in any order, each move that it can make is made, and every one keeps the invariant, the chains and what has been reported. |
| `Virtio.Disk.Round` | xv6-riscv/kernel/virtio_disk.c:300-312 | One round handles the oldest unread used entry: the status is 0 and the buffer is released, so neither panic is reached. |
| `Virtio.Disk.Intr` | xv6-riscv/kernel/virtio_disk.c:282-315 | The loop ends with no unread entry left, whatever the device does meanwhile, and has released exactly the buffers of requests it has seen. |
| `FreeList.BlocksDisjoint` | xv6-riscv/user/umalloc.c:24-90 | Every unit of memory is in at most one block, free or live. |
| `FreeList.PutBack` | xv6-riscv/user/umalloc.c:24-44 | The free list after free, put together from insertion and joins, is one address-ordered cycle through base without neighbours left unmerged, and no unit is lost. |
| `FreeList.CodedIsPutBack` | xv6-riscv/user/umalloc.c:33-43 | The pointer and size writes of free, with their two tests for neighbours, compute exactly that. |
| `FreeList.PutBackKeeps` | xv6-riscv/user/umalloc.c:24-44 | The live blocks but the freed one, their sizes and the total memory stay. |
| `FreeList.JoinOk` | xv6-riscv/user/umalloc.c:33-42 | Joining two touching free blocks keeps the cycle and the ownership of all units, and makes no new neighbours. |
| `FreeList.InsertOk` | xv6-riscv/user/umalloc.c:30-42 | Inserting at its place keeps the single wrap of the cycle, and only the new block and the one before it can touch their next. |
| `FreeList.RemoveOk` | xv6-riscv/user/umalloc.c:76-77 | Taking a whole block out of the list keeps the invariant. |
| `FreeList.SplitOk` | xv6-riscv/user/umalloc.c:78-82 | Cutting the tail off a block keeps the invariant. |
| `FreeList.ExtendOk` | xv6-riscv/user/umalloc.c:52-59 | Memory from sbrk above everything owned becomes a live block of that many units. |
| `FreeList.SearchStep` | xv6-riscv/user/umalloc.c:30-32 | Where the loop of free stops is the place of the block; where it goes on it comes closer. |
| `Umalloc.Allocator.constructor` | xv6-riscv/user/umalloc.c:20-22 | No memory, no blocks. |
| `Umalloc.Allocator.FindPlace` | xv6-riscv/user/umalloc.c:30-32 | The loop of free ends, at the last free block below the freed one, or at the wrap. |
| `Umalloc.Allocator.Free` | xv6-riscv/user/umalloc.c:24-44 | Exactly the freed block stops being live, all others keep their sizes, all memory stays accounted for, and the free list is the merged one. |
| `Umalloc.Allocator.MoreCore` | xv6-riscv/user/umalloc.c:46-61 | At least 4096 units more are owned and a block that fits the request is free, or sbrk failed and nothing changed. |
| `Umalloc.Allocator.Hand` | xv6-riscv/user/umalloc.c:75-85 | The found block, or its tail, becomes a live block of exactly the units asked for. |
| `Umalloc.Allocator.Begin` | xv6-riscv/user/umalloc.c:70-73 | The first call sets up the cycle of base alone. |
| `Umalloc.Allocator.Malloc` | xv6-riscv/user/umalloc.c:63-90 | The search ends; the result is a new live block of the rounded size, disjoint from all others, whose sizes stay; it is null only if sbrk failed and every free block is too small; sbrk is asked only then, and at most once. Requests are such that the bytes asked of sbrk fit its int argument. |
| `ShellText.RoundTrip` | xv6-riscv/user/sh.c:327-446 | For every command tree with at most nine plain words in each simple command, parsing its fully parenthesised text gives that tree. |
| `ShellLanguage.ParsesExactly` | xv6-riscv/user/sh.c:327-446 | The parser and a grammar over tokens, with its derivations and their meaning, agree in both directions: a text is read as a command if and only if its tokens have a derivation that means that command and has at most nine words in each simple command. |
| `ShellLanguage.RefusesExactly` | xv6-riscv/user/sh.c:327-446 | So the parser gives up (leftovers, a missing parenthesis or file name, too many words) exactly if the tokens have no such derivation, and all derivations of one text mean the same. |
| `ShellLanguage.LexIsAll` | xv6-riscv/user/sh.c:265-308 | The tokens of a text are all of its characters but the blanks, in order. |
| `ShellLanguage.LineSound` | xv6-riscv/user/sh.c:344-446 | Whatever part of a text is read as a line has a derivation. |
| `ShellLanguage.LineComplete` | xv6-riscv/user/sh.c:344-446 | Whatever has a derivation, up to the end or a closing parenthesis, is read as a line. |
| `ShellText.LineReads` | xv6-riscv/user/sh.c:344-359 | The same anywhere inside a longer text, up to its end or a closing parenthesis. |
| `ShellText.RedirectedBlock` | xv6-riscv/user/sh.c:399-413 | A block with a redirection behind it is read as the redirection of what is inside. |
| `ShellRedirs.SimpleCommand` | xv6-riscv/user/sh.c:374-446 | Any number of redirections behind the words of a simple command are read as redirections around it, in their order, the last one outermost. |
| `ShellText.ArgsRead` | xv6-riscv/user/sh.c:430-442 | A list of words separated by blanks is read as exactly those words. |
| `ShellWords.ReadableIffPrintable` | xv6-riscv/user/sh.c:327-446 | A command tree can come out of the parser exactly if it has at most nine words in each simple command and all its words are plain and not empty. |
| `ShellWords.LineWords` | xv6-riscv/user/sh.c:344-446 | Every word that any parse stores is a run of plain characters of the text that goes as far as it can. |
| `ShellWords.WordBack` | xv6-riscv/user/sh.c:449-493 | A word with a NUL behind it reads back whole, whichever other words have been terminated. |
| `ShellWords.StringsBack` | xv6-riscv/user/sh.c:449-493 | So do all words of a command at once. |
| `ShellGrammar.WordEnd` | xv6-riscv/user/sh.c:296-299 | A word ends at the first character that is blank or a symbol. |
| `ShellGrammar.TokenAt` | xv6-riscv/user/sh.c:265-308 | A token lies within the text, is not empty unless it is the end, and parsing goes on behind it: so every parse ends. |
| `Shell.SkipBlanks` | xv6-riscv/user/sh.c:272-273 | The loop stops at the first character that is not blank. |
| `Shell.GetToken` | xv6-riscv/user/sh.c:265-308 | The token of the grammar at that position, with where it starts, ends and where the text goes on. |
| `Shell.Peek` | xv6-riscv/user/sh.c:310-320 | Whether the next character that is not blank is one of those given. |
| `Shell.ParseRedirs` | xv6-riscv/user/sh.c:374-397 | The redirections of the grammar, in order, or an error if a file name is missing. |
| `Shell.ParseLine` | xv6-riscv/user/sh.c:344-359 | The line of the grammar, with its loop over `&`, or an error. |
| `Shell.ParsePipe` | xv6-riscv/user/sh.c:361-372 | The pipeline of the grammar, or an error. |
| `Shell.ParseExec` | xv6-riscv/user/sh.c:415-446 | The block or simple command of the grammar, or an error. |
| `Shell.ParseArgs` | xv6-riscv/user/sh.c:429-445 | Its loop over words and redirections, with the limit on words. |
| `Shell.ParseBlock` | xv6-riscv/user/sh.c:399-413 | The block of the grammar, or an error if the parenthesis is not closed. |
| `Shell.Strlen` | xv6-riscv/user/sh.c:333-333 | The number of characters before the first NUL. |
| `Shell.NulTerminate` | xv6-riscv/user/sh.c:449-493 | NULs are written behind exactly the words of the command and nowhere else in the buffer. |
| `Shell.ParseCmd` | xv6-riscv/user/sh.c:327-342 | The result is the grammar's for the string in the buffer; on success every word reads back from the buffer as the word that was lexed, and on an error the buffer is unchanged. |
| `Links.NoDangling` | xv6-riscv/kernel/fs.c:332-358 | No name in a directory that is still linked, and no `..` of one, is that of an inode that iput has freed. |
| `Links.RowChange` | xv6-riscv/kernel/sysfile.c:119-284 | Changing one directory changes every count of names by the difference of its own. |
| `LinkSteps.LeafOk` | xv6-riscv/kernel/sysfile.c:141-142 | Counting a link before it is in a directory, giving it up, making a file and freeing an inode keep all counts right. |
| `LinkSteps.AddOk` | xv6-riscv/kernel/fs.c:556-583 | So does putting a counted link into a linked directory. |
| `LinkSteps.EraseOk` | xv6-riscv/kernel/sysfile.c:218-220 | So does clearing a file's entry, until the file's count is lowered. |
| `LinkSteps.MkdirOk` | xv6-riscv/kernel/sysfile.c:261-279 | So does making a directory with its two entries, its name, and one more link of its parent. |
| `LinkSteps.RmdirFacts` | xv6-riscv/kernel/sysfile.c:211-216 | An empty directory has exactly one link, and its parent at least two. |
| `LinkSteps.RmdirOk` | xv6-riscv/kernel/sysfile.c:218-229 | Removing an empty directory keeps all counts right, its `..` included. |
| `LinkSteps.AddIff` | xv6-riscv/kernel/sysfile.c:145-153 | Putting a name into a directory keeps the counts right if and only if that directory has a link. |
| `LinkSteps.MkdirIff` | xv6-riscv/kernel/sysfile.c:241-284 | The same for making a directory. |
| `LinkSteps.Miscounted` | xv6-riscv/kernel/sysfile.c:119-166 | A link that is counted but goes into a directory without links leaves the count wrong, whether or not that directory is freed then. |
| `Sysfile.LoseName` | xv6-riscv/kernel/sysfile.c:185-284 | A run from an empty file system: a directory is made, removed while a process is in it, and gets a file; when the process leaves, the directory is freed, and the file has a link and no name. |
| `Sysfile.BornPutIff` | xv6-riscv/kernel/sysfile.c:241-284 | After create has let go of the directory the counts are right if and only if the directory had a link. |
| `Sysfile.EnteringIff` | xv6-riscv/kernel/sysfile.c:145-158 | The same after sys_link. |
| `LinkSteps.PutOk` | xv6-riscv/kernel/fs.c:332-358 | Dropping a reference, and freeing the inode with the last one if it has no links, keeps all counts right. |
| `Sysfile.FindName` | xv6-riscv/kernel/fs.c:529-553 | The first entry in use that has the name, or none has it. |
| `Sysfile.FindSlot` | xv6-riscv/kernel/fs.c:567-574 | The first entry not in use, or the end of the directory. |
| `Sysfile.IsDirEmpty` | xv6-riscv/kernel/sysfile.c:169-182 | Whether all entries but the first two are unused. |
| `Sysfile.FileTree.Iput` | xv6-riscv/kernel/fs.c:332-358 | The inode is freed exactly with the last reference to it if it has been read and has no links; the counts stay right. |
| `Sysfile.FileTree.Ialloc` | xv6-riscv/kernel/fs.c:195-215 | The first free inode is taken, or there is none. |
| `Sysfile.FileTree.DirLink` | xv6-riscv/kernel/fs.c:556-583 | The entry goes into the first free slot, exactly if no entry has that name. |
| `Sysfile.LinkThenLookup` | xv6-riscv/kernel/fs.c:529-583 | After dirlink the name leads to the inode, and every other name where it led. |
| `Sysfile.FileTree.LinkBegin` | xv6-riscv/kernel/sysfile.c:134-143 | The link is counted, except for a directory. |
| `Sysfile.FileTree.LinkEnd` | xv6-riscv/kernel/sysfile.c:145-165 | The name is entered, and then the counts are right if and only if the directory has a link; or the count is taken back, and they are right in any case; other operations may run between the two halves. |
| `Sysfile.FileTree.Unlink` | xv6-riscv/kernel/sysfile.c:184-239 | It succeeds exactly if the name is neither `.` nor `..`, is there, and is not that of a directory with entries; then that entry is cleared, the counts of the inode and of a removed directory's parent are lowered, and all counts are right; the panic is unreachable. |
| `Sysfile.UnlinkThenLookup` | xv6-riscv/kernel/sysfile.c:184-239 | After the entry is cleared its name leads nowhere, and every other name where it led. |
| `Sysfile.FileTree.Create` | xv6-riscv/kernel/sysfile.c:241-284 | A new inode with its name, exactly if the name is not there, with all counts right if and only if the directory has a link; otherwise what was there, opened exactly if a file was asked for and it is a file or a device, and counts that are right. |
| `Sysfile.FileTree.Bear` | xv6-riscv/kernel/sysfile.c:261-279 | The new inode, its own entries and its name; the counts are right afterwards if and only if the directory has a link. |
| `Sysfile.BornIs` | xv6-riscv/kernel/sysfile.c:261-279 | What create leaves: an inode of the kind asked for with one link and one reference more, `.` and `..` in a new directory, the name leading to it, every other name leading where it led, and every other inode as it was. |
| `Sysfile.FileTree.Existing` | xv6-riscv/kernel/sysfile.c:252-259 | What is done when the name is there: the inode is opened, with a reference more, exactly if a file was asked for and it is a file or a device; otherwise the references are as before but for the directory's; the lookup fails only for the `..` of a directory without links. |
| `Sysfile.BornIff` | xv6-riscv/kernel/sysfile.c:241-284 | Creating a file, a device or a directory keeps the counts right if and only if the directory it is created in has a link. |
| `Sysfile.FileTree.constructor` | xv6-riscv/kernel/sysfile.c:241-284 | With the root directory alone all counts are right. |
| `LinkSteps.FreshOk` | xv6-riscv/kernel/sysfile.c:241-284 | The same for any number of inodes. |

## Left out

- Log.WriteAheadLog.Commit: with other processes using buffers it may stop with fewer blocks in the log, too, and then it is only said that all buffers were referenced. Processes that run during a commit only get, read and release buffers.
- Log.WriteAheadLog.Bread: is for the committing and the recovering process, at times when no operation is open; what operations and readers do at other times is `OpGet`, `OpTake`, `OpModify` and `OpRelease`.
- Log.WriteAheadLog.Readers: are the processes that run during a commit or recovery, when nothing can be changed and not yet logged; at other times they are those of `Session.Run`.
- Sessions.Session.Run: a commit is one step of a run, whose block writes are all looked at; what readers do between these writes is `Readers`. A process that the locks or the admission would make wait takes no step.
- Log.WriteAheadLog.BeginOp: the sleep of an operation that is not admitted, and its wakeup, are not modelled here; sleep and wakeup are in `SleepLock` and `ExitWait`.
- Bio.BCache.Bget: buffer locks are an owner field that is free when taken; waiting for one is in `SleepLock`.
- Fs.FileSystem.Writei: copying from user memory always succeeds; after balloc has run out of blocks, where the kernel panics, nothing is claimed about the state.
- Fs.FileSystem.Readi: copying to user memory always succeeds.
- Fs.FileSystem.FileWrite: only the branch for files on disk; no other operation changes the file between two chunks.
- FileCrash.WriteFile: what a chunk does to the blocks is computed first, and its stores then go through the log in their order, where the code does both together; no other operation is open meanwhile, other processes only read. With other processes using buffers it may stop for want of one.
- Fs.FileSystem.Iupdate: inodes in memory are one table of all inodes; recycling its rows and the locking of inodes are left out.
- Vm.PhysicalMemory.Mappages: mapping a page that is mapped, a panic, is a precondition; so are the panics of uvmunmap and uvmcopy. Words are natural numbers without the 64-bit bound, pages are numbered from the start of memory.
- Processes.Table.Forks: the pages for trap frames are the caller's, so their allocation and freeing are not part of the account; registers and open files are left out.
- Vm.PhysicalMemory.Kalloc: the free list is a sequence instead of pointers kept in the free pages.
- SleepLock.SleepLocksWork: nothing about who gets a lock next, or that anyone does; no liveness or fairness is proved anywhere.
- ExitWait.EveryRun: open files, the current directory and memory of processes are left out; a process number stands for its table entry.
- Sched.HandOffWorks: callers match push_off and pop_off, switch interrupts only with none open, change a process only under its lock, and do not give sleep their own p->lock to release; timer interrupts are calls of yield.
- Virtio.Disk.Start: the contents transferred, sector numbers and the notification register are left out; waiting for descriptors is a failing result.
- Virtio.Disk.End: waiting for the buffer is a precondition.
- Umalloc.Allocator.Malloc: addresses are counted in headers of 16 bytes; sbrk gives memory above all it gave before, or fails. A request is for at most 0x7FFFFFE0 bytes, since for more the bytes asked of sbrk, with the header, do not fit its int argument.
- Shell.ParseExec: a simple command is built once its words are known, where the code fills its node through a second pointer while redirections are already around it.
- Shell.ParseCmd: allocation of the nodes always succeeds; running the commands is left out.
- Sysfile.FileTree.Create: looking up the path is left out, names have any length, link counts have no 16-bit bound, and directories can always grow.
- Sysfile.FileTree.Unlink: is one step, although the parent is unlocked shortly before the inode's count is lowered; the inode itself stays locked.
- Sysfile.FileTree.Iput: truncation is clearing the entries here; on blocks it is `Fs.FileSystem.Itrunc`.
- Path lookup (skipelem, namex), stat, open, exec, pipes, the console and device files.
- copyin, copyout and copyinstr, the kernel's own page table, and kvmmap.
- Device initialisation, interrupts and traps, system call dispatch, and all assembly.
- mkfs, and the user programs other than the shell's parser and the allocator.
