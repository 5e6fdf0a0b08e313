# A verified model of the kernel and its user programs

This project models the parts of a small RISC-V teaching kernel, written in Zig, and of its C user
programs, whose correctness rests on invariants rather than on any one function: the crash-safe storage
stack, Sv39 page tables and the page allocator, the concurrency protocols (sleep and wakeup, sleep locks,
process life cycle, the virtio disk driver), byte streams (the pipe and the user ring), and three user-level
algorithms (the storage allocator, the shell's parser, grep). Verify everything with
`dafny verify dfyconfig.toml`.

## How it is laid out

| file | modules | what it is about |
|---|---|---|
| `Blocks.dfy` | Wrappers, Blocks | 1024-byte blocks and the 32-bit words in them |
| `Journal.dfy` | Journal | the redo log as a sequence of disk writes: atomicity at every write, over whole histories |
| `BufferCache.dfy` | BufferCaching | the buffer cache on its circular list, and its transparency |
| `Log.dfy`, `Reservations.dfy` | Logging, Reservations | the log over the cache: its methods perform exactly the journal's writes; log space |
| `Bitmap.dfy`, `FileSystem.dfy` | Bitmap, Files | the block allocator, inodes as byte sequences, open files and what an operation logs |
| `Inodes.dfy`, `Volume.dfy` | Inodes, Volumes | inodes as records in disk blocks; files across crashes, the file layer and the log put together |
| `Directory.dfy` | Directories | create, link and unlink: names, link counts, the shape of the tree |
| `PageTable.dfy`, `UserMemory.dfy` | PageTables, AddressSpaces | three-level tables against a flat map; conservation of frames; copies to and from users |
| `ProcessMemory.dfy` | ProcessMemory | the memory of a process from fork through sbrk and exec to its end: every frame goes back |
| `UserRights.dfy` | UserRights | when a copy to a user writes only what the user may write |
| `SleepWakeup.dfy`, `SleepLocks.dfy` | SleepWakeup, SleepLocks | step systems for sleep, wakeup and the sleep lock |
| `ProcessTable.dfy` | ProcessTables | fork, exit, wait, kill |
| `Virtio.dfy`, `DiskDriver.dfy` | DiskQueue, DiskDrivers | the split virtqueue (VIRTIO 1.1, sections 2.6 and 5.2), a nondeterministic device, and the driver |
| `RingMemory.dfy`, `Ring.dfy` | RingMemory, Rings | the pages of the user ring and their double mapping; the lock-free ring itself |
| `Pipe.dfy` | Pipes | the locked pipe |
| `Umalloc.dfy` | Heaps | `malloc` and `free` |
| `ShellGrammar.dfy`, `ShellSyntax.dfy`, `Shell.dfy` | ShellGrammar, ShellSyntax, Shell | the parser as functions on the text, the language as it is written and what it means, and the cursor-moving parser |
| `Patterns.dfy`, `Grep.dfy` | Patterns, Grep | pattern matching and line reading |

Code that changes state step by step is a class with methods; each method is proved against a function or
predicate on the state, and what the code is for is proved about those. Code that several processes run at
once is a step system or a class each of whose methods is what happens under one hold of a lock, with
`Others`-style methods for everything that may come between.

## What came out

Most of the expected properties hold for all inputs and all runs. Where one does not, the model keeps the
code as it is and proves exactly when it holds:

- **Log space.** An operation with budget left is never refused exactly when `nlog >= 31`
  (`Reservations.ReservationIsEnough`). The image builder makes a log of 30 blocks
  (`build/MakeFilesystemStep.zig:28`), so "too big a transaction" can be reached.
- **Logging a block again.** `log.write` tests the length before it looks for the block
  (`Logging.Log.LogWrite`), so with `nlog >= 31` an operation that logs one of its own blocks again is refused
  exactly when the header holds 30 blocks, at which point nobody has budget left
  (`Reservations.AgainRefused`, with such a state in `Reservations.AgainCanBeRefused`).
- **Buffers.** Every step of a commit needs one buffer. It fails exactly when the blocks of the header and the
  blocks that readers outside any operation hold are together 30 or more (`Logging.Log.Commit`,
  `Logging.AllBusy`), and what it has written by then is recovered to all or nothing. With `outside` readers this
  is reachable exactly when `min(30, nlog - 1) + outside >= 30` (`Reservations.CommitCanRunOut`): on the shipped
  image one reader is enough, beside a header of 29 blocks. Every size has one of the two problems, with no
  reader at all (`Reservations.NoSizeIsSafe`).
- **Link counts** survive every call, failing ones included, exactly when nothing was added to a directory
  that has been unlinked but is still somebody's current directory (`Directories.LinkedConsistent`,
  `Directories.CreatedConsistent`; `Directories.OrphanGetsFile` does add one, in a tree that a run reaches).
- **".." of an unlinked directory** can come to name a free inode, and locking that one panics. Every call keeps
  all ".." good except the one that lets go of the last hold on an unlinked directory that ".." of another still
  names (`Directories.DroppedParents`). mkdir `a`, mkdir `a/b`, and then unlinking `b` while it is held and `a`
  is such a run (`Directories.ParentGone`, `Directories.LoseParent`).
- **create waits for itself**: the parent stays locked while an existing child is locked, so creating "."
  anywhere, or ".." in the root, waits for a lock the caller holds; nothing else in a live directory does
  (`Directories.CreateLocks`).
- **A write whose copy from the user fails** reports whole rounds only, but the bytes that were there to copy
  are stored all the same, and the block they are in is not logged. Nothing is stored beyond what is reported
  exactly when the byte that failed is the first of the write or of a file block (`Files.FaultAtPiece`, with
  `Files.FileSystem.Write`); `Files.StrayByte` is a run in which it is not. Until that block is logged for
  another reason, its bytes can go back to what the disk holds, by recycling its buffer or by a crash; no other
  byte can (`Volumes.Volume.AnyHistory`).
- **grep** prints every matching line exactly when, from the first line on that holds a NUL or needs more than
  1023 bytes with its newline, no line matches (`Grep.PrintsAll`, and `Grep.LongLineLost` for a lost line).
- **copyOut** looks for the user bit only. It changes nothing but bytes the user may write, whatever it copies,
  exactly when the user may write every byte of the range it reaches (`UserRights.CopyOutRights`); for pages of
  the process's own that is a matter of each page's write permission (`UserRights.OwnRangeRights`).
  `UserRights.OverwritesCode` is a run that overwrites a page its user may only read and execute.
- **Opening a ring** maps 33 pages, and when a mapping fails the source gives the ring's pages back at once
  (ringbuf.zig:194-207). That leaves nobody with a page on the free list exactly when it was the first mapping
  that failed and no other process has the ring open (`RingMemory.CanUndo`, `RingMemory.RingHeld`). The first
  fails exactly when its page is mapped or fewer frames are free than its missing tables
  (`RingMemory.Open`). `RingMemory.HalfOpened` is a run that fails later; in `RingMemory.SecondOpenFails` the
  first mapping fails of a ring that another process has open.
- **exec with a ring open.** exec frees the old address space without closing the rings in it (exec.zig:146;
  exit does close them, process.zig:219-221). Freeing an address space reaches the panic "freewalk: leaf" exactly
  when a page is mapped from the process's size up to the kernel's two
  (`AddressSpaces.PhysicalMemory.FreePageTable`), so exec, when it has loaded its program, does exactly then
  (`ProcessMemory.Exec`). `RingMemory.OpenThenExec` is such a run; a ring closed first leaves nothing behind
  (`RingMemory.RingThenExit`).
- **Out of memory** in `alloc` and `copyPageTable` gives every page back; tables made on the way stay in the
  address space until it is freed (`AddressSpaces.PhysicalMemory.Alloc`). fork and exec give those back too
  (`ProcessMemory.Fork`, `ProcessMemory.Exec`).
- **Reserved permissions.** The hardware sees every mapping as the flat map has it, except that pages with the
  write but not the read permission fault (`PageTables.LookupIsFlat`).

## Model

| member | source | states |
|---|---|---|
| Blocks.WordRoundTrip | src/kernel/filesystem/inode.zig:333-340 | a 32-bit entry stored in a block reads back as stored, and every other entry is as it was |
| Journal.HeaderRoundTrip | src/kernel/filesystem/log.zig:36-46 | a header copied into its block decodes to the same list of blocks, whatever the block held before |
| Journal.CommitWritesInRange | src/kernel/filesystem/log.zig:82-126 | every write of a commit is to a block of the disk |
| Journal.CommitPrefixShape | src/kernel/filesystem/log.zig:177-199 | what the disk is after any number of a commit's writes: part of the log, or the whole log and part of the homes |
| Journal.CommitIsAtomic | src/kernel/filesystem/log.zig:191-199 | stopped after any number of its writes, a commit leaves a disk from which recovery makes all home blocks old (header not yet written) or all new (header written) |
| Journal.RecoveryIsRestartable | src/kernel/filesystem/log.zig:121-126 | a recovery stopped after any number of its writes leaves a recoverable disk, and recovering that gives the same home blocks |
| Journal.RecoveredMeaning | src/kernel/filesystem/log.zig:82-97 | recovery leaves the disk with the named blocks installed, everything else as it was, and nothing waiting |
| Journal.Reboot | src/kernel/filesystem/log.zig:121-126 | any number of interrupted recoveries and then a whole one amount to one recovery |
| Journal.RunOne | src/kernel/filesystem/log.zig:191-199 | one transaction, finished or cut off anywhere and recovered, is either in place or never happened |
| Journal.HistoryIsAtomic | src/kernel/filesystem/log.zig:82-199 | over any history of transactions, crashes and interrupted recoveries, the home blocks are those of a disk on which the durable transactions happened, whole and in order, and the others never did |
| Journal.KeptOverHistory | src/kernel/filesystem/log.zig:82-199 | what every transaction keeps of the home blocks, when it is in place, holds after any history with crashes |
| BufferCaching.Cache.constructor | src/kernel/filesystem/buffer_cache.zig:20-32 | the list holds every buffer and the invariant holds |
| BufferCaching.Cache.Lookup | src/kernel/filesystem/buffer_cache.zig:44-49 | the pass from the front finds the block's buffer exactly when there is one, and there is never a second |
| BufferCaching.Cache.OldestFree | src/kernel/filesystem/buffer_cache.zig:52-60 | the pass from the back finds an unreferenced buffer released no later than any other, or shows that all are referenced |
| BufferCaching.Cache.GetBuffer | src/kernel/filesystem/buffer_cache.zig:37-63 | a cached block keeps its buffer; otherwise the unreferenced buffer released longest ago is taken; it fails exactly when the block is not cached and all are referenced; referenced buffers are undisturbed |
| BufferCaching.Cache.Read | src/kernel/filesystem/buffer.zig:47-54 | the buffer holds the block's latest contents, on the disk or not |
| BufferCaching.Cache.SetData | src/kernel/filesystem/buffer.zig:47-54 | what a holder stores is the block's latest contents from then on |
| BufferCaching.Cache.WriteOut | src/kernel/filesystem/buffer.zig:57-60 | exactly one disk write, of this buffer's contents to its block |
| BufferCaching.Cache.Release | src/kernel/filesystem/buffer.zig:64-85 | one reference less; at zero the buffer moves to the front and the others keep their order |
| BufferCaching.Cache.Pin | src/kernel/filesystem/buffer.zig:87-92 | one reference more, counted as a pin |
| BufferCaching.Cache.Unpin | src/kernel/filesystem/buffer.zig:94-99 | one pin less; the holder's own reference remains |
| BufferCaching.MoveToFront | src/kernel/filesystem/buffer.zig:74-84 | the pointer stores keep one cycle through every buffer, with this one first |
| BufferCaching.AgedMoved | src/kernel/filesystem/buffer.zig:74-84 | the list stays in order of last release |
| BufferCaching.Oldest | src/kernel/filesystem/buffer_cache.zig:51-60 | every buffer behind position k was released no later |
| BufferCaching.FreeIsClean | src/kernel/filesystem/buffer_cache.zig:51-60 | contents that nobody references are on the disk, so recycling loses nothing |
| Logging.Log.BeginOperation | src/kernel/filesystem/log.zig:129-143 | let in exactly when no commit is under way and ten more blocks fit beside all other reservations; a step of the account of log space |
| Logging.Log.LogWrite | src/kernel/filesystem/log.zig:210-228 | both panics exactly when the code raises them; otherwise the block is in the header once, and pinned once, and the account of log space makes the step of a new or a repeated block |
| Logging.Log.CopyToLog | src/kernel/filesystem/log.zig:178-188 | one round: the block's latest contents reach their log block; it fails exactly when header and readers hold every buffer, and then nothing was written |
| Logging.Log.WriteLog | src/kernel/filesystem/log.zig:177-189 | the log writes of the journal, in order, as many as were done, while readers come and go between rounds |
| Logging.Log.WriteHead | src/kernel/filesystem/log.zig:111-119 | one disk write, of the encoded header; it fails exactly when every buffer is held |
| Logging.Log.CopyHome | src/kernel/filesystem/log.zig:83-96 | one round: the log's contents reach the home block, and its pin goes; it fails exactly when every buffer is held |
| Logging.Log.InstallTransaction | src/kernel/filesystem/log.zig:82-97 | the install writes of the journal, in order, as many as were done, while readers come and go; when all are, no pin is left |
| Logging.Log.CommitToLog | src/kernel/filesystem/log.zig:193-194 | the commit point is reached, or only log blocks were written |
| Logging.Log.CommitHome | src/kernel/filesystem/log.zig:195-197 | together with the first half, exactly the journal's commit writes, or the front of them |
| Logging.Log.Commit | src/kernel/filesystem/log.zig:191-199 | for any readers, who may come and go: performs `Journal.CommitWrites` for the latest contents of the logged blocks, or as many of them as were possible before header and readers held every buffer; without newcomers it fails exactly when they do at the start, and then writes nothing; wherever it stops, recovery makes all home blocks old or all new |
| Logging.Log.EndOperation | src/kernel/filesystem/log.zig:146-164 | its reservation goes, as in the account of log space; the last operation commits, and until it has nobody gets in; "log commiting" is unreachable |
| Logging.Log.CommitAndReopen | src/kernel/filesystem/log.zig:165-173 | commit among any readers, then the log is open again |
| Logging.Log.ReadHead | src/kernel/filesystem/log.zig:100-107 | the header in memory is the one on the disk |
| Logging.Log.Recover | src/kernel/filesystem/log.zig:121-126 | performs exactly `Journal.RecoverWrites`; needs two free buffers, which an idle cache has |
| Logging.Restart | src/kernel/filesystem/log.zig:64-75 | from any recoverable disk, an empty cache and recovery give a log at rest on the recovered disk |
| Logging.AllBusy | src/kernel/filesystem/log.zig:191-199 | all buffers are referenced exactly when header and readers together hold as many blocks as there are buffers |
| Logging.OneReader | src/kernel/filesystem/file.zig:162-167 | a reader of a block outside the header needs one buffer more than the header's |
| Logging.Log.StartReading | src/kernel/filesystem/file.zig:162-167 | a process outside any operation reads a block: only who holds what changes; it fails only when no buffer is left |
| Logging.Log.OtherReaders | src/kernel/filesystem/file.zig:162-167 | any number of such processes start and stop reading: pins, contents and disk are as they were |
| Logging.CommitPerformed | src/kernel/filesystem/log.zig:191-199 | the four phases of commit put together are the journal's commit writes |
| Logging.StoppedCommit | src/kernel/filesystem/log.zig:191-199 | the front of a commit's writes leaves a recoverable disk: all home blocks old up to the header's write, all new from it on |
| Logging.RecoverPerformed | src/kernel/filesystem/log.zig:121-126 | reading, installing and clearing put together are the journal's recovery writes |
| Reservations.StepCovered | src/kernel/filesystem/log.zig:129-228 | header length plus unused reservations stays within 30 at every begin, newly logged block, block logged again, and end |
| Reservations.RunCovered | src/kernel/filesystem/log.zig:129-228 | and so over every run |
| Reservations.ReservationIsEnough | src/kernel/filesystem/log.zig:214 | no reachable operation with budget left is refused, if and only if the log has at least 31 blocks |
| Reservations.AgainRefused | src/kernel/filesystem/log.zig:214-222 | with a log of 31 blocks or more, a block logged again is refused exactly when the header holds 30, and then nobody has budget left |
| Reservations.AgainCanBeRefused | src/kernel/filesystem/log.zig:214-222 | such a state is reachable: three operations that used all of their budgets |
| Reservations.CommitCanRunOut | src/kernel/filesystem/log.zig:177-199 | with a given number of readers outside any operation, a reachable commit finds every buffer held if and only if the largest header the log allows and the readers make 30 |
| Reservations.NoSizeIsSafe | src/kernel/filesystem/log.zig:177-214 | a log of any size refuses an operation with budget left, or lets a commit run out of buffers with no reader at all; the shipped size does the first, and with one reader the second |
| Bitmap.PutBitMeaning | src/kernel/filesystem/diskblock.zig:95-110 | setting or clearing a bit changes that bit and no other |
| Bitmap.MarkedMeaning | src/kernel/filesystem/diskblock.zig:95-110 | marking a block changes its own mark and no other block's, across bytes and bitmap blocks |
| Files.FindFree | src/kernel/filesystem/diskblock.zig:112-118 | the first clear bit, or none is clear |
| Files.FileSystem.Allocate | src/kernel/filesystem/diskblock.zig:37-66 | the lowest free block, which nothing named, now marked and zeroed; fails exactly when all are used; no file changes |
| Files.FileSystem.Free | src/kernel/filesystem/diskblock.zig:69-82 | the mark is cleared; its caller always has it set, so markFree's panic is unreachable |
| Files.FileSystem.constructor | build/MakeFilesystemStep.zig:139-250 | the fresh image: every block before the file blocks is marked, every inode is empty, and the invariant holds |
| Files.FileSystem.AllocateAddr | src/kernel/filesystem/inode.zig:314-329 | an empty slot of the inode gets a block of its own, zeroed; nothing else is named differently; what changed is logged |
| Files.FileSystem.AllocateEntry | src/kernel/filesystem/inode.zig:336-340 | the same for an entry of the indirect block |
| Files.FileSystem.GetDirect | src/kernel/filesystem/inode.zig:310-318 | the direct block, allocated if missing |
| Files.FileSystem.GetIndirect | src/kernel/filesystem/inode.zig:329-340 | the block named in the indirect block, allocated if missing |
| Files.FileSystem.GetBlock | src/kernel/filesystem/inode.zig:309-342 | the one block that belongs to this file block; if it was missing it appears zeroed and every other file block of every inode is as it was; no allocation if it was there |
| Files.FileSystem.ReadNext | src/kernel/filesystem/inode.zig:402-414 | each round yields a non-empty piece of the file up to a block's end |
| Files.FileSystem.Read | src/kernel/filesystem/inode.zig:389-417 | exactly the slice asked for, clipped to the size; it fails exactly when the user cannot take all of that, and then the user has the front of it that fits; nothing is ever allocated or changed |
| Files.FileSystem.WriteNext | src/kernel/filesystem/inode.zig:431-445 | each round stores up to a block's end, or stops because no block is free or the user's bytes end before it; those there are stored and not logged |
| Files.FileSystem.Write | src/kernel/filesystem/inode.zig:422-457 | the file's byte sequence becomes the old one with the bytes stored laid over it from the offset, up to the new size; other files keep theirs; fewer are counted only when no block is free or a copy from the user fails; each error exactly when its test holds; only the bitmap, the inode's block and what serves the touched file blocks is logged, and every block changed is, but for one a failing copy got into; no other inode changes, no metadata but the bitmap, and every block that is newly named is logged |
| Files.FaultAtPiece | src/kernel/filesystem/inode.zig:438 | a failing copy stores nothing uncounted if and only if the byte it fails at is the first of the write or of a file block |
| Files.StrayByte | src/kernel/filesystem/inode.zig:438 | a run where it is not: no byte is reported written, and the file has changed |
| Files.StoredGained | src/kernel/filesystem/inode.zig:432-438 | a block that appears zeroed where there was none changes no byte of the file |
| Files.StoredContent | src/kernel/filesystem/inode.zig:447-456 | once the size is set there is no hole below it, and the content is the overlay |
| Files.FileSystem.FreeDirect | src/kernel/filesystem/inode.zig:349-354 | one direct slot gives up its block |
| Files.FileSystem.FreeEntry | src/kernel/filesystem/inode.zig:363-367 | one entry's block is freed; it was marked used |
| Files.FileSystem.FreeIndirect | src/kernel/filesystem/inode.zig:355-371 | all indirect blocks and then the block that names them |
| Files.FileSystem.Truncate | src/kernel/filesystem/inode.zig:346-373 | exactly the inode's blocks become free, the file is empty, every other file is untouched; only the bitmap and the inode's block are logged |
| Files.LoggedSize | src/kernel/filesystem/inode.zig:422-457 | a write logs at most the file blocks it touches, the indirect block and the bitmap |
| Files.FileSystem.FitsBudget | src/kernel/filesystem/file.zig:200 | with the inode's block, at most six blocks and the bitmap |
| Files.OpenFile.WriteChunk | src/kernel/filesystem/file.zig:200-216 | one operation of the chunked loop logs at most six blocks besides the bitmap, seven of the ten allowed when the bitmap is one block, and every block it changes but for one a failing copy got into |
| Files.OpenFile.Write | src/kernel/filesystem/file.zig:190-218 | all chunks together lay one stretch of the source over the file, from the old offset to the new, and what a failing copy stored behind it as far as the file goes; success exactly when it is the whole source; what was written before a failure stays |
| Files.OverlayTwice | src/kernel/filesystem/file.zig:202-216 | writing on where the last chunk ended is one longer write |
| Inodes.PutInodeWord | src/kernel/filesystem/inode.zig:126-132 | storing an inode in its block changes that record's size and addresses and no other word |
| Inodes.InodeRoundTrip | src/kernel/filesystem/inode.zig:146-152 | an inode stored in its block is read back, and every other record of the block is as it was |
| Inodes.UpdatedInodes | src/kernel/filesystem/inode.zig:180-187 | then the disk's inodes are as before, but for that one |
| Volumes.Volume.constructor | build/MakeFilesystemStep.zig:105-132 | a new image, read as the kernel reads it: its log is empty, its inodes are empty files, and the invariant holds |
| Volumes.BesideSound | src/kernel/filesystem/log.zig:191-199 | a disk that differs from what the cache presents only in free blocks and where a write failed holds a consistent file system, with the same files but for those bytes |
| Volumes.StepBeside | src/kernel/filesystem/log.zig:210-228 | an operation that logs what it changes leaves the disk differing from the cache only in logged blocks and there |
| Volumes.Volume.Update | src/kernel/filesystem/inode.zig:180-187 | the inode's block holds what the inode in memory holds; no file changes |
| Volumes.Volume.LayOver | src/kernel/filesystem/inode.zig:422-452 | what a write does to the files: the counted bytes are laid over this one, each refusal under its condition and without effect; what it changed is logged, but for the blocks in which its copy failed |
| Volumes.Volume.WriteInode | src/kernel/filesystem/inode.zig:422-457 | a write within a group, its inode's block included: the bytes that count are laid over the file, each refusal under its condition, and a bounded number of blocks is logged; it stops short of what the caller could read only with no free block left |
| Volumes.Volume.TruncateInode | src/kernel/filesystem/inode.zig:346-373 | a truncation within a group: that file is empty, the others are as they were |
| Volumes.Volume.Forget | src/kernel/filesystem/buffer_cache.zig:51-60 | a recycled buffer brings back at most bytes that a failed copy wrote over |
| Volumes.CommitBeside | src/kernel/filesystem/log.zig:191-199 | wherever a commit ends, the disk has the whole group or nothing of it, according to its header write |
| Volumes.Volume.Commit | src/kernel/filesystem/log.zig:165-199 | the same as files; after a crash the kernel starts over from what the disk then holds |
| Volumes.Volume.RunGroup | src/kernel/filesystem/log.zig:129-199 | operations committed together: afterwards the disk's own blocks hold a consistent file system, with the files the operations leave if their blocks fit in the log and the header was written, and with the old files if not |
| Volumes.Volume.AnyHistory | src/kernel/filesystem/log.zig:64-199 | after any groups of operations, crashes at any write of any commit and interrupted recoveries, the disk's own blocks hold a consistent file system without holes, with exactly the files that the durable groups leave, each group whole and in order, but for bytes of file blocks in which a durable group's write failed part-way |
| Volumes.RestartAfterCrash | src/kernel/filesystem/log.zig:64-126 | whatever number of a group's commit writes the disk got, restarting the log on it leaves the files of before the group or those after it, as the header says |
| Directories.Find | src/kernel/filesystem/directory.zig:40-59 | the first used entry of that name, or no used entry has it |
| Directories.LookupAfterLink | src/kernel/filesystem/directory.zig:62-89 | after a new entry its name is found in its slot, every other name is found where it was, and names are still unique |
| Directories.FileTree.constructor | build/MakeFilesystemStep.zig:139-153 | an empty root is consistent |
| Directories.FileTree.LookupChild | src/kernel/filesystem/directory.zig:40-59 | the scan is `Find` |
| Directories.FileTree.LinkEntry | src/kernel/filesystem/directory.zig:62-89 | refused for a name of more than 27 characters, a name already there, or a full directory that cannot grow, in that order and with nothing changed; otherwise one entry in the first vacant slot |
| Directories.FileTree.IsEmpty | src/kernel/filesystem/directory.zig:91-108 | true exactly when no entry from the third on is used |
| Directories.FileTree.Link | src/kernel/traps/sysfile.zig:112-157 | each error exactly when its test holds, with everything rolled back; on success the name, which nothing had, means the inode, every other name what it did, and the inode alone has one link more; consistent afterwards if and only if it failed or the directory is live; every ".." that was good stays good |
| Directories.FileTree.RemoveEntry | src/kernel/traps/sysfile.zig:202-220 | the name is gone and every other means what it did; one link less, for the directory too if a directory went; an inode without links is freed when nobody else holds it; every ".." stays good if and only if it does not free a directory that another's ".." names |
| Directories.FileTree.Unlink | src/kernel/traps/sysfile.zig:169-220 | always leaves a consistent tree; each refusal exactly when its test holds; on success the name is gone and every other means what it did, the inode has one link less, the parent too for a directory, and nothing else changed; the "nlink < 1" panic is unreachable; every ".." stays good if and only if it does not free a directory that another's ".." names |
| Directories.FileTree.Alloc | src/kernel/filesystem/inode.zig:158-174 | the lowest free inode, or none is free |
| Directories.FileTree.Reap | src/kernel/filesystem/inode.zig:262-287 | an inode without links goes with its last holder, and the tree stays consistent; every ".." stays good if and only if none names it |
| Directories.FileTree.StartDir | src/kernel/traps/sysfile.zig:258-264 | "." and ".." are the first two entries |
| Directories.FileTree.Fill | src/kernel/traps/sysfile.zig:247-272 | a new inode gets its entries and its name, or is given back whole |
| Directories.FileTree.CreateNew | src/kernel/traps/sysfile.zig:245-272 | for a name nothing has: the lowest free inode gets its entries and the name, and every other name means what it did; or every inode is restored |
| Directories.FileTree.Create | src/kernel/traps/sysfile.zig:224-273 | a taken name gives the existing inode exactly when a file is asked for and a file or device is there, and otherwise an error; a new name gives the lowest free inode with one link, its entries and its name, or an error whose test holds; any failure restores every inode; consistent afterwards if and only if nothing was made or the directory is live |
| Directories.LinksCountNames | src/kernel/traps/sysfile.zig:112-273 | in a consistent tree every link count is the number of live entries that name the inode, ".." counted and "." not |
| Directories.ReachedFromRoot | src/kernel/traps/sysfile.zig:112-273 | every live directory has a path of entries from the root |
| Directories.DotDotNamesParent | src/kernel/traps/sysfile.zig:262-263 | ".." of a live directory is found, and names the live directory holding it |
| Directories.RemovedConsistent | src/kernel/traps/sysfile.zig:202-220 | removing a file's or an empty directory's entry keeps names, counts and tree in order, and the name is gone |
| Directories.LinkedConsistent | src/kernel/traps/sysfile.zig:125-156 | a new link keeps the tree consistent if and only if its directory is live |
| Directories.CreatedConsistent | src/kernel/traps/sysfile.zig:245-272 | so does a new inode |
| Directories.FreedConsistent | src/kernel/filesystem/inode.zig:262-287 | freeing an inode nothing names keeps the tree consistent |
| Directories.DroppedParents | src/kernel/filesystem/inode.zig:262-287 | letting go of an inode keeps every ".." naming an inode in use, if and only if it is not the last hold on an unlinked inode that some ".." names |
| Directories.LinkedParents | src/kernel/traps/sysfile.zig:125-156 | a new link keeps every ".." good |
| Directories.CreatedParents | src/kernel/traps/sysfile.zig:245-272 | so does a new inode |
| Directories.RemovedParents | src/kernel/traps/sysfile.zig:202-220 | so does clearing an entry |
| Directories.ParentCanGo | src/kernel/traps/sysfile.zig:169-220 | in any tree, unlinking an empty directory that is held and then its parent leaves a ".." that names a free inode |
| Directories.ParentGone | src/kernel/traps/sysfile.zig:169-273 | such a run from an empty root, state by state: mkdir a, mkdir a/b, unlink b while it is held, unlink a |
| Directories.LoseParent | src/kernel/traps/sysfile.zig:169-273 | the calls themselves bring a new tree there |
| Directories.OrphanGetsFile | src/kernel/traps/sysfile.zig:245-272 | in the directory left over, create makes a file, and the link counts are wrong from then on |
| Directories.CreateLocks | src/kernel/traps/sysfile.zig:228-243 | in a live directory create never locks a free inode, and waits for its own lock exactly for "." and, in the root, ".." |
| PageTables.LookupIsFlat | src/kernel/memory/virtual_memory.zig:80-102 | the walk of section 4.3.2 of the RISC-V Privileged Architecture, with its leaves at every level, computes the flat map, but for pages whose permissions are a reserved encoding; it never meets a leaf above the last level |
| PageTables.PagesDistinct | src/kernel/memory/address.zig:136-140 | two pages below 2^38 that share an entry are the same page |
| PageTables.PageIndexOfPage | src/kernel/memory/address.zig:136-140 | shifting and masking an address gives the index of its page |
| PageTables.TableFlat | src/kernel/memory/virtual_memory.zig:93-98 | creating a table changes no translation of any address space |
| PageTables.LeafFlat | src/kernel/memory/virtual_memory.zig:33-38 | writing an entry inserts one page into the flat map and changes nothing else |
| PageTables.UnleafFlat | src/kernel/memory/virtual_memory.zig:48-61 | clearing an entry removes one page and changes nothing else |
| PageTables.PruneEnd | src/kernel/memory/user_memory.zig:94-108 | after all its entries, everything at or below a table is free and nothing else changed hands |
| PageTables.BareWhenUnmapped | src/kernel/memory/user_memory.zig:94-108 | an address space has no leaf below its root if and only if it maps nothing, so "freewalk: leaf" is reached exactly when some page is still mapped |
| PageTables.PrunedFlat | src/kernel/memory/user_memory.zig:94-108 | taking one address space apart changes no translation of another |
| PageTables.UnshareLinked | src/kernel/memory/user_memory.zig:129-133 | a page of the kernel's that no entry of any table maps can be given back without changing a translation |
| PageTables.UnusedNowhere | src/kernel/memory/allocation.zig:41-79 | a page on the list, or just taken from it, is mapped nowhere |
| AddressSpaces.PhysicalMemory.constructor | src/kernel/memory/allocation.zig:24-37 | after boot every frame between the kernel and the end of memory is on the list, the last first, and the invariant holds |
| AddressSpaces.PhysicalMemory.AllocPage | src/kernel/memory/allocation.zig:58-79 | the first free page, filled as asked; fails exactly when the list is empty |
| AddressSpaces.PhysicalMemory.FreePage | src/kernel/memory/allocation.zig:41-56 | back at the front of the list, filled with junk; refused exactly for a frame outside the range; a page in use cannot be passed |
| AddressSpaces.PhysicalMemory.AddTable | src/kernel/memory/virtual_memory.zig:93-97 | one frame from the list becomes a table, or the list was empty |
| AddressSpaces.PhysicalMemory.Walk | src/kernel/memory/virtual_memory.zig:80-102 | finds the page's entry, translates nothing differently, and takes exactly the frames of the tables missing on the way; out of memory exactly when the list has fewer; each other error exactly when its branch is taken |
| AddressSpaces.PhysicalMemory.MapPage | src/kernel/memory/virtual_memory.zig:33-38 | one page inserted, refused exactly when it was mapped, and out of memory exactly when the list has fewer frames than tables are missing |
| AddressSpaces.PhysicalMemory.Map | src/kernel/memory/virtual_memory.zig:19-40 | a range inserted page by page; after a failure exactly the pages before the failing one are mapped; not even the first exactly when that page is mapped or too few frames are free for its tables |
| AddressSpaces.PhysicalMemory.UnmapPage | src/kernel/memory/virtual_memory.zig:48-61 | one page removed, its frame freed exactly when asked |
| AddressSpaces.PhysicalMemory.Unmap | src/kernel/memory/virtual_memory.zig:45-62 | a range removed, its frames freed exactly when asked, and no other frame |
| AddressSpaces.PhysicalMemory.MapNewPage | src/kernel/memory/user_memory.zig:65-69 | a page in hand is mapped or given back |
| AddressSpaces.PhysicalMemory.Dealloc | src/kernel/memory/user_memory.zig:78-90 | exactly the whole pages between the two sizes are unmapped and freed |
| AddressSpaces.PhysicalMemory.ClearUser | src/kernel/memory/user_memory.zig:112-115 | that page is no longer the user's; its frame and permissions, and every other mapping, stay |
| AddressSpaces.PhysicalMemory.GrowPage | src/kernel/memory/user_memory.zig:62-70 | one zeroed page more, or one page short and nothing lost |
| AddressSpaces.PhysicalMemory.Alloc | src/kernel/memory/user_memory.zig:57-72 | every page up to the new size is a fresh zeroed frame with the rights asked for; on failure anywhere every mapping is as before and only tables were added; it cannot fail with three free frames a page and nothing in the way |
| AddressSpaces.PhysicalMemory.Present | src/kernel/memory/user_memory.zig:146-149 | a mapped page's entry |
| AddressSpaces.PhysicalMemory.AllocCopy | src/kernel/memory/user_memory.zig:151-154 | a fresh frame with the same bytes |
| AddressSpaces.PhysicalMemory.AddCopy | src/kernel/memory/user_memory.zig:151-157 | one page of the child, or one short and nothing lost |
| AddressSpaces.PhysicalMemory.UndoCopy | src/kernel/memory/user_memory.zig:143 | the child's pages are free again, every mapping as before the call |
| AddressSpaces.PhysicalMemory.CopyPageTable | src/kernel/memory/user_memory.zig:141-159 | the child has every page of the parent with equal bytes, permissions and user bit in a frame that was free; on failure nothing is mapped differently and no page is lost |
| AddressSpaces.PhysicalMemory.FreeChild | src/kernel/memory/user_memory.zig:99-105 | everything below an entry is free and the entry cleared, or the walk stops at a leaf, exactly when there is one |
| AddressSpaces.PhysicalMemory.FreeWalk | src/kernel/memory/user_memory.zig:94-108 | the table and all below it are free, each once, and nothing else; it stops at a leaf exactly when one is below |
| AddressSpaces.PhysicalMemory.FreeTable | src/kernel/memory/user_memory.zig:119-125 | all pages and all tables of the address space are free; it stops at a leaf exactly when a page is mapped beyond the size |
| AddressSpaces.PhysicalMemory.FreePageTable | src/kernel/memory/user_memory.zig:129-133 | every frame the address space had is free, the kernel's two shared pages are not, and every other address space is as it was; it stops at a leaf exactly when a page is mapped from the size up to those two |
| AddressSpaces.PhysicalMemory.CreateRoot | src/kernel/memory/user_memory.zig:24 | an empty root table that maps nothing |
| AddressSpaces.PhysicalMemory.CreatePagetable | src/kernel/memory/user_memory.zig:22-40 | exactly the trampoline and the trap frame are mapped, neither for the user; on failure at any point every frame is back; no page in use is written |
| AddressSpaces.RolledBack | src/kernel/memory/user_memory.zig:63-69 | unmapping and freeing all that was added leaves nothing but tables behind |
| AddressSpaces.PhysicalMemory.TranslateAddress | src/kernel/memory/user_memory.zig:163-170 | the flat map's frame exactly when the user may use the page; each error exactly when its test holds |
| AddressSpaces.PhysicalMemory.CopyOut | src/kernel/memory/boundary.zig:12-28 | succeeds exactly when the user has every address of the range; memory is then what setting the bytes one address after another makes of it, also when pages share frames, and after a failure the same for the bytes up to the first page that fails |
| AddressSpaces.WrittenChunk | src/kernel/memory/boundary.zig:21-23 | copying a piece of a page at once sets its bytes one after another |
| AddressSpaces.WrittenElsewhere | src/kernel/memory/boundary.zig:12-28 | no byte changes but at the places of the addresses written |
| AddressSpaces.WrittenBytes | src/kernel/memory/boundary.zig:12-28 | every byte is then at its address, when addresses that are the same place are given the same byte |
| AddressSpaces.PhysicalMemory.CopyIn | src/kernel/memory/boundary.zig:31-47 | succeeds exactly when the user has every address of the range, and then the destination is what the user sees |
| AddressSpaces.PhysicalMemory.RoundTrip | src/kernel/memory/boundary.zig:12-47 | what is copied out is copied in again, across pages, if and only if addresses that are the same place are given the same byte; with distinct frames they are |
| UserRights.CopyOutRights | src/kernel/memory/boundary.zig:12-28 | copying out changes nothing but bytes the user may write, for all bytes copied, if and only if the user may write every byte of the range |
| UserRights.OwnPageRights | src/kernel/memory/user_memory.zig:163-170 | a byte of a page of the process's own may be written at that page or nowhere |
| UserRights.OwnRangeRights | src/kernel/memory/boundary.zig:12-28 | for pages of the process's own the condition is that each has the write permission |
| UserRights.OverwritesCode | src/kernel/memory/boundary.zig:12-28 | a run in which a page its user may only read and execute is overwritten |
| ProcessMemory.AllocProcess | src/kernel/execution/process.zig:174-188 | a trap frame from the allocator and an address space with it: a process with no pages, all of it from free frames; or every frame is back |
| ProcessMemory.FreeProcess | src/kernel/execution/process.zig:218-230 | its pages, its tables and its trap frame are free; no other frame changes hands and no other address space changes; it stops at a leaf exactly when a page is mapped beyond the process's size, as those of an open ring are |
| ProcessMemory.ChangeSize | src/kernel/execution/process.zig:308-319 | the size changes by the difference or stays; every new page is the user's to read and write, not to execute, and holds zeros; every page below the smaller size keeps its mapping and its bytes; it fails for want of room only beyond the trap frame, with too few free frames, or with a page of a ring in the way, and never grows over one; taking off too much overflows; the process stays whole, and frames pass only between it and the list |
| ProcessMemory.ProcessLife | src/kernel/execution/process.zig:174-319 | made, grown and shrunk any number of times whatever fails, and freed: every frame's use is what it was, and every other mapping |
| ProcessMemory.Fork | src/kernel/execution/process.zig:330-336 | the child has every page of the parent byte for byte in frames that were free and nothing else, rings not included, and the parent is as it was; on failure, wherever it is, every frame is back, tables too |
| ProcessMemory.LoadSegment | src/kernel/filesystem/exec.zig:79-82 | a program's pages grow beside the old address space, the new ones with the segment's rights, with the trap frame mapped in both; never into the kernel's pages, whatever end the file names |
| ProcessMemory.LoadProgram | src/kernel/filesystem/exec.zig:58-94 | all segments loaded, up to the largest end, each page with the rights of the segment that brought it; or every frame is back; it fails only for want of room below the kernel's pages or of frames |
| ProcessMemory.LoadStack | src/kernel/filesystem/exec.zig:90-97 | two pages behind the program: a stack the user may read and write, and below it one the user may not use at all; the program's pages are as they were |
| ProcessMemory.Exec | src/kernel/filesystem/exec.zig:39-146 | on success the process has the new pages alone, each with the rights its segment asks for, a stack and a page below it that the user cannot reach, and the old address space is free; on failure at any point it has the old, and every frame is where it was; once the program is loaded it reaches the panic exactly when the old address space maps a page beyond the process's size |
| ProcessMemory.SpaceGrown | src/kernel/memory/user_memory.zig:57-72 | a process that grows is a process, and stops short of the kernel's pages |
| ProcessMemory.LifeLeavesNothing | src/kernel/execution/process.zig:174-241 | whatever was taken between making and freeing an address space, nothing is left of it |
| SleepWakeup.Preserved | src/kernel/execution/scheduler.zig:19-137 | every step of every process keeps locks, states and places in agreement |
| SleepWakeup.SpinLockExclusive | src/kernel/execution/scheduler.zig:103-120 | a spin lock has one holder |
| SleepWakeup.WaitsOrRunnable | src/kernel/execution/scheduler.zig:81-120 | a process that entered sleepWithLock leaves waiting only by being made runnable |
| SleepWakeup.PassingWakes | src/kernel/execution/scheduler.zig:124-137 | a waker that passes a waiting process's entry makes it runnable, though it may be anywhere between taking its own lock and being switched out |
| SleepWakeup.WokenForReason | src/kernel/execution/scheduler.zig:124-137 | a wakeup makes runnable only a process asleep on its channel, not the waker |
| SleepWakeup.NoLostWakeup | src/kernel/execution/scheduler.zig:81-137 | for any number of processes and any interleaving: a wakeup begun under the lock after a process entered sleepWithLock, and completed, makes that process runnable |
| SleepWakeup.Boot | src/kernel/execution/scheduler.zig:19-46 | the invariant holds at the start |
| SleepLocks.SafeKept | src/kernel/concurrency/sleeplock.zig:18-43 | every step keeps the lock's fields, owners and waiters in agreement |
| SleepLocks.AlwaysSafe | src/kernel/concurrency/sleeplock.zig:18-43 | and so in every reachable state |
| SleepLocks.OneHolder | src/kernel/concurrency/sleeplock.zig:18-50 | at most one process owns the lock, and isHolding is true of exactly that one, in every reachable state of any number of processes |
| SleepLocks.NobodyStranded | src/kernel/concurrency/sleeplock.zig:34-43 | while the lock is free and nobody is in its critical section, nobody waits for it |
| ProcessTables.DescendsFromInit | src/kernel/execution/process.zig:323-430 | from every process made runnable, zombies too, parent links lead to init through live parents |
| ProcessTables.PidsDiffer | src/kernel/execution/process.zig:170-172 | no two slots have the same process id |
| ProcessTables.FatesSettled | src/kernel/execution/process.zig:203-241 | a process id that was reaped or given up stays so: each zombie is reaped once |
| ProcessTables.ProcessTable.Alloc | src/kernel/execution/process.zig:203-213 | the first unused slot and a process id never given out before |
| ProcessTables.ProcessTable.Free | src/kernel/execution/process.zig:218-241 | the slot is unused again, and no process loses its parent by it |
| ProcessTables.ProcessTable.Fork | src/kernel/execution/process.zig:323-375 | one runnable child of the caller, or the table as it was; it fails exactly when there is no slot or no memory |
| ProcessTables.ProcessTable.LinkParent | src/kernel/execution/process.zig:358-364 | the child gets its parent, which is alive |
| ProcessTables.ProcessTable.StartChild | src/kernel/execution/process.zig:366-372 | the child may run |
| ProcessTables.ProcessTable.Wakeup | src/kernel/execution/scheduler.zig:124-137 | exactly the sleepers on the channel, the caller aside, may run |
| ProcessTables.ProcessTable.ReparentChildren | src/kernel/execution/process.zig:379-386 | every child of the process, and no other, now belongs to init; init, and nobody else, is awake if it slept for its children and there was one |
| ProcessTables.ProcessTable.Exit | src/kernel/execution/process.zig:391-430 | a zombie without children whose parent is not asleep in wait; for any process that is not inside a call of its own, which is the only kind that can call exit |
| ProcessTables.ProcessTable.Wait | src/kernel/execution/process.zig:433-467 | no children exactly when there are none; if any is a zombie, the first such is reaped with its status, or kept when the status cannot be stored; otherwise told that it was killed exactly when it was, and asleep if not |
| ProcessTables.ProcessTable.Kill | src/kernel/execution/process.zig:472-487 | exactly the process with that id is marked, and woken if it slept; fails exactly when there is none |
| ProcessTables.ProcessTable.AnyRun | src/kernel/execution/process.zig:170-487 | any calls by any processes in any order keep the table's invariant; no process id is ever reaped twice, and what became of an id stays so |
| ProcessTables.ExitedGood | src/kernel/execution/process.zig:412-425 | exit keeps the process tree, and no parent sleeps over a zombie |
| DiskQueue.ReaderSees | src/kernel/drivers/virtio/diskdriver.zig:267-269 | comparing 16-bit indexes tells exactly whether there is an entry to read, and the slot holds the next one, wrapped or not |
| DiskQueue.WriterFills | src/kernel/drivers/virtio/diskdriver.zig:231 | writing the next slot overwrites no entry still to be read |
| DiskQueue.WriterSteps | src/kernel/drivers/virtio/diskdriver.zig:236 | advancing the index adds exactly that entry |
| DiskQueue.Accounted | src/kernel/drivers/virtio/diskdriver.zig:117-168 | free descriptors and three for every request in flight make eight |
| DiskQueue.ChainRead | src/kernel/drivers/virtio/diskdriver.zig:198-224 | a device that follows a chain finds the header, the buffer with the right direction, and the status byte |
| DiskDrivers.Driver.AllocDescriptor | src/kernel/drivers/virtio/diskdriver.zig:117-125 | the first free descriptor; fails exactly when none is |
| DiskDrivers.Driver.FreeDescriptor | src/kernel/drivers/virtio/diskdriver.zig:128-140 | free again and cleared; both panics are unreachable |
| DiskDrivers.Driver.AllocDescriptors | src/kernel/drivers/virtio/diskdriver.zig:159-168 | refused exactly when fewer descriptors are free than asked for, with none taken; otherwise that many distinct ones that were free |
| DiskDrivers.Driver.FreeChain | src/kernel/drivers/virtio/diskdriver.zig:143-155 | exactly the three descriptors of the chain are freed |
| DiskDrivers.FormattedGood | src/kernel/drivers/virtio/diskdriver.zig:198-228 | with a request's three descriptors filled in, the driver's invariant holds and the device that follows the chain finds the request |
| DiskDrivers.Driver.WriteEntry | src/kernel/drivers/virtio/diskdriver.zig:230-231 | the ring entry is in place and no unread entry was overwritten, whatever the device did meanwhile |
| DiskDrivers.Driver.Publish | src/kernel/drivers/virtio/diskdriver.zig:230-240 | the request is in flight exactly once |
| DiskDrivers.Driver.Submit | src/kernel/drivers/virtio/diskdriver.zig:179-240 | a request for this buffer and block is in flight, or nothing was taken: exactly when fewer than three descriptors were free, that is, when two requests were in flight |
| DiskDrivers.Driver.HandleOne | src/kernel/drivers/virtio/diskdriver.zig:268-279 | one completion handled, of a request in flight that had not been handled; only a failed status stops it |
| DiskDrivers.Driver.Interrupt | src/kernel/drivers/virtio/diskdriver.zig:251-281 | every completion there is handled once, in the order of the used ring, for any order of completion |
| DiskDrivers.Driver.Finish | src/kernel/drivers/virtio/diskdriver.zig:242-248 | the request is gone, its descriptors are free, and buffer and block hold what it was to transfer |
| DiskDrivers.OwnRequestDone | src/kernel/drivers/virtio/diskdriver.zig:242-245 | a buffer the device no longer owns has had its own request completed and handled |
| DiskDrivers.Driver.DeviceRuns | src/kernel/drivers/virtio/diskdriver.zig:226-240 | any steps of a device that takes, transfers or refuses, and pushes chains in any order keep the driver's invariant |
| DiskDrivers.Kernel.ThreeEachAndFree | src/kernel/drivers/virtio/diskdriver.zig:117-168 | whenever the lock is free, free descriptors plus three per request equal eight |
| DiskDrivers.Kernel.Begin | src/kernel/drivers/virtio/diskdriver.zig:190-240 | a process's request is in flight and remembered as its own, or nothing changed: exactly when two requests were in flight |
| DiskDrivers.Kernel.End | src/kernel/drivers/virtio/diskdriver.zig:242-249 | it takes back its own request and no other |
| DiskDrivers.Kernel.ReadOrWrite | src/kernel/drivers/virtio/diskdriver.zig:178-249 | among any other processes, interrupts and device steps, it returns only after its own request completed, with buffer and block equal to what the one or the other held at the call; if it does not return, it waits for descriptors, for its own request, or the kernel has stopped |
| RingMemory.Activate | src/kernel/datastructures/ringbuf.zig:48-79 | sixteen pages and one of zeroed counters, all different and all free before; it fails exactly when fewer than 17 are free, and then every one is back |
| RingMemory.Open | src/kernel/datastructures/ringbuf.zig:199-211 | the pages are mapped twice in a row, from the top down, and the counters below, for the user to read and write; nothing else is mapped differently, and after a failure exactly the pages before it; that is none exactly when the first page is mapped already or too few frames are free for its tables |
| RingMemory.Close | src/kernel/datastructures/ringbuf.zig:111-118 | all 33 pages are unmapped, and no frame changes hands |
| RingMemory.Deactivate | src/kernel/datastructures/ringbuf.zig:82-92 | every page of a ring that is mapped nowhere is free again, each once |
| RingMemory.RingLife | src/kernel/datastructures/ringbuf.zig:48-123 | opened by two processes, closed by both and given up: every mapping is as it was, and no frame changed hands but for tables; no pages exactly when fewer than 17 are free; given back at once exactly when the first process's first mapping fails; after any later failure pages on their way to the list are mapped |
| RingMemory.CanUndo | src/kernel/datastructures/ringbuf.zig:194-207 | after an open, failed or not, the ring's pages are mapped nowhere if and only if it mapped none and nobody had the ring mapped before |
| RingMemory.HalfOpened | src/kernel/datastructures/ringbuf.zig:194-207 | a run in which the first page is mapped and a later one is not, so that pages to be freed are mapped |
| RingMemory.RingHeld | src/kernel/datastructures/ringbuf.zig:194-207 | while a process has the ring open, its pages are not to be freed |
| RingMemory.SecondOpenFails | src/kernel/datastructures/ringbuf.zig:194-207 | a run in which a second process fails at its first page, and the pages to be freed are the first one's |
| RingMemory.ProcessOpened | src/kernel/datastructures/ringbuf.zig:199-211 | a process that opens a ring is still a process, with pages mapped beyond its size |
| RingMemory.OpenThenExec | src/kernel/filesystem/exec.zig:143-146 | a run: a process opens a ring and calls exec, and freeing the old address space stops at a leaf |
| RingMemory.RingThenExit | src/kernel/execution/process.zig:218-230 | a process that opens a ring, closes it and exits leaves every frame's use and every mapping as they were, unless its open failed after the first page; with enough free frames it does not fail |
| RingMemory.SameByte | src/kernel/datastructures/ringbuf.zig:199-219 | offsets x and x + capacity are the same byte, and different offsets below the capacity are different bytes |
| Rings.Ring.ReaderLoadsWrite | src/user/ulib/uringbuf.zig:39-43 | the reader's slice is contiguous, within the double mapping, and all that is committed and not consumed |
| Rings.Ring.ReadByte | src/user/ulib/uringbuf.zig:39-43 | whatever the writer has done since, a byte of the slice is the committed byte |
| Rings.Ring.ReaderChecks | src/user/ulib/uringbuf.zig:45 | the assertion, on the counter as loaded before, stops the reader exactly when that many bytes were not there then, and never one that gives back no more than its slice |
| Rings.Ring.ReaderAdds | src/user/ulib/uringbuf.zig:46 | consumes the next bytes of the stream, whatever was committed since |
| Rings.Ring.WriterLoadsWrite | src/user/ulib/uringbuf.zig:48-52 | the writer's slice is contiguous and was free when it looked |
| Rings.Ring.WriteByte | src/user/ulib/uringbuf.zig:48-52 | changes one byte, which is no committed byte still to be consumed |
| Rings.Ring.WriterChecks | src/user/ulib/uringbuf.zig:54 | the assertion, on the counter as loaded before, stops the writer exactly when it would not have fitted then, and never one that commits no more than its slice |
| Rings.Ring.WriterAdds | src/user/ulib/uringbuf.zig:55 | commits what is in memory behind the stream |
| Rings.Ring.AnyRun | src/user/ulib/uringbuf.zig:39-56 | under any interleaving of the two sides, each load of the other's counter, check and addition a step of its own, the bytes consumed are a prefix of the bytes committed, and the fill stays between 0 and the capacity |
| Rings.Ring.RegionsApart | src/user/ulib/uringbuf.zig:39-52 | the slices held by the two sides never overlap |
| Pipes.FromMore | src/kernel/filesystem/pipe.zig:91-99 | committing a chunk appends it to what its writer has put in and to nobody else's |
| Pipes.TakenMore | src/kernel/filesystem/pipe.zig:119-131 | taking a chunk appends exactly those bytes to what its reader has taken |
| Pipes.Pipe.WriteRound | src/kernel/filesystem/pipe.zig:76-100 | no reader, killed, asleep or done exactly as the code tests; otherwise a non-empty chunk is committed and no unread byte is overwritten, also by a copy that fails halfway |
| Pipes.Pipe.ReadRound | src/kernel/filesystem/pipe.zig:119-131 | the next bytes of the stream, in order, or nothing |
| Pipes.Pipe.TakeAvailable | src/kernel/filesystem/pipe.zig:117-132 | the copying loop takes as many bytes as there are, up to the count, unless a copy failed, and they are the reader's own share of the stream |
| Pipes.Pipe.Others | src/kernel/filesystem/pipe.zig:67-137 | whatever others write, read or close, occupancy stays within 512 and one process's share is untouched |
| Pipes.Pipe.Write | src/kernel/filesystem/pipe.zig:67-105 | for any interleaving, exactly the bytes reported went in, in order; it ends with all of them in, at a copy that failed, without a reader, or killed |
| Pipes.Pipe.Read | src/kernel/filesystem/pipe.zig:107-137 | for any interleaving, exactly the bytes returned came out, as the next of the stream when they were taken; without a failed copy as many as there were, up to the count; none only at the end of the stream, with nothing left and nobody to write |
| Heaps.Allocator.FindPlace | src/user/ulib/umalloc.c:30-32 | the search stops, within one round, between the two free blocks around `b` |
| Heaps.Searching | src/user/ulib/umalloc.c:30-32 | each step either finds the place or leaves fewer free blocks to try |
| Heaps.Allocator.Free | src/user/ulib/umalloc.c:24-44 | the block is free within one block that touches no other; every allocated block keeps its size and memory |
| Heaps.CoalescedStores | src/user/ulib/umalloc.c:33-42 | the stores of free are insertion followed by the merges at both seams |
| Heaps.CoalescedIsGood | src/user/ulib/umalloc.c:33-42 | one cycle in address order, blocks that partition the memory, no two free blocks touching |
| Heaps.Allocator.Morecore | src/user/ulib/umalloc.c:46-61 | a free block of the size asked for, and of 4096 headers at least, or nothing changed |
| Heaps.Allocator.Start | src/user/ulib/umalloc.c:70-73 | the first call sets up a list of `base` alone |
| Heaps.Allocator.HandOut | src/user/ulib/umalloc.c:75-84 | a block of exactly that size, taken whole or from the tail |
| Heaps.Allocator.Malloc | src/user/ulib/umalloc.c:63-90 | a new block that overlaps no other, with room for the bytes asked for and less than a header too much; memory is asked for at most once and only when no free block has the room; it fails only when that is refused |
| Heaps.Disjoint | src/user/ulib/umalloc.c:24-90 | blocks never overlap |
| Heaps.LiveApart | src/user/ulib/umalloc.c:63-90 | two allocated blocks never overlap |
| Heaps.SplitTiled | src/user/ulib/umalloc.c:78-82 | carving off the tail leaves a partition |
| Heaps.GrowTiled | src/user/ulib/umalloc.c:54-58 | memory from sbrk joins the partition as one block |
| ShellSyntax.LineRead | src/user/sh.c:345-373 | a written line is read as its tree, up to whatever may follow it |
| ShellSyntax.WrittenIsParsed | src/user/sh.c:328-447 | every line of the language, however it is spaced, is parsed, and its tree is the one its pipelines, redirections, "&" and ";" mean |
| ShellSyntax.NothingElse | src/user/sh.c:328-447 | whatever is parsed is such a line, and the tree is its tree |
| ShellSyntax.TreesParsed | src/user/sh.c:328-447 | a tree comes of some text if and only if its words are words and no command has more than nine |
| Shell.Parser.GetToken | src/user/sh.c:266-309 | the token and the rest that the grammar reads |
| Shell.Parser.Peek | src/user/sh.c:311-321 | whether the next token starts with one of the characters, and white space is passed |
| Shell.Parser.ParseRedirs | src/user/sh.c:375-398 | wraps the command in the redirections the grammar reads, and fails exactly when it does |
| Shell.Parser.ParseArguments | src/user/sh.c:431-446 | the words and redirections the grammar reads, in the order read |
| Shell.Parser.ParseExec | src/user/sh.c:416-447 | agrees with the grammar, failures included, and terminates |
| Shell.Parser.ParseBlock | src/user/sh.c:400-414 | agrees with the grammar |
| Shell.Parser.ParsePipe | src/user/sh.c:362-373 | agrees with the grammar |
| Shell.Parser.ParseLine | src/user/sh.c:345-360 | agrees with the grammar |
| Shell.Parser.NulTerminate | src/user/sh.c:449-494 | a NUL at every end mark of the command and no other change |
| Shell.Parser.ParseCmd | src/user/sh.c:328-343 | fails exactly when the grammar does; otherwise the command read back from memory as C strings is the command that was parsed |
| Shell.ArgumentBelow | src/user/sh.c:427-443 | adding an argument below redirections already wrapped is adding it before them |
| Shell.MarksOutside | src/user/sh.c:449-494 | an end mark never falls on a character of a word |
| Shell.MarkedStrings | src/user/sh.c:449-494 | with the marks written, every argument and file string is exactly its token's text |
| Patterns.MatchHere | src/user/grep.c:84-95 | true exactly when the text's front falls into stretches covered by the pattern's elements |
| Patterns.MatchStar | src/user/grep.c:98-105 | the same for a starred character followed by a pattern |
| Patterns.Match | src/user/grep.c:71-81 | true exactly when some position matches, the first only after a caret |
| Patterns.OneMatches | src/user/grep.c:92-93 | what one character more means |
| Patterns.ManyMatches | src/user/grep.c:98-105 | a star takes nothing, or one character and stays |
| Grep.Reader.Read | src/user/grep.c:17 | a read returns some of what is left, and nothing only at the end or for no room |
| Grep.Reader.FindNewline | src/user/grep.c:21 | strchr stops at a newline, a NUL or the end |
| Grep.Reader.OneLine | src/user/grep.c:21-28 | one line is printed if it matches, and the buffer is as it was |
| Grep.Reader.PrintLines | src/user/grep.c:20-28 | all whole lines in the buffer are dealt with, none twice |
| Grep.Reader.Pass | src/user/grep.c:17-32 | one pass prints what can be printed and keeps the rest at the buffer's front |
| Grep.Reader.Grep | src/user/grep.c:10-34 | the output depends on the input alone, however reads split it |
| Grep.PrintedAndUnseen | src/user/grep.c:10-34 | the matching lines are what is printed and the matching lines among those never seen |
| Grep.ManageableIsPrinted | src/user/grep.c:10-34 | for input without NULs and with lines of at most 1023 bytes, exactly the matching newline-terminated lines, in order |
| Grep.PrintsAll | src/user/grep.c:10-34 | all of them are printed if and only if, from the first line that cannot be found on, none matches |
| Grep.LongLineLost | src/user/grep.c:17 | a line of 1023 characters is lost though it matches, and a matching line after it |

## Left out

- Buffer holders within one round of a commit: others start and stop reading between rounds, not inside one.
- Types and link counts of inodes, directories and the allocation of inodes in what is said about crashes:
  `Volumes.Volume.AnyHistory` is about the contents of files, and the words of a record that hold a type and a
  link count stay as they are. The directories of `Directories.FileTree` are values.
- Volumes.Volume.RunGroup: runs the operations of a group one after another, as the locks of their inodes make
  those on one inode run; it does not interleave operations on different inodes.
- BufferCaching.Cache.Release: takes it that the buffer's contents are on the disk or pinned. A write whose copy
  fails part-way releases one that is neither; what can become of that is in `Volumes.Volume.Forget`.
- Link counts are 16 bits wide in an inode and unbounded here.
- ProcessMemory.FreeProcess: frees the trap frame after the address space that maps it; the source frees it
  before (process.zig:222-230), while the process no longer runs.
- Device numbers: one file system device, so a block is its number. Device files and the console.
- The superblock and its checks; the size of the root directory as the image builder rounds it up.
- Counters that wrap: the pipe's 32-bit counters, the ring's 64-bit ones, process ids, file offsets beyond the
  checks the code makes. The virtqueue's 16-bit indexes do wrap in the model.
- Heaps.Allocator.Malloc: does not model requests of 2^31 bytes or more, because `sbrk` takes an int.
- Page-table entries as 64-bit words, their accessed, dirty and global bits, the kernel's own page table.
- `copyInString`, `copyOutTerminated`, `loadFirstProcess`: shorter loops over what `copyIn` and
  `copyOut` already do.
- ELF files, the arguments on the stack, and the owners of rings and the current directory across `fork`,
  `exec` and `exit`; `ProcessMemory.Exec` takes the program's segments as given, and whether the rest succeeds.
- SleepWakeup.NoLostWakeup: does not say that a woken process gets a CPU, because the scheduler's fairness is
  not modelled.
- The exec node of the shell, which is filled in place below the redirections already wrapped around it, is
  replaced as a value (`Shell.AddArgument`); the parser's own cursor and the line are changed in place.
- Shell commands are parsed, not run; the nodes' allocation is not modelled.
- Directories.FileTree.Create: does not model path resolution, reference counts of the inode table, or
  contents of files; whether somebody else holds an inode, and whether the disk has room for one more entry,
  are parameters.
- Locks between directory operations: each call runs alone, as it does while it holds the locks it takes.
- Memory barriers, device registers, feature negotiation, and lost interrupts: memory is sequentially
  consistent and the device is the one of `DiskDrivers.Driver`.
- Names, owners and reference counts of the kernel's ring table. After a mapping failed its open frees the
  ring's pages and then panics because the ring has an owner (ringbuf.zig:194-198).
- RingMemory.RingLife: ends when a later mapping than the first fails, with pages that are mapped about to be
  freed, and so does a process in `RingMemory.RingThenExit`.
- ProcessMemory.Exec: ends when freeing the old address space meets a leaf, which is a panic; so do
  `ProcessMemory.FreeProcess` and `AddressSpaces.PhysicalMemory.FreePageTable`.
- Pipes.Pipe.Read: says when it may return and what, and not that a reader asleep is woken; a writer that is
  killed does not wake readers.
- ProcessTables.ProcessTable.Exit: does not model closing files. Its `requires` leaves out a process between two
  steps of its own fork, because a process makes one call at a time.
- `kill` of process id 0 and mappings without permissions.
- Read errors in grep, which end its loop like the end of the file; its `main`.
