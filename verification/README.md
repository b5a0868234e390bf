# Verified models of xv6

A Dafny model of the hard parts of xv6 for RISC-V: the write-ahead log and buffer cache under
crashes, block allocation and file contents, directories and link counts, page tables and user
memory, fork and exec, sleep and wakeup, the process table on many CPUs, pipes, the virtio disk
driver, the user-level allocator, and the parsers of grep and sh. `dafny verify dfyconfig.toml`
checks the whole project.

Code that updates fields, lists and buffers in loops is a class or a method with loops, proved
against a specification. Code whose point is concurrency (log and cache, sleep and wakeup, process
table, pipes) is a machine whose steps are the critical sections, and the results are about every
state of every run.

| modules | part of xv6 |
|---|---|
| LogFormat, LogProtocol, LogInvariant, LogSteps, LogTheorems, LogSpace, LogDevice | kernel/log.c with crashes |
| BufferSlots, BufferCache | kernel/bio.c |
| DiskFormat, FileBlocks, BlockCost, ChangeLog, FileSystem, FileWrite | kernel/fs.c, kernel/file.c |
| DirEntries, DirTree, Directories, LinkLimit | kernel/sysfile.c, directories of kernel/fs.c |
| PageFormat, PageTree, PageFrames, Vm, UserMemory, UserCopy | kernel/vm.c, kernel/kalloc.c |
| ProcMemory, ExecStack, Exec | memory of kernel/proc.c, kernel/exec.c |
| SleepWakeup, SleepLocks, ProcTable, ProcInvariant, ProcSteps, ProcOrphans, ProcTheorems, ProcWaits | kernel/proc.c, kernel/sleeplock.c |
| PipeBuffer, Pipes, PipeCalls | kernel/pipe.c |
| VirtioDisk, DiskWaiters | kernel/virtio_disk.c |
| Umalloc, Grep, ShellGrammar, ShellSyntax, ShellWords, ShellTokens, Shell | user programs |

## Findings

Properties that the code does not have, each with the condition under which it does.

- Log space: mkfs gives the log LOGSIZE blocks including the header (mkfs/mkfs.c:25), and log_write
  panics at one block less (kernel/log.c:220-221). Three calls that each log MAXOPBLOCKS blocks, as
  begin_op allows, reach that panic (LogSpace.ThreeFullCallsPanic). Budgets below MAXOPBLOCKS never
  do, and no other budget is safe (LogSpace.BudgetIff). filewrite stays below on a disk with one
  bitmap block (FileWrite.WriteTransaction).
- Torn writes: when the copy of writei fails part-way (kernel/fs.c:522-525), what was copied stays in
  a buffer that is released without log_write. This happens if and only if the readable source ends
  inside the write, not at a block boundary, and the blocks that are free before the call last up to
  that block (FileSystem.FileSystem.Writei, and FileSystem.FileSystem.TornByte for a concrete call).
- Pipes: a writer that gives up because it was killed (kernel/pipe.c:84-87) does not wake readers. A
  reader then sleeps with bytes in the pipe if and only if the writer had written since it got the
  lock, or an earlier one left the readers so, and a reader slept (Pipes.KilledExitLoses, and
  Pipes.KilledWriterStrandsReader for a run). Order and bound of the pipe do not suffer
  (Pipes.InOrder).
- A byte is lost when copyout fails in piperead: it has left the pipe before the copy
  (kernel/pipe.c:121-125). This happens only when the destination ends before n bytes, and then to one
  byte (PipeCalls.ReaderBytes).
- kill is not noticed by a process between the look of wait at p->killed and its sleep
  (kernel/proc.c:443-449): it can sleep killed until a child exits (ProcWaits.KillTooLate). Killed at
  any other point it does not sleep in wait again (ProcWaits.KilledStaysAwake).
- Removed directories and full link counts: create and link do not look at the link count of the
  directory (kernel/sysfile.c:251-285 and 149-152), and a count is a short (kernel/file.h:27,
  kernel/fs.h:36) that link and mkdir increment without a bound (kernel/sysfile.c:145 and 284). Link
  counts, names and the tree stay right if and only if the directory has links and the count that is
  incremented, of the file for link and of the parent for mkdir, was below 32767
  (DirTree.CreatedValid, Directories.Directories.Link). At 32767 one more link makes the count
  negative, and the next unlink of the file panics (Directories.Directories.OneLinkTooMany; such a
  state exists, LinkLimit.CountFull).
- mkfs rounds the size of the root directory up to the next block even when it is a multiple already
  (mkfs/mkfs.c:163-168). That leaves a hole below the size exactly in that case
  (FileBlocks.RootRounding).
- exec with exactly MAXARG strings that fit stores the final 0 of its pointers past the end of the
  array (kernel/exec.c:91-105); with any other number it does not (ExecStack.PushArgs). sys_exec never
  passes as many (kernel/sysfile.c:446-449).

## Model

| member | source | states |
|---|---|---|
| LogTheorems.CrashAtomicity | kernel/log.c:67-203 | in every run of concurrent calls, commits and readers, a crash at any step followed by recovery, with any number of further crashes during it, leaves the home blocks equal to the replay of a prefix of the log_writes made so far; the prefix splits no call and has every log_write whose commit had returned |
| LogTheorems.CommitIsDurable | kernel/log.c:144-203 | when a commit returns no call is open and it covers every log_write so far; from then on, through all later commits and crashes of the run, those log_writes stay a prefix of the history and among the ones whose commits returned |
| LogTheorems.CommittedSurvives | kernel/log.c:116-203 | after a commit has returned, recovery from any later crash replays a prefix of the history that contains every log_write the commit covered |
| LogTheorems.ReturnedStays | kernel/log.c:67-203 | no step of a run, a crash included, shortens or changes the part of the history whose commits returned |
| LogTheorems.EveryStateRecovers | kernel/log.c:67-203 | in every state of every run, recovery from the disk alone gives the replay of the log_writes up to the last committing header write |
| LogTheorems.RecoveryKeepsHistory | kernel/log.c:116-123 | recovery steps, and crashes during recovery, leave the committed history as it is |
| LogTheorems.TransactionsCloseBetweenCalls | kernel/log.c:144-175 | the committing header is written only when no call is between begin_op and end_op, and covers every log_write so far |
| LogTheorems.OpenCallsAreUncommitted | kernel/log.c:125-175 | a call between begin_op and end_op has no log_write among the committed ones |
| LogTheorems.BreadReturnsLatest | kernel/bio.c:91-103 | the buffer that bread returns holds what the last log_write recorded for its block, whatever commits, evictions and other calls are under way |
| LogTheorems.OneBufferPerBlock | kernel/bio.c:55-89 | no two buffers hold the same block in any state of any run |
| LogTheorems.LoggedBlockStaysCached | kernel/log.c:205-235 | a block that is logged and not yet installed keeps its buffer, valid, through every step but a crash |
| LogTheorems.RunInv | kernel/log.c:67-235 | the invariant of log, cache and disk holds in every state of every run |
| LogTheorems.CommitterGoesOn | kernel/log.c:144-203 | in every state of every run, a committer that holds the buffers of its phase can take its next step, from write_log to the return of the commit, and the blocks that it takes from the cache are there |
| LogSteps.StepKeeps | kernel/log.c:67-235 | each of the nineteen kinds of step keeps the invariant |
| LogFormat.HoldsIffRecovers | kernel/log.c:67-123 | the condition "the log has the wanted contents of the listed blocks and the other home blocks are in place" holds if and only if recovery produces the wanted home blocks |
| LogFormat.HeadCommits | kernel/log.c:99-114 | writing the header over a complete log switches what recovery produces to the new contents in one block write |
| LogFormat.HeadClears | kernel/log.c:99-114 | once every listed block is home, emptying the header does not change what recovery produces |
| LogFormat.PutHeader | kernel/log.c:99-114 | the written header reads back as the list of blocks |
| LogDevice.Log.RecoverFromLog | kernel/log.c:116-123 | leaves the recovered home blocks and an empty log; the disk after each of its writes recovers to the same home blocks |
| LogDevice.Log.Commit | kernel/log.c:193-203 | the disk images after its writes fall into two runs: the first recovers to the home blocks from before, the second to those in the cache |
| LogDevice.Log.InstallTrans | kernel/log.c:67-83 | installs every listed block; each disk image on the way recovers to the same home blocks |
| LogDevice.Log.WriteLog | kernel/log.c:177-191 | copies the cached blocks to the log while every image on the way recovers to the old home blocks |
| LogDevice.Log.WriteCommitHead | kernel/log.c:99-114 | after this one block write the disk recovers to the cached blocks |
| LogDevice.Log.EraseLog | kernel/log.c:193-203 | empties the header without changing what the disk recovers to |
| LogDevice.Log.LogWrite | kernel/log.c:205-235 | adds the block once; which of the two panics is reached, exactly |
| LogDevice.Log.ReadHead | kernel/log.c:85-97 | the list read is the one in the header block |
| LogDevice.Log.WriteHead | kernel/log.c:99-114 | the header block reads back as the list, other blocks as before |
| LogSpace.BudgetIff | kernel/log.c:125-142 | on the disk that mkfs makes, runs in which each call logs at most k distinct blocks never reach the panic of log_write if and only if k is less than MAXOPBLOCKS |
| LogSpace.NeverTooBig | kernel/log.c:205-235 | with a log of LOGSIZE blocks and calls of at most MAXOPBLOCKS - 1 distinct blocks, the guard of the panic is false in every state of every run |
| LogSpace.ThreeFullCallsPanic | mkfs/mkfs.c:25 | a run with the log of mkfs in which three calls stay within MAXOPBLOCKS blocks and the next log_write panics |
| LogSpace.ReservationsFit | kernel/log.c:125-142 | while calls stay within MAXOPBLOCKS blocks, the logged blocks and all that open calls may still log fit in LOGSIZE |
| BufferCache.Bcache.constructor | kernel/bio.c:36-53 | the list of buffers is a circular doubly linked permutation, with buffer NBUF - 1 in front |
| BufferCache.Bcache.Bget | kernel/bio.c:55-89 | finds the buffer of a cached block; otherwise recycles the least recently released unreferenced buffer; panics if and only if all are referenced; the links stay a permutation |
| BufferCache.Bcache.Brelse | kernel/bio.c:114-137 | drops a reference; the last one moves the buffer to the front and keeps the order of the others |
| BufferCache.HolderKeepsBlock | kernel/bio.c:114-151 | from a bget or bpin until the brelse or bunpin that drops that reference, through any calls of others, the buffer holds the same block: bget recycles no buffer that somebody refers to |
| BufferCache.CallsCount | kernel/bio.c:55-151 | in any run of such calls refcnt is the number of references that are held |
| BufferCache.MoveLinks | kernel/bio.c:114-137 | the six assignments of brelse turn the links of one order into those of the order with the buffer in front |
| BufferCache.OldestUnreferenced | kernel/bio.c:70-85 | the first unreferenced buffer met backwards is the least recently released one |
| FileSystem.FileSystem.constructor | mkfs/mkfs.c:75-130 | an image without files meets the invariant: only metadata blocks are marked |
| FileSystem.FileSystem.MarkFirst | mkfs/mkfs.c:234-248 | marks exactly the first blocks in the bytes of the bitmap |
| FileSystem.FileSystem.Balloc | kernel/fs.c:63-88 | returns the lowest free block, zeroed, and marks that bit and no other, or 0 if and only if no block is free; logs the bitmap block and the block |
| FileSystem.FileSystem.Bfree | kernel/fs.c:90-105 | clears that bit and no other; panics if and only if it was clear |
| DiskFormat.MarkedAt | kernel/fs.c:75-77 | setting or clearing a bit of a byte through the mask 1 << k changes bit k and no other |
| DiskFormat.MaskShifts | kernel/fs.c:74 | the masks are 1 << k |
| DiskFormat.PutBitShows | kernel/fs.c:72-80 | writing the bit of a block in the byte bitmap changes the set of marked blocks by that block |
| DiskFormat.PutThenGet | kernel/fs.c:407-414 | storing word j of an indirect block changes that little-endian word and no other |
| FileSystem.BitmapIsExact | kernel/fs.c:63-105 | in every state that meets the invariant, which Balloc, Bfree, Bmap, Itrunc and Writei keep, the marked blocks are the metadata and the blocks that inode slots hold, and no block is in two slots |
| FileSystem.FileSystem.Bmap | kernel/fs.c:379-421 | the block of a file, allocated if need be; mapped blocks stay, no other block is mapped, other files are untouched, exactly the missing blocks are taken from the free ones, 0 if and only if those do not suffice, panic exactly past MAXFILE; every block and bitmap block that changes is logged |
| FileSystem.FileSystem.AllocateSlot | kernel/fs.c:388-406 | gives a free block to an empty slot and keeps ownership exact |
| FileSystem.FileSystem.AllocateWord | kernel/fs.c:407-416 | gives a free block to an empty word of the indirect block and keeps ownership exact |
| FileSystem.FileSystem.Itrunc | kernel/fs.c:423-453 | frees every block of the file and no other, never a free one, and empties the inode; every bitmap block that it changes, and the block of the inode, is logged |
| FileSystem.UpdatedAll | kernel/fs.c:221-241 | the inodes on disk equal those in memory after iupdate of a list of inodes if and only if the list has every inode that differed |
| FileSystem.FileSystem.Writei | kernel/fs.c:498-539 | fails exactly on a bad offset or a file too long; otherwise the file is its old contents with the written bytes laid over them, other files are as before and the inode is on disk; it stops short at the end of the readable source, or before the first block for which the blocks free before the call do not last; bytes are left in an unlogged buffer if and only if the source ends inside the write, not at a block boundary, and the blocks free before the call last up to that block; every data, indirect, bitmap and inode block that it changes is given to log_write, but for that one buffer, and so is each block that holds a byte it counts |
| FileSystem.FileSystem.TornByte | kernel/fs.c:522-525 | a concrete call that leaves one byte in a buffer released without log_write |
| BlockCost.NeedsNone | kernel/fs.c:379-421 | a write inside the file takes no free block |
| BlockCost.SpendMore | kernel/fs.c:379-421 | going on to the next block of a write takes exactly the free blocks that it lacks, data block and indirect block, or there are too few |
| FileSystem.FileSystem.Readi | kernel/fs.c:467-496 | returns the bytes of the file, cut at its end, and never allocates |
| FileSystem.ReadBack | kernel/fs.c:467-539 | bytes laid over a file are read back and the rest is as it was |
| FileSystem.SpliceTwice | kernel/fs.c:498-539 | two writes, the second where the first ended, are one write |
| FileSystem.WriteBudget | kernel/file.c:148-160 | a write of at most three blocks logs at most MAXOPBLOCKS distinct blocks, and at most 7 when one bitmap block covers the disk |
| FileWrite.WriteTransaction | kernel/file.c:156-168 | one transaction stays within the budget and lays its bytes, and torn ones, over the file; all that it changes on the disk is logged in it, but for a buffer with torn bytes |
| FileWrite.Filewrite | kernel/file.c:132-181 | over all transactions, the file is the old one with the stored bytes over it, and with those torn into an unlogged buffer, which do not make it longer; other files are as before; returns n only for all n bytes; all that the transactions change is logged in them, but for that buffer |
| FileBlocks.RootRounding | mkfs/mkfs.c:163-168 | rounding the size of the root directory up leaves no hole below its size if and only if its length was not a multiple of the block size |
| Directories.Directories.constructor | mkfs/mkfs.c:117-128 | a root whose "." and ".." are itself, with one link, meets the invariant |
| DirEntries.Namecmp | kernel/fs.c:543-547 | the loop of strncmp tells exactly whether two names match |
| DirEntries.NamesMatch | kernel/fs.c:543-547 | two names match if and only if they agree up to the end of either or DIRSIZ characters |
| Directories.Directories.Dirlookup | kernel/fs.c:549-575 | the first entry with that name under the 14-character compare, or 0 if and only if there is none |
| Directories.Directories.Dirlink | kernel/fs.c:577-606 | puts the name in the first empty slot or at the end; fails, changing nothing, if the name is there or there is no room |
| Directories.Directories.Isdirempty | kernel/sysfile.c:172-186 | true if and only if no entry after the first two is in use |
| Directories.Directories.Ialloc | kernel/fs.c:194-219 | the lowest free inode, or 0 if and only if there is none |
| Directories.Directories.Iput | kernel/fs.c:329-362 | frees an inode without links on its last reference and keeps the invariant |
| Directories.Directories.Create | kernel/sysfile.c:245-302 | returns an existing file, or makes an inode with one link, its name and for a directory its "." and ".." and the parent's link; on every failure path nothing has changed; the invariant, with link counts of 16 bits, holds afterwards if and only if nothing was made or the directory had links and, for a new directory, fewer than 32767 of them |
| Directories.Directories.Unlink | kernel/sysfile.c:188-243 | removes the name and a link, and for a directory the link of its ".."; fails exactly on a dot name, a missing name or a directory with entries; keeps the invariant and never reaches its nlink panic from a state that has it; from one where the count of one file has wrapped, it reaches the panic exactly when the stored count is below 1 |
| Directories.Directories.LinkBegin | kernel/sysfile.c:138-147 | one more link, pending its name, in a count of 16 bits; refuses exactly directories; the invariant holds afterwards if and only if it refused or the count was below 32767 |
| Directories.Directories.LinkEnd | kernel/sysfile.c:149-170 | gives the link its name or takes it back; the invariant holds afterwards if and only if the count fits in 16 bits and the link was taken back or the directory has links |
| Directories.Directories.LinkAbort | kernel/sysfile.c:163-169 | takes the pending link back, also from a count that has wrapped |
| Directories.Directories.Link | kernel/sysfile.c:120-170 | link as a whole: the invariant holds afterwards if and only if it failed, or the file had fewer than 32767 links and the directory has links |
| Directories.Directories.OneLinkTooMany | kernel/sysfile.c:145-216 | a file with 32767 links, linked once more: its count is -32768, the invariant is lost, and unlink of a name reaches the panic |
| LinkLimit.CountFull | kernel/sysfile.c:138-157 | there is a state that meets the invariant in which a file has 32767 links, all names in directories no longer than the largest file |
| DirTree.RootReached | kernel/sysfile.c:245-302 | under the invariant, following ".." from every live directory reaches the root |
| DirTree.OneParent | kernel/sysfile.c:188-302 | under the invariant, a live directory has one name besides the dot entries |
| DirTree.MakeDirKeeps | kernel/sysfile.c:276-289 | making a directory keeps link counts, unique names, dot entries and the tree |
| DirTree.RemoveDirKeeps | kernel/sysfile.c:217-232 | removing an empty directory keeps them, and it had exactly one link |
| DirTree.NameKeeps | kernel/sysfile.c:152-157 | naming a file keeps them |
| DirTree.UnnameKeeps | kernel/sysfile.c:222-233 | removing the name of a file keeps them, and it had a link |
| DirTree.CreatedValid | kernel/sysfile.c:245-302 | create keeps the invariant if and only if the directory has links and, for a new directory, its count is below 32767 |
| DirTree.LinkedValid | kernel/sysfile.c:149-157 | naming a file keeps the invariant if and only if the directory has links and the count of the file is at most 32767 |
| DirTree.EmptyHasOneLink | kernel/sysfile.c:215-220 | a directory without entries that is named has exactly one link |
| PageFormat.PxInjective | kernel/riscv.h:354-357 | the three page-table indices tell apart any two pages below 2^39 |
| PageFormat.PteRoundTrip | kernel/riscv.h:345-352 | packing a page-table entry and unpacking it gives the same address and flags |
| PageFormat.WordRoundTrip | kernel/riscv.h:345-352 | every 64-bit word is the packing of its fields |
| PageTree.OnePath | kernel/vm.c:73-103 | each page-table page is reached by exactly one path from a live root |
| PageTree.Reached | kernel/vm.c:73-103 | every page that has a place in a tree is reached by that path |
| PageTree.WriteEntry | kernel/vm.c:138-172 | setting a last-level entry changes that translation and no other |
| PageTree.AttachEntry | kernel/vm.c:73-103 | attaching an empty table changes no translation |
| Vm.Vm.constructor | kernel/kalloc.c:27-40 | every page of the range is on the free list once |
| Vm.Vm.Kalloc | kernel/kalloc.c:65-82 | takes the head of the free list, or returns 0 if and only if it is empty; each page stays free, held or at one place |
| Vm.Vm.Kfree | kernel/kalloc.c:42-63 | puts the page at the head of the free list and does not panic for a page of the range that is not free |
| Vm.Vm.Kfmemory | kernel/kalloc.c:85-99 | counts the pages of the free list |
| Vm.Vm.Walk | kernel/vm.c:73-103 | the table and index for an address, with missing tables made if asked; no translation changes; 0 only when memory runs out or, without making tables, when the address is not mapped |
| Vm.Vm.Mappages | kernel/vm.c:138-172 | maps a prefix of the range, all of it unless memory runs out; other translations and pages are as before |
| Vm.Vm.Uvmunmap | kernel/vm.c:174-199 | clears the range and frees exactly its own pages; no panic on a mapped range |
| Vm.Vm.Uvmalloc | kernel/vm.c:230-256 | grows by zeroed pages with the given permissions, or leaves every page of the space as it was, perhaps with new page-table pages; fails only if there were not three free pages for each new page |
| Vm.Vm.Uvmdealloc | kernel/vm.c:258-274 | shrinks to the new size, keeping the rest |
| Vm.GrowUndone | kernel/vm.c:230-256 | growing and then shrinking to the old size restores every page |
| Vm.SpaceFits | kernel/vm.c:230-256 | user memory always ends below the trapframe |
| UserMemory.Freewalk | kernel/vm.c:276-294 | frees all page-table pages under a page without leaves, and no other; no panic |
| UserMemory.Uvmfree | kernel/vm.c:296-304 | frees user memory and the whole tree |
| UserMemory.Uvmcreate | kernel/vm.c:201-212 | a new root without mappings, or 0 |
| UserMemory.Uvmcopy | kernel/vm.c:306-340 | the child gets its own pages with the same bytes and flags; on failure it has none and every page of the parent is as before, perhaps with new page-table pages of the child; fails only if there were not three free pages for each page |
| UserMemory.ProcPagetable | kernel/proc.c:190-222 | an empty space with trampoline and trapframe, or 0 with every page as before; fails only with fewer than five free pages |
| UserMemory.ProcFreepagetable | kernel/proc.c:224-232 | frees the user memory and the tree, not the trampoline or the trapframe |
| UserMemory.RestoredByFree | kernel/vm.c:276-304 | what was done under a new root is undone by freeing it |
| UserCopy.Walkaddr | kernel/vm.c:105-126 | the page of a user address, or 0 if and only if it is not valid for user mode |
| UserCopy.Copyin | kernel/vm.c:385-408 | returns exactly the user bytes; fails if and only if one of them is not readable |
| UserCopy.Copyout | kernel/vm.c:355-383 | stores all the bytes, or those before the first page user mode may not write; all other bytes and pages are as before |
| UserCopy.Copyinstr | kernel/vm.c:410-451 | returns the string with its final 0; succeeds if and only if a 0 is within max readable bytes |
| UserCopy.EndIsUnique | kernel/vm.c:410-451 | the string that copyinstr specifies is unique |
| UserCopy.CopyRoundTrip | kernel/vm.c:355-408 | copyout that succeeds followed by copyin of the same range gives the bytes back |
| ProcMemory.Allocproc | kernel/proc.c:105-150 | a trapframe and an empty address space, or every page as before; fails only with fewer than six free pages |
| ProcMemory.Freeproc | kernel/proc.c:152-172 | gives back exactly the pages of the process |
| ProcMemory.Fork | kernel/proc.c:293-342 | the child has the same memory on its own pages and the same trapframe but for a0, which is 0, and the parent is untouched, or every page is as before; fails only if there were not six free pages and three for each page of memory |
| ProcMemory.Growproc | kernel/proc.c:272-291 | changes the size by n modulo 2^64 or not at all; memory that stays keeps its bytes; fails only if there were not three free pages for each new page |
| ExecStack.StringInside | kernel/exec.c:90-103 | if all fits, each argument string is aligned, inside the stack page and above the array of pointers |
| ExecStack.StringsApart | kernel/exec.c:90-103 | the argument strings do not overlap |
| ExecStack.PushArgs | kernel/exec.c:90-112 | succeeds if and only if there are fewer than MAXARG strings and they fit with their pointers in the stack page; then each pointer leads to its string, and bytes outside the page are as before; comes to the store past the end of the array of pointers if and only if there are exactly MAXARG strings and they fit |
| Exec.Loadseg | kernel/exec.c:143-166 | the bytes of the file are in memory at the segment; succeeds if and only if the file has all of it |
| Exec.LoadSegment | kernel/exec.c:42-65 | the bytes of the segment are in memory, bytes it does not cover are as before or 0, new pages have W and X exactly as its flags say and old ones their permissions; fails only if its header is bad or there were not three free pages for each of its pages |
| Exec.LoadSegments | kernel/exec.c:42-65 | every byte of the image is that of the last segment that covers it, or 0, and every page has the permissions of the segment that added it; fails only if a header is bad or memory runs out |
| Exec.Uvmclear | kernel/vm.c:342-353 | clears the user flag of that page and nothing else |
| Exec.MakeStack | kernel/exec.c:73-88 | adds a guard page that user mode cannot use and a stack page to read and write; the image below keeps its bytes and permissions |
| Exec.Exec | kernel/exec.c:22-141 | on success the process has the new image: every byte is that of the last segment that covers it, or 0, every page has W and X as the flags of the segment that added it say, the page below the stack page is not for user mode, the arguments are on the stack, and the old pages are free; on failure the process and all pages in use are as before; success needs good headers and arguments that fit, and with them it fails only if there were not five free pages and three for each page of the image |
| ProcTheorems.RunInv | kernel/proc.c:293-625 | the invariant of scheduler, fork, exit, wait, wakeup and kill holds in every state of every run on any number of CPUs; what havekids means is ProcWaits.WaitGivesUp |
| ProcTheorems.RunningOnOneCpu | kernel/proc.c:453-517 | while its lock is free, a process is RUNNING if and only if some CPU has it, and then exactly one |
| ProcTheorems.OneCpuPerThread | kernel/proc.c:453-517 | at most one CPU executes a thread, also while the lock is handed over in swtch |
| ProcTheorems.ReapedIsOffCpu | kernel/proc.c:404-451 | wait frees a slot only when no CPU executes it and it never runs again |
| ProcTheorems.ParentsLive | kernel/proc.c:344-402 | every parent is a living process and every zombie has one |
| ProcTheorems.ReapedOnce | kernel/proc.c:404-451 | each exited child is returned by at most one wait |
| ProcTheorems.ReapedByParent | kernel/proc.c:344-451 | each returned child went to the process that made it, or to the first process when that one has exited: every slot with its pid, if there is one, is a zombie |
| ProcTheorems.ExitedWasZombie | kernel/proc.c:359-402 | the pids that count as exited are exactly those that a zombie has had |
| ProcTheorems.ReapedIsGone | kernel/proc.c:404-451 | a pid that was returned belongs to no process any more |
| ProcTheorems.NoForgottenZombie | kernel/proc.c:359-451 | no process sleeps in wait while it has a zombie child and wait_lock is free |
| ProcWaits.WaitGivesUp | kernel/proc.c:404-451 | in every state of every run, havekids says exactly whether a slot that wait has looked at has the caller as parent; so at the end of its loop wait returns -1 if and only if it was killed or has no child, and goes to sleep if and only if neither |
| ProcWaits.SleepersHaveKids | kernel/proc.c:443-449 | a process that sleeps in wait has a child |
| ProcWaits.StatusReturned | kernel/proc.c:359-451 | wait returns, with the pid of a child, the status that this child gave to exit |
| ProcWaits.KilledStaysAwake | kernel/proc.c:603-625 | a process that is killed anywhere but between the look of wait at p->killed and its sleep does not sleep in wait any more as long as it exists |
| ProcWaits.KillTooLate | kernel/proc.c:443-449 | a kill between those two comes too late: the process can go to sleep killed |
| ProcWaits.AboutToSleep | kernel/proc.c:404-451 | a run that comes to that point |
| SleepWakeup.NoLostWakeup | kernel/proc.c:554-601 | for any condition and any code that follows the rules of sleep and wakeup: while the condition lock is free, somebody sleeps on a channel whose condition is true only if a process has released the lock short of the wakeup that it owed on that channel |
| SleepWakeup.OneHolder | kernel/proc.c:554-583 | at most one process holds the condition lock |
| SleepLocks.MutualExclusion | kernel/sleeplock.c:21-41 | a sleep lock has at most one owner in every state of every run |
| SleepLocks.HoldingSleep | kernel/sleeplock.c:43-52 | holdingsleep tells a process exactly whether it owns the lock |
| SleepLocks.NoSleeperOnFreeLock | kernel/sleeplock.c:21-41 | no process is left asleep on a free sleep lock |
| SleepLocks.GuardsHold | kernel/sleeplock.c:21-41 | acquiresleep and releasesleep follow the rules of sleep and wakeup |
| PipeBuffer.CountersTell | kernel/pipe.c:87-110 | although the counters wrap, comparing them tells an empty and a full pipe exactly |
| Pipes.InOrder | kernel/pipe.c:76-130 | in every state of every run, also after writers that were killed half-way, the bytes taken out are the first of those put in, in order, with at most PIPESIZE on the way |
| PipeCalls.WriterBytes | kernel/pipe.c:76-103 | in every state of every run, the bytes that a call of pipewrite has put into the pipe are exactly the first i of its source, in order; when it ends, i is n or the end of what can be read, and it gives up only before n |
| PipeCalls.EveryByteByOne | kernel/pipe.c:76-130 | every byte that went in was put in by one call of pipewrite, and every byte that came out was taken by one call of piperead |
| PipeCalls.ReaderBytes | kernel/pipe.c:105-130 | a call of piperead has taken bytes that follow each other in the pipe, which no other call has taken, and stored them in order; one is lost only when copyout cannot store it |
| PipeCalls.ReadReturns | kernel/pipe.c:105-130 | a piperead that returns has n bytes, or has emptied the pipe, or has lost a byte; it returns none, although it could store one, only when the pipe is empty and has no writers |
| Pipes.NothingTakenBack | kernel/pipe.c:76-130 | in all those runs, what went in or came out stays so |
| Pipes.SleepersWait | kernel/pipe.c:58-130 | while the lock is free, a sleeping writer means a full pipe open for reading, in every run; a sleeping reader means an empty pipe open for writing in every run up to a killed writer that gave up after putting in bytes |
| Pipes.GuardsHold | kernel/pipe.c:58-130 | pipewrite, piperead and pipeclose announce what they change before they release the lock or sleep |
| Pipes.KilledExitLoses | kernel/pipe.c:84-87 | a writer that gives up leaves a reader asleep with bytes in the pipe if and only if a reader sleeps and it has written since it got the lock, or an earlier one left readers so and there are still bytes, or no writers, for them |
| Pipes.KilledWriterStrandsReader | kernel/pipe.c:84-87 | a run in which that happens |
| DiskWaiters.WaitersWait | kernel/virtio_disk.c:168-327 | in every state of every run of disk requests and interrupts: while the lock is free, a process sleeps for descriptors only if fewer than three are free, and then some process has others, and sleeps for its request only if the device has not finished it |
| DiskWaiters.GuardsHold | kernel/virtio_disk.c:168-327 | virtio_disk_rw, free_desc and virtio_disk_intr follow the rules of sleep and wakeup |
| VirtioDisk.Disk.constructor | kernel/virtio_disk.c:62-153 | all descriptors free and both rings empty meets the invariant |
| VirtioDisk.Disk.Partitioned | kernel/virtio_disk.c:155-213 | each descriptor is free or in exactly one chain |
| VirtioDisk.Disk.AllocDesc | kernel/virtio_disk.c:155-166 | the first free descriptor, or -1 if and only if there is none |
| VirtioDisk.Disk.FreeDesc | kernel/virtio_disk.c:168-182 | frees a descriptor in use; panics exactly on a bad index or a free one |
| VirtioDisk.Disk.FreeChain | kernel/virtio_disk.c:184-197 | frees the three descriptors of a chain and no other; no panic |
| VirtioDisk.Disk.Alloc3 | kernel/virtio_disk.c:199-213 | three distinct free descriptors, or none taken if and only if there are not three |
| VirtioDisk.Disk.Submit | kernel/virtio_disk.c:215-270 | the request goes to the device as one chain, if and only if three descriptors are free |
| VirtioDisk.Disk.DeviceTake | kernel/virtio_disk.c:215-270 | the device finds exactly the command, buffer and status place that were submitted, each request once |
| VirtioDisk.Disk.DeviceFinish | kernel/virtio_disk.c:294-327 | a completion is reported for a chain the device had taken |
| VirtioDisk.Disk.Intr | kernel/virtio_disk.c:294-327 | completes exactly the requests reported before it stops, whose buffers are then no longer flagged as in flight, and no others; stops early, at the panic, if and only if the device reported an error |
| VirtioDisk.Disk.IntrOne | kernel/virtio_disk.c:308-325 | the next completion clears the flag of the buffer that was submitted with that chain |
| VirtioDisk.Disk.Finish | kernel/virtio_disk.c:272-292 | once the flag is clear, the chain is freed, without reaching a panic of free_desc |
| VirtioDisk.Disk.RingsBounded | kernel/virtio_disk.c:215-327 | no more entries wait in a ring than it has slots, so 16-bit indices tell them apart |
| Umalloc.Allocator.Free | user/umalloc.c:24-44 | the block goes back, joined with free neighbours; the heap stays partitioned into blocks and the other live blocks are as before |
| Umalloc.Allocator.Search | user/umalloc.c:28-32 | stops at the place in the circular address-ordered list between which the block lies |
| Umalloc.Allocator.Scan | user/umalloc.c:71-88 | finds a free block that is large enough, with the header before it, if and only if there is one on the list |
| Umalloc.Allocator.Malloc | user/umalloc.c:63-90 | a live block of its own with room for nbytes; fails only if no free block is large enough and sbrk fails |
| Umalloc.Allocator.Morecore | user/umalloc.c:46-61 | fresh memory from sbrk joins the free list, or 0 |
| Umalloc.FreeKeeps | user/umalloc.c:24-44 | free keeps headers, partition and order of the list for every place in it |
| Umalloc.CutKeeps | user/umalloc.c:73-81 | taking the tail of a free block keeps the partition |
| Umalloc.TakeKeeps | user/umalloc.c:73-76 | taking a block of the exact size off the list keeps it |
| Umalloc.AtGap | user/umalloc.c:29-31 | the tests of the search loop are true exactly at the gap for the block |
| Umalloc.UnitsFit | user/umalloc.c:68 | the units for nbytes have room for them besides the header, and one unit less has not |
| Grep.Match | user/grep.c:72-82 | true if and only if the pattern, as a regular expression with . * ^ $, is found in the text |
| Grep.Matchhere | user/grep.c:84-96 | true if and only if the pattern matches at this place |
| Grep.Matchstar | user/grep.c:98-106 | true if and only if some number of the character and then the pattern match here |
| ShellTokens.MeansExactly | user/sh.c:266-447 | a line means a tree if and only if its tokens are a line of the concrete syntax that denotes the tree: parentheses around a line, | tighter than &, & tighter than ;, | and ; grouping to the right, redirections before and among the words; so the parser refuses exactly the other lines |
| ShellTokens.RoundTrip | user/sh.c:266-447 | every command tree whose commands have fewer than MAXARGS words is what its printed line, with the fewest parentheses, means |
| ShellTokens.PrintKeepsMeaning | user/sh.c:266-447 | every line the parser accepts means the same as the printed form of its tree |
| ShellSyntax.Exactly | user/sh.c:345-447 | the parser accepts tokens with a tree if and only if they are a line of the syntax that denotes it |
| ShellSyntax.LineOfOk | user/sh.c:345-447 | every tree has a line that denotes it |
| ShellSyntax.FewestLine | user/sh.c:345-447 | no line that denotes a tree has fewer parentheses than the one it is printed as |
| ShellTokens.TokensApart | user/sh.c:266-309 | tokens come one after the other, and two words never touch |
| ShellTokens.LexRender | user/sh.c:266-309 | the tokens of a printed line are the pieces that were printed |
| ShellTokens.ShowNoNul | user/sh.c:329-343 | a printed line has no NUL, so a buffer can hold it |
| ShellGrammar.LineSound | user/sh.c:345-447 | every tree the parser makes has word tokens for words and fewer than MAXARGS in a command |
| ShellWords.AllWordsUsed | user/sh.c:345-447 | the tree of an accepted line has every word token of the line and no other token, each once, and in the order of the line |
| ShellWords.LineUses | user/sh.c:345-447 | the words of the tree are exactly the word tokens that the parser has gone past |
| Shell.Parser.Peek | user/sh.c:311-321 | moves over white space, and tells whether the next token starts with one of the symbols |
| Shell.Parser.Gettoken | user/sh.c:266-309 | yields the tokens of the line in order, and moves on at each |
| Shell.Parser.Parseredirs | user/sh.c:375-398 | gives the redirections of the grammar, or its panic |
| Shell.Parser.Parseblock | user/sh.c:400-414 | gives the tree of the grammar and stops where it does, or its panic |
| Shell.Parser.Parseexec | user/sh.c:416-447 | gives the tree of the grammar and stops where it does, or its panic |
| Shell.Parser.Parsepipe | user/sh.c:362-373 | gives the tree of the grammar and stops where it does, or its panic |
| Shell.Parser.Parseline | user/sh.c:345-360 | gives the tree of the grammar and stops where it does, or its panic; the recursion ends on every line |
| Shell.Nulterminate | user/sh.c:449-494 | puts a NUL right after each word of the tree and changes nothing else |
| Shell.WordReads | user/sh.c:449-494 | after that each word reads back, up to its NUL, as exactly its token |
| Shell.Parsecmd | user/sh.c:328-343 | the tree it returns, read through its pointers in the cut buffer, is what the line means; it panics exactly on lines without a meaning, with the panic of the grammar |

## Left out

- Boot, traps, interrupts and timers, the console, the UART and the system call table.
- namex and skipelem, the inode cache and its reference counts; iput takes "last reference" as a parameter.
- ".." of removed directories and inodes without names after a crash: the kernel does not handle them.
- sys_open, sys_pipe, sys_dup and the file descriptor table.
- Spinlocks, push_off and the memory model: a critical section is one step.
- LogProtocol merges a memmove into a held buffer with the bwrite after it, since nobody else can see it, and
  lets a call release a changed buffer only after log_write, as kernel/log.c:205-214 asks of callers.
- On-disk inodes are records rather than packed bytes; the bitmap and indirect blocks are bytes.
- Memory pages are typed as tables, data or free-list runs, and page-table entries as their fields, with
  PageFormat for their packing into words.
- Copies from user memory in writei and readi: the readable source and the room at the destination are parameters.
- exec takes the ELF and program headers as values; of the registers it sets, sp is a result and the entry point is
  not modelled.
- Kill of pid 0 and sleeps other than those of wait are not in the process machine; SleepWakeup covers sleep itself.
- Pids are unbounded numbers in ProcTable, where nextpid is an int that would wrap after 2^31 processes.
- Exec cuts ph.off and ph.filesz to 32 bits, as the parameters of loadseg do, and promises the bytes of the cut range.
- exec past the store outside its array of pointers: Exec reports it and stops as on a failure.
- Umalloc counts addresses in header units, and what sbrk gives is a parameter.
- The virtio device is a partner with two steps: it takes a request and reports it done, with or without an error.
- Running commands in sh (fork, exec, pipe, redirection of descriptors); only parsing is modelled. Redirections are
  put around the words of a command as a value when they are all known, where the shell fills in argv through a pointer.
