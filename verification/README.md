# A verified model of the Gardos kernel

Gardos is a small 32-bit single-processor kernel written in C. This project models its file system,
its memory allocator, its threads and locks, its processes, its ring buffers and pipes, its disk channel
and its path rewriting in Dafny, and proves what the code keeps true over whole runs. The `ASSERT`s
about the modelled state are proof obligations: they stand as `assert` in a body or follow from an
invariant; those about the interrupt flag and the stack guard word are not modelled.

`dafny verify dfyconfig.toml` checks the whole project.

## How the model is laid out

- **File system.** `Sectors` is the byte image of words, directory entries and inodes. `Volume` is a disk
  of sectors with the two bitmaps and the inodes, and the rule that every block address is held by one
  slot of one inode and marked in the bitmap. `InodeTable`, `File` and `Dir` follow fs/inode.c, fs/file.c
  and fs/dir.c. `Tree` is the tree of names, `Walks` the walk along a path, `Fs` the rule `FsOk` that
  holds between any two operations, `Search` and `FileSystem` the calls with string paths, and `Format`
  the layout of a fresh partition. The abstract view of a volume is the pair of a `Tree` (which entry
  names which inode) and a map `Files` from inode numbers to the bytes of regular files; every call is
  specified by what it does to that pair. A volume also has what earlier calls left on the list of open
  inodes: `kept`, the directories nobody will close, and `stale`, the inodes of such directories that were
  removed since. `StaleRun` is a run that ends with a file getting one of those.
- **Memory.** `Paging` has the self-mapped page tables, the two pools of frames and the two areas of
  virtual pages, with the rule `MemOk`. `Heap` has arenas, blocks and free lists on top, with `HeapOk`.
  `Bitmap` and `Lists` are the packed bitmap and the intrusive list.
- **Concurrency.** `Threads`, `Process`, `Keyboard` and `Ide` are step machines. A step is a stretch of
  code that nothing can get into: code with interrupts off, or one access where they may be on. In
  `Threads` each task has a program counter for the windows inside `lock_acquire` and `lock_release`.
  `IoQueue` is the ring itself, `PipeRefs` counts the descriptors of pipes, `Descriptors` are the two
  descriptor tables.
- **Paths.** `Path` shows that the C string code equals a stack machine on components.

State that the source keeps in globals and updates in place is a class with a thin layer of methods
(`Bitmap`, `List`, `Ring`, `Channel`, `Mount`, `Task`, `Machine`, `Tasks`, `Files`); the loops below them
are methods that take a state and return the next one. A ghost map from blocks to the inode and slot that
hold them, and one from locks to the task that passed their semaphore, are carried along with the state.

Runs are tied to the steps. Where a step has one outcome it is a function of the state (`Next` in
`Threads`, `PipeRefs`, `IoQueue` and `Ide`, `Step` in `Keyboard`), and a run is that function applied again
and again. Where allocation leaves a choice it is a relation (`Stepped` in `FileSystem`, `Served` in `Heap`,
`Acted` in `Process`), and a run returns the list of its states, each related to the next by its call, with
the rule in all of them.

A call that the kernel would not come back from (no bit of a bitmap is clear, an assertion fails) has an
outcome of its own, `Stopped` or `Halt`, and its contract says exactly when that happens. So has a call in
which the kernel goes on but leaves the rule: `Beyond` with the first thing that goes wrong, which is the
block behind the data area being handed out (`StrayBlock`), an inode number of more than 8 bits
(`WideInode`), a directory that needs more than its direct blocks (`FullDirectory`), an inode freed whose
name stays (`NameStays`), or an inode number given out again while the list of open inodes still has a
removed directory under it (`StaleInode`). A run is not followed beyond such a call.

## Where the code falls short of its intent

The model follows the code, and the contracts say how far it goes:

- `Bitmap.ScanInside`, `Bitmap.ScanRunsPastTheEnd`: the run loop of `bitmap_scan` tests the bit behind
  the bitmap; when that matters is stated as an if-and-only-if.
- `Format.StrayBit`, `Format.MakeBlockBitmap`: the clearing loop of `partition_format` frees one bit too
  many exactly when the blocks do not fill the last bitmap sector, and with fewer than 8 blocks it frees
  the block of the root.
- `Volume.BlockAlloc`, `Volume.FullVolume`: with all blocks taken, `block_bitmap_alloc` hands out the block
  behind the data area exactly if that stray bit is clear, and halts in `bitmap_scan` otherwise. The -1 that
  its callers test for is never returned.
- `InodeTable.OneSectorSuffices`, `InodeTable.InodeSixTakesTwo`: `file_write` hands `inode_sync` a buffer of
  one sector (fs/file.c:231, 411), which is enough exactly if the slot of the inode lies within a sector;
  inode 6 is the first for which it is not. The model of `file_write` takes the buffer as large enough.
- `InodeTable.SyncRoundTrip`: `inode_sync` cuts the inode number to 8 bits, so an inode is read back
  exactly when its number is below 256; `FsOk` keeps all numbers below 256.
- `FileSystem.WriteFile`, `File.FileRead`: a write that fills the 140 blocks to the last byte and a read
  that ends in block 139 run into assertions.
- `FileSystem.UnlinkStopsEarly`, `FileSystem.UnlinkBehindFile`: `sys_unlink` takes away a file in front of
  the end of the path exactly if a proper prefix of the path names a regular file, as with "/f/x".
- `Walks.AboveNames`, `FileSystem.Rmdir`, `FileSystem.RmdirDot`: `search_file` reports the directory that
  names the one found exactly when the path does not end in a dot, so `sys_rmdir` of "/d/." frees an empty
  directory and leaves its name.
- `FileSystem.RunKeeps`, `FileSystem.StaleCall`, `StaleRun.FileGetsStaleInode`: sys_open of a file that is
  there does not close the directory it is in (fs/fs.c:356-360), so the inode of that directory stays on the
  list of open inodes, also after sys_rmdir of the directory. When its number is given out again,
  inode_open finds the old inode. As long as no call comes to one of the other fates, a run keeps the rule
  in all its states exactly if no call gives out such a number; giving it to a directory that also gets
  the same block is harmless.
- `IoQueue.Ring.PipeWrite`: a write to a pipe comes to wait exactly when it has more bytes than places
  are free, because it counts on one place too many.
- `Keyboard.AtMostOneReader`: a reader that waited for the lock of a queue sleeps without looking at the
  queue again; nobody sleeps over a byte in any run exactly if there is at most one reader.
- `PipeRefs.RunRight`, `PipeRefs.SharedSlot`: a slot of a regular file has no count, so after a fork the
  first close frees it under the other process; a pipe that then gets the slot is counted wrong. The counts
  of pipes are right throughout a run exactly if every pipe comes to two descriptors.
- `Process.AdoptionSound`, `Process.RunSound`, `Process.InitMaySleep`: adoption does not wake init, which
  sleeps over a hanging child exactly if it waits while a task with a hanging child exits.
- `Process.ForkFail`, `Process.LostForGood`: a fork that fails after it has a pid does not give it back, so
  the pid is never free again and no task ever has it.
- `Threads.Reap`: a child that is reaped while it holds a lock takes the lock with it.
- `Paging.PoolsFit`: the page count is kept in 16 bits, so the pools cover memory exactly when less than
  256 MB is free.

## Model

| member | source | states |
|---|---|---|
| Bitmap.Bitmap.Init | lib/kernel/bitmap.c:9-11 | all bits are clear and the memory behind the bitmap is untouched |
| Bitmap.Bitmap.ScanTest | lib/kernel/bitmap.c:14-18 | reads one bit, or the first one behind the bitmap |
| Bitmap.Bitmap.Set | lib/kernel/bitmap.c:68-80 | changes exactly one bit |
| Bitmap.Bitmap.FirstClear | lib/kernel/bitmap.c:21-42 | finds the leftmost clear bit |
| Bitmap.Bitmap.Scan | lib/kernel/bitmap.c:21-65 | the leftmost clear bit, or the leftmost run in the bitmap extended by the bit behind it, or -1 if there is none |
| Bitmap.Bitmap.ScanRun | lib/kernel/bitmap.c:47-65 | the counting loop finds the leftmost run of the extended bitmap |
| Bitmap.ScanInside | lib/kernel/bitmap.c:47-65 | the answer is right for the bitmap itself if and only if a run lies inside, the bit behind is set, or the last bits are not a run one short |
| Bitmap.ScanRunsPastTheEnd | lib/kernel/bitmap.c:47-65 | a bitmap for which the answer ends outside |
| Bitmap.ScanBits | lib/kernel/bitmap.c:21-65 | the scan on unpacked bits, confined to the bitmap: halts if and only if no bit is clear, else the leftmost run or -1 |
| Lists.List.constructor | lib/kernel/list.c:5-10 | an empty list |
| Lists.List.InsertBefore | lib/kernel/list.c:13-28 | the element is in the sequence just before the given one, linked both ways |
| Lists.List.Push | lib/kernel/list.c:31-33 | the element is first |
| Lists.List.Append | lib/kernel/list.c:36-38 | the element is last |
| Lists.List.Remove | lib/kernel/list.c:41-48 | the element is gone and all others are linked in order |
| Lists.List.Pop | lib/kernel/list.c:51-55 | the first element is returned and gone |
| Lists.List.Find | lib/kernel/list.c:58-68 | true if and only if the element is in the sequence |
| Lists.List.Length | lib/kernel/list.c:90-98 | the number of elements |
| Lists.List.Empty | lib/kernel/list.c:101-103 | true if and only if there are none |
| Sectors.EntryRoundTrip | fs/dir.h:19-23 | a directory entry written to 24 bytes is read back |
| Sectors.InodeRoundTrip | fs/inode.h:8-21 | an inode written to 76 bytes is read back |
| Volume.OwnedOnce | fs/file.c:226-384 | two slots of live inodes with the same block address are the same slot |
| Volume.MarkedExactly | fs/file.c:65-73 | a block of the data area is marked if and only if some live inode holds its address |
| Volume.BlockAlloc | fs/file.c:65-73 | the leftmost free block of the data area if and only if there is one; the block behind the data area if and only if there is none and its bit is clear; else it halts |
| Volume.FullVolume | fs/file.c:65-73 | with all blocks taken and the stray bit clear the next block lies outside the data area and no inode can hold it under the rule |
| InodeTable.Locate | fs/inode.c:21-40 | the slot of an inode starts 76 times its number into the table and lies inside it, in one sector or two |
| InodeTable.SlotRange | fs/inode.c:21-40 | slots of different inodes have no byte in common |
| InodeTable.OneSectorSuffices | fs/inode.c:60-66 | inode_sync fills one sector of its buffer if and only if the slot lies within a sector |
| InodeTable.InodeSixTakesTwo | fs/inode.c:60-66 | inode 6 is the first that fills two |
| InodeTable.SyncThenOpen | fs/inode.c:43-74 | after inode_sync every inode but the one with the low 8 bits of the number is read as before |
| InodeTable.SyncRoundTrip | fs/inode.c:43-126 | inode_open reads back what inode_sync wrote if and only if the number is below 256 |
| InodeTable.InodeOpen | fs/inode.c:77-126 | gives the inode of that number, or, exactly for a number that the list of open inodes still has from a removed directory, that old one |
| InodeTable.SyncTwo | fs/inode.c:43-74 | two changed inodes written back make disk and memory agree again |
| InodeTable.DeleteCoherent | fs/inode.c:146-168 | clearing the slot of a dead inode leaves all live ones as they are on disk |
| InodeTable.Release | fs/inode.c:171-225 | all blocks of the inode, its table included, and nothing else, are given back, and its bit is cleared |
| File.AllocBlocks | fs/file.c:303-381 | one new block per slot, recorded in the address list and in the direct slots, or the fate of the first block that is not to be had |
| File.GrowBlocks | fs/file.c:293-384 | the three allocating layouts: direct, direct to indirect with a new table, indirect |
| File.CollectBlocks | fs/file.c:270-384 | in all four layouts old blocks keep place and bytes, new ones are owned, and the address list is right from the last old block on |
| File.WriteRound | fs/file.c:389-410 | one block or part of one goes to the end of the file |
| File.WriteData | fs/file.c:386-410 | the bytes of the buffer follow the old ones; only blocks of this file change |
| File.Append | fs/file.c:226-415 | contents become contents followed by the buffer, no other inode changes, and exactly the needed blocks are taken; otherwise which of first block, assertion or further blocks fails, and how |
| File.ReadBlocks | fs/file.c:441-486 | the addresses of all blocks to be read, in the four layouts |
| File.ReadData | fs/file.c:488-506 | the read loop returns the slice |
| File.FileRead | fs/file.c:418-510 | the slice from the position, clipped at the end, -1 exactly at the end of the file, a failed assertion exactly from block 139 on |
| Dir.Search | fs/dir.c:32-91 | finds the entry with the name, or none has it |
| Dir.SyncEntry | fs/dir.c:117-212 | the entry goes to the first empty slot, with a new block if need be; otherwise the direct blocks are full, or the block strays or halts |
| Dir.DeleteEntry | fs/dir.c:215-323 | the entry for the inode is cleared, with its block exactly when nothing else is in it and it is not the first; false if there is none |
| Dir.AddedShape | fs/dir.c:117-212 | after adding, the size is 24 times the live entries and every later block has a live entry |
| Dir.RemovedShape | fs/dir.c:215-323 | the same after deleting |
| Dir.AddListed | fs/dir.c:117-212 | the listing gains exactly the new entry |
| Dir.RemoveListed | fs/dir.c:215-323 | the listing loses exactly the deleted entry |
| Dir.DirRead | fs/dir.c:326-374 | the entry at a position of the listing and the next position, or the end; of 12 blocks, or of 140 if a table is set |
| Dir.ReadAll | fs/dir.c:326-374 | reading from 0 on gives the listing of all those blocks, which without a table is that of the direct ones |
| Dir.ListingDistinct | fs/dir.c:326-374 | a listing has no name twice |
| Dir.EmptyBySize | fs/dir.c:377-381 | the size is that of two entries if and only if only "." and ".." are there |
| Dir.EmptyHasOneBlock | fs/dir.c:384-405 | the assertions of dir_remove hold for an empty directory |
| Tree.NamedByOne | fs/fs.c:541-655 | no inode is named twice |
| Tree.Up | fs/fs.c:734-746 | following ".." from any directory ends at the root |
| Tree.AddFileOk | fs/file.c:98-184 | a new file keeps the tree |
| Tree.AddDirOk | fs/fs.c:541-655 | a new directory keeps the tree |
| Tree.RemoveOk | fs/fs.c:705-731 | taking away a file or an empty directory keeps the tree |
| Fs.Create | fs/file.c:98-184 | a new empty file in the first free slot keeps the rule and all other files; otherwise the first thing that goes wrong, or, if all goes well but the number is a stale one, a volume whose disk is right and whose list of open inodes is not |
| Fs.Make | fs/fs.c:541-655 | the same for a new directory with its two dot entries, where a stale number matters if and only if the new directory has another block than the old one |
| Fs.ReusedWhere | fs/inode.c:77-88 | the old inode differs from that of the new directory if and only if their blocks do |
| Fs.StaleBreaks | fs/inode.c:77-88 | a volume on which inode_open finds the inode of a removed directory instead of a live one obeys the rule for no tree |
| Fs.OpenedRight | fs/inode.c:77-126 | under the rule inode_open finds the right inode for every number |
| Fs.SeenTwice | fs/inode.c:77-143 | with such an old inode on the list, blocks as inode_open sees them are not held once and marked exactly: the block of the removed directory is free or that of another inode |
| Fs.Drop | fs/dir.c:384-405 | if the directory names the inode, the name, the inode and all its blocks are gone and everything else is as it was, and a directory that was left open is stale from now on; if not, the inode is gone and its name stays |
| Fs.NameLeftBreaks | fs/dir.c:398-402 | a volume with such a name fits no tree |
| Fs.AppendTo | fs/file.c:226-415 | appending keeps the rule, with the inode written back; its fate is that of the blocks |
| Fs.InodeAlloc | fs/file.c:55-62 | the leftmost free inode, below 256 or not; halts if and only if there is none |
| Format.LayoutFits | fs/fs.c:76-111 | the areas follow each other, the bitmap covers all blocks and everything fits the partition |
| Format.MakeBlockBitmap | fs/fs.c:131-145 | which bits of the fresh bitmap are set, bit by bit |
| Format.StrayBit | fs/fs.c:137-144 | a bit for no block is left free, the one behind the last block, if and only if the blocks do not fill the last sector |
| Format.FormatPartition | fs/fs.c:76-194 | a fresh partition obeys the rule and has the root directory only |
| Search.SearchFile | fs/fs.c:234-299 | the walk from the root: missing name, regular file or directory, with the directory it was reached from, and the path looked at so far |
| Search.Getcwd | fs/fs.c:791-838 | the path of the working directory |
| Search.ParentNo | fs/fs.c:734-746 | the directory that names this one |
| Search.ChildName | fs/fs.c:749-788 | the name of a directory in the one above; the search never fails |
| Search.Climb | fs/fs.c:811-824 | the climb ends at the root and collects the names backwards |
| Search.TurnRound | fs/fs.c:826-835 | the strrchr loop turns the names round |
| Search.Chdir | fs/fs.c:841-856 | the new working directory if and only if the path leads to one |
| Search.CwdIsWashed | fs/fs.c:791-856 | sys_getcwd after sys_chdir gives the washed form of the path, which fits wherever the path does |
| Walks.WalkWashed | fs/fs.c:252-290 | the path of the directory a walk ends at is the washed list of components |
| Walks.PathLeads | fs/fs.c:252-290 | the path of a directory leads to it |
| Walks.FindPlain | fs/fs.c:252-298 | a walk without dots ends at the directory whose path it is |
| Walks.WashKeepsDir | shell/buildin_cmd.c:12-50 | washing a path that leads to a directory keeps what it leads to |
| Walks.WashKeepsFile | shell/buildin_cmd.c:12-50 | the same for a regular file |
| Walks.AboveNames | fs/fs.c:276-298 | the reported parent names the directory found if and only if the path does not end in dots |
| Walks.WalkStopsAtFile | fs/fs.c:282-285 | a walk ends at the first regular file |
| FileSystem.Mkdir | fs/fs.c:541-655 | -1 if and only if it is not just the last component that is missing; otherwise the result is that of inode, block and name, the tree gains that name only, and the list of open inodes changes by the number taken |
| FileSystem.Rmdir | fs/fs.c:705-731 | removes an empty directory with its name if and only if the path does not end in a dot, and frees it without if it does; halts exactly for the root; its inode becomes stale if it was left open |
| FileSystem.Unlink | fs/fs.c:490-538 | removes the file found if and only if it is a regular file that is not open |
| FileSystem.Open | fs/fs.c:302-365 | when it fails, opens, creates, halts or leaves the rule; lowest slot, descriptor and inode; the directory of a file that is there is left open, even if there is no slot for the file |
| FileSystem.WriteFile | fs/fs.c:396-424 | refused, appended, halted or astray, each exactly when |
| FileSystem.IsEmpty | fs/dir.c:377-395 | dir_is_empty tells the truth and the assertions of dir_remove hold |
| FileSystem.Mount.SysMkdir | fs/fs.c:541-655 | sys_mkdir on the mounted partition |
| FileSystem.Mount.SysRmdir | fs/fs.c:705-731 | sys_rmdir on the mounted partition |
| FileSystem.Mount.SysUnlink | fs/fs.c:490-538 | sys_unlink on the mounted partition |
| FileSystem.Mount.SysOpen | fs/fs.c:302-365 | sys_open with the tables of open files and descriptors |
| FileSystem.Mount.SysClose | fs/fs.c:376-393 | slot and descriptor of a regular file are free again |
| FileSystem.Mount.SysWrite | fs/fs.c:396-424 | appends to exactly one file |
| FileSystem.Mount.SysRead | fs/fs.c:427-454 | the slice at the position, which moves on by its length |
| FileSystem.Mount.SysChdir | fs/fs.c:841-856 | sys_chdir of a task |
| FileSystem.Mount.SysGetcwd | fs/fs.c:791-838 | sys_getcwd of a task |
| FileSystem.Step | fs/fs.c:302-856 | one call is a step of the relation that the call contracts make up, and keeps the rule, the list of open inodes included, if it comes back |
| FileSystem.Run | fs/fs.c:302-856 | the states of a run follow from each other call by call, the rule holds in all of them but the one after a call that halts or leaves the rule, and only such a call ends the run early |
| FileSystem.RunFromFormat | fs/fs.c:76-194 | the same for every run from a fresh partition |
| FileSystem.StaleCall | fs/fs.c:356-360 | after a call that gives out a stale number the rule is broken, and so are ownership and marking of blocks as inode_open sees them |
| FileSystem.RunKeeps | fs/fs.c:302-856 | in a run without the other fates no call gives out a stale number if and only if the rule holds in every state, and if and only if blocks as inode_open sees them are held once and marked exactly in every state |
| StaleRun.FileGetsStaleInode | fs/fs.c:302-365 | from every fresh partition with at least 8 blocks: mkdir "/d", create "/d/f", close, open it, close, unlink it, rmdir "/d", create "/y" have these results, the last call gets the number of "/d", and from then on blocks as inode_open sees them are wrong |
| FileSystem.BlocksExact | fs/file.c:226-384 | in such a state addresses are pairwise distinct and exactly the marked blocks are held |
| FileSystem.NamesFormTree | fs/fs.c:234-365 | in such a state every live inode but the root has exactly one name, ".." is the naming directory, every directory reaches the root and the inode bitmap is exact |
| FileSystem.UnlinkStopsEarly | fs/fs.c:490-538 | the file taken away lies in front of the end of the path if and only if a proper prefix of the path names a regular file |
| FileSystem.UnlinkBehindFile | fs/fs.c:490-538 | a tree in which "/f/x" takes away "/f" |
| FileSystem.RmdirDot | fs/fs.c:705-731 | a tree in which "/d/." leads to an empty directory from itself |
| FileSystem.DotDotNotEmpty | fs/fs.c:705-731 | a path that ends in ".." never leads to an empty directory |
| FileSystem.CwdStays | fs/fs.c:705-856 | a call keeps a working directory in the tree if and only if it is not the rmdir of that directory |
| Descriptors.FreeSlot | fs/file.c:20-33 | the lowest free slot |
| Descriptors.Install | fs/file.c:37-52 | the lowest free descriptor |
| Path.PathParse | fs/fs.c:197-212 | the first component and the rest |
| Path.PathDepth | fs/fs.c:215-231 | the number of components; without one, 0 or 1 as the stack happens to be |
| Path.ShowThenCut | shell/buildin_cmd.c:12-50 | components are read back from a path made of them |
| Path.WashPath | shell/buildin_cmd.c:12-50 | the joined result of the stack machine |
| Path.WashTwice | shell/buildin_cmd.c:12-50 | washing is idempotent |
| Path.MakeClearAbsPath | shell/buildin_cmd.c:53-66 | the washed path, from the working directory if it is relative |
| Paging.PdeIsPteOfPte | kernel/memory.c:78-93 | pde_ptr(v) is pte_ptr(pte_ptr(v)) |
| Paging.PdePtrWorks | kernel/memory.c:89-93 | pde_ptr reaches the directory entry |
| Paging.PtePtrWorks | kernel/memory.c:78-86 | pte_ptr reaches the table entry if and only if the table is there, else it faults |
| Paging.AddrV2p | kernel/memory.c:247-252 | addr_v2p gives what the processor would |
| Paging.Palloc | kernel/memory.c:97-106 | the lowest free frame if and only if there is one |
| Paging.PageTableAdd | kernel/memory.c:109-142 | one page is mapped, all others stay, and a table is taken exactly when there was none; comes back if and only if there is a frame for that |
| Paging.VaddrGet | kernel/memory.c:47-75 | the leftmost run of free pages, now taken; halts if and only if no page is free |
| Paging.MapPages | kernel/memory.c:158-171 | every page of the run gets a frame if and only if there are frames for the pages and for the page tables they are short of |
| Paging.MallocPage | kernel/memory.c:145-173 | pages in the leftmost run, mapped to distinct frames that were free, if and only if there is a run and there are frames for it; NULL if and only if there is no run but a free page; else no return; the rule is kept |
| Paging.OnePage | kernel/memory.c:145-173 | a request for one page never gives NULL |
| Paging.Pfree | kernel/memory.c:360-371 | the pool told by the address is the right one |
| Paging.MfreePage | kernel/memory.c:399-450 | the pages are unmapped, exactly their frames are free again, all assertions hold |
| Paging.FreeRestores | kernel/memory.c:145-450 | mfree_page after malloc_page restores the address bitmap, all pages and the pools, apart from frames of new page tables |
| Paging.PoolsFit | kernel/memory.c:495-522 | the pools do not overlap and lie in memory; they cover it if and only if less than 256 MB is free |
| Paging.KernelMapped | boot/loader.asm:243-290 | the loader maps the low megabyte at 0xc0000000 |
| Paging.BootMemOk | kernel/memory.c:495-559 | the rule holds after mem_pool_init, over the tables of the loader |
| Heap.DescInit | kernel/memory.c:562-576 | block sizes and blocks per arena |
| Heap.BlockBounds | kernel/memory.c:255-262 | blocks lie behind the header in the page, and block2arena inverts arena2block |
| Heap.RegionsApart | kernel/memory.c:265-357 | live regions do not overlap |
| Heap.FreeBlocksApart | kernel/memory.c:265-357 | no block on a free list overlaps a live region |
| Heap.HeadersApart | kernel/memory.c:265-357 | no live region overlaps a header |
| Heap.AppendBlocks | kernel/memory.c:340-345 | all blocks of a new arena are on the list, none was there before |
| Heap.RemoveBlocks | kernel/memory.c:479-488 | all blocks of an arena are found and taken off the list |
| Heap.SysMalloc | kernel/memory.c:265-357 | when it gives a region, NULL or no return, each as an if-and-only-if, with the size of the pool told by the address space; the region is new, in the smallest block that fits, zero, and every other live region is untouched with its bytes |
| Heap.Refill | kernel/memory.c:321-347 | a new arena if and only if malloc_page gives a page; never NULL |
| Heap.SysFree | kernel/memory.c:453-492 | the region is gone, all others stay, and the pages are given back if and only if no other region is in the arena |
| Heap.Serve | kernel/memory.c:265-492 | one request is a step of the relation that malloc and free make up |
| Heap.Run | kernel/memory.c:265-492 | the states of a run follow from each other request by request, in each the rule holds and the live regions are exactly those handed out and not returned, and the run ends early only where the kernel does not come back |
| Heap.RunFromBoot | kernel/memory.c:495-559 | the same from the memory that the loader and mem_pool_init leave |
| Threads.SemaDown | thread/sync.c:21-39 | blocks at the end of the waiters exactly when the value is 0, else takes it |
| Threads.SemaUp | thread/sync.c:42-54 | wakes the first waiter and raises the value from 0 to 1; the rule is kept |
| Threads.LockAcquire | thread/sync.c:57-66 | the step up to the test of the holder: the holder counts one more, any other task goes on to sema_down |
| Threads.Ask | thread/sync.c:59-60 | a task that is not the holder may be interrupted before sema_down; the rule is kept |
| Threads.AcquireAgain | thread/sync.c:64-66 | the holder counts one more |
| Threads.SetHolder | thread/sync.c:61 | the task past sema_down becomes the holder |
| Threads.SetRepeat | thread/sync.c:62-63 | the count was 0 and becomes 1 |
| Threads.Release | thread/sync.c:70-78 | one less, or the holder is cleared at the last release |
| Threads.ClearRepeat | thread/sync.c:79 | the count becomes 0 |
| Threads.IdleBlocked | thread/thread.c:186-188 | idle is blocked whenever schedule falls back on it |
| Threads.PickNext | thread/thread.c:185-200 | the first ready task runs, or idle |
| Threads.Schedule | thread/thread.c:171-201 | the running task goes to the end of the ready list with fresh ticks |
| Threads.Timer | device/timer.c:36-49 | a tick less, or a switch |
| Threads.Yield | thread/thread.c:231-239 | the running task goes to the end of the ready list |
| Threads.Park | thread/thread.c:204-213 | thread_block |
| Threads.WokenOk | thread/thread.c:216-228 | the assertions of thread_unblock hold, and the task, which was in no list, is in the ready list once and in front; the rule is kept |
| Threads.FirstWokenOk | thread/sync.c:46-49 | the same for the first waiter of a lock, which has yet to test the value |
| Threads.Start | thread/thread.c:138-155 | a new task joins the ready list |
| Threads.Reap | thread/thread.c:312-341 | a hanging child is gone and was in no other list; the rule is kept if and only if it holds no lock |
| Threads.Do | thread/sync.c:21-81 | one move is one application of the step function and keeps the rule |
| Threads.Machine.Run | thread/sync.c:21-81 | for every interleaving the states are those of the step function, one after the other, and the rule holds in all of them |
| Threads.ValueIsRoom | thread/sync.c:21-81 | at most one task is inside a lock and the value is 1 minus their number |
| Threads.HolderCounts | thread/sync.c:57-81 | the holder is the only owner and its count is that of its open acquires |
| Threads.NoLostWakeUp | thread/sync.c:21-54 | if a lock is free and tasks wait, some task has yet to test it |
| Threads.OneList | thread/thread.c:171-239 | a task is in the ready list, among the waiters of one lock, or in no list, by its status, once |
| Process.AllocatePid | thread/thread.c:67-73 | the lowest free pid; halts if and only if there is none |
| Process.ForkBegin | userprog/fork.c:14-37 | the child to be gets the lowest free pid; halts if and only if there is none |
| Process.ForkEnd | userprog/fork.c:164-183 | the child joins the list with its parent's pid |
| Process.ForkFail | userprog/fork.c:131-171 | a fork that fails leaves the table as it was, with the pid of the child taken and given to nobody |
| Process.LostForGood | userprog/fork.c:169-171 | such a pid stays lost whatever act comes next |
| Process.Adopt | userprog/wait_exit.c:99-105 | exactly the children of the task become children of init |
| Process.ExitBegin | userprog/wait_exit.c:142-150 | halts if and only if the task has no parent; else the status is cut to 8 bits and kept and the children go to init |
| Process.ExitEnd | userprog/wait_exit.c:155-163 | the parent is found, woken if it waits, and the task hangs |
| Process.WaitRound | userprog/wait_exit.c:109-139 | reaps the first hanging child, fails exactly without children, else waits |
| Process.Tasks.Do | userprog/wait_exit.c:79-163 | one act is a step of the relation that the parts of fork, wait and exit make up, or the kernel halts |
| Process.Tasks.Run | userprog/wait_exit.c:79-163 | the states of a run follow from each other act by act, the rule holds in all of them, and the run ends early only where the kernel halts |
| Process.PidsAndParents | userprog/wait_exit.c:155-158 | listed pids are distinct, and a parent is listed and has not begun to exit |
| Process.WaitersSound | userprog/wait_exit.c:109-139 | a waiting task other than init has a child and none that hangs |
| Process.ReapedOnce | userprog/wait_exit.c:113-128 | a child is reaped at most once, with its own pid and the low 8 bits of its status |
| Process.AdoptionSound | userprog/wait_exit.c:99-150 | the first part of exit keeps init from sleeping over a hanging child if and only if init does not wait or the task has no hanging child |
| Process.ActSound | userprog/wait_exit.c:79-163 | no other act makes init do so |
| Process.RunSound | userprog/wait_exit.c:79-163 | init never does so in a run if and only if the run has no such exit |
| Process.InitMaySleep | userprog/wait_exit.c:99-105 | every run of these ten acts from init alone ends with init asleep over a hanging child |
| IoQueue.Ring.Full | device/ioqueue.c:19-22 | true if and only if 2047 bytes are in the queue |
| IoQueue.Ring.Empty | device/ioqueue.c:25-28 | true if and only if no byte is in the queue |
| IoQueue.Ring.Length | device/ioqueue.c:88-96 | the number of bytes, at most 2047 |
| IoQueue.Ring.Get | device/ioqueue.c:45-65 | the oldest byte |
| IoQueue.Ring.Put | device/ioqueue.c:68-85 | the byte is last |
| IoQueue.Ring.PipeRead | shell/pipe.c:38-55 | the oldest bytes, as many as are there or asked for, without waiting |
| IoQueue.Ring.PipeWrite | shell/pipe.c:58-74 | waits if and only if there are more bytes than free places; else all are written |
| IoQueue.FirstInFirstOut | device/ioqueue.c:45-85 | in every run of the log bytes taken are a prefix of bytes put and at most 2047 are on the way |
| IoQueue.Run | device/ioqueue.c:45-85 | the ring does move by move what the log says, for any producers and consumers |
| Keyboard.StepOk | device/ioqueue.c:31-65 | for any number of readers, the consumer sleeps with the lock |
| Keyboard.SleepOk | device/ioqueue.c:31-35 | ioq_wait finds the consumer field empty |
| Keyboard.OneReader | device/keyboard.c:207-209 | with one reader a set consumer field means an empty queue, in every run |
| Keyboard.TwoReaders | device/ioqueue.c:51-55 | any two readers have a run in which one sleeps over a byte |
| Keyboard.AtMostOneReader | device/ioqueue.c:51-55 | for any set of readers: nobody does so in any run if and only if there is at most one reader |
| PipeRefs.MakePipe | shell/pipe.c:15-35 | with two free descriptors the count is right if and only if no descriptor still refers to the slot; with no such descriptor, if and only if two are free |
| PipeRefs.Close | fs/fs.c:376-393 | one reference less; the page goes if and only if it was the last |
| PipeRefs.CountChild | userprog/fork.c:115-129 | each pipe gets one more for every descriptor of the child |
| PipeRefs.Fork | userprog/fork.c:115-129 | the count of every pipe is the number of its descriptors after every fork, whatever files are open |
| PipeRefs.ForkTidy | userprog/fork.c:115-129 | a fork shares slots of regular files if and only if the parent has one open |
| PipeRefs.Exit | userprog/wait_exit.c:59-74 | all references of the process are gone, the counts are right, and the page of a pipe goes if and only if no other process refers to it |
| PipeRefs.NextRight | fs/fs.c:376-393 | of all acts only a pipe that does not come to two descriptors makes a count wrong |
| PipeRefs.RunRight | shell/pipe.c:15-35 | the counts are right throughout a run if and only if it makes no such pipe |
| PipeRefs.TidyNext | userprog/fork.c:115-129 | without shared files and with two descriptors for every pipe there is no such pipe |
| PipeRefs.TidyRun | userprog/fork.c:115-129 | in every run from the start in which no fork shares a regular file and every pipe finds two descriptors the counts are right throughout |
| PipeRefs.SharedSlot | fs/file.c:215-223 | a run of open, fork, close and pipe with such a pipe |
| PipeRefs.Files.Run | shell/pipe.c:15-35 | the tables do act by act what the step function says |
| Ide.CoversOnce | device/ide.c:158-190 | covering commands contain every sector of the range once and no other |
| Ide.Channel.Begin | device/ide.c:150-159 | a request gets the channel |
| Ide.Channel.GiveCommand | device/ide.c:160-172 | the next 1 to 256 sectors, 256 given as 0 |
| Ide.Channel.Down | device/ide.c:174-190 | blocks exactly while the interrupt is expected; when the request ends its commands cover it |
| Ide.Channel.OnInterrupt | device/ide.c:330-345 | an expected interrupt raises disk_done from 0 to 1, any other changes nothing |
| Ide.RunOk | device/ide.c:105-345 | in every run, with interrupts at any time, an expected interrupt implies disk_done is 0, and the commands cover what is done |
| Ide.Finished | device/ide.c:158-190 | a finished request has had each of its sectors in exactly one command |
| Ide.NearerOrSame | device/ide.c:158-345 | a move changes nothing or brings the request nearer to its end |
| Ide.SomeMove | device/ide.c:158-345 | the driver can go on or the interrupt changes something: there is no dead end |
| Ide.Ends | device/ide.c:158-190 | whatever the order of the moves, a request has ended, with commands that cover it, after more stretches than its rank in which the driver goes on and an interrupt comes |
| Ide.Channel.Run | device/ide.c:105-345 | the channel does move by move what the step function says |

## Left out

- Boot code, assembly, interrupt descriptor tables, the console, the scan-code table, ELF loading and the shell's user interface.
- The contents of the super block, partition scanning and disk identification; mounting takes the bitmaps from memory, and the copies of the bitmaps on disk are not modelled.
- sys_lseek, sys_stat and sys_rewinddir, which would only add easy members, and sys_opendir with sys_closedir: a directory that a task opens and removes becomes stale in the same way.
- The open counts of inodes: what is modelled of the list of open inodes is what stays on it between two calls apart from open files, whose inodes are in use and cannot be removed. The write_deny flag is a parameter of sys_open.
- Failure of sys_malloc inside file system calls, and crashes between two sector writes.
- The copying of pages by fork and their release by exit, including the page that exit loses.
- Producers that wait on a full ring: the ring is modelled for all producers and consumers, the waiting for the keyboard and its readers.
- Update in place and aliasing below the class layer: the loops of fs/file.c, fs/dir.c, kernel/memory.c and thread/sync.c are methods from state to state, so two pointers to one struct inode or one arena are one entry of a map.
- Fixed name and path buffers: strings are unbounded; every call with a path requires components shorter than 16 characters, because path_parse copies them to a buffer of 16 bytes without a check.
- What a call leaves behind that halts or leaves the rule, apart from the directory that sys_rmdir frees without its name and the wrong list of open inodes after StaleInode.
- InodeTable.InodeOpen: models which inode is found, not the open counts.
- Format.FormatPartition: takes the super block as given and does not model mounting beyond the bitmaps.
- FileSystem.Mount.SysClose: frees slot and descriptor; write_deny and the open count of the inode are not modelled.
- FileSystem.Mount.SysGetcwd: requires a working directory that is still in the tree and buffers that its path fits; FileSystem.CwdStays says which calls keep it there.
- Dir.SyncEntry: ends with FullDirectory at the 12 direct blocks, because the indirect branch of the code never loads its table.
- Fs.Create: ends with WideInode from inode number 256 on, where inode_sync overwrites another inode, and with FullDirectory and StaleInode, where the code goes on; Fs.Make does the same.
- FileSystem.RunKeeps: is about runs in which StaleInode is the only fate; after the others FileSystem.Run promises nothing.
- Fs.AppendTo: takes the buffer of inode_sync as large enough; InodeTable.OneSectorSuffices says when it is.
- FileSystem.Mount.SysRead: requires a position within the file; a write of nothing to an empty file leaves it outside.
- Search.Getcwd: requires buffers that the path fits.
- Search.SearchFile: requires the root or a path with a component, because for slashes only the code returns an uninitialised number.
- Bitmap.ScanBits: takes the scan as confined to the bitmap; Bitmap.ScanInside says when the code agrees.
- Paging.MallocPage: a missing frame stops the kernel in bitmap_scan, so the branch without rollback is not reached and not modelled. Its requirement of fewer than 3840 pages is the assertion of the code, which Heap.SysMalloc models.
- Paging.MfreePage: the frame of a page is read from its entry; the flush of the translation buffer is not modelled.
- Heap.SysMalloc: headers and list links are kept beside the bytes of memory, so what they overwrite inside free blocks is not visible.
- Heap.SysFree: requires a live region, as the code does without checking.
- Process.ForkFail: says nothing of the pages that a failed fork also loses.
- Process.WaitRound: the pid is read before the page of the child is freed, where the code reads it after.
- PipeRefs.MakePipe: requires a free slot, without which the code writes in front of the table.
- PipeRefs.Close: requires a slot in use; for a descriptor whose slot another process freed the code follows a null pointer. PipeRefs.Exit and the runs ask for the same.
- Paging.BootMemOk: takes memory that the loader does not write as without present entries for the heap.
- Ide.Channel.Begin: requires sectors within the disk, and the channel lock to be free; waiting for the lock is modelled in Threads.
