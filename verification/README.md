# TinyFS: a verified model

TinyFS stores files and directories on a raw block device of 512-byte blocks. Every 4096th block is
a bitmap block; the others belong to doubly linked chains. A directory is a chain of blocks with 20
items each, a file is a chain of blocks with 504 bytes each, and an item names the first block of a
chain. The engine (`filesys.c`) works in place: one bitmap block is cached, one block buffer is
shared by all operations, and a table of 32 handles keeps a seek cursor per open file. On top of it,
`linux/tfs_fuse.c` walks paths.

The model follows the engine statement by statement. The class `Fs` has the engine's globals as
fields, `Handle` is `TFS_FILEHANDLE`, and every operation is a method with the engine's loops and
error exits. Long C functions are cut into several methods at their natural joints. Blocks are a
datatype (`Raw`, `DirBlk`, `DataBlk`), block numbers are unbounded naturals below the limits that
32 bits set.

## How the proof is organised

- **Allocator.** The meaning of the bitmap blocks is the set `marked`. `Coherent` ties it to the
  disk, ties the cached bitmap block to its disk block, and says that the "disk full" marker is set
  only while no block is free.
- **Chains and directories.** `DataChain` and `DirChain` say that a sequence of block numbers is a
  proper doubly linked list. `Flat` gives the bytes of a file chain, `Listing` the map from names to
  items of a directory chain. `Marks` reads the bytes of the bitmap as numbers.
- **The volume.** `Wf` is the invariant of the whole disk: every used block is a bitmap block or lies
  at exactly one place of exactly one chain, every directory is a map with unique names in which only
  the last block can be empty, entries and chains correspond one to one, and the directories form a
  tree below block 1. While a file is rebuilt, freed or open, its chain is detached (`pend`, `skip`),
  and `Wf` accounts for its blocks separately.
- **Handles.** `Seek` works on a chain seen through the buffer (`Through`), because its last block may
  still be unwritten. `OpenFiles` does tfs_write and tfs_trunc on one detached chain.
- **Desks.** `Desks` is the abstract machine of open files: every file of the volume, open or not, is
  a flat byte array with a size, a file descriptor is a seat at a file, and there is a number of free
  blocks. `Sessions` refines it: `DeskOf` is what a volume with open files means, and every tfs_open,
  tfs_close, tfs_read, tfs_write and tfs_trunc gives the outcome and the next desk that `Desks` says.
- **Spaces.** `Spaces` is the abstract file tree: directories as maps, file contents by the first block
  that an entry names, the current directory, the last error and the number of free blocks, with exact
  errors for every operation. `SpaceSteps` refines it operation by operation, `Runs.Perform` run by run,
  whatever the handle table holds.
- **Worlds.** `Worlds` puts both together, and `Mixed.RunAll` is the main theorem: any interleaving of
  namespace operations, calls on open files and tfs_get_used is a run of the abstract world, with all
  errors, until a deletion strands an open file or a call loses the first blocks of a file. `Kept` is
  what makes it work: no operation moves the place of an entry that it is not about.
- **Deleting, Stranding, Strays.** What tfs_delete does to open files, exactly when one of them is
  lost, a run in which it happens, and what the lost handle overwrites later.

Arithmetic is that of the code where it matters: the loop test of seek is taken modulo 2^32, usage
counts are bytes that wrap around. `Fits32` and `WriteFits` name the positions for which the 32-bit
arithmetic is right on a drive of a given number of blocks; on a drive whose data blocks hold less than
0xffffff00 bytes that is every position.

Bookkeeping that exists only for the proof (which chain a block belongs to, in which slot a name is
stored) is the ghost field `sh`.

## Model

| member | source | states |
|---|---|---|
| `Layout.MatchIsStoredEquality` | filesys.c:68-70 | The file name comparison against a stored name holds exactly if both have the same stored form, so only the first 16 characters count. |
| `Layout.Stored` | filesys.c:682-682 | What strncpy leaves in the name field, character by character: the name, cut at 16 characters or filled up with NULs. |
| `Volume.Fs.constructor` | filesys.c:370-397 | After mounting, the geometry of the last bitmap block is that of the drive, bitmap block 0 is cached, all handles are closed, and the current directory is block 1. |
| `Volume.Fs.WriteBlock` | linux/drive.c:79-94 | Writing a block changes that block only; unless it is a bitmap block, the bitmap and its cache stay coherent. |
| `Allocator.LoadBitmap` | filesys.c:89-97 | The cache holds the requested bitmap block and is coherent, also if the disk was known to be full before. |
| `Allocator.FirstClearBit` | filesys.c:117-119 | Shifting the mask out finds the lowest clear bit of a byte, or shows that the byte is 0xff. |
| `Allocator.ScanBitmap` | filesys.c:115-139 | Finds the lowest free block of the cached bitmap block; a free bit past the end of the drive means that no block of the drive is free here. |
| `Allocator.FlipMark` | filesys.c:126-130 | Rewriting a bitmap block with one bit changed changes the mark of exactly one block. |
| `Allocator.SearchBitmaps` | filesys.c:112-163 | The circular scan visits no bitmap block twice, and finds the first free block going round from the cached one, or shows that the drive is full. |
| `Allocator.AllocBlock` | filesys.c:99-163 | Reports DISK_FULL exactly if no block of the drive is free, and then changes nothing; otherwise marks one free block alone and leaves every other block as it was. Going round the drive from the bitmap block loaded before, every block up to this one is in use. |
| `Allocator.FreeBlock` | filesys.c:165-190 | Unmarks exactly this block, in the cache and on the disk, whichever bitmap block was cached before, and ends the "full" state. |
| `Chains.ChainLinks` | filesys.c:9-13 | A file chain, link by link: the first block has no predecessor and the last no successor, and next and prev of neighbours name each other. |
| `Marks.SumBit` | filesys.c:115-119 | The binary digits of the sum of 2^k over the marked blocks base + k are the marks. |
| `Marks.MarkBit` | filesys.c:182-185 | A block b is in use if and only if bit b mod 8 of byte (b mod 4096) / 8 of its bitmap block is set. |
| `Chains.FreeFileBlocks` | filesys.c:192-204 | Following the next pointers frees exactly the blocks of the chain and terminates. |
| `Chains.WriteChain` | filesys.c:766-794 | The blocks written form a proper chain that carries the data; if the drive fills up, the chain still ends properly, carries exactly the full blocks written so far, and no block is free. |
| `Chains.WritingStep` | filesys.c:767-794 | What every round keeps: the blocks so far are linked both ways, carry their share of the data, point to the block in progress, and were free before. |
| `Directory.DirLinks` | filesys.c:17-22 | The same for a directory, whose blocks all carry the head of the containing directory as parent. |
| `Directory.ScanItems` | filesys.c:299-313 | The first live item with the name, and the first free item before it. |
| `Directory.SearchDir` | filesys.c:291-320 | The search over all blocks finds the item of the name if there is one; otherwise every item before the free slot it reports, in earlier blocks or before it in its block, is in use, and all items are if it reports none. |
| `Directory.EarliestMeans` | filesys.c:300-306 | Before the slot that a new entry gets no item of the directory is free, block by block and item by item; the slot is free itself, or slot 0 of a block behind the last one. |
| `Directory.EarliestIsOne` | filesys.c:300-306 | A directory has only one slot of this kind. |
| `Directory.StoredAtMeans` | filesys.c:327-367 | Where an entry is after it was stored: an old one where it was, a new one in that slot. |
| `Directory.AppendDirBlock` | filesys.c:341-367 | A fresh block is linked behind a directory and cleared; the items before it are unchanged; DISK_FULL exactly if no block is free. |
| `Directory.UnlinkedElems` | filesys.c:230-242 | Unlinking a block keeps the head's block number and frees exactly one other block of the chain. |
| `Directory.HeadDropped` | filesys.c:230-242 | Moving the second block into the head's place gives a proper chain with the remaining blocks' items. |
| `Directory.TailDropped` | filesys.c:243-272 | Linking the neighbours of an inner or last block gives a proper chain with the remaining blocks' items. |
| `Directory.WriteDirCleanup` | filesys.c:206-276 | A block that is not empty, or the only one, is written back; an emptied block is unlinked and exactly one block, not the head, is freed. Links, parent pointers and the other items are kept in the head, middle and tail cases. |
| `Entries.PutIndex` | filesys.c:679-683 | Storing an item with a new name in a free slot adds exactly this name to the directory. |
| `Entries.RenameIndex` | filesys.c:1006-1008 | Overwriting the name of an item moves the item from the old name to the new one and changes nothing else. |
| `Entries.RemoveIndex` | filesys.c:918-919 | Freeing an item and cleaning up removes exactly this name, and only the last block of the directory can be without live items. |
| `Entries.EmptinessCheck` | filesys.c:937-947 | For such a directory, being a single block without live items is the same as having no entries. |
| `Entries.OneMatch` | filesys.c:308-311 | At most one live item of a directory matches a name, and one does exactly if the name is listed. |
| `Tree.Frame` | filesys.c:165-204 | Freeing or taking blocks that belong to no chain keeps the volume invariant and its meaning. |
| `Mounted.ExtendDir` | filesys.c:341-367 | Growing the current directory keeps the volume well-formed and its meaning unchanged, and uses one free block. |
| `Mounted.FindFile` | filesys.c:278-368 | The item of the name if it exists; else, if wanted, a free slot of the directory or slot 0 of a newly linked block, with every item of the old directory before it in use; NO_NAME and DISK_FULL exactly when they apply; directories and files mean the same afterwards. |
| `DirOps.CreateDir` | filesys.c:649-696 | Adds an empty directory under the name exactly if the name is new and there are blocks for it and, if needed, for its slot; otherwise reports why and changes no directory. The number of free blocks falls by exactly these; after DISK_FULL none is free. The entry stands in the first free slot. |
| `DirOps.WfDirCreated` | filesys.c:678-693 | The new directory's block carries the head of the containing directory as parent, and the volume stays well-formed. |
| `Delete.ItemUsageCount` | filesys.c:1016-1027 | The count of the first handle for the slot, 0 if there is none. |
| `Delete.WfEntryDropped` | filesys.c:916-919 | Removing an entry, with or without unlinking its block, keeps the volume well-formed and removes this entry only. |
| `Delete.HeadTells` | filesys.c:937-947 | In a well-formed volume the head block of a directory tells whether the directory has entries. |
| `Delete.DeleteFile` | filesys.c:915-927 | Removes the entry and the contents of this file and nothing else; what becomes free is exactly the chain of the file and the directory block that the entry was alone in. |
| `Delete.DeleteDir` | filesys.c:929-965 | NOT_EMPTY exactly if the directory has an entry; otherwise the directory and its entry are gone, and exactly its block and an emptied block of the containing directory are free. |
| `Delete.DeleteEntry` | filesys.c:870-970 | NOT_EXIST, FILE_BUSY and NOT_EMPTY exactly when they apply, and then nothing changes; otherwise this entry and its chain, and no others, are gone, and the new free blocks are exactly theirs and an emptied directory block. |
| `Navigation.Rename` | filesys.c:972-1012 | The errors in the order of the code; on success the same item has the new name, and contents and used blocks are the same. |
| `Navigation.WfRenamed` | filesys.c:1006-1008 | Renaming keeps the volume well-formed: the chain now hangs from the new name. |
| `Navigation.ChangeDir` | filesys.c:621-647 | Succeeds exactly for the name of a subdirectory; the current directory is then a head block whose parent pointer leads back. |
| `Navigation.ChangeDirParent` | filesys.c:597-619 | Fails exactly in the root directory, otherwise goes to the containing directory. |
| `Navigation.EnterAndLeave` | filesys.c:597-647 | Entering a subdirectory and going to its parent restores the current directory. |
| `Navigation.ParentsReachRoot` | filesys.c:597-619 | From every directory, repeated steps to the parent reach block 1 after finitely many steps, and not before. |
| `Walks.ReadBlocks` | filesys.c:832-863 | Whatever the blocks hold, the loop copies the first len bytes of the blocks it walks through; UNEXP_EOF exactly if it finds an end too early, an I/O error exactly if it is led past the end of the drive. |
| `Walks.ChainIsWalk` | filesys.c:832-863 | On a file with blocks the walk is the chain of the file, ends there, and its bytes are the contents. |
| `Walks.EndsUnlessRepeated` | filesys.c:832-863 | The loop comes to an end if and only if it never comes back to a block. |
| `Walks.OneWalk` | filesys.c:832-863 | What the loop reads is determined by where it starts. |
| `Walks.WordRead` | filesys.h:53-58 | A 32-bit word is read as it was written. |
| `Walks.ItemLayout` | filesys.h:53-62 | The 25 bytes of a directory item: block, size, type code and name at their places. |
| `Walks.DirLayout` | filesys.c:17-30 | A directory block fills its 512 bytes exactly: the links, the parent, and twenty items side by side. |
| `EmptyRead.NextOfZero` | filesys.c:826-854 | The number at which the loop goes on behind block 0 is the sum of 2^k over those k below 32 for which block 32 + k is in use. |
| `EmptyRead.EmptyReadStops` | filesys.c:826-862 | The block loop started at block 0 ends after it if and only if none of the blocks 32 to 63 is in use; if all of them are, it goes on at a block number past the end of the drive. |
| `EmptyRead.EmptyReadCases` | filesys.c:826-862 | For a file without blocks: if that sum names a block of a file or directory, the loop reads the rest of that chain and ends well; past the drive it ends with an I/O error; otherwise that block is free or a later bitmap block. |
| `EmptyRead.EmptyReadSteps` | filesys.c:832-862 | A loop that ends goes from block 0 to the block of that sum: it ends at once exactly if the sum is 0 or past the drive, with an error only in the second case. |
| `EmptyRead.FirstMarkAlone` | filesys.c:826-862 | With block 32 alone in use among these, the number is 1, and the loop reads the root directory and ends well. |
| `EmptyRead.StaleBlockDecides` | filesys.c:826-862 | If that block is free, then what happens to stand in it makes the read end well, fail, or never end, on one and the same volume. |
| `FileOps.Touch` | filesys.c:1159-1192 | Adds an empty file if the name is new and has a slot, for which at most one block is taken, and puts it into the first free slot; changes nothing if it exists. |
| `FileOps.WriteFile` | filesys.c:698-797 | FILE_EXIST and FILE_BUSY exactly when they apply; otherwise the file gets as many blocks as the data needs or as there are, DISK_FULL exactly if they are too few, and then no block is free; the number of free blocks falls by exactly what it got; the chain carries the data as far as it reaches, the item has the full length, and every other file and entry is unchanged. A new entry stands in the first free slot, an old one where it was. |
| `FileOps.FilesAfterMeans` | filesys.c:766-794 | The new file begins with the data, all of it or what its blocks have room for, and no other file is touched. |
| `FileOps.WriteOver` | filesys.c:715-742 | An existing name is replaced only on request and only if it is a closed file; the blocks of the old file count as free then. |
| `FileOps.FillChain` | filesys.c:765-794 | The number of blocks written is decided by the number of free blocks; the volume is well-formed with or without DISK_FULL. |
| `FileOps.ReleaseOld` | filesys.c:731-742 | Overwriting frees exactly the blocks of the old file and reloads the directory block. |
| `FileOps.ReadFile` | filesys.c:799-867 | min(size, max_len) bytes from the start of the file, byte by byte, UNEXP_EOF exactly if its blocks are too few; nothing on the disk changes. A file without blocks is read from block 0 on: the next block is the sum that the marks of blocks 32 to 63 make, with an I/O error if that is past the drive, and none if it is 0 or names a block of a chain. |
| `FileOps.WriteThenRead` | filesys.c:698-867 | tfs_write_file succeeds exactly if the name and the room allow it, and then tfs_read_file returns min(len, max_len) and exactly that prefix of the data. |
| `Format.TailMarked` | filesys.c:433-442 | The mask and the loop mark exactly the bits past the end of the drive. |
| `Format.MarkTail` | filesys.c:433-442 | The same for the cached bitmap block; the byte behind it is overwritten exactly if the last bitmap block is the last 4096th part of the drive. |
| `Format.TailIndexInBounds` | filesys.c:436-438 | The byte index of the tail lies inside the bitmap block if and only if the number of blocks is not a multiple of 4096. |
| `Format.FormattedMarks` | filesys.c:418-460 | The bitmap blocks as written mark the bitmap blocks themselves and everything past the end of the drive. |
| `Format.FormatDrive` | filesys.c:400-496 | The formatted volume is well-formed and consists of an empty root directory in block 1; all other blocks but the bitmap blocks are free. With a single block it reports DISK_FULL. The byte behind the bitmap buffer becomes 0xff exactly if the number of blocks is a multiple of 4096; the other blocks keep their contents. |
| `Format.FormatAndCount` | filesys.c:400-544 | After formatting, tfs_get_used returns the number of blocks / 4096, rounded up, plus one. |
| `Format.GetUsed` | filesys.c:499-544 | The number of used blocks of the drive, because the bits past its end are always set. |
| `Cursor.SeekTestExact` | filesys.c:1074-1074 | In 32-bit arithmetic the loop test of seek is right for all blocks up to a position if and only if the position is below 0xffffff00. |
| `Cursor.TestFits` | filesys.c:1074-1074 | On a chain of fewer bytes than that the test is right for every position. |
| `Cursor.FitsExact` | filesys.c:1074-1074 | On a file of at most so many blocks the 32-bit test is right for every block there can be if and only if the position is below 0xffffff00 or the blocks do not reach that far. |
| `RandomAccess.WritesFit` | filesys.c:1384-1440 | Every write that ends below the limit, and every write to a file that cannot reach it, is covered. |
| `Cursor.SeekBack` | filesys.c:1056-1071 | Walking back ends at a block that does not lie behind the position, and never runs out of predecessors. |
| `Cursor.SeekForward` | filesys.c:1073-1086 | Walking forward ends at the block of the position, or behind the last block with that block remembered. |
| `Cursor.AppendOne` | filesys.c:1119-1136 | One round of appending: the pending block is written and linked to a fresh, zeroed one; if there is none, it is written as the last block of a proper chain. |
| `Cursor.GrowPending` | filesys.c:1119-1136 | Seen through the buffer, the chain has one more block and its bytes have 504 more zeros. |
| `Cursor.Seek` | filesys.c:1047-1141 | From any valid cursor, for every position that fits: EOF exactly past the chain; without append nothing changes; with append the chain gets exactly pos/504+1 blocks, the new ones zeroed, the last one pending in the buffer; on DISK_FULL the chain is proper and no block is free. |
| `RandomAccess.PatchBlock` | filesys.c:1391-1391 | Copying into one block of a chain replaces exactly these bytes of the flat file. |
| `RandomAccess.PutChunk` | filesys.c:1391-1410 | Copy, preallocate and write: the chain stays proper in every case, also if the preallocation fails. |
| `RandomAccess.WriteLoop` | filesys.c:1384-1440 | After the loop the flat bytes are the old ones, extended by zero blocks as needed, with the written range replaced; size and number of blocks are exact, also on DISK_FULL. |
| `RandomAccess.WriteAt` | filesys.c:1370-1446 | The same for seek and loop together; the item is to be updated exactly if the chain was too short or the size grew. |
| `RandomAccess.ReadAt` | filesys.c:1479-1536 | The number of bytes is the largest n with n at most the length, offset + n at most the size and at most the bytes in the blocks, and byte i is byte offset + i of the file, wherever the cursor stood. |
| `RandomAccess.CutData` | filesys.c:1315-1333 | Cutting a chain behind a block leaves a proper chain with the first bytes, and a rest that can be walked and freed. |
| `RandomAccess.TruncAt` | filesys.c:1299-1334 | On success the chain is cut or grown to exactly size/504+1 blocks (none for size 0), old bytes are kept, new blocks are zero, and exactly the cut-off blocks are freed. |
| `OpenFiles.UpdateDirItem` | filesys.c:1034-1045 | The item of the open file, and nothing else, takes over first block and size of the handle. |
| `OpenFiles.WriteHandle` | filesys.c:1343-1452 | tfs_write as seen by the volume: chain, bytes, returned count, size, directory item and number of free blocks, on success and on DISK_FULL. |
| `OpenFiles.ReachableIff` | filesys.c:1408-1410 | After a failed write the file is reachable, with all its blocks accounted for, if and only if its item names the first block of its chain. |
| `OpenFiles.NotAttached` | filesys.c:1408-1410 | If item and handle name different first blocks, the blocks are used but hang from no entry. |
| `OpenFiles.WriteNothing` | filesys.c:1370-1446 | tfs_write of no bytes changes nothing inside the chain. Past its end it links fresh blocks, taken from the free ones, and updates the item; every old block keeps its bytes, the new ones are zeros, but the last keeps its old contents. On DISK_FULL the bytes are the old ones followed by zeros. |
| `OpenFiles.UnwrittenLast` | filesys.c:1379-1382 | The chain is then proper if and only if that block held the right links by chance. |
| `OpenFiles.TruncHandle` | filesys.c:1274-1341 | tfs_trunc as seen by the volume: the item takes over first block and the unchanged size; free blocks and blocks of the file add up as before. |
| `HandleTable.FirstIsTotal` | filesys.c:1016-1027 | In a proper handle table the first match carries the number of all opens of the slot. |
| `HandleTable.BusyMeansOpen` | filesys.c:905-909 | The count behind FILE_BUSY is the number of opens of this entry that were not closed. |
| `HandleTable.ClosedHandle` | filesys.c:1226-1233 | The first handle not in use; the scan reaches the place behind the table exactly if all handles are in use, and notices it there exactly if what it reads there is above 0. |
| `HandleTable.GrabHandle` | filesys.c:1218-1241 | A live handle of the slot is shared, otherwise the first closed one is initialised, otherwise NO_FREE_FD; the table stays proper and the count of this slot alone changes, by one or from 255 to 0. |
| `HandleTable.Open` | filesys.c:1194-1246 | Succeeds exactly for a file of the current directory that is open or for which a handle is closed, and returns a handle at its place with its size and first block. |
| `HandleTable.Close` | filesys.c:1248-1272 | INVAL_FD exactly for descriptors that are not open; otherwise the count of this slot alone falls by one. |
| `Sessions.CountOfSeat` | filesys.c:1016-1027 | In a session the open count of a slot is the count of the one file descriptor that is open on its entry, and 0 if there is none. |
| `Sessions.OpenFile` | filesys.c:1194-1246 | tfs_open takes a seat on the desk: the one the file has already, or the lowest free one, or NO_FREE_FD exactly if there is none; no file changes. |
| `Sessions.CloseFile` | filesys.c:1248-1272 | The last close gives the seat up; no file and no other seat changes. |
| `Sessions.Write` | filesys.c:1343-1452 | tfs_write gives the count, the error and the desk of a write to a flat array, also on DISK_FULL, with every other file of the volume, open or closed, and every directory as before. Where it takes the first blocks of a file and then runs out, no file and no directory changes at all, every other handle is as before, and this handle alone knows of the blocks. |
| `Sessions.Read` | filesys.c:1454-1541 | tfs_read returns as many bytes as asked for, as far as size and blocks of the file reach, exactly those of the flat array from the offset on, and changes neither files nor seats. |
| `Sessions.Trunc` | filesys.c:1274-1341 | tfs_trunc cuts or grows the flat array and tells the item the unchanged size; every other file, open or closed, and every directory is as before. Where it takes the first blocks of a file and then runs out, the same holds as for tfs_write. |
| `Sessions.WriteAdrift` | filesys.c:1343-1452 | A later tfs_write on a handle that alone knows of its blocks makes the volume whole again exactly if it succeeds and has a new size or new blocks to tell; the file then holds all that the handle wrote. Otherwise the blocks stay lost. |
| `Sessions.TruncAdrift` | filesys.c:1274-1341 | A later tfs_trunc on such a handle makes the volume whole again exactly if it succeeds. |
| `Sessions.DifferentFiles` | filesys.c:1218-1241 | Different handles are open on different files. |
| `Sessions.OtherRests` | filesys.c:1343-1452 | A call on one open file leaves the place, the size, the cursor and the bytes of every other one valid. |
| `Sessions.RunCalls` | filesys.c:1194-1541 | Any interleaving of opens, closes, reads, writes and truncations, with all their errors, gives the outcomes and leaves the files, sizes and seats of the abstract desk, over the whole volume; the cursors are only caches. The run ends early exactly at a call that takes the first blocks of a file and runs out, and that call changes no file. |
| `Sessions.MountSession` | filesys.c:370-397 | Mounting a well-formed volume starts a session without open files, whose files are those on the drive. |
| `Sessions.RunAndRemount` | filesys.c:370-1541 | Mount, any such run with its outcomes and its exact early end, and mount again, with files still open or not: the new session finds the files that the desk has. |
| `Desks.WriteThenWindow` | filesys.c:1343-1541 | On the desk: what was written is read back, and ranges apart from it read as before. |
| `Desks.ReadIsWindow` | filesys.c:1479-1536 | These conditions leave one answer only. |
| `Desks.OtherFilesStay` | filesys.c:1194-1541 | On the desk: no call makes or removes a file, and only a write or a truncation through a seat at a file changes it. |
| `Deleting.RestAfter` | filesys.c:206-276 | After a deletion a handle of another file still stands at its place if and only if it was not opened on the second block of a directory whose head block the deletion emptied. |
| `Deleting.BusyMeansSeated` | filesys.c:905-909 | In a session FILE_BUSY protects exactly the open files. |
| `Deleting.DeleteOpen` | filesys.c:870-970 | tfs_delete while files are open: every error exactly when it applies, and on success this entry is gone and exactly its blocks and an emptied directory block are free. The session goes on exactly if no handle was opened on the block that moves. A handle that was on that block has lost its file: it stands on a free block and counts as closed, so FILE_BUSY no longer protects it. |
| `Stranding.StrandedExample` | filesys.c:230-242 | A well-formed volume with its bitmap, which can be mounted, on which a handle is lost that way. |
| `Stranding.StrandingRun` | filesys.c:870-1246 | Mount this volume, open the second file, delete the first: the deletion succeeds, the session is over, and the open file counts as closed. |
| `Strays.SameBytes` | filesys.c:1034-1045 | What update_dir_item does to an item of a directory block is, in bytes, what it does to a data block. |
| `Strays.UpdateStray` | filesys.c:1034-1045 | update_dir_item on a handle that has lost its place: a free block, nobody notices; a block of a file, exactly eight bytes of that file are overwritten; a block of a directory, the entry at that item gets another block pointer and size. |
| `Strays.StrayBreaks` | filesys.c:1034-1045 | With another block pointer in an entry, entries and chains no longer correspond one to one. |
| `Paths.TravelPath` | linux/tfs_fuse.c:21-61 | The walk starts in the root if the first character is a slash, and where it was otherwise; it passes the stretches between slashes in their order, and stops in the directory reached, before the last one or before one that is too long or no subdirectory there. It succeeds exactly if the path resolves, and then returns the rest of the path. An earlier error stops an absolute path at once, and on a relative path is forgotten with the first component. |
| `Paths.AlongMeans` | linux/tfs_fuse.c:38-57 | What passing a stretch means for the characters of the path: it ends at the first slash, and if it is not empty it has at most 16 characters and is the name of a subdirectory, which is the next directory. |
| `Paths.BlockedMeans` | linux/tfs_fuse.c:41-54 | What stopping means: the next stretch before a slash has more than 16 characters or is not the name of a subdirectory of the directory reached. |
| `Paths.EnterComponent` | linux/tfs_fuse.c:41-54 | One component: too long a name is refused unseen, others are looked up in the directory reached so far. |
| `Runs.ExactOwnership` | filesys.c:99-368 | The used blocks are the disjoint union of bitmap blocks, directory chains and file chains: no leak, no block in two chains. |
| `Runs.OneEntryPerChain` | filesys.c:649-970 | No two entries lead to the same chain, every chain but the root's hangs from an entry, and no entry leads to a free block. |
| `SpaceSteps.SoundVolume` | filesys.c:278-368 | In the abstract tree of a volume different entries lead to different files, and a new entry costs a block only in a directory whose entries fill all its blocks. |
| `SpaceSteps.StepWrite` | filesys.c:698-797 | tfs_write_file in the abstract: the error, the contents and the number of free blocks are decided by the tree, the free blocks and the open files. |
| `SpaceSteps.StepDelete` | filesys.c:870-970 | tfs_delete in the abstract: the error is exact, and the blocks of the file or directory become free, and at most one more. |
| `Spaces.FileStays` | filesys.c:649-1192 | In the abstract tree an operation leaves entry and contents alone of every file that it is not about. |
| `Spaces.FileSurvives` | filesys.c:649-1192 | So does every run: a file that no operation of the run is about has its entry and its contents at the end. |
| `Runs.Perform` | filesys.c:593-1192 | Every sequence of namespace operations, whatever errors they end in, keeps the volume well-formed and the bitmap cache and the "full" marker true, and is a run of the abstract tree: each error, DISK_FULL and FILE_BUSY included, is the one the tree gives, and each change the one it allows. |
| `Runs.FormatAndPerform` | filesys.c:400-1192 | After formatting and any such sequence every block is accounted for, every chain hangs from one entry, tfs_get_used is the number of used blocks, and the tree is what the operations made of an empty root on a drive with all other blocks free. |
| `Mixed.GoesOn` | filesys.c:649-1192 | A namespace operation that is about one file only leaves every handle on another file where it was. |
| `Mixed.RenameOpen` | filesys.c:972-1012 | tfs_rename under open handles: an open file stays open under its new name. |
| `Mixed.DeleteAct` | filesys.c:870-970 | tfs_delete under open handles: the session is over exactly if some live handle then stands on a block that the bitmap does not mark. |
| `Mixed.SoundSession` | filesys.c:1016-1246 | In a session every descriptor is at a file of the tree, no two at the same, and the busy names are those at which somebody sits. |
| `Mixed.RunAll` | filesys.c:400-1541 | Any interleaving of namespace operations, opens, closes, reads, writes, truncations and tfs_get_used is a run of the abstract world: every outcome and every state. The run ends early exactly at a deletion that strands an open file and at a call that takes the first blocks of a file and runs out. |
| `Worlds.FileOutlives` | filesys.c:593-1541 | Over any such run a file that no act is about keeps its bytes and its size. |

## Where the code falls short of its promise

These are results of the model, each with the exact condition.

- tfs_format writes one byte past its bitmap buffer if and only if the number of blocks is a multiple
  of 4096 (`Format.TailIndexInBounds`, `Format.FormatDrive`; the byte is the field `behind`).
- tfs_read_file on a file without blocks reads block 0 and goes on at the number that the marks of
  blocks 32 to 63 make, the sum of 2^k over the used blocks 32 + k (`EmptyRead.NextOfZero`). It ends without error if and only if that walk ends at a next word 0: always if
  none of these blocks is in use or if the number names a block of a chain, never if it is past the
  drive; else free blocks and bitmap blocks decide, and the loop may run forever
  (`EmptyRead.EmptyReadCases`, `EmptyRead.StaleBlockDecides`, `Walks.EndsUnlessRepeated`). A file that
  tfs_trunc emptied still has its size and reads as these bytes.
- tfs_delete can strand open files: if it empties the head block of a directory, the second block moves
  into its place, and handles opened on that block point to a freed block. This happens if and only if
  the entry is the only one in the head block, the directory has another block, and a live handle has
  that block for its `dir_blk` (`Deleting.Stranded`, `Deleting.DeleteOpen`, `Stranding.StrandingRun`).
  The file then counts as closed and can be deleted or overwritten, and the next update of its item
  overwrites eight bytes of whatever the freed block holds by then (`Strays.UpdateStray`).
- tfs_open with all handles in use and none for the file reads past the handle table
  (`HandleTable.ClosedHandle`). Only if that memory reads as a count above 0 it reports NO_FREE_FD.
- Opening a file once more that is open 255 times makes it count as closed
  (`HandleTable.Increment`, `Desks.AfterOpen`).
- tfs_write of no bytes past the end leaves the last block unwritten (`OpenFiles.WriteNothing`,
  `OpenFiles.UnwrittenLast`); `Sessions.Write` requires a position inside the blocks in this case.
- tfs_write or tfs_trunc that fills the drive while it gives a file its first blocks leaves these blocks
  without an entry, as the item is not updated; in all other cases the volume is whole after DISK_FULL
  (`Desks.Loses`, `Sessions.Adrift`, `OpenFiles.ReachableIff`). A later call on the same handle repairs it
  exactly if it updates the item (`Sessions.WriteAdrift`, `Sessions.TruncAdrift`).
- tfs_write_file stopped by DISK_FULL leaves an item whose size its chain cannot hold; the contract
  of `FileOps.WriteFile` says so.
- tfs_trunc never changes the size of the handle (`Desks.AfterTrunc`).
- The loop test of seek wraps around for positions from 0xffffff00 on (`Cursor.SeekTestExact`), which
  matters only for files that reach that far (`Cursor.FitsExact`).
- The comment in tfs_format expects the root directory in block 3; it is block 1, as the constant
  says.

## Left out

- I/O errors and loss of power: every access inside the drive succeeds, as the engine has no recovery. The error exits after a block transfer appear only in tfs_read_file, the one operation that can be led past the end of the drive.
- drive_init, drive_select, drive_deselect, the SPI and SD card code and the emulated drive: only reading and writing a block is modelled, and that a successful transfer leaves the last error alone.
- tfs_read_dir, tfs_stat and the callbacks for directory entries and format progress: they add no state.
- The file name comparison of the ZX81 port, the command lines and terminals, and the rest of the FUSE front end.
- The byte layout of the packed structures, except where tfs_read_file reads blocks that are not data blocks and where a lost handle writes (`Walks.ItemLayout`, `Walks.DirLayout`): elsewhere blocks are a datatype. The block buffer and the disk are values that are assigned as a whole; the bitmap cache is an array that is updated in place. A directory item pointer is a slot number of the buffered block.
- What tfs_write_file leaves behind the last byte of data in the last block: the engine writes there what was in the block buffer, the model some bytes.
- What the memory behind the bitmap buffer and behind the handle table is used for: the byte that tfs_format overwrites and the count that tfs_open reads are values of their own.
- `HandleTable.Open`: with a full table and a memory that reads 0 behind it tfs_open takes that memory for a handle; the contract requires that it does not read 0 in this case.
- `Cursor.Seek`: positions from 0xffffff00 on in a chain that reaches, or could grow, that far: there the loop test is wrong (`Cursor.SeekTestExact`), and the contract leaves such files out. The same holds for the calls on handles.
- `FileOps.ReadFile`: for a file without blocks the contract requires that the loop ends; `Walks.EndsUnlessRepeated` says when it does.
- `Mixed.RunAll`: tfs_read_file is no act of the run, as on a file without blocks it may not end; writes of no bytes and positions beyond the 32-bit limits are not either, and the run does not go on after it ended early. `FileOps.ReadFile`, `OpenFiles.WriteNothing`, `Sessions.WriteAdrift` and `Strays.UpdateStray` say what the single calls do there.
- `FileOps.WriteThenRead`: data of length 0, where the read is that of a file without blocks (`FileOps.ReadFile`).
- `Paths.TravelPath`: failure of strdup.
- `Runs.Perform`: in the abstract tree, whether the current directory has a free slot and which names count as open are observed in each state, not computed from the state before; `SpaceSteps.SoundVolume` and `Mixed.SoundSession` say what they depend on.
- tfs_format is modelled as one method with its bitmap loop as a helper; the last-block flag of the loop is kept, the progress output is not.
- The fall-through at the end of tfs_delete for an unknown item type cannot occur, as item types are a datatype with three values.
