# Verified models of the Mynewt boot loader, file system, kernel and heap

This project models, in Dafny, the parts of the repository whose correctness
rests on several functions working together, and proves what those parts
promise over every input, every run or every point at which power can fail.
`dafny verify dfyconfig.toml` checks all of it.

**Boot loader** (`BootProtocol`, `BootSafety`, `BootBytes`, `BootLoader`).  The image swap is
a list of erases, copies and status writes that the status table alone
determines.  A reset may strike between any two of them, and in the middle of an
erase or a copy, any number of times.  Image 1 is never lost, and every run that
is not interrupted fills slot 0 with it.  Image 0 is a different matter:
`boot_swap_areas` erases the scratch area without looking at it, so a run that
starts with a part in scratch while some pair of parts has not been exchanged yet
loses that part.  `BootBytes` states the result for the bytes of the images.

**NFFS** (`NffsChain`, `NffsDisk`, `NffsIndex`, `NffsPlace`, `NffsVolume`, `NffsGc`,
`NffsSpace`, `NffsCycle`, `NffsCollect`, `NffsCache`, `NffsFile`, `NffsWrite`,
`NffsUpdate`, `Crc16`).  A file is a chain of blocks, each naming the one before it,
in flash that is only ever written at the end of an area.  Its contents are the
concatenation of the chain as the RAM index finds it.  Garbage collection, whatever
the layout and whether or not memory for collating is available, leaves every file's
contents as they were and nothing in the collected area; areas are collected in
turns, so that a request for space fails only when no area has room once each has been
collected; reads through the cache equal a plain walk of the chain; writes make the
contents the splice of old and new bytes.  Objects never overlap on flash, and every
write and every collection keeps it so.

**Kernel** (`OsList`, `OsSched`, `OsKernel`, `OsMutex`, `OsSem`, `OsEvent`, `OsRun`,
`OsPreempt`, `OsSpec`, `OsRefine`, `OsLaws`, `OsCode`).  Tasks, lists, mutexes, semaphores, event queues and callouts
form a transition system in which each critical section is a step.  A release has
three: the test and the decrement, which the code makes with interrupts on, the
critical section, and the switch.  The class `Os` has the fields and the loops of the
C code and is proved to take exactly these steps.  Times are 32 bit and wrap; a
history variable without wrap-around says what is due.  `OsSpec` says what the calls
mean on a machine without lists, clock and wrap-around, in which a sleeper has so many
ticks left; `RunRefines` proves that every sound run of the kernel is a run of that
machine, and `OsLaws` derives how long sleeps, timeouts and callouts last and where
every token goes.

**Heap** (`HeapRing`, `HeapModel`, `HeapCode`), **mbufs** (`MbufCode`), **CRC**
(`Crc16`), **combsort** (`CombSort`) and **base64** (`Base64`).  The two doubly linked
chains of malloc, mbuf chains as one flat byte sequence, the table-driven CRC as
polynomial division, combsort as a sorted permutation, and base64 as a round trip.
`Common` and `Bytes` hold what several of these use.

Some properties are false as one would first state them.  Each comes with the
condition under which it holds:

- Both images survive every chain of resets: if and only if they do not have two part
  numbers in common (`BothNeverLost`, `ClashReached`).  For one run: if and only if
  image 0 is complete and the run does not start with a clash (`UninterruptedRun`).
- The table is built again after a reset before the first status write: if both slots
  have an image or neither has (`RebuildSame`); with one slot empty there is a reset
  after which it is not (`EmptySlotMisread`).  `boot_go` only starts a copy with an
  image in slot 1, so that of these cases an empty slot 0 is the one that can occur.
- The kernel's promises about mutexes hold all along a run: if and only if every
  release that enters its critical section finds the mutex without a level and with
  its caller's own priority (`RunPromises`).  They do if no task pends on a mutex while
  another one is between the two parts of its release (`QuietPromises`).
  `ReleaseTakesAway` and `ReleaseKeepsPrio` are runs that break them.
- A switch to the task that a release has chosen, as the simulator makes it, makes the
  most urgent task run: if and only if the caller is not that task itself by then
  (`DirectSwitch`); in `SwitchToSleeper` the chosen task sleeps.
- A block rewritten by `nffs_write_over_block` has the length it was given: if and only
  if that is at most 65511 bytes (`WriteOverBlock`, `LengthsHold`), and a write to a
  file succeeds, but for lack of room, exactly if no chunk makes the last block longer
  (`WriteToFile`); writes of two bytes reach that limit (`ExtendToLimit`).
- A read through the cache puts a block in its place: if and only if the cached length
  is that of the block (`ReadPlace`), which may be out of date for the last block alone
  where reads are claimed to be right (`InodeRead`).
- The length of a read is at most the one asked for: if and only if the offset is not
  beyond the file (`ReadLengthHolds`), which `nffs_file_seek` sees to.
- The area chosen for collection is a longest one, so that it can be the next scratch
  area, whatever the collection counts: if and only if the last area is a longest one
  (`SelectLongest`).
- What a rewritten block is copied from is still there after a collection: if and only
  if the area collected is not the one it is in (`SourceStays`).
- A block on flash carries the id that the index has for it: after a collection, if and
  only if it did before and no blocks have been merged (`GcInodeBlocks`, `Gc`), since a
  merged block is written under the id of the first and entered under that of the last
  (`CollatedLabel`).
- No entry for a block is lost: an append keeps their number if and only if it does not
  fail for want of room on flash (`WriteAppend`).
- The size malloc asks for has room for the request: if and only if the request is at
  most 2^32 - 32 bytes (`RoundUpRoom`, `RoundUpWraps`).

The checksum of a block header covers its first 20 bytes, which do not include the
data length, although the comment at fs/nffs/src/nffs_priv.h:90
speaks of the rest of the header; the model follows the code.

## Model

| member | source | states |
|---|---|---|
| BootSafety.Image1NeverLost | libs/bootutil/src/loader.c:289-515 | From two images in their slots, after any number of resets, each anywhere in a resumed run, every part of image 1 is recorded at an area that holds exactly that part |
| BootSafety.UninterruptedRun | libs/bootutil/src/loader.c:430-515 | From every state that resets can leave, a run without a reset puts image 1 in slot 0; it reports success if and only if image 0 was complete and no clash with scratch was ahead, and then image 0 is in slot 1 |
| BootSafety.BothImagesKept | libs/bootutil/src/loader.c:346-515 | If image 0 is complete and there is no clash when a run starts, the status is truthful and complete for both images at every point where that run can be cut off |
| BootSafety.BothNeverLost | libs/bootutil/src/loader.c:346-515 | If the images do not have two part numbers in common, both survive any number of resets, each anywhere in a resumed run, and a run without a reset then succeeds |
| BootSafety.ClashReached | libs/bootutil/src/loader.c:346-515 | If they have two in common, a reset exists that leaves part 0 of image 0 in scratch with a swap ahead; the next run ends in a bad-image error with that part recorded nowhere |
| BootSafety.NoClash | libs/bootutil/src/loader.c:366-372 | No table of images without two part numbers in common clashes |
| BootSafety.FreshRunExchanges | libs/bootutil/src/loader.c:499-515 | A run from a freshly built status succeeds and exchanges the two images exactly, for any two part counts that fit |
| BootSafety.CopyRunSafe | libs/bootutil/src/loader.c:499-515 | Every point of a run is safe, slot 0 is filled, and a part of image 0 that is doomed makes the run end in a bad-image error |
| BootSafety.FillA | libs/bootutil/src/loader.c:430-488 | Filling slot 0 with image 1 always succeeds, is safe at every point, meets the assertions of the code, and loses exactly the doomed part of image 0 |
| BootSafety.FillB | libs/bootutil/src/loader.c:430-488 | Filling slot 1 with image 0 keeps slot 0, is safe at every point, succeeds if no part is lost and fails if one is |
| BootSafety.SwapSafe | libs/bootutil/src/loader.c:346-428 | A swap of two areas through scratch keeps image 1, and image 0 too if scratch is not in use, at every point within its three relocations |
| BootSafety.SwapLoses | libs/bootutil/src/loader.c:346-428 | A swap while scratch holds a part of image 0 leaves that part recorded nowhere; ClashReached gives the reset that leads there |
| BootSafety.MoveSafe | libs/bootutil/src/loader.c:289-329 | A move to an area that holds nothing needed is safe at every point and moves just that entry of the table |
| BootSafety.EraseSafe | libs/bootutil/src/loader.c:203-217 | A partial or whole erase of an area the table does not use leaves a good device |
| BootSafety.CrashStepGood | libs/bootutil/src/loader.c:631-743 | A reset anywhere in a run leaves a device from which the next run starts good |
| BootSafety.InitialGood | libs/bootutil/src/loader.c:561-587 | The status built from the image headers is truthful and complete, with scratch not in use |
| BootSafety.InstalledInitial | libs/bootutil/src/loader.c:561-587 | Any two images that fit the slots make a state to start from |
| BootSafety.RebuildSame | libs/bootutil/src/loader.c:561-587 | With an image in both slots, a reset before any status was written leaves headers that give the same table again; with an image in neither, it leaves the device as it was |
| BootSafety.EmptySlotMisread | libs/bootutil/src/loader.c:561-587 | With exactly one slot empty and no status file, a reset exists after which both slots start with the same header and the table built from them is a different one |
| BootBytes.PartsCover | libs/bootutil/src/loader.c:445-485 | The parts of an image hold all of its bytes, and one part fewer would not |
| BootBytes.ImageArrives | libs/bootutil/src/loader.c:430-515 | From two images of any lengths in their slots, after any number of resets, each anywhere in a resumed run, a run without a reset leaves slot 0 beginning with all bytes of the image that was in slot 1, and if it reports success slot 1 beginning with those of the other |
| BootProtocol.FindPartFirst | libs/bootutil/src/loader.c:143-157 | If any position holds the part, the one found holds it and is not behind any that does |
| BootLoader.Loader.FindImagePart | libs/bootutil/src/loader.c:143-157 | Returns the area of the first entry that records the part, -1 if there is none |
| BootLoader.Loader.FindImageAreaIdx | libs/bootutil/src/loader.c:189-201 | Returns a position of the area, -1 only if there is none |
| BootLoader.Loader.EraseArea | libs/bootutil/src/loader.c:203-217 | The one area reads as erased and nothing else changes |
| BootLoader.Loader.CopyArea | libs/bootutil/src/loader.c:228-272 | The chunk loop programs the whole source area over the target, bits only being cleared |
| BootLoader.Loader.WriteStatus | libs/bootutil/src/bootutil_misc.c:239-270 | The status on disk becomes the table in RAM |
| BootLoader.Loader.MoveArea | libs/bootutil/src/loader.c:289-329 | Table and device end as the move of the protocol says |
| BootLoader.Loader.SwapAreas | libs/bootutil/src/loader.c:346-428 | Table and device end as the three relocations of the protocol say |
| BootLoader.Loader.PlacePart | libs/bootutil/src/loader.c:446-478 | One part: nothing, a move or a swap, chosen as the protocol chooses |
| BootLoader.Loader.FillSlot | libs/bootutil/src/loader.c:430-488 | The loop over parts has the result, the table and the device of the protocol's run |
| BootLoader.Loader.CopyImage | libs/bootutil/src/loader.c:499-515 | Slot 0 ends with image 1, all of its bytes; success if and only if image 0 survives, and then slot 1 begins with all bytes of image 0 |
| BootLoader.Loader.Exchange | libs/bootutil/src/loader.c:683-715 | Without a status, for any lengths that fit: the table is built, the copy succeeds, and the first bytes of the slots, as many as the images have, change places |
| BootLoader.Loader.BuildStatusOne | libs/bootutil/src/loader.c:520-553 | Exactly the areas an image covers are recorded with its part numbers in order |
| BootLoader.Loader.BuildStatus | libs/bootutil/src/loader.c:561-587 | The table is the fresh one for the two part counts |
| Crc16.CrcIsRemainder | fs/nffs/src/crc16.c:52-102 | For every message the table-driven CRC is the remainder of bit-by-bit division of the message, 16 zero bits added, by x^16+x^12+x^5+1 |
| Crc16.TableEntry | fs/nffs/src/crc16.c:52-85 | Every one of the 256 table entries is eight division steps of its index |
| Crc16.CrcAppend | fs/nffs/src/crc16.c:87-102 | The CRC of two pieces continues from the CRC of the first |
| Crc16.CrcDetects | fs/nffs/src/crc16.c:87-102 | Messages that differ in a single byte have different CRCs |
| Crc16.Crc16Ccitt | fs/nffs/src/crc16.c:87-102 | The loop computes that CRC, and the remainder when started at 0 |
| NffsChain.AppendBlock | fs/nffs/src/nffs_write.c:211-259 | A block with the last one as predecessor extends the chain and appends its data |
| NffsChain.ReplaceBlock | fs/nffs/src/nffs_write.c:94-200 | A block superseded under the same id keeps the chain and replaces just its part of the contents |
| NffsChain.CollatedChain | fs/nffs/src/nffs_gc.c:165-252 | Collating a run into its last block leaves a chain without the other blocks of the run |
| NffsChain.CollatedContents | fs/nffs/src/nffs_gc.c:165-252 | That chain has the contents of the old one |
| NffsDisk.DecodeEncode | fs/nffs/src/nffs_block.c:57-123 | A block header written to flash reads back unchanged |
| NffsDisk.HeaderLayout | fs/nffs/src/nffs_priv.h:82-92 | The fields of a block header are on flash in their order, least significant byte first |
| NffsDisk.ChecksumIs | fs/nffs/src/nffs_crc.c:57-85 | The checksum of a block is the remainder of its first 20 header bytes and its data |
| NffsDisk.ChecksumDetects | fs/nffs/src/nffs_crc.c:87-104 | Blocks that differ in a single covered byte have different checksums |
| NffsDisk.WrittenBlock | fs/nffs/src/nffs_block.c:87-123 | Header and data written at the end of an area are found there as a valid block with that inode, predecessor and data |
| NffsDisk.CopiedBlock | fs/nffs/src/nffs_gc.c:27-49 | The raw bytes of a block copied elsewhere are the same block there |
| NffsDisk.LiveExtends | fs/nffs/src/nffs_flash.c:80-107 | Writes at the end of areas leave every block on flash as it was |
| NffsDisk.FlashLocRoundTrip | fs/nffs/src/nffs_flash.c:160-177 | A packed location fits 32 bits and expands to the area and offset it was made from |
| NffsDisk.FlashLocOrder | fs/nffs/src/nffs_flash.c:160-165 | Packed locations are in the order of areas and, within an area, of offsets |
| NffsPlace.Placed | fs/nffs/src/nffs_flash.c:80-107 | If every object is where it was, but for one written at the former end of an area, no two objects overlap |
| NffsPlace.BlockPlaced | fs/nffs/src/nffs_block.c:87-123 | A block written at the end of an area overlaps nothing, whether its id is new or superseded |
| NffsPlace.RecordPlaced | fs/nffs/src/nffs_gc.c:51-71 | Nor does an inode's record |
| NffsVolume.Volume.FlashRead | fs/nffs/src/nffs_flash.c:42-64 | Succeeds exactly within the area, with the bytes found there |
| NffsVolume.Volume.FlashWrite | fs/nffs/src/nffs_flash.c:80-107 | Succeeds exactly for writes within the area that do not reach back before the end of what is written; a failed write changes nothing |
| NffsVolume.Volume.FlashCopy | fs/nffs/src/nffs_flash.c:120-154 | The chunk loop writes exactly the source bytes at the target; it fails exactly if the whole does not fit, and then only the target area has been written to |
| NffsVolume.Volume.BlockFromEntry | fs/nffs/src/nffs_block.c:256-280 | The fields of the header on flash, or corruption exactly if inode or predecessor is unknown |
| NffsVolume.Volume.BlockDeleteFromRam | fs/nffs/src/nffs_block.c:189-209 | The block leaves the index and its entry returns to the pool; an inode that ended with it ends with its predecessor |
| NffsVolume.Volume.BlockReadData | fs/nffs/src/nffs_block.c:282-301 | The bytes of the block asked for |
| NffsVolume.Volume.GcCopyBlock | fs/nffs/src/nffs_gc.c:27-49 | The block is found at its new place and every block reads as before, id and sequence number included |
| NffsVolume.Volume.GcBlockChainCopy | fs/nffs/src/nffs_gc.c:111-143 | Each block of a run moves to the target area, every block reads as before, and exactly the bytes of the run are written |
| NffsVolume.Volume.GcBlockChainCollate | fs/nffs/src/nffs_gc.c:165-252 | The run becomes one block with the data of all, in one header and data, under the entry of its last block, with the id and the next sequence number of its first; without memory for the data, and only then, nothing changes |
| NffsVolume.CollatedLabel | fs/nffs/src/nffs_gc.c:216-242 | A run of several blocks that has been collated is on flash under another id than in the index |
| NffsVolume.Volume.GcBlockChain | fs/nffs/src/nffs_gc.c:275-299 | Several blocks become one if there is memory for their data, and are copied if not; the file's contents stay; the ids on flash stay right if and only if nothing was merged; no entry is lost |
| NffsVolume.Volume.GcInodeBlocks | fs/nffs/src/nffs_gc.c:301-376 | For any layout, block size limit and lack of memory: the file's contents are kept, none of its blocks is left in the source area, blocks of other files are untouched, and no more is written than the source area held of it; with memory for a block, neighbours that were both in the source area are merged until they would be too long; ids on flash stay right if and only if nothing was merged; no entry is lost |
| NffsGc.FormattedMounts | fs/nffs/src/nffs_format.c:106-186 | A disk without objects is a mounted volume without files |
| NffsGc.NewFileMounts | fs/nffs/src/nffs_file.c:67-133 | Writing an inode's record at the end of an area adds an empty file and leaves the others |
| NffsGc.GcCopyInode | fs/nffs/src/nffs_gc.c:51-71 | The inode's record is at its new place with the same bytes, and all files are as before |
| NffsGc.GcInode | fs/nffs/src/nffs_gc.c:437-468 | One turn of the loop keeps all files and that no objects overlap, empties the source area of this inode's objects and writes no more than they took |
| NffsGc.FilesAfterBlocks | fs/nffs/src/nffs_gc.c:301-376 | Replacing the blocks of one file leaves every file a chain owned by it alone |
| NffsGc.LiveBytesVisit | fs/nffs/src/nffs_gc.c:437-468 | A visit takes from the live bytes of the source area exactly what the visited inode had there |
| NffsSpace.LiveFits | fs/nffs/src/nffs_gc.c:471-475 | Objects that do not overlap take, with the area header, no more than has been written to the area |
| NffsCycle.GcInodes | fs/nffs/src/nffs_gc.c:437-468 | Visiting inodes in any order and any number of times keeps all files, empties the source area of each, always finds room, and writes no more than the area held |
| NffsCycle.FormatArea | fs/nffs/src/nffs_format.c:64-95 | The area is erased but for its header; a scratch area's id stays erased |
| NffsCycle.Gc | fs/nffs/src/nffs_gc.c:414-491 | A whole cycle succeeds, keeps every file and that no objects overlap, leaves the collected area empty and formatted as scratch, fit for the next cycle if it is as long as any, the new area under the id of the old one and no fuller than the old one was, as the closing assertion demands; ids of blocks on flash stay right if and only if no file's chain has changed |
| NffsCycle.SpareKept | fs/nffs/src/nffs_misc.c:71-90 | Writes to other areas leave the scratch area fit for the next cycle |
| NffsCycle.EmptiedUnused | fs/nffs/src/nffs_gc.c:471-480 | Once every inode has been visited nothing in the index refers to the source area |
| NffsCycle.UnusedArea | fs/nffs/src/nffs_format.c:64-95 | Anything may happen to an area the index does not refer to without a file changing |
| NffsCollect.SelectData | fs/nffs/src/nffs_gc.c:78-109 | The closing assertion of the choice holds if and only if there is another area than the scratch area |
| NffsCollect.SelectLongest | fs/nffs/src/nffs_gc.c:78-109 | A longest area is chosen whatever the collection counts if and only if the last area is a longest one |
| NffsCollect.SelectTurn | fs/nffs/src/nffs_gc.c:78-109 | Among areas of one length the choice goes by turns, across the wrap-around of the 8-bit counts |
| NffsCollect.NextRoundOk | fs/nffs/src/nffs_gc.c:477-488 | A collection leaves the counts such that the turns go on |
| NffsCollect.SinceAll | fs/nffs/src/nffs_gc.c:493-526 | As many collections as there are areas collect every area that held data, from any counts that formatting and collections leave |
| NffsCollect.Collector.SelectArea | fs/nffs/src/nffs_gc.c:78-109 | The loop makes that choice |
| NffsCollect.Collector.Collect | fs/nffs/src/nffs_gc.c:414-491 | The area whose turn it is becomes the scratch area, with its new count in its header; the old scratch area takes over its id; all files stay, and everything is fit for the next cycle |
| NffsCollect.Collector.GcUntil | fs/nffs/src/nffs_gc.c:508-526 | Succeeds with an area that has room; fails if and only if no area has room, every one having been collected; all files stay |
| NffsCollect.Collector.Reserve | fs/nffs/src/nffs_misc.c:133-170 | The first area with room, if need be after collections; fails if and only if no area has room then; all files stay |
| NffsCollect.Collector.Append | fs/nffs/src/nffs_write.c:211-250 | With or without collections on the way the data is appended to the file, or the file is as before, and all others stay; it lacks memory exactly if there is no entry left |
| NffsCollect.Collector.Run | fs/nffs/src/nffs_write.c:211-250 | After any run of appends and collections each file has exactly the data whose writes succeeded behind its old contents, in their order; every collection succeeds |
| NffsCollect.SourceStays | fs/nffs/src/nffs_write.c:129-190 | After a collection a block is still where it was if and only if its area is not the one collected |
| NffsCache.SeekBegin | fs/nffs/src/nffs_cache.c:308-345 | The three starting points of a seek each name the block that ends at the offset recorded for it |
| NffsCache.SeekPrepend | fs/nffs/src/nffs_cache.c:345-434 | A block cached in front of the run continues it, even if the run has just been given up to make room |
| NffsCache.SeekAppend | fs/nffs/src/nffs_cache.c:345-434 | A block cached behind the run continues it if it follows and replaces it if not |
| NffsCache.ShedCoherent | fs/nffs/src/nffs_cache.c:218-232 | Giving up the cached blocks of an inode leaves its cache coherent |
| NffsFile.FileSystem.InodeFreeBlocks | fs/nffs/src/nffs_cache.c:101-110 | The blocks cached for an inode return to the pool, none lost |
| NffsFile.FileSystem.CollectBlocks | fs/nffs/src/nffs_cache.c:218-232 | If any block is in use, the inode cached longest ago that has some gives all of them up, and no other does |
| NffsFile.FileSystem.BlockAcquire | fs/nffs/src/nffs_cache.c:52-66 | A block is always obtained, at worst at the expense of an inode's cached blocks |
| NffsFile.FileSystem.InodeRange | fs/nffs/src/nffs_cache.c:197-216 | The offset in the file at which the cached run starts, and the one at which it ends, which is exact if the last cached length is; 0 and 0 if nothing is cached |
| NffsFile.FileSystem.BlockPopulate | fs/nffs/src/nffs_cache.c:68-84 | The cached entry is what the chain says of that block, its offset included |
| NffsFile.FileSystem.CacheSeek | fs/nffs/src/nffs_cache.c:308-434 | Ends on the block that holds the offset, fails exactly for an empty file, and leaves every cache a contiguous run with right offsets, for any pool of at least one block |
| NffsFile.FileSystem.CalcDataLength | fs/nffs/src/nffs_inode.c:113-138 | The length of the chain's contents |
| NffsFile.FileSystem.InodeAcquire | fs/nffs/src/nffs_cache.c:121-140 | A cache inode is always obtained, at the expense of the one cached longest ago if there is none left |
| NffsFile.FileSystem.InodeEnsure | fs/nffs/src/nffs_cache.c:248-279 | The inode is cached with the size of its contents, at the head of the list if it was not, and the cache stays coherent |
| NffsFile.FileSystem.ReadBlocks | fs/nffs/src/nffs_inode.c:809-846 | The backward loop fills the buffer with exactly the bytes of the range, even if the cached length of the last block is out of date |
| NffsFile.FileSystem.InodeRead | fs/nffs/src/nffs_inode.c:773-852 | Returns exactly the bytes a plain walk of the chain gives, cut off at the end of the file, from any cache in which at most the length of the last block is out of date |
| NffsFile.ReadPlace | fs/nffs/src/nffs_inode.c:822-846 | A block that a read takes to its end is put in its place if and only if its cached length is right |
| NffsFile.ReadLengthHolds | fs/nffs/src/nffs_inode.c:800-806 | The 32-bit length of a read is at most the one asked for if and only if the offset is not beyond the file |
| NffsWrite.CrcFlash | fs/nffs/src/nffs_crc.c:24-55 | The CRC over flash taken a buffer at a time is the CRC of the whole stretch |
| NffsWrite.CrcDiskBlockHdr | fs/nffs/src/nffs_crc.c:57-65 | The CRC of the header bytes before the checksum field and the data length |
| NffsWrite.DiskBlockValidate | fs/nffs/src/nffs_crc.c:87-104 | Accepts a block if and only if its checksum is that of its header and data |
| NffsWrite.FillCrcOverwrite | fs/nffs/src/nffs_write.c:26-76 | The checksum put together from old and new pieces is the one validation computes on the spliced block; the closing assertion fails exactly if the 16-bit sums differ |
| NffsWrite.ReserveSpace | fs/nffs/src/nffs_misc.c:104-150 | The first area other than scratch with room, and none exactly if there is none |
| NffsWrite.LengthsHold | fs/nffs/src/nffs_write.c:115-192 | The recorded 16-bit length is right, and one that a block can have, if and only if the data is at most 65511 bytes long; the assertion alone holds whenever the recorded length is one that a block can have |
| NffsWrite.WritePieces | fs/nffs/src/nffs_write.c:146-191 | Header, left remnant, new data and right remnant together are exactly the spliced block on flash; it fails exactly if they do not fit |
| NffsWrite.WriteOverBlock | fs/nffs/src/nffs_write.c:94-200 | The block's data becomes the splice, under the same id, if and only if that is at most 65511 bytes long and there is room; if it is longer an assertion fails, the call fails, or the block records 2^16 bytes less than were written; the new block has the next sequence number; every other block is as before |
| NffsUpdate.SpliceBlock | fs/nffs/src/nffs_write.c:94-200 | Splicing one block, past its end only if it is the last, splices the contents of the file at the block's offset |
| NffsUpdate.SpliceJoin | fs/nffs/src/nffs_write.c:295-338 | Two adjoining writes, the later part first, are one write |
| NffsUpdate.OverBlock | fs/nffs/src/nffs_write.c:94-200 | The file becomes the splice, other files stay, and the cache is coherent but for the length of a last block that has grown |
| NffsUpdate.CoherentAfter | fs/nffs/src/nffs_write.c:94-200 | Which cached offsets and lengths remain right after a block has been rewritten |
| NffsUpdate.BlockWriteDisk | fs/nffs/src/nffs_block.c:87-123 | The block is on flash with its id and sequence number and valid, or there was no room and nothing changed |
| NffsUpdate.WriteAppend | fs/nffs/src/nffs_write.c:211-259 | The data is appended to the file, or the file is as before; it lacks memory exactly if there is no entry left, and loses one exactly if flash is full; other files stay and the cache stays coherent |
| NffsUpdate.AppendToDisk | fs/nffs/src/nffs_write.c:222-250 | The new block is on flash under the next id with sequence number 0, behind the last one of the file, and every other block is as before |
| NffsUpdate.OverwriteOne | fs/nffs/src/nffs_write.c:307-335 | One turn writes the part of the data that falls into the block before the position, and goes on from that block's start |
| NffsUpdate.Overwrite | fs/nffs/src/nffs_write.c:295-338 | The backward loop over blocks makes the file the splice; cut short by a full disk, exactly a tail of the data has been written |
| NffsUpdate.WriteChunk | fs/nffs/src/nffs_write.c:273-340 | Overwrite, extension of the last block or append: the file becomes the splice, but for lack of room or memory exactly if the last block does not become too long |
| NffsUpdate.RoomForChunk | fs/nffs/src/nffs_write.c:379-397 | A last block with room for one more chunk never makes a block too long, however much is written |
| NffsUpdate.ChunksAppend | fs/nffs/src/nffs_write.c:379-397 | A write at the end of the file never makes a block too long |
| NffsUpdate.WriteChunks | fs/nffs/src/nffs_write.c:379-397 | The chunk loop makes the file the splice, or stops with a stated part of it written |
| NffsUpdate.WriteToFile | fs/nffs/src/nffs_write.c:351-400 | The file becomes the splice of old and new bytes, so its length the larger of the old one and the end of the data; but for lack of room or memory it does so exactly if no chunk makes the last block too long; the offset moves behind the data; a file without write access is refused; other files stay; what is cached stays right but for the length of a last block that has grown |
| NffsUpdate.ByteFits | fs/nffs/src/nffs_write.c:273-340 | A write that replaces the last byte and adds one is too long exactly if the last block is as long as it can be |
| NffsUpdate.ExtendToLimit | fs/nffs/src/nffs_write.c:273-340 | Such writes, repeated, make the last block as long as it can be unless room or memory is lacking; the next one does not fit |
| OsSched.BlockKeeps | libs/os/src/os_sched.c:166-194 | Putting a running task to sleep, with or without an object, keeps every list sorted and every task on exactly one list |
| OsSched.WakeKeeps | libs/os/src/os_sched.c:208-232 | So does waking a sleeping task, which also leaves the list of waiters it was on |
| OsSched.SetPrioKeeps | libs/os/src/os_sched.c:306-313 | So does a change of priority followed by a resort |
| OsSched.RunsBehind | libs/os/src/os_sched.c:45-74 | A task that wakes goes behind all ready tasks as urgent as it is and before the others, which stay in their order |
| OsSched.SetsBehind | libs/os/src/os_sched.c:306-313 | So does a ready task whose priority changes |
| OsSched.WaitsBehind | libs/os/src/os_mutex.c:197-213 | A task that waits does so behind all waiters as urgent as it is and before the others |
| OsSched.WakeDueExact | libs/os/src/os_sched.c:243-274 | The scan that stops at the first sleeper not due wakes exactly the tasks that are due, across clock wrap-around, and never those that sleep forever |
| OsSched.TicksCompare | libs/os/include/os/os_time.h:39-41 | The signed comparison of wrapped times is the order of the times, within 2^31 ticks |
| OsMutex.MutexPendKeeps | libs/os/src/os_mutex.c:147-220 | A pend keeps the invariant; it returns success exactly with the caller as owner, and a refusal changes nothing |
| OsMutex.MutexPendedKeeps | libs/os/src/os_mutex.c:220-235 | A pend that has slept returns success if and only if its caller owns the mutex, also when a timeout and a release come together; after a timeout the caller has its base priority |
| OsMutex.MutexDropKeeps | libs/os/src/os_mutex.c:62-91 | The first part of a release keeps the invariant and fails, changing nothing, exactly if the caller is not the owner |
| OsMutex.MutexGiveKeeps | libs/os/src/os_mutex.c:92-121 | The critical section keeps it if the mutex has no level and remembers the caller's own priority |
| OsMutex.SwitchKeeps | libs/os/src/os_mutex.c:123-126 | The switch, to whichever task is then the most urgent, keeps it |
| OsSem.SemPendKeeps | libs/os/src/os_sem.c:131-195 | A pend keeps the invariant; success takes exactly one token, a refusal changes nothing |
| OsSem.SemPendedKeeps | libs/os/src/os_sem.c:195-211 | A pend that has slept succeeds exactly if a release chose it |
| OsSem.SemReleaseKeeps | libs/os/src/os_sem.c:65-113 | A release by a task, which switches in a step of its own, or by an interrupt handler keeps the invariant; without a waiter there is one token more, with one the tokens stay and exactly the first waiter will succeed |
| OsEvent.EvPutKeeps | libs/os/src/os_eventq.c:32-63 | A put keeps the invariant, so never wakes a task that is not asleep, and the event is queued |
| OsEvent.EvGetKeeps | libs/os/src/os_eventq.c:71-97 | A get takes the first event, of a put later than all those taken before; it sleeps exactly if the queue is empty |
| OsEvent.EvRemoveKeeps | libs/os/src/os_eventq.c:99-110 | The queue is the old one without the event, in its order; just this event is no longer marked queued |
| OsRun.StopKeeps | libs/os/src/os_callout.c:44-61 | A stopped callout is neither pending nor is its event queued |
| OsRun.ResetKeeps | libs/os/src/os_callout.c:63-103 | A reset is refused exactly for negative ticks; otherwise the callout is on the list, due in that many ticks, at least one, and all others are on it or not as before |
| OsRun.FireDueExact | libs/os/src/os_callout.c:105-133 | The loop fires exactly the callouts that are due, none early and none left behind, across clock wrap-around |
| OsRun.TickKeeps | libs/os/src/arch/cortex_m4/os_arch_arm.c:93-100 | A tick keeps the invariant, fires exactly the callouts that are due and wakes exactly the sleepers that are due |
| OsRun.DelayKeeps | libs/os/src/os_time.c:52-63 | A delay keeps the invariant |
| OsRun.StepKeeps | libs/os/src/os_sched.c:129-313 | Every system call, tick and resumption keeps the invariant, a release in its critical section if the mutex has no level and the caller's own priority |
| OsRun.UnsoundBreaks | libs/os/src/os_mutex.c:92-121 | Any other release breaks a promise |
| OsRun.RunKeeps | libs/os/src/os_sched.c:129-313 | The invariant holds after every run in which all releases are of that kind |
| OsRun.RunPromises | libs/os/src/os_mutex.c:62-235 | All along a run the promises hold if and only if all releases in it are of that kind.  The promises: each task is ready or asleep; the most urgent ready task runs, or the running task is about to switch to it; at most one task holds a mutex, as often as its level says, and is as urgent as every waiter; a task that holds none has its base priority; tokens and pends add up to initial tokens and releases; nobody waits while there are tokens; an event is marked queued exactly if it is, and then its consumer does not sleep |
| OsPreempt.QuietPromises | libs/os/src/os_mutex.c:80-92 | The promises hold all along every run in which no task pends on a mutex that another one is about to release |
| OsPreempt.QuietSound | libs/os/src/os_mutex.c:80-92 | All releases in such a run find the mutex as their caller left it |
| OsPreempt.ReleaseTakesAway | libs/os/src/os_mutex.c:80-113 | For any priorities: a run in which a release, preempted before its critical section, takes the mutex from the task that has got it meanwhile |
| OsPreempt.ReleaseKeepsPrio | libs/os/src/os_mutex.c:80-98 | For any priorities: a run in which a release leaves its caller with the priority of the task that had the mutex meanwhile |
| OsPreempt.DirectSwitch | libs/os/src/arch/sim/os_arch_sim.c:139-173 | A switch to the task chosen before makes the most urgent ready task run if and only if the caller is not that task by then |
| OsPreempt.SwitchToSleeper | libs/os/src/arch/sim/os_arch_sim.c:139-173 | For any priorities: a run, all of whose releases are sound, at the end of which a release is about to switch to a task that sleeps |
| OsRefine.StepRefines | libs/os/src/os_sched.c:129-313 | Every sound step of the kernel is the step of the simple machine: who sleeps on what and for how many ticks, who wakes, runs, owns, has which priority, what is queued and what is pending |
| OsRefine.StepReplies | libs/os/src/os_mutex.c:147-235 | And returns what the simple machine returns |
| OsRefine.RunRefines | libs/os/src/os_sched.c:129-313 | Every sound run of the kernel is a run of the simple machine |
| OsRefine.RefMutexPend | libs/os/src/os_mutex.c:147-220 | A pend takes a free mutex, nests, is refused, or lends its caller's priority to the owner if that is higher, and sleeps for its timeout |
| OsRefine.RefMutexGive | libs/os/src/os_mutex.c:92-121 | The caller gets its priority back; one of the most urgent waiters owns the mutex and is awake, or it is free |
| OsRefine.RefSemPend | libs/os/src/os_sem.c:131-195 | A pend takes a token, is refused, or sleeps for its timeout |
| OsRefine.RefSemRelease | libs/os/src/os_sem.c:65-113 | One of the most urgent waiters is chosen and awake, or there is a token more |
| OsRefine.RefPut | libs/os/src/os_eventq.c:32-63 | An event that is not queued goes behind the others, and a consumer that waits for one wakes |
| OsRefine.RefReset | libs/os/src/os_callout.c:63-103 | The callout has as many ticks to go as asked for, at least one, its event is not queued, and nothing else changes |
| OsRefine.RefDelay | libs/os/src/os_time.c:52-63 | The caller sleeps for as many ticks as it asked for |
| OsRefine.RefTick | libs/os/src/arch/cortex_m4/os_arch_arm.c:93-100 | Every sleeper and every callout has one tick less; those with none left wake or put their events, each once and behind those queued |
| OsLaws.SleepLaw | libs/os/src/os_sched.c:166-274 | A delay always sleeps, a pend exactly if what it wants is not there and it is to wait; a sleeper that nothing else wakes is asleep until the run has had as many ticks as the timeout says, and awake then |
| OsLaws.CalloutLaw | libs/os/src/os_callout.c:63-133 | A callout that is reset and left alone is on the list until the run has had as many ticks as asked for; the last of them puts its event, and no earlier one does if no other callout has that event |
| OsLaws.TokenLaw | libs/os/src/os_sem.c:65-211 | Over any sound run, tokens, tasks chosen but not yet returned, and pends that returned OS_OK add up to what there was and the releases |
| OsRun.InitialInv | libs/os/src/os_mutex.c:34-48 | The kernel as it starts meets the invariant |
| OsRun.StartedInitial | libs/os/src/os_sched.c:45-74 | Tasks created in any order, with any mutexes, semaphores and queues, make such a kernel |
| OsCode.Os.SchedInsert | libs/os/src/os_sched.c:45-74 | The task goes behind all tasks as urgent as it is; a task that sleeps is refused |
| OsCode.Os.SchedSleep | libs/os/src/os_sched.c:166-194 | The scan by signed comparison puts the task in the order of the times left |
| OsCode.Os.SchedWakeup | libs/os/src/os_sched.c:208-232 | The step that wakes a task |
| OsCode.Os.SchedResort | libs/os/src/os_sched.c:306-313 | The task moves to the place of its new priority |
| OsCode.Os.TimerExp | libs/os/src/os_sched.c:243-274 | The loop takes exactly the step of WakeDueExact |
| OsCode.Os.MutexPend | libs/os/src/os_mutex.c:147-220 | The code takes exactly the step of MutexPendKeeps, inheritance and waiting included |
| OsCode.Os.MutexRelease | libs/os/src/os_mutex.c:62-91 | Up to the critical section the code takes exactly the step of MutexDropKeeps, with its result |
| OsCode.Os.MutexGive | libs/os/src/os_mutex.c:92-121 | The critical section takes exactly the step of MutexGiveKeeps, hand-over and restored priority included |
| OsCode.Os.Switch | libs/os/src/os_sched.c:129-151 | Takes exactly the step of SwitchKeeps |
| OsCode.Os.SemPend | libs/os/src/os_sem.c:131-195 | The code takes exactly the step of SemPendKeeps |
| OsCode.Os.SemRelease | libs/os/src/os_sem.c:65-113 | Called by a task, the code takes exactly the step of SemReleaseKeeps up to its switch |
| OsCode.Os.SemSignal | libs/os/src/os_sem.c:65-113 | Called by an interrupt handler, it takes exactly the step of SemReleaseKeeps |
| OsCode.Os.EventqPut | libs/os/src/os_eventq.c:32-63 | The code takes exactly the step of EvPutKeeps |
| OsCode.Os.EventqGet | libs/os/src/os_eventq.c:71-97 | The code takes exactly the step of EvGetKeeps |
| OsCode.Os.EventqRemove | libs/os/src/os_eventq.c:99-110 | The code takes exactly the step of EvRemoveKeeps |
| OsCode.Os.CalloutStop | libs/os/src/os_callout.c:44-61 | The code takes exactly the step of StopKeeps |
| OsCode.Os.CalloutReset | libs/os/src/os_callout.c:63-103 | The code takes exactly the step of ResetKeeps, the scan by signed comparison included |
| OsCode.Os.CalloutTick | libs/os/src/os_callout.c:105-133 | The loop takes exactly the step of FireDueExact |
| OsCode.Os.TimerHandler | libs/os/src/arch/cortex_m4/os_arch_arm.c:93-100 | The handler takes exactly the step of TickKeeps |
| HeapRing.RingDrop | libs/baselibc/src/malloc.c:38-59 | Unlinking an entry leaves both directions of the ring in step, without it |
| HeapRing.RingInsert | libs/baselibc/src/malloc.c:75-95 | Linking an entry in leaves both directions in step, with it in its place |
| HeapRing.RingReplace | libs/baselibc/src/malloc.c:75-95 | An entry put in the place of another leaves both directions in step |
| HeapModel.RoundUpRoom | libs/baselibc/src/malloc.c:154-155 | The size asked for has room for header and request if and only if the request is at most 2^32 - 32 bytes |
| HeapModel.RoundUpWraps | libs/baselibc/src/malloc.c:154-155 | Every larger request wraps, to 0 bytes up to 2^32 - 16 and to 16 bytes beyond |
| HeapModel.MergeTotal | libs/baselibc/src/malloc.c:104-143 | Merging two neighbours keeps the total of all sizes |
| HeapModel.SplitTotal | libs/baselibc/src/malloc.c:66-103 | Splitting a block keeps the total of all sizes |
| HeapModel.AllApart | libs/baselibc/src/malloc.c:104-143 | Once a freed block has been merged on both sides no two free blocks touch |
| HeapCode.LiveDisjoint | libs/baselibc/src/malloc.c:66-103 | Used blocks, and so the memory handed out, never overlap |
| HeapCode.Heap.MallocFromBlock | libs/baselibc/src/malloc.c:66-103 | Split or taken whole, the block becomes a used one of at least the size asked for and less than 32 bytes more, and the heap stays valid |
| HeapCode.Heap.FreeBlock | libs/baselibc/src/malloc.c:104-143 | With neighbours free on either, both or no side, the heap is valid again, just this block is no longer used, and the free block that holds it is returned |
| HeapCode.Heap.FirstFit | libs/baselibc/src/malloc.c:161-168 | The first block on the free chain that is large enough, the head only if there is none |
| HeapCode.Heap.AddMallocBlock | libs/baselibc/src/malloc.c:181-220 | Memory that is large enough becomes free, no used block changes, and the total grows by exactly that |
| HeapCode.Heap.FindPlace | libs/baselibc/src/malloc.c:203-207 | The backward search finds the place by address |
| HeapCode.Heap.Malloc | libs/baselibc/src/malloc.c:144-179 | Fails exactly for 0 bytes, or if no free block fits and no memory is to be had, so never after memory was added; otherwise one new used block, the first on the free chain that fits if any does, has room for the request and less than 64 bytes more, all others are as before, and memory is added only if no block fits |
| HeapCode.Heap.FreeMemory | libs/baselibc/src/malloc.c:221-242 | Exactly the freed block is no longer used, and the heap stays valid |
| MbufCode.Chain.Append | libs/os/src/os_mbuf.c:371-443 | The flat view grows by exactly as much of the data as fits behind the last buffer and in the buffers of the pool; the result says if it was all; a packet header stays and records the new length |
| MbufCode.Chain.CopyData | libs/os/src/os_mbuf.c:542-570 | Succeeds exactly if the range lies in the flat view, with its bytes |
| MbufCode.Chain.Adj | libs/os/src/os_mbuf.c:572-643 | Cuts that many bytes, or all there are, off the front or the back of the flat view; buffers no longer needed at the back are in the pool; a packet header stays and records the new length |
| MbufCode.Chain.Prepend | libs/os/src/os_mbuf.c:715-766 | Succeeds exactly if leading space and pool give that many bytes, which then precede the old view, the packet header being that of the new first buffer; otherwise the chain is freed |
| MbufCode.Chain.Concat | libs/os/src/os_mbuf.c:846-880 | The flat view is that of both chains; a packet header of the first stays and records its length |
| MbufCode.Chain.Extend | libs/os/src/os_mbuf.c:895-930 | Adds that many bytes behind the old view, exactly if one buffer can hold them and there is space or a buffer; a packet header stays and records the new length; otherwise nothing changes |
| MbufCode.Chain.Get | libs/os/src/os_mbuf.c:250-270 | An empty buffer of the pool's size, exactly if the pool has one |
| CombSort.NewGapShrinks | libs/baselibc/src/qsort.c:11-21 | The gap shrinks strictly until it is 1 and stays 1, even where the product wraps |
| CombSort.SwapInversions | libs/baselibc/src/qsort.c:31-44 | Exchanging neighbours in the wrong order takes away exactly one inversion |
| CombSort.StepwiseSorted | libs/baselibc/src/qsort.c:29-45 | An array no neighbours of which are in the wrong order is sorted |
| CombSort.Pass | libs/baselibc/src/qsort.c:31-44 | A pass permutes; at gap 1 it leaves a sorted array or fewer inversions |
| CombSort.Qsort | libs/baselibc/src/qsort.c:22-46 | Terminates with a sorted permutation, for every array and every total preorder |
| CombSort.MemSwap | libs/baselibc/src/memswap.c:10-24 | Two areas of bytes exchange contents and nothing else changes |
| Base64.DecodeEncode | libs/util/src/base64.c:80-187 | Decoding the padded encoding of any bytes gives the bytes back (section 4 of RFC 4648) |
| Base64.DecodePieces | libs/util/src/base64.c:80-187 | Pieces encoded one by one, all but the last a multiple of three bytes, and then padded decode to their concatenation |
| Base64.EncSpells | libs/util/src/base64.c:80-127 | An unpadded encoding spells, six bits a character, the number that the bytes spell, followed by zero bits, with no more characters than that takes (section 4 of RFC 4648) |
| Base64.DecodeAccepts | libs/util/src/base64.c:146-187 | A string of the alphabet is decoded if and only if it is made of groups of four characters, at most the last two of a group being equals signs |
| Base64.EncPieces | libs/util/src/base64.c:80-127 | A piece of whole groups can be encoded separately |
| Base64.EncPad | libs/util/src/base64.c:129-142 | The length of an unpadded encoding tells the padding it needs |
| Base64.Table | libs/util/src/base64.c:66-67 | The table of the program is the alphabet A-Z, a-z, 0-9, +, / |
| Base64.Pos | libs/util/src/base64.c:70-78 | The inverse of the alphabet, -1 outside it |
| Base64.EncFilled | libs/util/src/base64.c:80-127 | Encoding by groups equals encoding the zero-filled input and overwriting its unused end |
| Base64.Encode | libs/util/src/base64.c:80-127 | The pointer loop computes the encoding by groups, padded if asked |
| Base64.Pad | libs/util/src/base64.c:129-142 | Writes the equals signs that are missing to a multiple of four |
| Base64.TokenDecode | libs/util/src/base64.c:146-166 | Four characters to 24 bits and a count of equals signs, or an error |
| Base64.Decode | libs/util/src/base64.c:168-187 | The loop over tokens computes the decoding, or an error |

## Left out

- BootLoader.Loader.EraseArea: the flash driver does not report errors.
- BootLoader.Loader.CopyArea: areas all have one length, as the assertion at loader.c:244 demands, and reads, erases and writes do not report errors.
- BootLoader.Loader.WriteStatus: the write of the status file is one step, which does not fail, while erases and copies can be cut off anywhere.
- BootSafety.EmptySlotMisread: starts from any table, although boot_go starts no copy without an image in slot 1.
- Reading image headers and vectors, choosing the slot to boot, and starting the image.
- NffsVolume.Volume.BlockFromEntry: the block must be valid on flash, the hash table is a map, so that moving an entry to the front of its bucket is not modelled, and errors of the flash driver are not modelled.
- NffsGc.FormattedMounts: the root directory and lost+found, which formatting creates, are not part of it.
- NffsGc.NewFileMounts: the fields of the new record, the parent directory and the choice of the area are not part of it.
- NffsGc.GcCopyInode: the length of an inode's record is in the index and its fields are not decoded.
- NffsVolume.Volume.GcBlockChainCollate: the memory that malloc has to give is a number that does not change.
- NffsCycle.FormatArea: the header's bytes are a parameter; Collector.Collect passes those that nffs_area_to_disk makes.
- NffsCycle.Gc: the order in which the bucket walk visits inodes is any order, and a scratch area without a header is not formatted anew.  The code does not clear the cache after a collection, so nothing is claimed of what is cached then.
- NffsCollect.Collector.Collect: areas all have one length; with different ones the scratch area can become shorter than another (see SelectLongest).
- NffsCollect.Collector.Append: the cache is not part of it.
- NffsWrite.ReserveSpace: stops with an error where the code starts to collect; Collector.Reserve is the whole function.
- NffsWrite.WriteOverBlock: reports a full disk where the code starts to collect, since the block may then no longer be where the code goes on to copy from (see SourceStays); requires that the index knows the block's inode and predecessor, as it does in a mounted volume.
- NffsFile.FileSystem.ReadBlocks: requires a cached size that is right, and cached lengths that are right but for the last block (see ReadPlace).
- NffsFile.FileSystem.InodeRead: as ReadBlocks; requires an offset within the file (see ReadLengthHolds); file sizes and offsets are not bounded.
- NffsUpdate.WriteToFile: requires that block ids do not run out and that the cached size is right, which it is unless a write has failed after it had extended the last block; after a block that records a wrong length (ErrLost) nothing more is claimed of the file.
- NFFS directories, names, rename, unlink, restore and sweep.
- OsMutex.MutexPendKeeps: a task holds at most one mutex and waits for nothing else while it does, and timeouts are 0, below 2^31 or forever; without the first, restoring priorities does not work, and without the second the signed comparison does not order times.
- OsSem.SemPendKeeps: as MutexPendKeeps.
- OsCode.Os.MutexPend: as MutexPendKeeps.
- OsCode.Os.SemPend: as MutexPendKeeps.
- OsEvent.EvGetKeeps: each queue has one consumer and each event one queue.
- OsCode.Os.EventqGet: as EvGetKeeps.
- OsRun.RunPromises: the idle task never sleeps; levels, tokens and priorities are not bounded; a pend or a put that switches does so in the step of its critical section, since it passes no task and the switch reads the run list; task creation and the deletion of mutexes and semaphores are left out.
- OsRun.DelayKeeps: os_time_delay and the code behind a sleeping call are steps of the transition system and have no method in class Os.
- HeapCode.Heap.Malloc: requires a request of at most 2^32 - 32 bytes (see RoundUpRoom and RoundUpWraps); what _sbrk returns is a parameter, memory that no block lies in; the lock is always obtained.
- realloc and calloc.
- MbufCode.Chain.Concat: a chain is a sequence of buffers and a pool a count, so aliasing between chains is not modelled; the packet header's length is a field beside the storage and is the flat length modulo 2^16.
- MbufCode.Chain.Get: the memory of the buffer and its place in the pool are not modelled.
- MbufCode.Chain.CopyData: offset and length are not negative.
- os_mbuf_copyinto, os_mbuf_pullup, os_mbuf_dup, os_mbuf_off, os_mbuf_memcmp, mqueues and msys.
- CombSort.Qsort: elements are values that an assignment exchanges; MemSwap shows the exchange byte by byte.
- Base64.DecodeAccepts: other characters, which add -1 where they are not the first of a group and end the string where they are, are in the model and not in this statement.
- Base64.Decode: strings do not contain a zero character, which ends a string in C.
- cbmem, JSON, the shell, newtmgr, imgmgr, config, statistics, logs, the console, BLE, string functions, board support and hardware drivers: input and output, or easy members.
