# Android image tools: a verified model

This project models the code of two programs and proves what they are for:

- the ext4 image builder in `img-db/ext4_utils` — the block allocator and its region lists, the mapping of files to
  extents or indirect blocks, directories, the layout of the block groups, the resize inode, the queue of blocks to
  write, the sparse image writer, and `simg2img`, which expands a sparse image again — with its CRC-32 and SHA-1;
- three codecs of `python/bootimg.py`: cpio archives, 565 run-length images, and the CRC of UPDATA blocks.

The pieces of the builder compose. The allocator hands out blocks; the extents map a file onto them and the same
regions, read a second time, cut its bytes into queued chunks; the queue sorts the chunks; the writer encodes them; and
`simg2img` expands the result. `Filesystem.BuildAndExpand` proves this chain to its end, for whole runs: from the fresh
allocator and an empty queue, through the headers, any sequence of inode tables, files and the resize inode, the sparse file
and its expansion. It says from the steps alone exactly when a run fails. Otherwise every byte of every file is found in the
expanded image by following the extent tree the code stored, from `i_block` to the extent block in the image and from its
entries to the data; the resize inode is read from its double-indirect table to the rows behind it; and the superblock, the
descriptors, each group's own bitmaps, the backup copies and the inode tables are at their places in the groups.
`BlockBitmaps.BuildWithBitmaps` adds that the block bitmaps in the image mark exactly what the run has left free, and
`DescriptorTable.DescriptorLeads` that the descriptors, read from the image, lead to the bitmaps and tables.
`MakeExt4fs.BuildFromParameters` is the same from the parameters of the device on.

## How the model is built

Each module stands for one part of the source.

| modules | part |
|---|---|
| `Bitmaps`, `BlockGroups`, `AllocatorSpec`, `AllocatorRuns`, `Allocators`, `AllocatorSafety`, `Regions`, `Reservations` | `allocate.c` |
| `ExtentsSpec`, `ExtentTree`, `Extents`, `FileReadBack` | `extent.c`, `ext4_extents.h` |
| `Indirect`, `Resize` | `indirect.c` |
| `Geometry`, `Ext4Image` | `ext4_utils.c` |
| `DirectoryLayout`, `Directory` | `contents.c` |
| `WriteQueue`, `QueueAreas` | `backed_block.c`; `QueueAreas` says when queued items share no block |
| `HeaderQueue`, `ResizeQueue`, `FileLayout`, `DeviceQueue`, `ImageEnd`, `Filesystem`, `BlockBitmaps`, `DescriptorTable`, `MakeExt4fs` | the run of `make_ext4fs.c` from the derived parameters to `write_ext4_image` |
| `SparseFormat`, `OutputFiles`, `ImageWrites` | `output_file.c`, `sparse_format.h` |
| `Simg2Img`, `SparseRoundTrip` | `simg2img.c` |
| `Crc32`, `Crc32Residue` | `sparse_crc32.c` |
| `Sha1Spec`, `Sha1`, `Sha1Context` | `sha1.c`; `Sha1Spec` is sections 4 to 7 of FIPS PUB 180-1 |
| `Cpio`, `Rle`, `CrcCcitt` | `python/bootimg.py` |
| `BoundaryCases`, `Devices` | inputs and devices on which the code misses its intent, and conditions that need several modules |
| `Files`, `Words` | files as byte strings with a position; machine words and the arithmetic macros |

What the source updates in place is a class or an array here (block groups and their bitmaps, regions, region lists,
allocations, the write queue, the output file, the SHA-1 context, directory buffers, the tables of the resize inode), and
each method is proved against a function on values. What the source promises is then proved about those functions.
`error()` exits the program unless it is forced, so it is a failing outcome; a loop of the source that never ends (`Hang`,
`NeverEnds`), a counter that steps over zero and wraps (`Runaway`), a null pointer it can follow (`Crash`, `crash`), a store
behind the end of a buffer (`Overflow`, `overrun`, `Aborted`) and a read behind one (`overread`) are outcomes too, and the
methods say exactly when each happens. The queue of the source holds pointers to buffers; the items here hold the bytes those
buffers have when the image is written, and `WriteQueue.LaterBytes` shows that the order of the queue does not depend on
them. Unsigned arithmetic wraps where the source relies on it: `overrun` in `init_bg`, the rotation in
`inode_attach_resize`, the last block of a queued chunk, the two words of SHA-1's bit count, the derived filesystem
parameters.

## Where the code misses its stated intent

These are theorems about the code as it is: for each, the exact condition under which the intent is met, and an input on
which it is not.

- `ExtentTree.StoredIffShort`: the stored extents find every block of a file exactly when each of its regions fits in one
  extent, of at most 2^15 blocks for a reader that knows `EXT_INIT_MAX_LEN`, or of less than 2^16 for one that does not.
  `Devices.LongExtentCut` is a file of 100000 blocks on a fresh device of 130006 blocks of 16K. With blocks of up to 4K no
  region is that long.
- `Filesystem.BuildAndExpand`: a run whose steps can all be taken is written exactly when none of its files on disk has a
  region whose chunk ends at the very end of the image, which `write_data_file` refuses while `write_data_block` does not.
  `Devices.RunReachesTheEnd`: one file of five blocks on a device of 46 blocks in groups of 23.
- `Geometry.TrimSound`: dropping a last group that cannot hold its header works for every size when blocks are larger
  than 1K. With the first data block at 1 it works exactly unless the last group is full or one block short of its header.
  `Devices.TrimDropsFullGroup`: a device of one full group of 1K blocks is left with none.
- `AllocatorSpec.SpillOutcome`, `AllocationOutcome`: an allocation that fits no single group never ends exactly when the
  untouched groups in front of the first full one do not hold enough and such a full untouched group exists.
  `Devices.FreshAllocationHangs`: on a device of 41 blocks in groups of 21, the first file of one block.
  `AllocatorSafety.LostBlocks`: a failed one keeps every block it could reach.
- `Allocators.Allocator.AllocateBlocks` leaves `list.last` at the first region, so `ReduceAllocation` ends only when it
  gives back less than that region, or all of it and nothing more. `BoundaryCases.ReduceTakesTheLastIff`: what it leaves is
  the front of the allocation exactly when there is one region or nothing is given back.
- `ExtentsSpec.KeptTotal`, `FileReadBack.FullFileFits`: a mapped file keeps the right number of blocks exactly when the first
  region of its allocation has two blocks or more. `Devices.OneBlockRegions`: on a fresh device of 42 blocks in groups of 21,
  with one free block in each, a file of one block keeps none.
- `BoundaryCases.OverflowIff`: the capacity check of the extent block divides before it subtracts, so a table is overrun
  exactly when there are more than three regions, fewer than a block has bytes, and more of them kept than entries fit
  (block 0, a header, is never given out).
  `Devices.OverrunFromInit`: fresh from init, so does a file that no single group holds and that takes all the free blocks of
  the first k groups, with k above the number of entries; `Devices.TableOverrun` is a device of 85 groups of 1K blocks.
- `Directory.MakeDirectory`: the size of a directory and the placement
  of its records differ on an entry that ends exactly at a block boundary; the build aborts exactly when the placed
  records end behind the buffer, and the closing record overruns exactly when four bytes are left for it.
  `BoundaryCases.FourNames` are names that do each.
- `Resize.RotationPermutes`: the double-indirect table lists every reserved block once exactly when there are no
  descriptor blocks, or at least as many as reserved ones, or the number of reserved blocks divides 2^32.
  `Devices.OneGroupCollides`: one group of 4K blocks.
- `Indirect.TripleWraps`: the triple-indirect size is zero for 1K, 2K and 4K blocks, so any longer file ends in a division
  by zero.
- `BoundaryCases.AdvanceStaysIff`: `advance_list_ptr` moves to another region without storing it, so the position it leaves
  is the intended one exactly when the advance stays inside the region it started in.
- `Reservations.ReserveIff`: where no split meets a stale prev pointer, `reserve_oob_blocks` sets aside the next blocks, and
  leaves the rest in order, exactly when they are not all that is left and do not end with a region. In the first case it
  fails; in the second it sets aside everything behind them instead. `Reservations.FiveForThree`: three blocks of a region of
  three and one of five.
- `BoundaryCases.StaleIff`: inside a region, a reservation meets a prev pointer that a cut left stale exactly when it takes
  all that is left of the region and another one follows; `Regions.BlockAllocation.ReserveStale` says how it then loses its
  blocks, and `BoundaryCases.ThirteenthBlockLost` is an input.
- `Sha1Context.CountExact`: an update keeps the bit count right exactly when it is shorter than 2^29 bytes or the low word
  wraps. `BoundaryCases.LongUpdateMiscounts`: a first update of 2^29 bytes.
- `ImageWrites.ModesAgree`: plain output equals the expanded sparse output exactly when the image ends in a zero byte;
  `BoundaryCases.LastByteLost` is any other image.
- `sparse_format.h` asks readers to reject higher major versions and knows a fill chunk. `BoundaryCases.OtherVersionsRejected`:
  a file is rejected for its version exactly when its major version is not 1, lower ones included.
  `BoundaryCases.FillRejected`: a fill chunk always stops the reader.
- `BoundaryCases.SkipEndsIff`: the checksum loop of `simg2img` over a skipped region meets zero exactly when its step, the last
  seek but at most a block, divides the region, which powers of two always do. `BoundaryCases.SevenBytes`: blocks of seven.

## Model

| member | source | states |
|---|---|---|
| Bitmaps.SlowReserveIs | img-db/ext4_utils/allocate.c:161-168 | marking a range bit by bit succeeds exactly on a clear range, and then sets that range and no other bit |
| Bitmaps.EightAtOnce | img-db/ext4_utils/allocate.c:170-175 | at a byte boundary, eight steps bit by bit are the one test and assignment of the byte |
| Bitmaps.RunCount | img-db/ext4_utils/allocate.c:52-56 | when the clear bits are exactly the free run, their number up to any bound is the overlap with that run |
| BlockGroups.BlockGroup.BitmapSetBit | img-db/ext4_utils/allocate.c:161-168 | reports whether the bit was set, and otherwise sets that bit only |
| BlockGroups.BlockGroup.BitmapSet8Bits | img-db/ext4_utils/allocate.c:170-175 | returns the old byte and sets all of it |
| BlockGroups.BlockGroup.MarkRange | img-db/ext4_utils/allocate.c:187-206 | the three loops (bits to a byte boundary, whole bytes, tail bits) end as a bit-at-a-time loop would, for every start and count |
| BlockGroups.BlockGroup.ReserveBlocks | img-db/ext4_utils/allocate.c:179-213 | refuses more blocks than are free; otherwise the bitmap and both counters end as a bit-at-a-time reservation leaves them |
| BlockGroups.BlockGroup.constructor | img-db/ext4_utils/allocate.c:254-287 | a fresh group has its header and the blocks past the end of the device reserved and nothing else, and its bitmaps lie where the layout has them |
| BlockGroups.BlockGroup.ReserveOverrun | img-db/ext4_utils/allocate.c:284-286 | the truncated unsigned overrun reserves exactly the missing tail of a short group, and nothing in a full one |
| BlockGroups.BlockGroup.Allocate | img-db/ext4_utils/allocate.c:312-327 | takes the first blocks of the free run exactly when enough are free, and otherwise changes nothing |
| BlockGroups.BlockGroup.FreeBlocks | img-db/ext4_utils/allocate.c:215-223 | the last blocks in front of the free run join it; every other bit stays |
| AllocatorSpec.SpillOutcome | img-db/ext4_utils/allocate.c:403-427 | the spilling loop succeeds exactly when the untouched groups within reach hold the request, and otherwise never ends exactly when an untouched group has no free block |
| AllocatorSpec.AllocationOutcome | img-db/ext4_utils/allocate.c:429-437 | exactly when do_allocate succeeds, and exactly when it never ends |
| AllocatorSpec.AllocationSucceeds | img-db/ext4_utils/allocate.c:439-446 | while every untouched group has a free block, do_allocate ends, and succeeds exactly when one group, or all untouched groups together, hold the request |
| AllocatorSpec.AllocationTakes | img-db/ext4_utils/allocate.c:429-437 | the regions are taken from the free fronts of their groups and nothing else changes; on success they are the result and add up to the request |
| AllocatorSpec.AllocationPolicy | img-db/ext4_utils/allocate.c:439-446 | the documented policy: the lowest fitting group, else all of the first untouched groups in order and the remainder in the lowest group it fits |
| AllocatorRuns.FirstRunAtBack | img-db/ext4_utils/allocate.c:225-228 | right after an allocation its first region ends where its group's free blocks begin, as giving back assumes |
| AllocatorRuns.RunSafe | img-db/ext4_utils/allocate.c:228-460 | over any mix of requests, the live regions stay disjoint, inside their groups' data area, and clear of the free blocks |
| AllocatorRuns.LiveBlock | img-db/ext4_utils/allocate.c:228-460 | in a safe state a live block is in one region only, and in the data area of one group only |
| Allocators.Allocator.constructor | img-db/ext4_utils/allocate.c:289-299 | the groups after block_allocator_init are the fresh groups of the layout |
| Allocators.Allocator.AllocateContiguous | img-db/ext4_utils/allocate.c:329-349 | the first group with enough free blocks serves the request in one region; no group changes otherwise |
| Allocators.Allocator.AllocateBlock | img-db/ext4_utils/allocate.c:352-363 | the first free block of the first group that has one |
| Allocators.Allocator.AllocatePartial | img-db/ext4_utils/allocate.c:365-401 | the first untouched group decides: fill it, or place the rest first-fit, or fail |
| Allocators.Allocator.AllocateMultiple | img-db/ext4_utils/allocate.c:403-427 | the linked regions and the groups end as the value specification says; hang reports the loop that never ends |
| Allocators.Allocator.DoAllocate | img-db/ext4_utils/allocate.c:429-437 | the heap implementation refines the value specification in result, regions and groups |
| Allocators.Allocator.AllocateBlocks | img-db/ext4_utils/allocate.c:447-460 | a successful allocation is a fresh list of exactly the specified regions, read from the start, with the last pointer at the first region |
| Allocators.Allocator.ReduceAllocation | img-db/ext4_utils/allocate.c:228-252 | giving back fewer blocks than the first region shortens it and frees them; all of it empties the list; more follows a null pointer |
| Allocators.Allocator.ServeAll | img-db/ext4_utils/allocate.c:228-460 | a whole run of requests on the heap ends as on values, in groups and in live regions |
| AllocatorSafety.FreshSafe | img-db/ext4_utils/allocate.c:289-299 | the state after block_allocator_init is safe |
| AllocatorSafety.LiveOnDevice | img-db/ext4_utils/allocate.c:228-460 | after any run from init, a live block is in no other live region, in no header, and on the device |
| AllocatorSafety.FreeIsClear | img-db/ext4_utils/allocate.c:528-531 | a group's free counter is the number of clear bits in its bitmap |
| AllocatorSafety.UpdateFree | img-db/ext4_utils/ext4_utils.c:331-347 | the published counts are the clear bits of each group, in 16 bits, and their 32-bit sum |
| AllocatorSafety.FreshFree | img-db/ext4_utils/allocate.c:254-287 | free blocks, headers and the blocks in front of the first group add up to the device |
| AllocatorSafety.TakenConserves | img-db/ext4_utils/allocate.c:312-327 | what the groups lose, the regions gain |
| AllocatorSafety.AllocationConserves | img-db/ext4_utils/allocate.c:447-460 | a successful allocation of len blocks leaves len fewer |
| AllocatorSafety.ReducedConserves | img-db/ext4_utils/allocate.c:225-252 | an allocation cut back by less than its first region leaves as many fewer blocks as it still holds |
| AllocatorSafety.LostBlocks | img-db/ext4_utils/allocate.c:403-427 | a request that fails or never ends keeps reserved every block it could reach |
| AllocatorSafety.ServedConserves | img-db/ext4_utils/allocate.c:228-460 | over any run of requests, what was free or held is free, held or lost, where each request loses what it could reach if it failed, and its later regions if exactly its first one is given back |
| AllocatorSafety.DeviceConserved | img-db/ext4_utils/allocate.c:228-460 | from init on, free, held, lost and header blocks add up to the device |
| Regions.RegionList.Remove | img-db/ext4_utils/allocate.c:75-91 | the region leaves the chain, and with it those between it and the region its prev pointer names: none while the pointer is right; the others keep their order and contents |
| Regions.RegionList.Append | img-db/ext4_utils/allocate.c:93-107 | the region joins the end of the chain, and is read first if the list was empty |
| Regions.RegionList.WalkFrom | img-db/ext4_utils/allocate.c:550-553 | the walk stops in the region that holds the offset, past regions of exactly that length |
| Regions.RegionList.CutAt | img-db/ext4_utils/allocate.c:559-568 | a region becomes two adjacent ones that together are the old one |
| Regions.RegionList.DoSplit | img-db/ext4_utils/allocate.c:544-576 | the list, the read position and the returned region end as the value specification says, in every branch |
| Regions.RegionList.GetBlock | img-db/ext4_utils/allocate.c:486-510 | the block found from the read position on, or the failure value behind the end |
| Regions.LookupIsIndex | img-db/ext4_utils/allocate.c:486-497 | searching region by region is indexing the flattened list of blocks |
| Regions.RegionList.NumRegions | img-db/ext4_utils/allocate.c:463-472 | the number of regions in the chain |
| Regions.RegionList.Length | img-db/ext4_utils/allocate.c:474-483 | the sum of the lengths of the regions |
| Regions.RegionList.AdvanceListPtr | img-db/ext4_utils/allocate.c:611-630 | only the offset moves; the region that was reached is not stored |
| Regions.BlockAllocation.SplitAllocation | img-db/ext4_utils/allocate.c:581-590 | two splits one after the other, as on values, and which prev pointer is right behind them and which is stale |
| Regions.BlockAllocation.ReserveOobBlocks | img-db/ext4_utils/allocate.c:593-609 | the regions between the two splits move to the end of the other list, in order, or all behind the second one when it falls between two regions of a list that no earlier split has cut; nothing else moves |
| Reservations.ReserveMoves | img-db/ext4_utils/allocate.c:544-609 | told in blocks: the reservation succeeds exactly when it leaves something, and then sets aside the n blocks at the read position in order and keeps the others and the position, unless the second split falls between two regions |
| Reservations.SpansIs | img-db/ext4_utils/allocate.c:544-609 | it falls between two regions exactly when the n blocks end where a region ends |
| Reservations.ReserveIff | img-db/ext4_utils/allocate.c:592-609 | the exact condition for setting aside the next blocks as the comment says |
| Reservations.FiveForThree | img-db/ext4_utils/allocate.c:592-609 | regions of three and five blocks of which three are reserved, and the five leave |
| Regions.BlockAllocation.ReserveStale | img-db/ext4_utils/allocate.c:593-609 | on a list that no earlier call has cut, with a prev pointer that its own first split leaves stale: the reservation reports success, but its n blocks end up in neither list, all regions behind them move, and the read position leads into the other list |
| BoundaryCases.StaleIff | img-db/ext4_utils/allocate.c:544-609 | exactly when a reservation inside a region meets the stale pointer |
| BoundaryCases.ThirteenthBlockLost | img-db/ext4_utils/allocate.c:544-609 | an input that does: one block behind the first twelve of a region of thirteen |
| Regions.BlockAllocation.AdvanceBlocks | img-db/ext4_utils/allocate.c:633-636 | the offset of the main list advances as on values |
| BoundaryCases.AdvanceStaysIff | img-db/ext4_utils/allocate.c:611-630 | the offset after an advance is the intended one if and only if the advance stays inside its region |
| BoundaryCases.ReduceTakesTheLastIff | img-db/ext4_utils/allocate.c:225-252 | what is left is the front of the allocation if and only if there is one region or nothing is given back |
| ExtentsSpec.AllocationPositive | img-db/ext4_utils/allocate.c:429-437 | no region of a successful allocation is empty |
| ExtentsSpec.ExtentsContiguous | img-db/ext4_utils/extent.c:147-157 | the extents start at file block 0, have no gap, and end at the sum of the regions |
| ExtentsSpec.LookupIs | img-db/ext4_utils/extent.c:147-157 | in the list of whole regions, file block j of a region is looked up as the region's block j |
| ExtentsSpec.DistinctBlocks | img-db/ext4_utils/extent.c:147-157 | over disjoint regions, different file blocks lie in different blocks of that list |
| ExtentsSpec.ReadBack | img-db/ext4_utils/extent.c:29-71 | if every region's part is in the image, each byte of the backing is found through the list of whole regions |
| ExtentsSpec.KeptTotal | img-db/ext4_utils/extent.c:88-94 | the kept regions hold exactly the file's blocks if and only if the first region had two or more |
| ExtentsSpec.KeptDisjoint | img-db/ext4_utils/extent.c:88-94 | the kept regions stay disjoint, and none holds the extent block |
| ExtentTree.ShortExact | img-db/ext4_utils/extent.c:147-157 | with regions of at most max blocks, the stored entries find what the list of whole regions has |
| ExtentTree.StoredIffShort | img-db/ext4_utils/extent.c:147-157 | the stored entries, cut to 16 bits of length, find every block of the regions if and only if each region fits in one extent |
| ExtentTree.NodeReads | img-db/ext4_utils/extent.c:96-145 | header and entries decode from their bytes; entries that are counted but not filled read as empty ones |
| ExtentTree.InlineReads | img-db/ext4_utils/extent.c:96-106 | up to four entries in i_block are read as the stored extents |
| ExtentTree.LeafReads | img-db/ext4_utils/extent.c:107-157 | with the extent block in the image at the number the index entry names, the tree is read as the stored extents |
| ExtentTree.RootBytes | img-db/ext4_utils/extent.c:96-119 | i_block byte by byte: magic number, entries, capacity and depth, and the number of the extent block |
| ExtentTree.LeafBytes | img-db/ext4_utils/extent.c:135-141 | the head of the extent block byte by byte |
| ExtentTree.EntryBytes | img-db/ext4_utils/extent.c:147-157 | entry i: the blocks in front of its region, the length and the first block of the region, cut to their widths |
| Devices.LongExtentCut | img-db/ext4_utils/extent.c:147-157 | fresh from init on a device of 16K blocks, a file of 100000 blocks is mapped, and its block 34464 is not found |
| BoundaryCases.OverflowIff | img-db/ext4_utils/extent.c:128-133 | exactly when the table is overrun, and when the check stops the file, by the regions of the allocation |
| BoundaryCases.FillsGroups | img-db/ext4_utils/allocate.c:403-437 | a request that no single group holds, for all the free blocks of the first k untouched groups, gets exactly one region from each |
| Devices.OverrunFromInit | img-db/ext4_utils/extent.c:128-157 | fresh from init, a file for all the free blocks of the first k groups overruns an extent block of fewer than k entries |
| Devices.TableOverrun | img-db/ext4_utils/extent.c:128-157 | a device of 85 groups of 1K blocks, from its parameters on, and a file that overruns its extent block |
| Devices.OneBlockRegions | img-db/ext4_utils/extent.c:88-94 | a device of two groups with one free block each, from its parameters on, and a file of one block that keeps no block |
| Extents.FillTable | img-db/ext4_utils/extent.c:147-157 | the table ends with one extent for each region, unless there are more regions than entries |
| Extents.CreateBacking | img-db/ext4_utils/extent.c:29-71 | one chunk a region is queued, in order, cut at the region lengths; it follows a null region exactly when the regions are too short |
| Extents.PartQueued | img-db/ext4_utils/extent.c:37-48 | every chunk ends up in the queue |
| Extents.SettleBlocks | img-db/ext4_utils/extent.c:88-94 | up to three regions lose the extra block, more of them give their first block to the extent block |
| Extents.MapBlocks | img-db/ext4_utils/extent.c:96-170 | the entries of i_block or of the extent block are filled, or the file is rejected, exactly as the check as written has it |
| Extents.StoreTree | img-db/ext4_utils/extent.c:96-145 | i_block holds the extents, or an index entry for the extent block, which is queued with its header and entries |
| Extents.DoInodeAllocateExtents | img-db/ext4_utils/extent.c:73-173 | how the mapping ends, for every state and length; when it succeeds the regions are taken, the extent block is queued, and i_block is the root of the tree |
| FileReadBack.InodeAllocateExtents | img-db/ext4_utils/extent.c:178-217 | the mapped file's extent block and chunks are queued from the regions its extents were made of; it crashes exactly when the regions are too short |
| FileReadBack.FullFileFits | img-db/ext4_utils/extent.c:29-94 | the regions hold all bytes of a file if and only if the first region of its allocation has two blocks or more |
| FileReadBack.MappedReadable | img-db/ext4_utils/extent.c:73-157 | the tree of a mapped file with short regions can be read: every counted entry lies inside its node |
| FileReadBack.TreeInImage | img-db/ext4_utils/extent.c:96-145 | in the image, the tree of a queued file is read as its stored extents |
| FileReadBack.FileReadsBack | img-db/ext4_utils/extent.c:29-173 | every byte of a queued file with a readable tree comes back when a well-placed image is read through the stored tree |
| FileReadBack.QueuedHoldsParts | img-db/ext4_utils/extent.c:29-71 | the queue after the mapping holds every chunk of the file |
| FileReadBack.MoreHoldsFile | img-db/ext4_utils/backed_block.c:34-67 | whatever joins the queue later, the chunks and the extent block of a file stay in it |
| FileReadBack.FileBlocksDistinct | img-db/ext4_utils/extent.c:73-173 | in every safe state the file's blocks, as the stored entries give them, are pairwise different blocks of the device |
| Indirect.IndirectBlocksNeeded | img-db/ext4_utils/indirect.c:309-340 | the closed formula up to the double-indirect limit, and exactly when the count crashes beyond it |
| Indirect.Consumption | img-db/ext4_utils/indirect.c:309-340 | the ceiling formula is what the nested loops consume: one block, or two and one for each further group |
| Indirect.ReserveIndirectBlock | img-db/ext4_utils/indirect.c:56-67 | one block moves aside and the position advances, within any budget |
| Indirect.ReserveDindirectBlock | img-db/ext4_utils/indirect.c:69-84 | the double block and one block for each group of data blocks move aside |
| Indirect.ReserveAllIndirectBlocks | img-db/ext4_utils/indirect.c:277-307 | on one region of len + needed blocks it always succeeds, moves exactly needed blocks, leaves exactly len in ascending order, and together they are the region |
| Indirect.StageEnd | img-db/ext4_utils/indirect.c:277-307 | when the budget is spent the two lists are ascending and divide the region |
| Indirect.FreshInStage | img-db/ext4_utils/indirect.c:383-396 | any one-region allocation can start the budget |
| Indirect.TripleWraps | img-db/ext4_utils/ext4_utils.c:120-122 | the triple-indirect size is zero for 1K, 2K and 4K blocks |
| Resize.ReserveRegions | img-db/ext4_utils/ext4_utils.c:263-286 | one region for each superblock group: its reserved descriptor blocks |
| Resize.LookupUniform | img-db/ext4_utils/allocate.c:486-497 | in regions of one length, a block is found by division |
| Resize.AttachResize | img-db/ext4_utils/indirect.c:424-463 | slot i of the double table is the rotated reserved block of group 0; the rows are queued at the first reserved block of group 0, and the row in the block a slot names lists the reserved block of the same number in each backup group, in order |
| Resize.ReservedList | img-db/ext4_utils/ext4_utils.c:263-286 | the list built for the resize inode is what the attaching needs: regions of one length whose blocks and sum do not wrap |
| ResizeQueue.CreateResizeInode | img-db/ext4_utils/indirect.c:424-463 | it works if and only if there are reserved blocks, a row holds every backup group, and a block is free; then that block holds the double-indirect table, and the reserved blocks of group 0 the rows |
| ResizeQueue.QueuedReads | img-db/ext4_utils/indirect.c:440-463 | in the image, each slot of the table leads to a block whose entries are the reserved blocks of the same number in the backup groups |
| Resize.RotationPermutes | img-db/ext4_utils/indirect.c:453-457 | the rotation hits no block twice if and only if the stated condition on the two counts holds |
| Resize.RotationHits | img-db/ext4_utils/indirect.c:453-457 | under that condition every reserved block has a slot |
| Devices.OneGroupCollides | img-db/ext4_utils/indirect.c:453-457 | with one group of 4K blocks, slots 0 and 4 get the same reserved block |
| Geometry.IsPowerOf | img-db/ext4_utils/ext4_utils.c:46-55 | true exactly for the positive powers of b |
| Geometry.BgHasSuperBlock | img-db/ext4_utils/ext4_utils.c:61-74 | with sparse_super exactly groups 0, 1 and the powers of 3, 5 and 7; without it every group |
| Geometry.DeriveParameters | img-db/ext4_utils/ext4_utils.c:114-133 | the assignments one after the other end in the parameters of the unsigned formulas |
| Geometry.CreateFsAuxInfo | img-db/ext4_utils/ext4_utils.c:112-145 | the parameters of the unsigned formulas, then the trimming with its 32-bit header size |
| Geometry.UntrimmedReasonable | img-db/ext4_utils/ext4_utils.c:114-133 | for a device far enough below 2^32 blocks whose full groups hold any header, the counts of blocks and groups are exact |
| Geometry.UntrimmedExact | img-db/ext4_utils/ext4_utils.c:114-133 | within the stated sizes no step of the unsigned computation wraps: every parameter is its plain formula |
| Geometry.TrimSound | img-db/ext4_utils/ext4_utils.c:137-145 | after the trimming the groups cover the device and each holds its header, if and only if blocks are over 1K or the last group has a stated size |
| MakeExt4fs.StartBuildable | img-db/ext4_utils/ext4_utils.c:112-145 | for plausible parameters, the derived ones can be built on if and only if blocks are over 1K, or the last group is neither full nor one block short of its header |
| Devices.TrimDropsFullGroup | img-db/ext4_utils/ext4_utils.c:137-145 | one full group of 1K blocks is dropped, and no group is left |
| Devices.FreshAllocationHangs | img-db/ext4_utils/allocate.c:403-427 | from its parameters on, a device of 41 blocks on which mapping a file of one block never ends |
| Geometry.OverrunIs | img-db/ext4_utils/allocate.c:284-286 | the truncated difference is the missing tail of a short group, and zero or more than a group for a full one |
| Geometry.HeaderTiles | img-db/ext4_utils/allocate.c:256-275 | superblock, descriptors, reserved blocks, bitmaps and inode table fill the header without gap or overlap |
| Geometry.FillDescriptors | img-db/ext4_utils/ext4_utils.c:239-260 | every descriptor points at the parts of the group's header, and the copies are queued for the backup groups |
| HeaderQueue.AreaIsPart | img-db/ext4_utils/allocate.c:143-159 | the blocks each part of a header is queued at, computed on their own, are those of the layout |
| HeaderQueue.PartsApart | img-db/ext4_utils/allocate.c:254-287 | different parts of any groups share no block |
| HeaderQueue.PartVersusLive | img-db/ext4_utils/allocate.c:228-460 | in every safe state no part of a header meets a live region |
| HeaderQueue.QueueBitmaps | img-db/ext4_utils/allocate.c:256-275 | init_bg's block number for the bitmaps is their part of the header, and the queue stays in order |
| HeaderQueue.AllocateBgInodeTable | img-db/ext4_utils/allocate.c:143-159 | the block number computed behind the bitmaps is the inode table's part of the header, and the queue stays in order |
| HeaderQueue.QueueCopies | img-db/ext4_utils/ext4_utils.c:239-260 | the copies of superblock and descriptors take their parts of a backup group's header |
| HeaderQueue.QueueHeaders | img-db/ext4_utils/allocate.c:289-299 | after init every group has its own bitmaps queued, and every backup group the superblock and the descriptors, in blocks that do not meet |
| QueueAreas.AddItem | img-db/ext4_utils/backed_block.c:34-67 | an item in an area that meets no other joins a queue whose items share no block |
| QueueAreas.QueuedSettled | img-db/ext4_utils/extent.c:29-71 | the chunks of a file stay in its regions and share no block with anything queued before |
| FileLayout.KeptSafe | img-db/ext4_utils/extent.c:88-94 | settling the blocks of a file leaves a safe state in which the extent block and the kept regions are live |
| FileLayout.FileLaid | img-db/ext4_utils/extent.c:73-217 | mapping a file keeps the queue in order: its extent block and chunks lie in new live regions |
| DeviceQueue.ItemOnDevice | img-db/ext4_utils/ext4_utils.c:77-109 | every queued item lies on the device, behind the superblock and the descriptors |
| DeviceQueue.QueueInside | img-db/ext4_utils/output_file.c:362-429 | of such a queue no two items share a block, and only a file's chunk at the end of the image is refused |
| DeviceQueue.QueueCount | img-db/ext4_utils/output_file.c:184-249 | there are no more items than blocks, so the chunk count cannot overflow |
| Filesystem.AddFile | img-db/ext4_utils/extent.c:178-217 | one file of a run: it works exactly when it is mapped and, unless it is empty, its first region has two blocks or more; then allocator and queue agree again, and the file is in the queue with its root |
| Filesystem.Populate | img-db/ext4_utils/make_ext4fs.c:295-324 | all inode tables and files of a run and the resize inode, in any order; it succeeds exactly when each step can be taken in the state the ones in front of it leave |
| Filesystem.WholeQueuePasses | img-db/ext4_utils/ext4_utils.c:77-109 | the queue of a run passes every check of the writer if and only if no chunk of a file ends at the very end of the image |
| Filesystem.FilesReadBack | img-db/ext4_utils/ext4_utils.c:77-109 | every file in the queue of a run comes back from the image through its own stored tree |
| Filesystem.BuildAndExpand | img-db/ext4_utils/make_ext4fs.c:295-324 | a whole run and its expansion: by the steps alone, exactly when one fails and when a file ends at the end of the image; otherwise the reader accepts the sparse file, every file reads back through the tree stored for it, the resize inode from table to rows, and the superblock, the descriptors, every group's own bitmaps, the copies of backup groups and the inode tables from their places |
| Filesystem.HeadersBack | img-db/ext4_utils/ext4_utils.c:239-260 | of a queue that holds them, the image has each group's bitmaps behind the copies, the copies in front of them, and the inode tables behind them |
| BlockBitmaps.FilledBitmaps | img-db/ext4_utils/allocate.c:161-223 | the buffers of the bitmaps, when they are written: a bit is clear exactly when its block is free |
| BlockBitmaps.BuildWithBitmaps | img-db/ext4_utils/allocate.c:254-287 | a whole run in which the block bitmaps of the image are those the allocator ends with: clear exactly where the run leaves a block free |
| DescriptorTable.DescriptorLeads | img-db/ext4_utils/ext4_utils.c:253-255 | read from the image, the descriptor of a group names blocks that hold its block bitmap, its inode bitmap and its inode table |
| MakeExt4fs.BuildFromParameters | img-db/ext4_utils/make_ext4fs.c:236-324 | the same for the parameters the program derives from those of the device |
| ImageEnd.MappedEnds | img-db/ext4_utils/output_file.c:386-395 | mapping a file puts a chunk at the end of the image if and only if one of its regions does, for a file on disk |
| Devices.RunReachesTheEnd | img-db/ext4_utils/output_file.c:386-395 | a device of 46 blocks, from its parameters on, and a run of one file that can be mapped but not written |
| Directory.AddDentry | img-db/ext4_utils/contents.c:45-73 | a record is placed, and the one before it is padded when it moves to the next block; all records before it stay readable |
| Directory.DentrySize | img-db/ext4_utils/contents.c:29-43 | the size computed in front |
| Directory.MakeDirectory | img-db/ext4_utils/contents.c:93-157 | exactly when the build stores a record behind its buffer and aborts, exactly when the closing record overruns, and otherwise a buffer that reads back as ".", "..", the entries in order and the closing record, tiled without crossing a block |
| Directory.DirectoryReads | img-db/ext4_utils/contents.c:45-73 | records laid end to end are read back along their lengths |
| Directory.EncodeFields | img-db/ext4_utils/contents.c:65-70 | the fields of a record at their offsets |
| Directory.StartsEveryBlock | img-db/ext4_utils/contents.c:53-62 | in such a chain a record starts at every block start |
| DirectoryLayout.PlaceFacts | img-db/ext4_utils/contents.c:53-62 | a placed record ends inside its block, never at its end, and moves at most to the next block |
| DirectoryLayout.SizeIsLess | img-db/ext4_utils/contents.c:29-73 | the placement never ends in front of the size |
| DirectoryLayout.SizeIsSame | img-db/ext4_utils/contents.c:29-73 | the two are equal when no entry is counted to end exactly at a block boundary |
| DirectoryLayout.NoExactFitFits | img-db/ext4_utils/contents.c:93-94 | then the entries always fit |
| DirectoryLayout.LeftOver | img-db/ext4_utils/contents.c:153-157 | what is left for the closing record: never nothing, less than a block, a multiple of four |
| DirectoryLayout.BehindTheEnd | img-db/ext4_utils/contents.c:45-73 | a record that ends behind the buffer is stored behind it as a whole |
| BoundaryCases.FourNames | img-db/ext4_utils/contents.c:93-157 | four names with which make_directory stores a record behind its buffer and aborts, and four with which its closing record overruns |
| WriteQueue.InsertAllSortsItems | img-db/ext4_utils/backed_block.c:34-67 | after any insertions the list is in block order and holds exactly the queued items |
| WriteQueue.LaterBytes | img-db/ext4_utils/backed_block.c:34-83 | the order of the queue depends on the block numbers only, so a buffer filled after it was queued is written in its place with its later bytes |
| WriteQueue.Found | img-db/ext4_utils/backed_block.c:49-59 | a place that fits is the place a search from the head finds, ties included |
| WriteQueue.Queue.Search | img-db/ext4_utils/backed_block.c:52-59 | starting at the block added last finds the same place as starting at the head |
| WriteQueue.Queue.QueueDb | img-db/ext4_utils/backed_block.c:34-67 | the linked list after the call is plain sorted insertion |
| WriteQueue.Queue.QueueDataBlock | img-db/ext4_utils/backed_block.c:70-83 | a buffer, given as the bytes it has when the image is written, joins the queue at its place |
| WriteQueue.Queue.QueueDataFile | img-db/ext4_utils/backed_block.c:86-100 | a chunk of a file joins the queue at its place |
| Ext4Image.ForEachDataBlock | img-db/ext4_utils/backed_block.c:104-120 | succeeds exactly when every item passes its checks, and then has written the items in queue order |
| Ext4Image.SortedApartAscends | img-db/ext4_utils/backed_block.c:104-120 | a sorted queue of block-disjoint items is emitted in ascending order without overlap |
| Ext4Image.QueueReachesImage | img-db/ext4_utils/ext4_utils.c:77-109 | such a queue passes every check in both modes |
| Ext4Image.WriteExt4Image | img-db/ext4_utils/ext4_utils.c:77-109 | succeeds exactly when blocks fit the 4096 bytes of its buffer and all checks pass, and then the file is the encoding of all writes, or the plain image; it reads behind the buffer exactly with larger blocks |
| Ext4Image.HeadsInImage | img-db/ext4_utils/ext4_utils.c:91-102 | in every image that is placed well, the superblock is at byte 1024 and the descriptors in the block behind it |
| Ext4Image.WriteAndExpand | img-db/ext4_utils/ext4_utils.c:77-109 | from any queue to the sparse file and back: it is written exactly when every check passes, and then the reader yields the image of all writes, with the superblock at byte 1024 and the descriptors behind it |
| OutputFiles.OutputFile.constructor | img-db/ext4_utils/output_file.c:271-322 | an empty image: the header in sparse mode, nothing in plain mode |
| OutputFiles.OutputFile.EmitSkipChunk | img-db/ext4_utils/output_file.c:149-182 | a gap of whole blocks becomes one chunk, with offset, count and running checksum in step; others are rejected |
| OutputFiles.OutputFile.WriteChunkRaw | img-db/ext4_utils/output_file.c:184-249 | takes exactly the aligned offsets not behind the output pointer; the gap and the zero-padded data become chunks |
| OutputFiles.OutputFile.PadOutputFile | img-db/ext4_utils/output_file.c:324-359 | fills up to the length in sparse mode; writes one zero at the end in plain mode |
| OutputFiles.OutputFile.WriteDataBlock | img-db/ext4_utils/output_file.c:362-383 | accepts exactly the writes inside the image that the mode takes, and places them |
| OutputFiles.OutputFile.WriteDataFile | img-db/ext4_utils/output_file.c:386-429 | the same for bytes of a file, which may not end at the end of the image |
| OutputFiles.OutputFile.CloseOutputFile | img-db/ext4_utils/output_file.c:251-269 | the header is rewritten with the chunk count and the checksum of the expanded chunks |
| ImageWrites.AcceptedIffWellPlaced | img-db/ext4_utils/output_file.c:190-218 | the writer takes exactly the lists of writes that are aligned, ascending, block-disjoint and inside the image |
| ImageWrites.ChunksMakeImage | img-db/ext4_utils/output_file.c:184-249 | the chunks stand for the writes laid over zeros |
| ImageWrites.SparseImageExpands | img-db/ext4_utils/simg2img.c:161-222 | the sparse round trip from any well-placed writes: no check fails, and the result is the flat image |
| ImageWrites.ModesAgree | img-db/ext4_utils/output_file.c:346-358 | the plain file is the flat image with its last byte cleared, so the modes agree if and only if that byte is zero |
| BoundaryCases.LastByteLost | img-db/ext4_utils/output_file.c:346-358 | an image whose last byte is not zero loses it in plain mode |
| ImageWrites.ImageHoldsWrite | img-db/ext4_utils/output_file.c:184-249 | the image holds the data of every write |
| SparseFormat.HeaderRoundTrip | img-db/ext4_utils/sparse_format.h:18-29 | the encoded file header decodes to itself |
| SparseFormat.ChunkHeaderRoundTrip | img-db/ext4_utils/sparse_format.h:37-42 | the encoded chunk header decodes to itself |
| SparseFormat.HeaderBytes | img-db/ext4_utils/sparse_format.h:17-31 | the header of a written file byte by byte |
| SparseFormat.ChunkBytes | img-db/ext4_utils/sparse_format.h:33-42 | a written chunk byte by byte |
| Simg2Img.ProcessRawChunk | img-db/ext4_utils/simg2img.c:52-72 | copies the bytes through the buffer and folds them into the checksum, or fails exactly on a short file |
| Simg2Img.ProcessSkipChunk | img-db/ext4_utils/simg2img.c:75-103 | seeks over the region and adds its zeros; the checksum counter reaches zero without wrapping exactly when the steps divide the region |
| Simg2Img.Reader.ProcessChunk | img-db/ext4_utils/simg2img.c:161-197 | one round of the chunk loop is one step of the reader on values |
| Simg2Img.Simg2Img | img-db/ext4_utils/simg2img.c:105-225 | the program computes the reader on values, error by error; when that rejects is what the rows below say |
| BoundaryCases.OtherVersionsRejected | img-db/ext4_utils/simg2img.c:139-145 | a file is rejected for its magic number, and for its version, if and only if those bytes of it are not the ones of the format; a lower version is rejected like a higher one |
| BoundaryCases.FillRejected | img-db/ext4_utils/simg2img.c:161-197 | a fill chunk, or any type but raw and skipped, stops the reader, whatever follows |
| BoundaryCases.SkipEndsIff | img-db/ext4_utils/simg2img.c:75-103 | exactly when the checksum loop over a skipped region meets zero |
| BoundaryCases.SevenBytes | img-db/ext4_utils/simg2img.c:75-103 | a block size and a region for which it does not |
| SparseRoundTrip.SkipAlwaysEnds | img-db/ext4_utils/simg2img.c:94-100 | with power-of-two blocks both loops over a skipped region end |
| SparseRoundTrip.RoundTrip | img-db/ext4_utils/simg2img.c:161-222 | any chunks that make up whole blocks come back as exactly those bytes, with counts and checksum in agreement |
| SparseRoundTrip.Verdict | img-db/ext4_utils/simg2img.c:134-222 | for whole chunks behind any header of version 1, also with longer headers: the image comes back exactly when block count and checksum are right, and otherwise the reader names the first that is wrong |
| SparseRoundTrip.OtherChecksum | img-db/ext4_utils/simg2img.c:218-222 | a written file with any checksum in its header: accepted if and only if it is that of the image |
| SparseRoundTrip.BurstRejected | img-db/ext4_utils/simg2img.c:218-222 | a file whose data were changed within four bytes is rejected |
| SparseRoundTrip.SizeField | img-db/ext4_utils/simg2img.c:174-191 | any size field of any chunk: accepted if and only if it is the length of the chunk header and the raw data |
| SparseRoundTrip.CutOff | img-db/ext4_utils/simg2img.c:52-72 | a written file is rejected wherever its end is cut off |
| Crc32.EntryIsShift8 | img-db/ext4_utils/sparse_crc32.c:48-92 | every table entry is eight shift/xor steps of its index with the reflected polynomial 0xedb88320 |
| Crc32.UpdateIsShift8 | img-db/ext4_utils/sparse_crc32.c:107-108 | the table step is eight steps of the shift register, for every register and byte |
| Crc32.RunIsBitSerial | img-db/ext4_utils/sparse_crc32.c:101-110 | the loop is the bit-by-bit division of the message (section 3.2.9 of IEEE 802.3-2012) |
| Crc32.CrcIsBitSerial | img-db/ext4_utils/sparse_crc32.c:101-110 | the checksum with both inversions is the bit-by-bit division between them |
| Crc32.CrcFromZero | img-db/ext4_utils/sparse_crc32.c:101-110 | the checksum of a file: the register starts with ones and is inverted at the end |
| Crc32.CrcAppend | img-db/ext4_utils/sparse_crc32.c:101-110 | cutting the data into pieces does not change the checksum |
| Crc32Residue.Residue | img-db/ext4_utils/sparse_crc32.c:101-110 | data and four more bytes leave 0x2144DF1C if and only if the four are the checksum of the data, low byte first |
| Crc32Residue.BurstDetected | img-db/ext4_utils/sparse_crc32.c:101-110 | messages that differ within four bytes have different checksums |
| Crc32.SparseCrc32 | img-db/ext4_utils/sparse_crc32.c:101-110 | the loop over the buffer computes the checksum, of which the rows around this one say what it is |
| Sha1Spec.Constants | img-db/ext4_utils/sha1.c:51-55 | the four round constants are the square roots of 2, 3, 5 and 10 in units of 2^-30 |
| Sha1.Blk | img-db/ext4_utils/sha1.c:39-46 | the circular 16-word schedule yields the 80-word schedule of the standard |
| Sha1.Transform | img-db/ext4_utils/sha1.c:124-190 | the unrolled, rotated rounds are the compression function of the standard |
| Sha1Context.CountExact | img-db/ext4_utils/sha1.c:225-227 | the two count words stay right over an update if and only if it is short or the low word wraps |
| BoundaryCases.LongUpdateMiscounts | img-db/ext4_utils/sha1.c:225-227 | one update of 2^29 bytes leaves both count words at zero |
| Sha1Context.Context.Update | img-db/ext4_utils/sha1.c:215-239 | whole blocks are hashed and the rest is kept, so that hashed and kept bytes are the message so far |
| Sha1Context.FinalCountIsLength | img-db/ext4_utils/sha1.c:255-258 | right count words print as the 64-bit length field |
| Sha1Context.FinalDigestIsSha1 | img-db/ext4_utils/sha1.c:255-268 | with right count words the digest is that of the standard |
| Sha1Context.Context.Final | img-db/ext4_utils/sha1.c:245-269 | the padding loop ends, and the digest is that of the padded message |
| Sha1Context.Digest | img-db/ext4_utils/sha1.c:196-269 | for any split into updates shorter than 2^29 bytes, Init, Update and Final give SHA-1 of the whole message |
| Cpio.HexRoundTrip | python/bootimg.py:290-300 | the hexadecimal fields of a header read back as their values |
| Cpio.HexDigits | python/bootimg.py:353-362 | a field shows its number in lower-case hexadecimal digits, the most significant first |
| Cpio.ModeParts | python/bootimg.py:319-329 | type bits and permissions are told apart again |
| Cpio.HeadRoundTrip | python/bootimg.py:287-305 | a written header reads back, and reading stops exactly behind its padding |
| Cpio.RecordFields | python/bootimg.py:349-390 | the magic number, the thirteen fields and the name of a record at their offsets: type and permissions, link count, size, the fixed numbers |
| Cpio.RecordsAligned | python/bootimg.py:349-390 | every record starts at a multiple of four |
| Cpio.RoundTrip | python/bootimg.py:285-336 | parsing a written archive lists every entry, with listed names and the modes after the overrides, and stops at the trailer |
| Cpio.SameList | python/bootimg.py:285-438 | a list of different names comes back entry by entry under its listed names: su and busybox files with mode 4555, /tmp with 1777, and everything else with its own |
| Cpio.SameNames | python/bootimg.py:285-438 | with absolute, normalised names, under the same names |
| Cpio.DedupFirsts | python/bootimg.py:427-430 | of every name the first entry is written, and no other |
| Cpio.ClosedBlocks | python/bootimg.py:400-406 | the archive ends at a multiple of 512, less than that behind the trailer, and only zeros are added |
| Cpio.WriteCpio | python/bootimg.py:347-438 | the archive is one record for each first occurrence of a name, the trailer, and zeros up to a multiple of 512 |
| Cpio.ParseCpio | python/bootimg.py:285-336 | the loop computes the parser on values, including where it raises and where a name size of zero reads the rest of the stream |
| Cpio.WriteAndParse | python/bootimg.py:285-438 | the two programs one after the other; different, absolute, normalised names come back with the modes of SameList |
| Rle.GreedyShortest | python/bootimg.py:594-613 | no run list with 16-bit counts for the same colours is shorter than the greedy one |
| Rle.RoundTrip | python/bootimg.py:541-616 | decoding the written runs gives each pixel in its 565 quantisation, and as many |
| Rle.ImageInjective | python/bootimg.py:541-564 | different colour lists expand to different raw files |
| Rle.WrittenRunsShortest | python/bootimg.py:589-616 | no file that parse_rle expands to the same raw bytes is shorter than the one write_rle leaves |
| Rle.WriteRle | python/bootimg.py:589-616 | the loop writes the greedy runs, or fails on a partial pixel or an empty file |
| Rle.ParseRle | python/bootimg.py:541-564 | the loop writes the expanded pixels, or fails on a partial record |
| Rle.ThereAndBack | python/bootimg.py:541-616 | the two programs one after the other, with equal totals |
| CrcCcitt.BuildTable | python/bootimg.py:139-146 | the table built in the source's loop |
| CrcCcitt.EntryInjective | python/bootimg.py:139-146 | the high bytes of the table are a permutation |
| CrcCcitt.CrcCcitt | python/bootimg.py:148-151 | the loop computes the checksum |
| CrcCcitt.Residue | python/bootimg.py:229-233 | a block and two bytes leave 0xf0b8 if and only if the bytes are the complement of its checksum, low byte first (section C.2 of RFC 1662) |

## Left out

- The attach half of indirect files (`do_inode_attach_indirect` and the `fill_*` functions): the block walk depends on a
  position the code does not store.
- Files longer than double indirection: their sizes wrap to zero, as `Indirect.TripleWraps` says.
- inode_allocate_data_indirect and slow symbolic links: bytes are passed as a block count and nothing is attached.
- Inode allocation, `get_inode`, the inode fields other than the block map, permissions, uuid, and the constant fields of
  the superblock: assignments and table lookups. The superblock and the descriptors are byte strings in `Ext4Image`.
- The placement of `i_block` in the inode table: the roots of the extent trees are byte strings beside the image, and the
  contents of inode tables and inode bitmaps are parameters of a run. So are those of block bitmaps, except in
  `BlockBitmaps.BuildWithBitmaps`.
- Freeing memory; `free_alloc` and the `free_*` functions. Failing `malloc`, `calloc`, reads and writes.
- error() with `force` set, which goes on after an error.
- gzip output, memory mapping, the walk over the source directory, devices, option parsing. Files are byte strings.
- The bytes of the source's `zerobuf` in `simg2img`, which is not cleared: skipped regions are taken to be checked against
  zeros.
- Filesystem.BuildAndExpand: runs with blocks of 1K, 2K or 4K, at least one block of inode table a group, and fewer than
  2^30 blocks, as the `int` chunk counts need; directories are files whose contents are given, because the inode numbers in
  them are filled in after they are built.
- MakeExt4fs.BuildFromParameters: the parameters `Plausible` describes, and a device of whole blocks. The defaults that fill in
  missing parameters are not part of this model.
- Regions.BlockAllocation.ReserveOobBlocks: for allocations whose block numbers do not wrap around 2^32. When the second
  split falls between two regions, the list is one no earlier split has cut.
- Regions.BlockAllocation.ReserveStale: on such a list only; a second cut leaves further prev pointers stale.
- Extents.CreateBacking: for regions whose byte counts stay below 2^32; `region_len * block_size` is computed in 32 bits.
- FileReadBack.InodeAllocateExtents: for groups of fewer than 2^32 bytes, which keeps every region below that.
- Extents.DoInodeAllocateExtents: for files of fewer than 2^32 - 1 blocks, where the count of one block more does not wrap.
- Indirect.IndirectBlocksNeeded: the value beyond the double-indirect limit, and the sum where a rounding up wraps.
- Simg2Img.ProcessSkipChunk: what the checksum loop does after its counter has wrapped.
- Directory.MakeDirectory: names of at most 255 bytes and blocks that are multiples of four from 1024 bytes to below 65536.
- Sha1Context.Context.Update: updates within 64 bytes of 2^32 bytes, where `j + len` wraps.
- Sha1 on big-endian machines, where `blk0` is the word itself.
- OutputFiles.OutputFile.WriteChunkRaw, `WriteDataBlock` and `WriteDataFile`: data whose rounded-up length fits in an `int`, as
  their parameter does.
- Cpio.ParseCpio: signs, blanks and underscores that Python's `int(s, 16)` takes; os.path.normpath is a
  parameter. The extracted files themselves, and `nod`, `pipe` and `sock` lines, which write no record.
- Boot images, UPDATA and yaffs2 unpacking, 565 without runs: file handling, or simpler variants of what is here.
- Shell and batch scripts and the other tools of the repository.
