# Oxidalloc, modelled and proved

Oxidalloc replaces `malloc` and its relatives. This project models the parts of it that keep state, and proves
that they do what an allocator must do: no two live allocations share a byte, nothing is lost, and what is
given back is what was taken. The main result is `WholeHeap.NothingShared`, over every run of the whole allocator;
`Allocator` shows that the code of `malloc`, `free`, in-place resizing of big blocks, trimming, thread start and
thread exit extends such a run, and `WholeHeap.GrantsApart` says what that means for users.

The layers, from the bottom up:

- **Pages** (`Words`, `Segment`, `ClaimProtocol`, `ClaimAlone`, `Radix`, `Reservation`, `VaBitmap`, `Extents`). A segment of
  address space has a bitmap and a second bitmap of claims. `Segment` is the code run alone, loops as written,
  over arrays of 64-bit words. `ClaimProtocol` is the same protocol for any number of threads, with every load
  and every compare-and-swap a step of its own; `ClaimAlone` says that each operation comes to its end there, and does
  what one call does. `VaBitmap` is the list of segments with its two-level index, and
  `Extents` says what its users own.
- **Big blocks** (`BigAllocMap`, `BigHeap`). An open-addressing table remembers the size of every big block. The
  pages a block holds and the size the table has for it must stay in step through allocation, in-place resizing
  with all its failures, and freeing.
- **Slab blocks** (`SizeClass`, `Links`, `ThreadLocal`, `InterConnect`, `RoundTrip`, `Carve`, `SlabLife`,
  `SlabThread`, `TrimPlan`, `GTrim`). Blocks are carved out of slabs and move between users, lists of threads and lists of
  CPUs; the lists are linked through the headers of the blocks, with links encoded under two keys in the
  hardened build. `SlabLife` is a transition system for any number of threads. `SlabThread` is the code of
  allocating, freeing, refilling and thread exit over linked memory, and `GTrim` that of trimming; each operation is
  shown to be a run of that system that leaves the lists, links and slabs of other threads alone. `TrimPlan` says what
  trimming collects and frees, and what it misses.
- **The whole** (`SlabPages`, `WholeHeap`, `Allocator`). Slabs are put on pages from the same bitmap as big blocks, and
  a big block can become a slab block. `WholeHeap` is a transition system over both; `Allocator` is the code of
  `malloc`, `free`, resizing, trimming and thread exit over all of the above.
- **At the edge** (`Memalign`, `AlignedAlloc`, `Once`). Aligned allocation with its tag words, by itself and on top of
  the allocator, and one-time initialisation with forks.

## How the source is read

- A word of a bitmap is the set of its one bits. Addresses, sizes and counters are unbounded integers; the 64-bit
  limits are written out where the code tests for them. Rounding with a mask to a power of two is written with
  division.
- What the kernel answers, what the random number generator yields, which CPU a thread is on and how old a block is
  are parameters. Memory fresh from the kernel is zero. The hash function of the table is arbitrary.
- Steps of threads are sequentially consistent. `ClaimProtocol` splits the check of a word into its loads and its
  compare-and-swap. At that granularity the protocol is not safe: `ClaimProtocol.Race` is a run that ends with two
  owners of one block. `ClaimProtocol.SafeIffFresh` says exactly which runs are safe, and
  `ClaimProtocol.AtomicCheckIsSafe` that all runs are if a word is checked and claimed at once. Growing the list of
  segments is one step. A push or a pop on a per-CPU list is one step, the one in which its compare-and-swap goes
  through.
- The CPU number is below the number of CPUs, and no block is at an address that equals a key of the hardened build
  (`Links.XorReadable`: this is exactly when links can be read back). An operation that makes a slab asks it of the
  places where the slab can be put, a thread that starts asks it of the slabs there are, and a block that turns into a
  slab block is asked itself. The addresses that the kernel may hand out are a set, the arena, which is a parameter;
  `SlabThreads.CodeKeyless` says which keys are safe wherever in the arena slabs are put.
- The run that has led to the present state of the allocator is passed from operation to operation as a ghost value.
- A request gets its class by an expression in `Allocators`; `SizeClasses.MatchSizeClass` is the code with its loop, and
  yields the same.
- `malloc(0)` finds no size class, so it makes a big block of no bytes. When such a block has to grow for a request
  that has a class, it leaves the table of big blocks and is a slab block from then on (`BigHeaps.TurnsSlabIff`).
- In a refill, asking for pages, mapping them and trying again concern the bitmap alone, since nothing is pending
  any more after the first failure; so `SlabPages.MapRetry` repeats these, and `BulkFill` goes on from there.
- The class that a header holds is passed along with the block.
- Big blocks have page-aligned headers, and transparent huge pages are not forced.
- The abstract state of an object is a function whose result is an option: the state if memory is in order, and
  nothing otherwise.

## Model

| member | source | states |
|---|---|---|
| `Segments.Segment.constructor` | src/va/bitmap.rs:354-425 | a new segment is entirely free, with nothing claimed and no failed search, and the hint is the random seed reduced to its words |
| `Segments.Segment.ClaimWord` | src/va/bitmap.rs:755-773 | one word: the wanted bits become claimed exactly if none of them was claimed or published; nothing else changes |
| `Segments.Segment.ClaimBits` | src/va/bitmap.rs:743-775 | claims all blocks of the range or none: a refusal leaves no claim behind |
| `Segments.Segment.RollbackClaim` | src/va/bitmap.rs:813-831 | exactly the claims of the range are gone |
| `Segments.Segment.TryClaim` | src/va/bitmap.rs:738-810 | succeeds exactly if all blocks of the range are free and unclaimed; then they are used and no claim remains; otherwise nothing changed |
| `Segments.Segment.AllocSingle` | src/va/bitmap.rs:589-637 | returns None exactly if every block is used or claimed; otherwise the first free block in the order of the search, which begins at the word that hint and random number give and wraps around; no other bit changed, and the hint is its word |
| `Segments.Segment.ScanRange` | src/va/bitmap.rs:651-708 | run alone, takes the first run of the wanted length in the range; a failed scan leaves none there and reports the run it ended in |
| `Segments.Segment.TakeCarry` | src/va/bitmap.rs:710-732 | completes a run that straddles the start of the search; run alone, it is then the first run from the beginning on |
| `Segments.WrapSearchComplete` | src/va/bitmap.rs:639-735 | a search from the start bit to the end, from the beginning to the start bit and across the start bit misses no run, wherever it is |
| `Segments.Segment.AllocMulti` | src/va/bitmap.rs:639-735 | run alone, returns Some exactly if the segment holds that many contiguous free blocks, for every bitmap, hint and random start, and then the first such run in the order of the search from the block that hint and random number give; no other bit changed, and the hint is its word |
| `Segments.Segment.Rollback` | src/va/bitmap.rs:834-841 | exactly the blocks of the range become free |
| `Segments.Segment.Free` | src/va/bitmap.rs:843-877 | frees exactly the blocks of the range, cut off at the end of the segment; addresses outside are ignored; when hint and flags change |
| `Segments.Segment.ReallocInplace` | src/va/bitmap.rs:879-909 | succeeds exactly if shrinking or if the blocks behind are in bounds and free; the used blocks are then those of the new size, and a failed growth changes nothing |
| `ClaimProtocol.StepKeepsInv` | src/va/bitmap.rs:738-841 | with loads, compare-and-swap, publish, release, undo and free as single steps of any number of threads: every step but a stale swap keeps each block with one owner and every bit accounted for |
| `ClaimProtocol.StaleBreaks` | src/va/bitmap.rs:755-772 | a swap whose view of the bitmap is out of date takes a block that belongs to somebody else |
| `ClaimProtocol.SafeIffFresh` | src/va/bitmap.rs:738-841 | over every run of any number of threads, no block is ever in two hands if and only if no swap is stale |
| `ClaimProtocol.AtomicCheckIsSafe` | src/va/bitmap.rs:738-841 | with check and claim of one word atomic, every run is safe: no block in two hands, bits exactly those owned |
| `ClaimProtocol.ClaimHasOneOwner` | src/va/bitmap.rs:738-831 | in every safe state a set claim bit belongs to exactly one operation in flight |
| `ClaimProtocol.NothingLeftBehind` | src/va/bitmap.rs:738-877 | with no operation in flight, no claim bit is set and the bitmap is the disjoint union of the live extents |
| `ClaimProtocol.Race` | src/va/bitmap.rs:755-772 | a run of two threads in which both come to own block 0: at the granularity of single loads the protocol is not safe |
| `ClaimAlone.RunsAlone` | src/va/bitmap.rs:738-877 | wherever a thread is in an operation, it comes to its end if the others let it: it gets all it asked for exactly if nobody has a block of that, and otherwise gives back every claim it has set; a free clears exactly its blocks |
| `ClaimAlone.EveryoneCanFinish` | src/va/bitmap.rs:738-877 | so it is for every thread after every run without a stale swap |
| `ClaimAlone.AllocAlone` | src/va/bitmap.rs:738-810 | a whole claim, run alone: all blocks exactly if nobody has one of them, and otherwise no trace |
| `ClaimAlone.FreeAlone` | src/va/bitmap.rs:834-841 | a whole free, run alone: exactly the blocks of the extent |
| `ClaimAlone.GrowAlone` | src/va/bitmap.rs:894-908 | growing in place, run alone: the blocks behind exactly if nobody has one of them, and otherwise what there was |
| `ClaimAlone.ShrinkAlone` | src/va/bitmap.rs:887-891 | shrinking in place, run alone: exactly the tail is given back |
| `Radixes.CoversIff` | src/va/bitmap.rs:249-283 | a range covers a chunk exactly if one of its bytes is in the chunk; what lies beyond the last address is cut off, not wrapped around |
| `Radixes.Radix.Set` | src/va/bitmap.rs:204-220 | an in-range write is entered, and no other entry changes; out of range nothing happens |
| `Radixes.Radix.Get` | src/va/bitmap.rs:222-238 | finds exactly what was entered |
| `Radixes.Radix.SetRange` | src/va/bitmap.rs:249-260 | enters the segment for every chunk the range touches, although its base is not chunk aligned |
| `Radixes.Radix.CheckCollision` | src/va/bitmap.rs:270-283 | answers true exactly if some chunk the range touches is taken or out of reach |
| `Reservations.ReservesLargest` | src/va/bitmap.rs:71-141 | the reservation loop halves from its first size down to one chunk and takes the largest size the kernel grants; it fails only if all are refused |
| `Reservations.AsksFrom` | src/va/bitmap.rs:71-82 | one of the first four reservations is the largest the kernel grants of the limit, half of it and so on down to one chunk; a later one begins with the largest size that was ever granted, or one chunk, never exceeds it, and is it if the kernel grants the first request |
| `Reservations.RemembersLargest` | src/va/bitmap.rs:73-82 | over every sequence of reservations what is remembered is the largest size that was granted, or 0, and the count stops at four |
| `Reservations.EveryReservation` | src/va/bitmap.rs:67-142 | every reservation of every sequence of them: which size it is, from the limit, the sizes granted before and the answers of the kernel |
| `Reservations.Reserver.Reserve` | src/va/bitmap.rs:67-142 | the loop ends and returns exactly that: refused with the hint given up, or aborted if the hint had been given up before; what is remembered for the next time and where the hint moves to, exactly |
| `VaBitmaps.VaBitmap.ChunksApart` | src/va/bitmap.rs:346-352 | two listed segments never share a 4 GiB chunk |
| `VaBitmaps.VaBitmap.OneSegment` | src/va/bitmap.rs:305-433 | an address lies in at most one listed segment |
| `VaBitmaps.VaBitmap.IsOurs` | src/va/bitmap.rs:318-328 | radix lookup agrees with the list: true exactly if the address lies in some listed segment |
| `VaBitmaps.VaBitmap.FindSegment` | src/va/bitmap.rs:521-543 | finds the listed segment of an address exactly if there is one |
| `VaBitmaps.VaBitmap.Enter` | src/va/bitmap.rs:427-428 | no write to the index is dropped, and index and list agree afterwards |
| `VaBitmaps.VaBitmap.Grow` | src/va/bitmap.rs:330-433 | which attempts succeed, fail and kill the process, exactly; on success the list has one new, empty segment of at least one chunk at its head; otherwise the list and the used pages are as they were; index and list agree |
| `VaBitmaps.ConclusionIs` | src/va/bitmap.rs:126-141 | how repeated attempts to grow end: the first usable or fatal one decides; fatal is a refusal of all sizes directly after another one, or as the first if the hint had been given up; so ten failures remain only without two refusals in a row |
| `VaBitmaps.VaBitmap.GrowRetry` | src/va/bitmap.rs:498-510 | ten attempts end in exactly this way, counted from the state before the first; if they fail, the segments are as they were and what is remembered is what ten reservations leave behind |
| `VaBitmaps.VaBitmap.TryListed` | src/va/bitmap.rs:473-494 | one segment of the list: pages are taken exactly if it is not passed over and holds a run, and then it is the latest; a search that fails is counted, and after four the segment is passed over |
| `VaBitmaps.VaBitmap.ScanSegments` | src/va/bitmap.rs:473-496 | pages are found exactly if a segment that is not passed over holds a run; they were free, lie in one segment, the first such one, and are now used; the search is counted as failed in exactly the segments before it; otherwise nothing else changed and there still is no room |
| `VaBitmaps.VaBitmap.AllocFresh` | src/va/bitmap.rs:498-518 | a fresh segment satisfies every request of at most one chunk; dies or fails exactly as the attempts to grow do |
| `VaBitmaps.VaBitmap.Alloc` | src/va/bitmap.rs:436-519 | returned pages were free, lie in one segment, the latest from then on, and become used; up to 4 GiB it fails exactly for size 0 or if there is no room and ten attempts to grow fail without a fatal one, and kills the process exactly if the first segment of all cannot be had or a refusal is fatal |
| `VaBitmaps.VaBitmap.StuckFate` | src/va/bitmap.rs:436-519 | what becomes of a request for pages that was just refused and is made again, from the segments and what is remembered |
| `VaBitmaps.VaBitmap.Free` | src/va/bitmap.rs:521-544 | exactly the pages of the range, up to the end of the segment, become free; foreign addresses are ignored |
| `VaBitmaps.VaBitmap.ReallocInplace` | src/va/bitmap.rs:546-569 | succeeds exactly if the pages behind are free and in the segment, or when shrinking; failure changes nothing |
| `Extents.TilesTake` | src/va/bitmap.rs:436-519 | an extent on free pages keeps the used pages the disjoint union of the extents |
| `Extents.TilesGive` | src/va/bitmap.rs:521-544 | giving back a whole extent keeps the used pages the disjoint union of the extents |
| `Extents.TilesResize` | src/va/bitmap.rs:546-569 | resizing in place keeps the used pages the disjoint union of the extents |
| `Extents.Allocate` | src/va/bitmap.rs:436-519 | over every sequence of operations: used pages are exactly the disjoint union of the live extents, each inside one segment; the new extent is one more |
| `Extents.Free` | src/va/bitmap.rs:521-544 | the same after giving an extent back: it is gone and no other changed |
| `Extents.Resize` | src/va/bitmap.rs:546-569 | the same after an in-place resize; a failed one changes no page |
| `BigAllocMaps.ProbeComplete` | src/internals/hashmap.rs:59-158 | probing that meets an empty slot or goes all the way round has missed no key |
| `BigAllocMaps.PlaceStores` | src/internals/hashmap.rs:59-109 | writing a new key into a reachable tombstone or empty slot gives the table of the map with that key added |
| `BigAllocMaps.RemoveStores` | src/internals/hashmap.rs:134-158 | a tombstone forgets its key and cuts no probe path |
| `BigAllocMaps.OccupiedIsSize` | src/internals/hashmap.rs:48-57 | the number of occupied slots is the size of the map |
| `BigAllocMaps.BigAllocMap.Get` | src/internals/hashmap.rs:111-132 | returns what the map has for the key |
| `BigAllocMaps.BigAllocMap.Remove` | src/internals/hashmap.rs:134-158 | the map without the key; returns what it had; one entry fewer and one tombstone more exactly if the key was there |
| `BigAllocMaps.BigAllocMap.Probe` | src/internals/hashmap.rs:66-108 | the slot of the key, or the first slot on its probe path that is not occupied; there always is one: the abort for a full table is never reached, even when no slot is empty |
| `BigAllocMaps.Reinsert` | src/internals/hashmap.rs:225-244 | never reaches its full-table abort; the map gains the key |
| `BigAllocMaps.Rehash` | src/internals/hashmap.rs:175-194 | the larger table stands for the same map and has no tombstones |
| `BigAllocMaps.BigAllocMap.Grow` | src/internals/hashmap.rs:175-194 | twice the slots, the same map, no tombstones, load still below the limit |
| `BigAllocMaps.BigAllocMap.EnsureCapacity` | src/internals/hashmap.rs:160-173 | the table is made with 16384 slots, doubled exactly if one more entry would exceed the load of 7/10 or more than half of the slots are tombstones, and otherwise kept; the map is the same |
| `BigAllocMaps.BigAllocMap.Insert` | src/internals/hashmap.rs:59-109 | the map with the key set; one entry more exactly if it is new; the number of slots afterwards, exactly; at most half of them are tombstones |
| `BigHeaps.StepKeepsBooks` | src/big_allocation.rs:15-122 | every operation on big blocks keeps the books: the pages of a live block are exactly those of its size and header rounded up to pages, all disjoint |
| `BigHeaps.RunKeepsBooks` | src/abi/realloc.rs:108-235 | the same at every point of every run of allocations, frees and resizes that begins with an empty heap |
| `BigHeaps.DropReturnsAll` | src/big_allocation.rs:86-122 | making, resizing and freeing a block restores the used pages |
| `BigHeaps.BigHeap.BigMalloc` | src/big_allocation.rs:15-84 | a block on pages that were free, remembered with its size; or nothing has changed, also when memory cannot be made accessible; up to 4 GiB, when the process dies and when the request is refused, exactly, and whether there is room afterwards |
| `BigHeaps.AgainIs` | src/big_allocation.rs:15-84 | what becomes of a request for a big block that was refused and is made again: with pages that could not be made accessible it depends on that alone, and otherwise on the attempts to grow |
| `BigHeaps.BigHeap.BigFree` | src/big_allocation.rs:86-122 | returns precisely the pages that were claimed; an unknown header aborts |
| `BigHeaps.TakeTail` | src/abi/realloc.rs:192-198 | the pages behind a block are claimed exactly if they are free and in the segment |
| `BigHeaps.BigHeap.GrowInPlace` | src/abi/realloc.rs:192-235 | pages and remembered size grow together; when protection fails the pages go back and nothing has changed |
| `BigHeaps.BigHeap.ShrinkInPlace` | src/abi/realloc.rs:154-190 | exactly the tail pages go back and the smaller size is remembered |
| `BigHeaps.Decide` | src/abi/realloc.rs:108-190 | which way a resize goes, by comparing byte totals; a block that shrinks gives back exactly the bytes from behind its new last page to its old end |
| `BigHeaps.BigHeap.EqualInPlace` | src/abi/realloc.rs:136-152 | same pages: only the remembered size changes |
| `BigHeaps.BigHeap.ReallocBig` | src/abi/realloc.rs:108-235 | in place exactly if the pages suffice or those behind are free and accessible; which step of the books each branch is, exactly; a block that is not resized in place has not changed |
| `BigHeaps.TurnsSlabIff` | src/abi/realloc.rs:192-224 | of the sizes that are allocated as big blocks, none and more than 2 MiB, exactly blocks of no bytes turn into slab blocks, for requests of 3841 bytes to 2 MiB |
| `BigHeaps.OddTotals` | src/abi/realloc.rs:118-132 | a slab class never has a page-multiple total, so shrinking a big block to one leaves it as it is |
| `SizeClasses.BuildLut` | src/slab/mod.rs:75-88 | every table entry is the smallest class that holds its sizes |
| `SizeClasses.MatchSizeClass` | src/slab/mod.rs:101-123 | table and slow path agree: the smallest class that holds the size, and none for 0 or more than 2 MiB; the same as an expression |
| `SizeClasses.ClassUnique` | src/slab/mod.rs:101-123 | a size has one class |
| `Links.XorTwice` | src/slab/mod.rs:126-139 | encoding twice with one key is the identity, for all words and keys |
| `Links.XorReadable` | src/slab/mod.rs:126-139 | an encoded link can be read back exactly for blocks whose address is not the key |
| `Links.Memory.Encode` | src/slab/global.rs:13-31 | a raw chain becomes the same chain stored under the key; only its own links change |
| `Links.Memory.Decode` | src/slab/interconnect.rs:278-288 | a chain stored under the key becomes the same raw chain; only its own links change |
| `Links.Memory.LoadAll` | src/slab/thread_local.rs:242-262 | a whole stored list becomes a raw chain with null tail; its last block and its length are found |
| `Links.PrependList` | src/slab/thread_local.rs:195-220 | a chain whose last link is the old head makes one list with it |
| `Links.CutList` | src/slab/interconnect.rs:249-276 | a list cut after n blocks is a chain and a list |
| `ThreadLocal.ThreadLocalEngine.Pop` | src/slab/thread_local.rs:158-182 | takes the first block of the list, or null if and only if it is empty; all lists stay linked, disjoint and counted |
| `ThreadLocal.ThreadLocalEngine.Push` | src/slab/thread_local.rs:184-193 | the block is the new first of its list; all lists stay linked, disjoint and counted |
| `ThreadLocal.ThreadLocalEngine.PushTailed` | src/slab/thread_local.rs:195-220 | a raw chain of any length goes in front, in order, in the plain and the hardened build alike |
| `ThreadLocal.ThreadLocalEngine.Unload` | src/slab/thread_local.rs:234-262 | the list comes back as a raw chain in its order |
| `InterConnect.PackRoundTrip` | src/slab/interconnect.rs:30-73 | packing a tag never corrupts a 16-aligned address, and the tag is read back modulo 16, or as 0 in the hardened build |
| `InterConnect.InterConnectCache.TryPush` | src/slab/interconnect.rs:150-193 | the chain is the new front of exactly one list; every list stays linked, counted by its usage, and no block is in two; only that head word changes, and its tag counts up |
| `InterConnect.InterConnectCache.PushToGlobal` | src/slab/global.rs:13-33 | the same for a raw chain, encoded on the way |
| `InterConnect.InterConnectCache.Pop` | src/slab/interconnect.rs:223-305 | detaches exactly the first min(batch, length) blocks, in order, as a raw chain with null tail; nothing else changes |
| `InterConnect.VictimsCover` | src/slab/interconnect.rs:204-221 | the order of victims visits every shard exactly once |
| `InterConnect.InterConnectCache.TryPop` | src/slab/interconnect.rs:204-221 | takes from the first shard that has blocks, going up from that of the CPU and around; null if and only if every shard is empty for the class |
| `InterConnect.InterConnectCache.GetSize` | src/slab/interconnect.rs:195-202 | the number of blocks of the class on all shards |
| `RoundTrips.ThroughBoth` | src/slab/global.rs:13-38 | raw, thread key, raw, shard key, raw: for every length, batch size and content of the lists the same blocks in the same order with null tail, and the rest stays on the shard in order |
| `Carving.SlabMemory.RemainingBlocks` | src/slab/bulk_allocation.rs:16-20 | exactly the blocks the slab was made for less those carved |
| `Carving.SlabMemory.InitBlocks` | src/slab/bulk_allocation.rs:22-62 | carves the next min(remaining, max) blocks, linked in address order with null tail, and no other link changes |
| `Carving.BuildTables` | src/slab/mod.rs:42-73 | limits of at least one block that stay within the byte budget of the class, and one block more would not |
| `Carving.BudgetIs` | src/slab/mod.rs:42-60 | a thread may keep 128 KiB of each class up to 192 bytes, 96 KiB up to 12 KiB and 64 KiB of the others |
| `Carving.KeepsOneIff` | src/slab/mod.rs:45-72 | a thread keeps more than one free block of exactly the classes below 32 KiB, in either build |
| `SlabLife.BlockInside` | src/slab/bulk_allocation.rs:91-122 | a carved block lies in its slab behind the metadata and is 16-aligned |
| `SlabLife.BlocksApart` | src/slab/bulk_allocation.rs:40-59 | two carved blocks of any slabs share no byte, and an address belongs to one block |
| `SlabLife.FreshBlocks` | src/slab/bulk_allocation.rs:65-152 | blocks about to be carved are nowhere yet |
| `SlabLife.StepKeepsInv` | src/abi/malloc.rs:60-108 | every step of any thread keeps: each block in exactly one place, lists of one class, bins of at most max(limit, 48) blocks, slabs disjoint |
| `SlabLife.AdoptKeepsInv` | src/abi/realloc.rs:206-224 | the same when a big block becomes a slab block |
| `SlabLife.RunKeepsInv` | src/abi/free.rs:71-93 | the same over every run of any number of threads |
| `SlabLife.EveryBlockOnce` | src/slab/thread_local.rs:158-273 | after every run a carved block is handed out, in one hand, in one bin or in one shard list, and in no second place |
| `SlabPages.LentIsAddable` | src/slab/bulk_allocation.rs:91-122 | a slab on pages that were free in the bitmap overlaps no other slab |
| `SlabPages.TakeAndMap` | src/slab/bulk_allocation.rs:93-112 | the pages were free and are now used, or, if they cannot be mapped, given back; the process dies exactly if the bitmap cannot supply them |
| `SlabPages.RoomIsEnough` | src/abi/malloc.rs:93-105 | while the latest segment has room, and it has after pages were put back, a request for pages does not kill the process |
| `SlabPages.MapRetry` | src/abi/malloc.rs:93-105 | up to three requests: a slab on free pages, or none; the process dies exactly if the bitmap has no pages at the first, and otherwise there is no slab exactly if all three mappings are refused |
| `SlabThreads.CodeKeyless` | src/slab/mod.rs:126-139 | no aligned address that the kernel may hand out equals the key exactly in the plain build or if the key is 0, not a multiple of 16, or not among these addresses |
| `SlabThreads.KeysApartIff` | src/slab/mod.rs:126-139 | the links of all blocks of a slab can be read back under two keys exactly if no block is at an address that equals one of them |
| `SlabThreads.SlabThread.FillFromPending` | src/slab/bulk_allocation.rs:77-89 | an empty list is refilled exactly if the pending slab has blocks left; the slab is forgotten exactly when all its blocks are carved, so every unfinished slab of the thread is still pending |
| `SlabThreads.SlabThread.FillAndRemember` | src/slab/bulk_allocation.rs:132-149 | carves exactly min(left, what a refill takes) blocks; the slab becomes the pending one of its class exactly if blocks are left |
| `SlabThreads.SlabThread.FillFromNew` | src/slab/bulk_allocation.rs:114-151 | a new slab always yields blocks for the list, and if blocks are left it is the pending one of its class: every unfinished slab of the thread is |
| `SlabThreads.MaxInitIs` | src/slab/bulk_allocation.rs:69-74 | the blocks of a refill fit in 4 KiB unless there is only one, and one more would not unless there are 48 |
| `SlabThreads.SlabThread.FillReady` | src/abi/malloc.rs:63-99 | an empty list is refilled without a new slab exactly if some shard has blocks of the class or the pending slab has some left; how the batch size changes, exactly; every unfinished slab of the thread stays pending |
| `SlabThreads.SlabThread.BulkFill` | src/slab/bulk_allocation.rs:91-152 | when nothing is pending: a run of the transition system with at most one new slab, on pages that were free in the bitmap and are now used; the process dies exactly if the bitmap has no pages at the first attempt, and otherwise there is no block exactly if three mappings are refused, and then pages and lists are as they were and there is room; every unfinished slab of the thread is pending afterwards |
| `SlabThreads.SlabThread.FillFromShards` | src/abi/malloc.rs:63-89 | an empty list gets the first blocks, as many as the batch or all, of the first shard that has some, going up from that of the CPU; none exactly if every shard is empty |
| `SlabThreads.BumpedIs` | src/abi/malloc.rs:110-121 | the batch size grows by one with each full batch up to 32 and shrinks by two with each other one down to 8 |
| `SlabThreads.SlabThread.TryFill` | src/abi/malloc.rs:60-99 | a run of the transition system; without a new slab the block is null exactly if all shards are empty and nothing is pending, and then so it is afterwards |
| `SlabThreads.SlabThread.Allocate` | src/abi/malloc.rs:123-158 | the block handed out is one more, of the wanted class, and no list or slab of another thread is touched; null exactly if there is no block the thread can reach without a new slab |
| `SlabThreads.SlabThread.Serve` | src/abi/malloc.rs:60-158 | a block of the class from the list of the thread, a shard, the pending slab or a new one; only if none of the first three has one can the request fail or kill the process, and then exactly as above; between operations every slab of the thread with blocks not carved yet is the pending one of its class |
| `SlabThreads.SlabThread.AdoptBlock` | src/abi/realloc.rs:206-224 | a big block that got a slab class is one more slab block, in the hands of its user, and nothing else has moved |
| `SlabThreads.SlabThread.Free` | src/abi/free.rs:71-93 | the block goes to the bin of the thread, or to the shard exactly if the bin is at its limit |
| `SlabThreads.SlabThread.DrainPending` | src/slab/bulk_allocation.rs:154-174 | all blocks left in the pending slab go to the shard, and the slab is fully carved |
| `SlabThreads.SlabThread.ExitClass` | src/slab/thread_local.rs:234-268 | list and rest of the pending slab go to the shard and the slab is forgotten; with an empty list nothing is done |
| `SlabThreads.SlabThread.Exit` | src/slab/thread_local.rs:223-273 | all bins are empty afterwards; exactly the listed and, where the bin was not empty, the pending blocks are on the shard; which slabs are still pending, exactly; nothing else moved |
| `SlabThreads.OthersAgree` | src/slab/thread_local.rs:141-273 | whatever one thread does, memory still agrees with the transition system for every other thread |
| `SlabThreads.Composed` | src/slab/thread_local.rs:141-273 | so operations of any threads follow each other in any order |
| `SlabThreads.StillAtRest` | src/slab/thread_local.rs:141-156 | after an operation of one thread every other thread at rest is still at rest and finds memory in the new state, if its keys are no addresses of blocks |
| `SlabThreads.TrackedStays` | src/slab/bulk_allocation.rs:77-149 | whatever one thread does, every unfinished slab of another thread is still the pending one of its class |
| `SlabThreads.Resumed` | src/abi/malloc.rs:67-80 | a refill that is interrupted between taking blocks off a shard and putting them in its list can go on after any operation of another thread: the same blocks are in hand, linked in the same order |
| `SlabThreads.Boot` | src/slab/thread_local.rs:84-139 | a process starts in the start state, with the codes of its build, all of it new |
| `GTrims.PopBatch` | src/trim/gtrim.rs:21-57 | takes exactly the first min(16, length) blocks of the first shard that has some, going up from that of the CPU, into the hand of the thread, as a run of the transition system; none exactly if every shard is empty |
| `GTrims.Partition` | src/trim/gtrim.rs:83-104 | splits a chain into blocks that are too old, put on top of those there were, and the others, each last one first; none is lost or doubled |
| `GTrims.TrimBatch` | src/trim/gtrim.rs:77-120 | a run of the transition system that is one batch: what stays in hand are exactly its aged blocks, and the others lie in front of the shard of the CPU; whether there was a batch |
| `GTrims.Collect` | src/trim/gtrim.rs:74-120 | as many batches as there are whole ones on all shards of the class: what is collected and what is left on the shards, exactly |
| `TrimPlans.CollectsAged` | src/trim/gtrim.rs:74-120 | if all blocks of the class are aged, n batches collect at least n and at most 16 n blocks, and at most 15 fewer than 16 n for each shard beyond the first; so with one shard everything but an incomplete batch |
| `TrimPlans.CollectsNothingIff` | src/trim/gtrim.rs:74-120 | however many batches are taken, nothing is collected exactly if no block of the first one is aged, since its blocks go back to where the next batch is taken from |
| `TrimPlans.AgedBehindYoung` | src/trim/gtrim.rs:74-120 | so that aged blocks are collected is false in general: one behind 16 that are not aged is never collected |
| `GTrims.ReleaseAll` | src/trim/gtrim.rs:122-133 | a run after which the hand is empty: every block is back, in front of the shard of the CPU; the pages of exactly as many blocks are returned as it takes to pass the goal, of all of them without a goal or under pressure |
| `GTrims.TrimClass` | src/trim/gtrim.rs:69-133 | one class: what is freed, which pages are returned and the lists afterwards, exactly |
| `TrimPlans.FreedIs` | src/trim/gtrim.rs:59-147 | without a goal everything that was collected is freed; with one, it is reached exactly if what was collected of all classes amounts to it |
| `TrimPlans.FreedByForce` | src/trim/gtrim.rs:69-72 | under pressure whole classes are freed, one after the other until the goal is reached |
| `GTrims.ShuffleKeeps` | src/trim/gtrim.rs:59-147 | however blocks were moved between shards and one hand, if the hand is empty before and after, every class has the same blocks on the shards, each as often as before |
| `GTrims.Trim` | src/trim/gtrim.rs:59-147 | a run of the transition system that leaves the lists and links of all threads and all classes below a page alone; every class keeps its blocks for every age and pad; what is freed, exactly, and by at most one block more than the pad without pressure; the goal is reached exactly if what was collected amounts to it; which pages are returned, exactly, and that they are pages of blocks on the shards |
| `GTrims.PagesInside` | src/trim/gtrim.rs:149-169 | the pages given back are exactly the whole pages inside the payload of the block |
| `Memaligns.PlacementFits` | src/abi/align.rs:47-52 | the aligned address is a multiple of the alignment, leaves room for the tag words in front and for the size behind, inside the block |
| `Memaligns.Recovers` | src/abi/free.rs:33-44 | the block is found again, with at least the size that was asked for |
| `Memaligns.OthersRecover` | src/abi/realloc.rs:46-57 | writing tag words changes nothing for aligned addresses in other blocks |
| `Memaligns.RecoversItself` | src/abi/free.rs:33-44 | an address is taken for that of its own block exactly unless the two words in front of it are the tag and the address of another block of ours |
| `Memaligns.OrdinaryRecovers` | src/abi/malloc.rs:259-291 | the header of an ordinary block never looks like the tag, in either build, so its address always leads to itself, with all its bytes usable |
| `Memaligns.OrdinaryUnchanged` | src/abi/align.rs:51-54 | writing tag words in one block changes nothing for the address of any other block |
| `Memaligns.Words.PosixMemalign` | src/abi/align.rs:16-58 | which error exactly when, nothing written on error; otherwise placement, tag words and recovery as above |
| `Memaligns.RoundsUp` | src/abi/align.rs:47-49 | rounding up gives the next multiple |
| `Memaligns.PowerIff` | src/abi/align.rs:25-28 | the alignments that are accepted are exactly the powers of two, from 8 on |
| `AlignedAllocs.DealtServes` | src/abi/align.rs:36-45 | what the allocator returns is as aligned allocation needs it: 16-aligned, large enough, within the address space and one of ours |
| `AlignedAllocs.TwoTries` | src/abi/align.rs:36-45 | a second request after a refusal: granted, refused and fatal exactly as the two requests are, in terms of the state before; users have one more block with room for the size, or what they had |
| `AlignedAllocs.PosixMemalign` | src/abi/align.rs:16-58 | on top of the allocator: which arguments are refused and how, exactly, with nothing done; otherwise it fails for lack of memory exactly if both requests are refused, dies exactly if one of them does, and else yields an aligned address with room for the size in a block that no user had, from which the block is found again |
| `Onces.StepKeepsInv` | src/internals/once.rs:18-44 | the state word tells exactly whether one thread is at work; nobody waits in state 0 or returns before the closure has ended |
| `Onces.OnceInEveryRun` | src/internals/once.rs:18-44 | in every run of any number of callers the closure starts at most once without a fork, and with forks exactly once more per fork that interrupted it; callers return only after its end, which it reaches no more often than it was started; a waiting caller waits for somebody |
| `Onces.ForkIsClean` | src/internals/once.rs:40-44 | right after a fork the word is 0 or 2, and it is 2 exactly if it was |
| `Onces.DoneIsForever` | src/internals/once.rs:18-44 | once the word is 2 it stays 2 and the closure is not started again |
| `Onces.EveryCallCanReturn` | src/internals/once.rs:18-38 | from every state that a run can reach, and for every caller wherever it is, at most five steps without a fork lead to its return |
| `Onces.ReturnsAfterStore` | src/internals/once.rs:22-37 | in every run whoever looks at the word after it was stored returns at that look, coming in or waiting |
| `Onces.LaterCallsReturnAtOnce` | src/internals/once.rs:22-24 | in every run a caller that has returned and calls again returns at its first look, and the closure is not started for it |
| `Onces.ChildCanReturn` | src/internals/once.rs:40-44 | after every run a thread that is not in a call can fork, and its child can call and return, wherever the other threads were |
| `WholeHeap.MoveKeepsWhole` | src/abi/malloc.rs:221-247 | every move keeps: the books right, slab blocks in one place, and the pages the books have for slabs exactly those of the slabs; a new slab needs nothing but free pages |
| `WholeHeap.RunKeepsWhole` | src/abi/malloc.rs:221-247 | the same at every point of every run of big and slab operations by any number of threads |
| `WholeHeap.NothingShared` | src/abi/malloc.rs:221-247 | after every run no two of the big blocks with all their pages, the slab blocks with header and the slab metadata share a byte; every slab block is in exactly one place; the used pages are exactly those of big blocks and slabs: section 7.22.3 of ISO/IEC 9899:2011 |
| `WholeHeap.GrantsApart` | src/abi/malloc.rs:221-247 | after every run no two of the blocks that users have, each with room for the bytes that were asked for and its header, share a byte, and there is at most one block at an address |
| `WholeHeap.GrantOnPages` | src/big_allocation.rs:15-84 | after every run each byte of a block that a user has lies in a used page, and headers are 16-aligned |
| `WholeHeap.BlocksInOrder` | src/slab/bulk_allocation.rs:65-174 | after every run slab blocks are 16-aligned, no slab has more blocks than its share, lists are of one class, and bins hold at most max(limit, 48) blocks |
| `WholeHeap.ReallocIs` | src/abi/realloc.rs:108-224 | resizing a big block in place leaves it big, or gives a block of no bytes a class with one block to a slab |
| `WholeHeap.InPlaceFits` | src/abi/realloc.rs:108-235 | a big block that is resized in place has room for the request in its pages or in its class |
| `WholeHeap.RememberedIff` | src/abi/realloc.rs:154-190 | the size that is remembered after it covers the request exactly unless a block of no bytes is kept for at most 3840 bytes; so only then may a later move of the block copy too little |
| `WholeHeap.ForgottenRequest` | src/abi/realloc.rs:154-190 | a block of no bytes, asked to hold 100, is returned as it was, and nothing is remembered |
| `WholeHeap.GrownFits` | src/abi/realloc.rs:192-198 | the pages that are claimed when a slab block with one block to its slab grows where it stands hold it exactly if the slab metadata in front of it needs no further page |
| `WholeHeap.OneBlockFits` | src/abi/realloc.rs:106-134 | so it is when the new size is that of a class with one block to a slab |
| `WholeHeap.GrownTooShort` | src/abi/realloc.rs:192-198 | and so it is not for a big block of 600 pages, header included: they would end 32 bytes too early |
| `Allocators.ThreadRuns` | src/slab/bulk_allocation.rs:91-122 | whatever a thread does on slab blocks is a run of the whole system, in which pages are taken exactly for the slab it makes |
| `Allocators.Allocator.MallocSlab` | src/abi/malloc.rs:123-158 | extends the run of the whole; a block of the class that is one more in the hands of users; it is refused, and the process dies, only if a new slab is needed, and then exactly if all three mappings are refused, and exactly if the bitmap has no pages at the first attempt |
| `Allocators.Allocator.MallocBig` | src/big_allocation.rs:15-84 | extends the run of the whole; one more big block, at an address where none was, with room for the size, or nothing has changed; when it is refused and when the process dies, exactly |
| `Allocators.Allocator.Malloc` | src/abi/malloc.rs:221-247 | the class is computed from the size; a slab block of that class or a big block which no user had, with room for the size, or nothing has changed for users; refused above 3 GiB; when else it is refused and when the process dies, exactly |
| `Allocators.Allocator.SecondIs` | src/abi/align.rs:36-45 | what becomes of a request that was refused and is made again, in terms of the state before the first |
| `Allocators.Allocator.FreeSlab` | src/abi/free.rs:83-93 | extends the run of the whole; where the block goes, exactly |
| `Allocators.Allocator.FreeBig` | src/big_allocation.rs:86-122 | extends the run of the whole; exactly the pages of the block are free again |
| `Allocators.Allocator.Free` | src/abi/free.rs:70-93 | extends the run of the whole; users keep exactly the other blocks |
| `Allocators.Allocator.ReallocBig` | src/abi/realloc.rs:108-235 | extends the run of the whole, also when the block turns into a slab block; in place exactly if the pages suffice or those behind are free and accessible, and then the block has room for the request; when the new size is remembered, exactly; a block that cannot stay has not changed |
| `Allocators.Allocator.Trim` | src/abi/malloc.rs:294-299 | extends the run of the whole; every class keeps its blocks; what is freed and whether the goal is reached, exactly; only pages of free blocks are returned |
| `Allocators.ReturnedUnused` | src/trim/gtrim.rs:149-169 | after every run, pages that trimming returns to the system have no byte of a block that a user has |
| `Allocators.Allocator.Exit` | src/slab/thread_local.rs:223-273 | extends the run of the whole; the state after exit, exactly; users keep their blocks |
| `Allocators.Allocator.NothingSharedNow` | src/abi/malloc.rs:221-247 | whenever the allocator is in order, and every operation leaves it so, no two big blocks with their pages, slab blocks and slab metadata share a byte |
| `Allocators.Allocator.Spawn` | src/slab/thread_local.rs:84-139 | a new thread finds memory in the state of the whole, if no block there is has its key for an address and its number has no unfinished slab |
| `Allocators.BigTwice` | src/big_allocation.rs:15-122 | making two big blocks, one after the other, and freeing the second leaves exactly the first |
| `Allocators.HandOver` | src/abi/malloc.rs:160-247 | a block that one thread allocates and another frees: users have exactly what they had |
| `Allocators.Session` | src/abi/malloc.rs:160-247 | from the start of a process, allocating, freeing by another thread and exiting follow each other, and no user has a block at the end, if in the hardened build no key is an aligned address that the kernel hands out |

## Left out

- Memory orderings and weak memory: steps are sequentially consistent.
- The tag of per-CPU lists as a guard against interleavings inside a push or a pop: four bits do not rule out that a head comes back; pushes and pops are single steps.
- Concurrent growth of the segment list: growing releases its lock twice, so it is one step here.
- Segment choice by the `full` flag as a promise to find room: a flagged segment is passed over although it may have room again.
- In-place `realloc` of slab blocks of classes with one block to a slab, to another class or to a big block: it is no move of `WholeHeap`. When the pages that it takes hold the block is stated in `WholeHeap.GrownFits`, `WholeHeap.OneBlockFits` and `WholeHeap.GrownTooShort`.
- Transparent huge pages: `realloc` rounds to 4 KiB where `big_malloc` rounds to 2 MiB.
- `realloc` by moving: the copy of the contents and the fall back to `malloc` and `free`.
- Pending slabs of classes whose list is empty at thread exit: the source skips them, and `SlabThread.ExitClass` says so.
- Aborts when the kernel refuses memory for the index, the table of big blocks or random numbers.
- Requests of more than 4 GiB to the bitmap: `VaBitmap.Alloc` says what pages it takes, but not exactly when it fails; `malloc` serves at most 3 GiB.
- Randomised reservation hints, quality of random numbers, the mixing in the hash function: any values work.
- Magic values, double-free and corruption checks, quarantine, fallbacks to the system allocator, locks that only protect, fork handlers other than that of one-time initialisation.
- Age statistics of the trimmer, its thread and its timing: which blocks count as old is a parameter of `GTrims.Trim`.
- Prefetching, environment variables, error codes of system calls, benchmarks.
- GTrims.Trim: is one operation on one CPU; blocks pushed and popped by other threads between its batches are not modelled, because what every class keeps is only meaningful without them.
- Interleaving inside operations: operations of threads follow each other whole, except that a refill may be interrupted where `SlabThreads.Resumed` says; `SlabLife` and `WholeHeap` interleave single steps.
- BigAllocMaps.Rehash: does not model a capacity that overflows 64 bits, because the table would not fit in memory.
