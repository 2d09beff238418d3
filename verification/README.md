# cmalloc, modelled and verified in Dafny

cmalloc is a general-purpose memory allocator. Threads serve small requests from their own bins of
spans without a lock. Under one global lock, spans are cut from 32 MiB chunks or mapped on their own,
and go back to a pool with a best-fit index. A three-level radix trie leads from any page back to its
span, and `cfree` reads it without the lock. The allocator's own records and the trie nodes live in a
metadata arena that recycles them through free lists, whose heads are kept in another trie of the same
kind.

This project models all of these layers, each with the invariant it needs, and composes them:

| file | models |
|---|---|
| Words.dfy, Linear.dfy | 64-bit words as sets of bits, `ctz`, masks, rounding; products and quotients of sizes |
| SizeClasses.dfy | the size-class tables and the start-up loop that fills the lookup table |
| Spans.dfy | `span_t` as its owning thread works on it: the two-level bitmap of free blocks |
| RangeMapSpec.dfy, MetadataState.dfy | word-addressed metadata memory, tries and intrusive free lists in it, and what one store or one operation does to them |
| Metadata.dfy | src/metadata.c and src/range_map.c as one class, because they call each other |
| PageState.dfy, PageSteps.dfy | the page heap as a value: chunks tiled by spans, the pool, the page map, the kernel's regions, the bytes of user memory |
| PageHeap.dfy | src/span.c as a class over the metadata arena |
| HeapState.dfy, HeapRuns.dfy | the allocator as a state machine over the steps of any number of threads, and whole operations as runs of steps |
| BinLinks.dfy, Heap.dfy | the thread bins as doubly linked lists, and src/cmalloc.c as a class whose methods are those steps |
| Shim.dfy | over-aligned allocation and usable size of bench/shim/alloc_shim.c |

## How to read it

A layer is a class with the source's fields and a ghost value of the whole layer (`State`, `Pages`,
`Heap`). Each method states the new value as a relation to the old one, and lemmas about values prove
what the relation keeps. The main results:

- **Any number of threads.** `HeapState.RunsSafe`: in every state of every interleaving of the steps of
  any threads, every small span in use has one owner, which allocated all its live blocks, bins hold
  exactly the owner's spans that have a free block and a block handed out, and the live blocks are
  exactly the blocks that are not free.
  `LiveDisjoint`, `LiveSafe`, `BinHasBlock` and `AllReturned` say what follows, and the two footprint
  lemmas say what a thread touches with and without the lock. The methods of `Heaps.Runtime` do these
  steps on the fields, for a thread given as an argument, and may be called in any order.
- **Lock-free lookups.** When a thread sets about looking up an address in a live block, its page is
  watched (`Runtime.Watch`) and a trace of memories begins. The trace is an invariant of the arena: it
  ends in the current memory, and each of its memories follows the one before by one store of one word
  or one new zeroed object, so it misses no memory a reader could see. Every operation extends it and
  keeps the watched path in all of it, through stores that publish a node before clearing it and nodes
  that are recycled. `Runtime.LiveLookup`: while the block is live, a lookup whose six loads fall on
  any memories of the trace finds the block's span. Watching is ghost and changes nothing, so what is
  proved of whichever lookup is watched holds of each one.
- **Re-entrant metadata.** `Metadata.Map`, `AllocMetadata` and `FreeMetadata` call each other as the
  source does. Mapping along an existing path allocates nothing, so the recursion ends. While an
  object of one size is freed, a nested allocation may take objects of the two node sizes, never the
  head that was read for the list being extended. Fresh objects lie one behind the other: a new chunk is
  mapped only for an object that has no room left in the old one (`RangeMapSpec.BumpPacked`).
- **Page heap.** Every allocation and release keeps exact tilings, the pool, its bitmap, the page map
  and the kernel's regions in agreement; `PageState.PagesConserved` counts the pages. Nothing is lost:
  the mapped regions are the metadata chunks, the data chunks and the mappings of large spans in use,
  and no others (`KernelRegions`), the page map's domain is exactly the pages of the regions without
  metadata (`PageMapExact`), and every metadata object is a record in use, a trie node in use or on the
  free list of its size (`NoMetadataLost`).
- **Which block.** Every live block is of the least class that holds its request, or of exactly its size
  (`LiveSnug`), and every span in use has as many blocks as its pages have room for (`SpanFull`). `Cmalloc`
  takes the lowest free block of the first span in the class's bin, or the first of a new span if the bin
  is empty (`HeapRuns.AllocRunServes`); a new span is the smallest cached one that fits, or begins a new
  chunk (`AllocSpan`).
- **Contents.** `Ccalloc` and `Crealloc` state which bytes are zero, copied and unchanged.
- **Discipline.** `Cfree` asks for `MayFree`: a small block is freed by the thread that allocated it.
  Every allocation hands its caller a block with that property; `Shim.MemalignThenFree` is the round
  trip through an interior pointer.

## Assumptions

- The page size is a power of two from 4096 up to 2^47. Sizes do not wrap when rounded up to pages.
- `mmap` returns some page-aligned, zero-filled region below 2^47 that overlaps no mapped region, or
  fails. Addresses that were unmapped may come back.
- Callers free live blocks, once. A small block is freed by the thread that got it, as README.md:264-273
  of the repository demands; a large one by any thread. Nobody looks up a page of a span whose last
  block is being freed.
- Memory is sequentially consistent and words are loaded and stored whole. A critical section is one
  step, because the lock admits one thread at a time. Threads do not exit.

The repository's README.md:166 says that `crealloc` returns the pointer for a size of the same class.
The code (src/cmalloc.c:155) returns it whenever the block is large enough, so also when it shrinks to
another class. The model follows the code.

## Form

`span_t` appears in two parts, because two parties write it: `PageState.Phys` (links to neighbours and
pool, base, page count), written under the lock only, and the class `Spans.Span` (class, sizes,
bitmaps, bin links), written by the owning thread. Arrays of fixed length inside a struct or a global
are `seq` fields of the class that owns them. Records are named by their addresses in metadata memory,
and 0 is NULL. A method that can meet a failing `mmap` returns `ok`.

## Model

| member | source | states |
|---|---|---|
| Words.WithBit | src/span.c:34-38 | setting a bit of a word adds exactly that position to its set of bits |
| Words.WithoutBit | src/span.c:40-45 | clearing a bit of a word removes exactly that position |
| Words.FromBit | src/span.c:54-56 | masking with `UINT64_MAX << i` keeps exactly the bits from i on |
| Words.LowestBit | src/span.c:60 | `ctz` of a non-zero word is its least set bit |
| Words.LowBits | src/span.c:228-234 | `(1 << n) - 1`, or all ones for 64, has exactly the n low bits |
| Words.AndNotMask | src/common.h:125-127 | clearing the low bits with `~(2^n - 1)` rounds down to a multiple of 2^n |
| Linear.QuotientIsDivision | src/span.h:76 | the quotient computed by repeated subtraction is integer division |
| SizeClasses.FillTable | src/cmalloc.c:31-40 | for every ascending table of multiples of 16 ending at the maximum, each bucket gets the first class that holds its largest size |
| SizeClasses.LookupIsScan | src/common.h:140-145 | for every size the O(1) lookup finds the class a linear scan for that size finds, or reports a large request |
| SizeClasses.ShippedTiered | src/common.h:53-62 | the shipped block sizes are such a table |
| SizeClasses.ShippedCounts | src/common.h:63-86 | each class has at least two blocks, exactly as many as its span has room for |
| SizeClasses.SlackBound | src/common.h:140-145 | the block size looked up holds the request, is not above that of any class that holds it, is the request itself beyond the classes, and for requests of at least 9 bytes is at most 2 * (size - 1) |
| SizeClasses.NoMoreRoom | src/common.h:63-86 | a span with a class's size, count and pages has at least two blocks, and no room for one more but for less than a page |
| Spans.TwoLevelMinimum | src/span.h:55-62 | the summary word is zero exactly if no block is free, and otherwise the two `ctz` steps give the least free block |
| Spans.BlockOfAddress | src/span.h:75-76 | every address inside a block divides back to the block's index |
| Spans.Span.AllocateBlock | src/span.h:54-69 | takes and returns the least free block, or NULL exactly if none is free; summary, count and bounds stay exact |
| Spans.Span.FreeBlock | src/span.h:73-81 | any address inside an allocated block puts back exactly that block |
| Spans.Span.InitializeBlocks | src/span.c:212-237 | exactly the blocks 0 to count - 1 are free |
| RangeMapSpec.SplitInjective | src/range_map.c:59-61 | below 2^35 the three indices determine the key, so masking loses nothing |
| RangeMapSpec.WriteSlot | src/range_map.c:72-74 | storing to a key's slot changes that key's value and no other |
| RangeMapSpec.GrowMiddle | src/range_map.c:63-66 | a new zeroed middle node changes no value |
| RangeMapSpec.GrowLeaf | src/range_map.c:67-71 | a new zeroed leaf changes no value |
| RangeMapSpec.BumpPacked | src/metadata.c:33-52 | an object placed behind the last one, or at the start of a new chunk if it does not fit there, keeps the arena packed: in every chunk left behind, the object that opened the next one had no room |
| RangeMapSpec.TraceGrows | src/range_map.c:63-74 | a trace that misses no memory, extended by the memory after one more store, still misses none |
| RangeMapSpec.ReaderFinds | src/range_map.c:119-127 | whichever memories its six loads fall on, a lookup of a watched key returns the watched value |
| MetadataState.OwnListSafe | src/metadata.c:58-62 | while an object is freed, its own list is never popped for a node that the map of free lists lacks |
| MetadataState.Pushed | src/metadata.c:59-62 | the freed object becomes the head of its list, linked to the head that was read, which is still the head |
| MetadataState.OneNodeEach | src/metadata.c:55-63 | no two objects are the same trie node, so the one middle node and one leaf that a free may add are one object of each size |
| MetadataState.ClearedSlotSafe | src/range_map.c:96 | clearing the way to a node already freed disturbs no watched path |
| MetadataState.WatchStarted | src/range_map.c:119-127 | every mapped key of a trie can be watched |
| MetadataArena.Metadata.constructor | src/metadata.c:20-21 | the zero-initialised arena is in order |
| MetadataArena.Metadata.Store | src/range_map.c:74 | one store: the trace grows by exactly the resulting memory, and watched paths hold in it |
| MetadataArena.Metadata.Clear | src/range_map.c:65 | `memset`: the object is zeroed word by word, every memory on the way is in the trace, and watched paths hold in all of them |
| MetadataArena.Metadata.Mmap | src/metadata.c:36-41 | a page-aligned region below 2^47 that overlaps no mapped region, or nothing |
| MetadataArena.Metadata.Munmap | src/span.c:187 | the region is no longer mapped and may come back |
| MetadataArena.Metadata.Get | src/range_map.c:119-127 | lookup is the trie's partial map |
| MetadataArena.Metadata.AllocMetadata | src/metadata.c:23-53 | the head of the size's free list if there is one, without touching the arena; else new zeroed memory at the bump pointer of the current chunk if it has room, and otherwise 32 bytes into one new 4 MiB chunk; other lists, tries and objects are untouched |
| MetadataArena.Metadata.PopCached | src/metadata.c:25-30 | the second object of the list becomes its head, without any allocation |
| MetadataArena.Metadata.BumpAlloc | src/metadata.c:33-52 | a new object, 16-aligned and apart from all others: at the bump pointer, with no chunk mapped, exactly if there is room |
| MetadataArena.Metadata.Advance | src/metadata.c:50-52 | the object lies where the bump pointer was, which moves to the next multiple of 16 behind it and stays within the chunk |
| MetadataArena.Metadata.NewChunk | src/metadata.c:35-47 | exactly one 4 MiB region more, to bump through from its 32nd byte on; nothing handed out moves |
| MetadataArena.Metadata.Map | src/range_map.c:53-77 | map update, with at most one new middle node and one new leaf; on an existing path nothing is allocated and only the trie changes |
| MetadataArena.Metadata.AddMiddle | src/range_map.c:63-66 | the path gains its middle node, published before it is cleared |
| MetadataArena.Metadata.AddLeaf | src/range_map.c:67-71 | the path gains its leaf, and the middle node counts it |
| MetadataArena.Metadata.SetSlot | src/range_map.c:72-74 | the key has the value, and for clients' tries the leaf's count stays exact |
| MetadataArena.Metadata.InitializeRangeMap | src/range_map.c:46-51 | an empty trie whose root is fresh zeroed memory, so needs no `memset` |
| MetadataArena.Metadata.FreeMetadata | src/metadata.c:55-63 | the object becomes the head of its size's list; besides it, only the middle node and the leaf that the map of free lists needs for that size, and the root of that map on the first free, take a new role, whether recycled or fresh; every other object keeps its role and contents |
| MetadataArena.Metadata.Push | src/metadata.c:59-62 | the same once the map of free lists exists |
| MetadataArena.Metadata.Unmap | src/range_map.c:79-105 | map removal on a mapped key; the source's three asserts hold; afterwards no node is empty, and a node the trie has lost is on the free list of its size or has gone from there into the map of free lists; no record is gained or lost |
| MetadataArena.Metadata.ClearSlot | src/range_map.c:92-93 | the key loses its value and the leaf counts one less |
| MetadataArena.Metadata.UnlinkLeaf | src/range_map.c:94-98 | the empty leaf is appended to the free list of its size as its head, before the slot to it is cleared; values and other nodes stay |
| MetadataArena.Metadata.UnlinkMiddle | src/range_map.c:99-102 | the same for an empty middle node and its list |
| MetadataArena.Metadata.MapRange | src/range_map.c:107-111 | exactly the keys of the range get the value |
| MetadataArena.Metadata.UnmapRange | src/range_map.c:113-117 | exactly the keys of the range lose theirs, although nodes are freed inside the loop; every node lost is recycled as for one key |
| PageState.SpansApart | src/span.c:155-168 | no page belongs to two spans |
| PageState.TakenOk | src/span.c:103-106 | unlinking a bin's head keeps the page heap in order and puts that span in use |
| PageState.GivenOk | src/span.c:192-195 | pushing a span in use on its bin keeps the page heap in order and takes it out of use |
| PageState.SplitOk | src/span.c:113-128 | a split keeps tiling, chain, page map and pool in order |
| PageState.CarvedOk | src/span.c:150-178 | carving a new chunk in two keeps the page heap in order |
| PageState.NewMappingOk | src/span.c:85-97 | a new mapping of one span keeps it in order |
| PageState.UnmappingOk | src/span.c:184-189 | unmapping a span of its own keeps it in order |
| PageState.FoundBestFit | src/span.c:100 | the bin that the bitmap search finds holds a smallest cached span that fits, and its head is taken |
| PageState.NothingFits | src/span.c:100-101 | if the search finds nothing, no cached span fits |
| PageState.TilesGrow2 | src/span.c:162-172 | spans of a chunk follow one another in address order without overlap |
| PageState.TileSum | src/span.c:162-172 | the spans of a chunk add up to its pages |
| PageState.FreshPages | src/span.c:87-96 | pages of a region just mapped are not in the page map, even at addresses that were unmapped before, and their indices fit 35 bits |
| PageState.MappedExactly | src/span.c:85-190 | the kernel's regions are exactly the metadata chunks, the data chunks and the mappings of spans too large for a bin |
| PageState.PageMapDomain | src/span.c:85-190 | a page is in the page map if and only if it lies in a mapped region that is no metadata chunk |
| PageState.PagesConserved | src/span.c:161-196 | cached pages plus pages of binned spans in use are exactly the pages of all chunks |
| PageState.ChunkSize | src/span.c:132-135 | a chunk has the pages of the span it is mapped for, or 32 MiB to the page if that is more |
| PageSteps.RoundUpPage | src/common.h:125-127 | the rounded size shifted right is the least number of pages that hold the size |
| PageSteps.ChunkPages | src/span.c:132-135 | a chunk of the standard size has fewer than `MAX_BINNED_PAGES` pages, so no remainder is dropped |
| PageSteps.AllocationMeans | src/span.c:100-181 | the span allocated is a smallest cached one that fits, and the head of its bin, if any fits; a chunk is added exactly if none does and the span can be binned, and the span begins it |
| PageSteps.PageMapped | src/span.c:155-168 | a page in the page map lies in a mapped region that is no metadata chunk |
| PageSteps.NothingLeaks | src/metadata.c:23-63 | every object the arena has handed out is a record in use, a node of one of its two tries, or on the free list of its size |
| PageSteps.MetadataApart | src/metadata.c:33-52 | metadata objects never share a page with user data |
| PageHeaps.PageHeap.constructor | src/span.c:29-32 | the zero-initialised page heap is in order |
| PageHeaps.PageHeap.MarkBinnedSpanNonEmpty | src/span.c:34-38 | adds the bin to the bitmap's set |
| PageHeaps.PageHeap.MarkBinnedSpanEmpty | src/span.c:40-45 | removes it |
| PageHeaps.PageHeap.FindBestFitting | src/span.c:50-78 | the least non-empty bin at or above the page count, or none exactly if there is none |
| PageHeaps.PageHeap.PopBin | src/span.c:103-106 | takes the head of a bin, and clears its bit exactly if the bin becomes empty |
| PageHeaps.PageHeap.PushBin | src/span.c:192-195 | the span becomes the head of its bin |
| PageHeaps.PageHeap.MapPages | src/span.c:95-96 | the page map gets exactly these pages |
| PageHeaps.PageHeap.Relink | src/span.c:113-128 | the chain around a split, record by record |
| PageHeaps.PageHeap.CutOff | src/span.c:113-128 | the span keeps its first pages; the rest is a new cached span behind it |
| PageHeaps.PageHeap.MapRegion | src/span.c:140-145 | new pages, all of whose bytes are zero, that are not in the page map; no byte of a mapped page changes |
| PageHeaps.PageHeap.AllocHuge | src/span.c:85-98 | a span of at least `MAX_BINNED_PAGES` pages, mapped on its own |
| PageHeaps.PageHeap.OpenChunk | src/span.c:137-149 | one new chunk record, holding the base of its zero-filled pages and a link to the previous record |
| PageHeaps.PageHeap.FreshChunk | src/span.c:131-180 | without a fit, a new chunk of 32 MiB to the page, or of the request if that is more, begins with the span, and its remainder is cached |
| PageHeaps.PageHeap.CarveRest | src/span.c:161-178 | the remainder of a chunk is mapped, linked and cached |
| PageHeaps.PageHeap.FromPool | src/span.c:101-130 | a best fit from the pool, whole or cut to size |
| PageHeaps.PageHeap.InitializePageMap | src/span.c:81 | the page map is created on the first allocation |
| PageHeaps.PageHeap.AllocSpan | src/span.c:80-181 | a span of exactly the pages the size needs comes into use: the first in its bin of the smallest cached spans that fit, and only if none does the first pages of one new chunk of 32 MiB or the request; every other span in use stays where it is, no chunk is lost, watched lookups and the bytes of mapped pages are kept |
| PageHeaps.PageHeap.CacheSpan | src/span.c:183-196 | a binned span becomes the head of its bin with its record marked uninitialised, as all cached ones are; a larger one leaves the page map, its region is unmapped and its record is freed; every other span in use, every chunk and the remaining bytes stay |
| PageHeaps.PageHeap.ReleaseHuge | src/span.c:184-190 | the span's pages leave the page map, its region and no other is unmapped, and its record becomes the head of the free list of records |
| PageHeaps.PageHeap.UnmapHuge | src/span.c:184-187 | the first half of that, with the page heap in order without the span |
| PageHeaps.PageHeap.KernelRegions | src/span.c:85-190 | in every state of the page heap, nothing is mapped but metadata chunks, data chunks and large spans in use |
| PageHeaps.PageHeap.PageMapExact | src/span.c:85-190 | in every state of the page heap, the page map's domain is exactly the pages of the regions without metadata |
| PageHeaps.PageHeap.NoMetadataLost | src/metadata.c:23-63 | in every state of the page heap, every metadata object is in use or on the free list of its size |
| PageHeaps.PageHeap.Watch | src/range_map.c:119-127 | any pages of spans in use can be watched, in any state of the page heap, and nothing else changes |
| PageHeaps.PageHeap.GetSpan | src/span.c:242-244 | the span of the pointer's page, NULL if the page is in no span |
| PageHeaps.PageHeap.InitializeSpan | src/span.c:199-240 | a span for the class, with as many of its blocks as the least pages for it hold, or for the large request, with one block in the least pages; all blocks are free and no other record is changed |
| PageHeaps.PageHeap.LockFreeLookup | src/range_map.c:119-127 | a lock-free lookup of a watched page finds the page's span, which is in use, whatever other threads' stores its loads fall between |
| HeapState.BlockPage | src/span.c:242-244 | every address in a block of a span in use is on a page that the page map gives to that span |
| HeapState.BlocksApart | src/span.h:68 | blocks of spans in use never overlap |
| HeapState.TakeLocal | src/cmalloc.c:82-87 | taking a block from a bin's span keeps the invariant; the span leaves the bin with its last free block |
| HeapState.FetchInv | src/cmalloc.c:90-92 | so does fetching a span under the lock |
| HeapState.FinishInv | src/cmalloc.c:94-102 | so does taking its first block |
| HeapState.FreeLocalInv | src/cmalloc.c:118-123 | so does putting back a small block by the thread that allocated it |
| HeapState.FreeLargeInv | src/cmalloc.c:109 | so does giving up a large block, by any thread |
| HeapState.FreeLockedInv | src/cmalloc.c:111-127 | so does caching an emptied span under the lock |
| HeapState.StepKeeps | src/cmalloc.c:79-129 | every step of every thread keeps the invariant |
| HeapState.RunsSafe | src/cmalloc.c:79-129 | the invariant holds in every state of every interleaving |
| HeapState.LiveSafe | src/cmalloc.c:79-103 | a live block is 16-aligned, holds its request, and each of its addresses leads to its span |
| HeapState.LiveSnug | src/cmalloc.c:79-103 | a live block is of the least class that holds its request, or of exactly the size of a request beyond 32768 bytes, and less than half of it is slack |
| HeapState.SpanFull | src/span.c:199-213 | a small span in use has no room for one more block but for less than a page, and a large one has one block and no page too many |
| HeapState.LiveDisjoint | src/cmalloc.c:79-129 | no byte belongs to two live blocks of any threads |
| HeapState.BinHasBlock | src/cmalloc.c:82-87 | every span in a bin has a free block and one handed out, so the fast path cannot return NULL |
| HeapState.EmptyBinMeansFull | src/cmalloc.c:90-96 | with its bin empty, a thread has no span of the class with a free block |
| HeapState.AllReturned | src/cmalloc.c:118-128 | once everything is freed, all bins are empty, every span is cached, so that the data regions are the chunks alone, and the pool holds all their pages |
| HeapState.LocalFootprint | README.md:156-159 | without the lock a thread changes only blocks of its own spans and its own bins, and ends no block of another thread |
| HeapState.LockedFootprint | README.md:156-159 | under the lock it changes no block of another span, no bin and no live block, and moves no span in use |
| BinLinks.PushChained | src/cmalloc.c:54-62 | pushing keeps the bin a doubly linked list |
| BinLinks.RemoveChained | src/cmalloc.c:64-77 | removing any record does |
| HeapRuns.AllocRunOut | src/cmalloc.c:79-103 | an allocation hands out one block that was not live, to the calling thread, and moves no other |
| HeapRuns.AllocRunServes | src/cmalloc.c:79-103 | the bin of the first class that holds the request decides: the lowest free block of its first span, which leaves the bin if that was its last and with no page moved; with that bin empty, or for a large request, the first block of a span not in use before; no other bin changes |
| HeapRuns.FreeRunOut | src/cmalloc.c:105-129 | a deallocation ends exactly one block and moves no other |
| HeapRuns.FreeRunBins | src/cmalloc.c:118-128 | a span that was full joins the head of its bin, one that is all free leaves from wherever in the bin it is, and no other bin changes; no page moves unless the span is emptied |
| HeapRuns.AloneIsNew | src/cmalloc.c:79-103 | a block just handed out is the only one of its span only if the span has just come into use, so nobody is looking it up |
| HeapRuns.BackAgain | src/cmalloc.c:79-129 | a block allocated and freed leaves the same live blocks in the same places with the same bytes |
| HeapRuns.MovedBytes | src/cmalloc.c:158-164 | after a move the new block starts with the old block's bytes, and no other block's bytes have changed |
| HeapRuns.Overflow | src/cmalloc.c:132 | the division test holds exactly for products beyond the limit |
| Heaps.Runtime.constructor | src/cmalloc.c:24-47 | the allocator starts in an initial state of the machine |
| Heaps.Runtime.BinPush | src/cmalloc.c:54-62 | the span becomes the head of its bin, on the records' own link fields |
| Heaps.Runtime.BinRemove | src/cmalloc.c:64-77 | the span leaves its bin, wherever in the list it was |
| Heaps.Runtime.AllocFast | src/cmalloc.c:82-87 | does one lock-free allocation step |
| Heaps.Runtime.AllocSlow | src/cmalloc.c:90-100 | does one locked allocation step |
| Heaps.Runtime.AllocEnd | src/cmalloc.c:94-102 | does the step after the lock |
| Heaps.Runtime.FreeFast | src/cmalloc.c:118-123 | does one lock-free deallocation step, for any address inside the block |
| Heaps.Runtime.FreeSlow | src/cmalloc.c:125-127 | does one locked deallocation step: the span heads its page bin, or is unmapped |
| Heaps.Runtime.Cmalloc | src/cmalloc.c:79-103 | hands out one new block for the request, which the calling thread may free, and changes no byte of any page mapped before; the block is of the least class that holds the request or of exactly the size requested, the lowest free one of the first span in that class's bin, or the first of a new span if there is none, and the metadata is untouched if it is of an old span |
| Heaps.Runtime.Cfree | src/cmalloc.c:105-129 | ends exactly the block the pointer lies in, or does nothing for NULL; full and emptied spans join and leave their bin, an emptied one heads its page bin or is unmapped, and otherwise no page and no metadata changes; the block is large or the thread's own, and nobody is looking up its span if this empties it |
| Heaps.Runtime.FindSpan | src/cmalloc.c:107 | the page map leads from any address in a live block to its span |
| Heaps.Runtime.Product | src/cmalloc.c:132-135 | the 64-bit product, or overflow exactly if it exceeds SIZE_MAX |
| Heaps.Runtime.Ccalloc | src/cmalloc.c:131-144 | NULL exactly on overflow; otherwise the block `cmalloc` would take, for the calling thread to free, of which exactly num * size bytes are zeroed |
| Heaps.Runtime.ClearBytes | src/cmalloc.c:140-142 | `memset` changes exactly its bytes |
| Heaps.Runtime.Crealloc | src/cmalloc.c:146-165 | each case: allocate, free, return the pointer, or move by one allocation and one deallocation, with the old contents as prefix; no other byte that stays mapped changes, and a new block is the calling thread's to free |
| Heaps.Runtime.MoveBlock | src/cmalloc.c:158-164 | allocate, copy, free: source and destination are disjoint and the copy stays within both |
| Heaps.Runtime.Watch | src/cmalloc.c:107 | a thread may start looking up any address in a live block at any time; nothing but what is watched changes |
| Heaps.Runtime.LiveLookup | src/range_map.c:119-127 | while the block is live, the lookup finds its span, whatever memories since its start its six loads fall on |
| Heaps.Runtime.LiveMapped | src/cmalloc.c:79-103 | every byte of a live block lies in a mapped region that is no metadata chunk |
| Heaps.Runtime.NothingLeft | src/cmalloc.c:118-128 | once everything is freed, the kernel's regions are exactly the metadata chunks and the data chunks, and every span record is that of a cached span |
| Heaps.Runtime.CopyBytes | src/cmalloc.c:162 | `memcpy` between disjoint ranges |
| Shim.AlignedUp | bench/shim/alloc_shim.c:78 | the masked sum is the least multiple of the alignment at or above the address |
| Shim.UsableIsRest | bench/shim/alloc_shim.c:50-54 | the usable size computed by division is the distance to the end of the block |
| Shim.Memalign | bench/shim/alloc_shim.c:66-80 | the first aligned address in a new block, the block's start for alignments up to 16, with at least size bytes after it, or NULL exactly on overflow; the calling thread may free the block, other blocks keep their bytes and readers their paths |
| Shim.MemalignThenFree | bench/shim/alloc_shim.c:57-80 | freeing the interior pointer that memalign returned ends exactly the block it came from: the same blocks are live as before, where they were and with the bytes they had |
| Shim.CmUsable | bench/shim/alloc_shim.c:42-55 | the bytes from the pointer to the end of its block |

## Left out

- AllocMetadata: when `mmap` fails, `ok` is false and nothing is claimed, because the source leaves the arena pointer unusable (src/metadata.c:36-44); the same holds for everything that allocates.
- AllocHuge: the source does not check `mmap` here (src/span.c:87); failure is reported through `ok`.
- Map: for the map of free lists the counts are not claimed to be exact, because NULL is stored there (src/metadata.c:28); that map is never unmapped.
- Cfree: double frees, foreign pointers and frees of small blocks by another thread are excluded by its preconditions, as the repository excludes them (README.md:264-273).
- Crealloc: takes the start of a block only, because the source compares and copies the whole block.
- Memalign: for size 0 nothing is claimed about where the pointer lies.
- CmUsable: takes NULL and addresses in live blocks; for pointers into spans not in use the source returns 0.
- FillTable: the guard that makes the start-up function idempotent is not modelled.
- Memory ordering weaker than sequential consistency, torn words, thread exit and the mutex itself.
- The `prev` links of metadata chunks, and the copy of `cur` and `end` in the chunk header: they are fields of the arena.
- Windows branches, `sysconf`, constructors and destructors, the other allocator back ends, the strdup wrappers and the C++ operators of the shim, tests, benchmarks and the build.
- Coalescing of neighbouring free spans and destruction of tries, which the source does not implement.
